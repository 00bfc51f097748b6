/**
 The course graph: its validation by depth-first search, and the scheduler that hands out packages
 whose dependencies are completed.
 */
module CourseGraph {
  import opened Wrappers
  import opened Courses

  datatype Fault =
    | DuplicatePackages | DuplicateCheckpoints | DuplicateQaProfiles | DuplicateRequirements
    | UnknownDependency(key: string) | UnknownCheckpoint(key: string) | UnknownQaProfile(key: string)
    | UnknownPackage(key: string)
    | Cycle(key: string)
    | NoApproval

  // ---------------------------------------------------------------- the dependency graph

  function Keys(packages: seq<WorkPackage>): set<string> {
    set p | p in packages :: p.key
  }

  /** The first package of a key. */
  function Lookup(packages: seq<WorkPackage>, key: string): (p: WorkPackage)
    requires key in Keys(packages)
    ensures p in packages && p.key == key
  {
    if packages[0].key == key then packages[0]
    else
      assert key in Keys(packages[1..]);
      Lookup(packages[1..], key)
  }

  predicate DependsOn(packages: seq<WorkPackage>, a: string, b: string) {
    a in Keys(packages) && b in Lookup(packages, a).dependencies
  }

  /** Each element depends on the next. */
  ghost predicate IsPath(packages: seq<WorkPackage>, path: seq<string>) {
    forall i :: 0 <= i < |path| - 1 ==> DependsOn(packages, path[i], path[i + 1])
  }

  /** A dependency cycle through its first element. */
  ghost predicate IsCycle(packages: seq<WorkPackage>, path: seq<string>) {
    |path| >= 2 && path[0] == path[|path| - 1] && IsPath(packages, path)
  }

  predicate IsClosed(packages: seq<WorkPackage>) {
    forall p | p in packages :: forall d | d in p.dependencies :: d in Keys(packages)
  }

  /** The dependencies of the element at `i` come earlier. */
  ghost predicate PlacedAt(packages: seq<WorkPackage>, order: seq<string>, i: nat)
    requires i < |order|
  {
    order[i] in Keys(packages) && forall d :: d in Lookup(packages, order[i]).dependencies ==> d in order[..i]
  }

  /** A list of packages, each once, with every dependency before its dependents. */
  ghost predicate IsDependencyOrder(packages: seq<WorkPackage>, order: seq<string>) {
    && (forall i, j :: 0 <= i < j < |order| ==> order[i] != order[j])
    && (forall i :: 0 <= i < |order| ==> PlacedAt(packages, order, i))
  }

  ghost predicate IsFullOrder(packages: seq<WorkPackage>, order: seq<string>) {
    IsDependencyOrder(packages, order) && forall key :: key in Keys(packages) ==> key in order
  }

  /** On a dependency order paths only lead backwards, so there is no cycle. */
  lemma {:induction false} PathGoesBack(packages: seq<WorkPackage>, order: seq<string>, path: seq<string>, n: nat,
                                        i: nat)
    returns (j: nat)
    requires IsDependencyOrder(packages, order) && IsPath(packages, path)
    requires n < |path| && i < |order| && order[i] == path[0]
    ensures j <= i && order[j] == path[n] && (n > 0 ==> j < i)
    decreases n
  {
    if n == 0 {
      j := i;
    } else {
      var k := PathGoesBack(packages, order, path, n - 1, i);
      assert PlacedAt(packages, order, k) && DependsOn(packages, path[n - 1], path[n - 1 + 1]);
      j :| 0 <= j < k && order[..k][j] == path[n];
    }
  }

  lemma OrderExcludesCycles(packages: seq<WorkPackage>, order: seq<string>, path: seq<string>)
    requires IsFullOrder(packages, order)
    ensures !IsCycle(packages, path)
  {
    if IsCycle(packages, path) {
      assert DependsOn(packages, path[0], path[0 + 1]);
      var i :| 0 <= i < |order| && order[i] == path[0];
      var j := PathGoesBack(packages, order, path, |path| - 1, i);
    }
  }

  // ---------------------------------------------------------------- the depth-first search

  /** The state of the search.  `stack` lists what is being visited, outermost first; `post` lists what
      has been visited, in order of completion; `repeated` is the package at which a cycle is met. */
  class Search {
    const packages: seq<WorkPackage>
    var visiting: set<string>
    var visited: set<string>
    var repeated: string
    ghost var stack: seq<string>
    ghost var post: seq<string>
    ghost var cycle: seq<string>

    constructor (packages: seq<WorkPackage>)
      ensures Valid() && stack == [] && post == [] && this.packages == packages
    {
      this.packages := packages;
      visiting, visited, repeated := {}, {}, "";
      stack, post, cycle := [], [], [];
    }

    ghost predicate Valid()
      reads this
    {
      && (forall k :: k in visiting <==> k in stack)
      && (forall k :: k in visited <==> k in post)
      && visiting <= Keys(packages) && visiting !! visited
      && (forall i, j :: 0 <= i < j < |stack| ==> stack[i] != stack[j])
      && IsPath(packages, stack)
      && IsDependencyOrder(packages, post)
    }

    /** Where a visit may start: from the last package being visited, or from outside. */
    ghost predicate IsNext(key: string)
      reads this
    {
      key in Keys(packages) && (stack != [] ==> DependsOn(packages, stack[|stack| - 1], key))
    }

    method Visit(key: string) returns (ok: bool)
      requires Valid() && IsNext(key) && IsClosed(packages)
      modifies this
      ensures ok ==> Valid() && stack == old(stack) && old(post) <= post && key in post
      ensures !ok ==> IsCycle(packages, cycle) && cycle[0] == repeated
      decreases Keys(packages) - visiting
    {
      if key in visiting {
        CloseCycle(key);
        repeated := key;
        return false;
      }
      if key in visited {
        return true;
      }
      Enter(key);
      var package := Lookup(packages, key);
      for i := 0 to |package.dependencies|
        invariant Valid() && stack == old(stack) + [key] && old(post) <= post
        invariant forall k :: 0 <= k < i ==> package.dependencies[k] in post
      {
        assert package.dependencies[i] in package.dependencies;
        ok := Visit(package.dependencies[i]);
        if !ok {
          return;
        }
      }
      Leave(key);
      ok := true;
    }

    ghost method CloseCycle(key: string)
      requires Valid() && IsNext(key) && key in visiting
      modifies this`cycle
      ensures IsCycle(packages, cycle) && cycle[0] == key
    {
      var i :| 0 <= i < |stack| && stack[i] == key;
      cycle := stack[i..] + [key];
      forall k | 0 <= k < |cycle| - 1 ensures DependsOn(packages, cycle[k], cycle[k + 1]) {
        assert k < |cycle| - 2 ==> DependsOn(packages, stack[i + k], stack[i + k + 1]);
      }
    }

    method Enter(key: string)
      requires Valid() && IsNext(key) && key !in visiting && key !in visited
      modifies this`visiting, this`stack
      ensures Valid() && stack == old(stack) + [key] && visiting == old(visiting) + {key}
    {
      visiting := visiting + {key};
      stack := stack + [key];
      forall i | 0 <= i < |stack| - 1 ensures DependsOn(packages, stack[i], stack[i + 1]) {
        assert i < |old(stack)| - 1 ==> DependsOn(packages, old(stack)[i], old(stack)[i + 1]);
      }
    }

    method Leave(key: string)
      requires Valid() && stack != [] && stack[|stack| - 1] == key && key in Keys(packages)
      requires forall d :: d in Lookup(packages, key).dependencies ==> d in post
      modifies this`visiting, this`visited, this`stack, this`post
      ensures Valid() && stack == old(stack)[..|old(stack)| - 1] && post == old(post) + [key]
    {
      visiting := visiting - {key};
      visited := visited + {key};
      stack := stack[..|stack| - 1];
      post := post + [key];
      forall i | 0 <= i < |post| ensures PlacedAt(packages, post, i) {
        assert post[..i] == old(post)[..i];
        assert i < |old(post)| ==> PlacedAt(packages, old(post), i);
      }
    }
  }

  // ---------------------------------------------------------------- validate_graph

  function CheckpointKeys(course: Course): set<string> {
    set c | c in course.checkpoints :: c.key
  }

  ghost predicate UniquePackages(course: Course) {
    forall i, j :: 0 <= i < j < |course.packages| ==> course.packages[i].key != course.packages[j].key
  }

  ghost predicate UniqueCheckpoints(course: Course) {
    forall i, j :: 0 <= i < j < |course.checkpoints| ==> course.checkpoints[i].key != course.checkpoints[j].key
  }

  ghost predicate UniqueQaProfiles(course: Course) {
    forall i, j :: 0 <= i < j < |course.qaProfiles| ==> course.qaProfiles[i] != course.qaProfiles[j]
  }

  ghost predicate UniqueRequirements(course: Course) {
    forall i, j :: 0 <= i < j < |course.readiness| ==> course.readiness[i].key != course.readiness[j].key
  }

  predicate All(xs: seq<string>, known: set<string>) {
    forall x | x in xs :: x in known
  }

  predicate KnownReferences(course: Course, p: WorkPackage) {
    && All(p.dependencies, Keys(course.packages))
    && All(p.checkpointKeys, CheckpointKeys(course))
    && All(p.qaProfiles, Elements(course.qaProfiles))
  }

  function Elements(xs: seq<string>): set<string> {
    set x | x in xs
  }

  ghost predicate HasCycle(packages: seq<WorkPackage>) {
    exists path :: IsCycle(packages, path)
  }

  /** What an accepted course satisfies. */
  ghost predicate IsValid(course: Course) {
    && UniquePackages(course) && UniqueCheckpoints(course) && UniqueQaProfiles(course) && UniqueRequirements(course)
    && (forall p :: p in course.packages ==> KnownReferences(course, p))
    && (forall c :: c in course.checkpoints ==> All(c.blocks, Keys(course.packages)))
    && !HasCycle(course.packages)
    && (course.status == Engaged ==> IsApproved(course))
  }

  predicate IsApproved(course: Course) {
    course.approvedBy.Some? && course.approvedBy.value != "" && course.approvedAt.Some?
  }

  /** What a rejection says about the course. */
  ghost predicate IsJustified(course: Course, fault: Fault) {
    match fault
    case DuplicatePackages => !UniquePackages(course)
    case DuplicateCheckpoints => !UniqueCheckpoints(course)
    case DuplicateQaProfiles => !UniqueQaProfiles(course)
    case DuplicateRequirements => !UniqueRequirements(course)
    case UnknownDependency(key) =>
      exists p :: p in course.packages && p.key == key && !All(p.dependencies, Keys(course.packages))
    case UnknownCheckpoint(key) =>
      exists p :: p in course.packages && p.key == key && !All(p.checkpointKeys, CheckpointKeys(course))
    case UnknownQaProfile(key) =>
      exists p :: p in course.packages && p.key == key && !All(p.qaProfiles, Elements(course.qaProfiles))
    case UnknownPackage(key) =>
      exists c :: c in course.checkpoints && c.key == key && !All(c.blocks, Keys(course.packages))
    case Cycle(key) => exists path :: IsCycle(course.packages, path) && path[0] == key
    case NoApproval => course.status == Engaged && !IsApproved(course)
  }

  /** `len({...}) != len(...)`: a list has a repeated element. */
  method HasRepeats(xs: seq<string>) returns (found: bool)
    ensures found <==> exists i, j :: 0 <= i < j < |xs| && xs[i] == xs[j]
  {
    var seen := {};
    for n := 0 to |xs|
      invariant forall x :: x in seen <==> x in xs[..n]
      invariant forall i, j :: 0 <= i < j < n ==> xs[i] != xs[j]
    {
      if xs[n] in seen {
        var i :| 0 <= i < n && xs[..n][i] == xs[n];
        assert xs[i] == xs[n];
        return true;
      }
      seen := seen + {xs[n]};
    }
    found := false;
  }

  function PackageKeys(course: Course): seq<string> {
    seq(|course.packages|, i requires 0 <= i < |course.packages| => course.packages[i].key)
  }

  function CheckpointKeyList(course: Course): seq<string> {
    seq(|course.checkpoints|, i requires 0 <= i < |course.checkpoints| => course.checkpoints[i].key)
  }

  function RequirementKeys(course: Course): seq<string> {
    seq(|course.readiness|, i requires 0 <= i < |course.readiness| => course.readiness[i].key)
  }

  method CheckUniqueness(course: Course) returns (fault: Option<Fault>)
    ensures fault.Some? ==> IsJustified(course, fault.value)
    ensures fault.None? ==>
      UniquePackages(course) && UniqueCheckpoints(course) && UniqueQaProfiles(course) && UniqueRequirements(course)
  {
    var packages := HasRepeats(PackageKeys(course));
    if packages {
      return Some(DuplicatePackages);
    }
    assert forall i :: 0 <= i < |course.packages| ==> PackageKeys(course)[i] == course.packages[i].key;
    var checkpoints := HasRepeats(CheckpointKeyList(course));
    if checkpoints {
      return Some(DuplicateCheckpoints);
    }
    assert forall i :: 0 <= i < |course.checkpoints| ==> CheckpointKeyList(course)[i] == course.checkpoints[i].key;
    var profiles := HasRepeats(course.qaProfiles);
    if profiles {
      return Some(DuplicateQaProfiles);
    }
    var requirements := HasRepeats(RequirementKeys(course));
    if requirements {
      return Some(DuplicateRequirements);
    }
    assert forall i :: 0 <= i < |course.readiness| ==> RequirementKeys(course)[i] == course.readiness[i].key;
    fault := None;
  }

  method CheckReferences(course: Course) returns (fault: Option<Fault>)
    ensures fault.Some? ==> IsJustified(course, fault.value)
    ensures fault.None? ==>
      && (forall p :: p in course.packages ==> KnownReferences(course, p))
      && (forall c :: c in course.checkpoints ==> All(c.blocks, Keys(course.packages)))
  {
    for i := 0 to |course.packages|
      invariant forall k :: 0 <= k < i ==> KnownReferences(course, course.packages[k])
    {
      var p := course.packages[i];
      if !All(p.dependencies, Keys(course.packages)) {
        return Some(UnknownDependency(p.key));
      }
      if !All(p.checkpointKeys, CheckpointKeys(course)) {
        return Some(UnknownCheckpoint(p.key));
      }
      if !All(p.qaProfiles, Elements(course.qaProfiles)) {
        return Some(UnknownQaProfile(p.key));
      }
    }
    for i := 0 to |course.checkpoints|
      invariant forall k :: 0 <= k < i ==> All(course.checkpoints[k].blocks, Keys(course.packages))
    {
      if !All(course.checkpoints[i].blocks, Keys(course.packages)) {
        return Some(UnknownPackage(course.checkpoints[i].key));
      }
    }
    fault := None;
  }

  /** The search over all packages: either a dependency order of all of them, or a real cycle. */
  method CheckCycles(packages: seq<WorkPackage>) returns (ok: bool, fault: Option<string>, ghost evidence: seq<string>)
    requires IsClosed(packages)
    ensures fault.None? ==> IsFullOrder(packages, evidence)
    ensures fault.Some? ==> IsCycle(packages, evidence) && evidence[0] == fault.value
    ensures ok == fault.None?
  {
    var search := new Search(packages);
    for i := 0 to |packages|
      invariant search.Valid() && search.stack == [] && search.packages == packages && fresh(search)
      invariant forall k :: 0 <= k < i ==> packages[k].key in search.post
    {
      assert packages[i] in packages;
      ok := search.Visit(packages[i].key);
      if !ok {
        return false, Some(search.repeated), search.cycle;
      }
    }
    return true, None, search.post;
  }

  /** `validate_graph` accepts exactly the valid courses, and every rejection is justified. */
  method ValidateGraph(course: Course) returns (fault: Option<Fault>, ghost order: seq<string>)
    ensures fault.None? <==> IsValid(course)
    ensures fault.None? ==> IsFullOrder(course.packages, order)
    ensures fault.Some? ==> IsJustified(course, fault.value)
  {
    order := [];
    fault := CheckUniqueness(course);
    if fault.Some? {
      RejectedIsInvalid(course, fault.value);
      return;
    }
    fault := CheckReferences(course);
    if fault.Some? {
      RejectedIsInvalid(course, fault.value);
      return;
    }
    var ok, at, evidence := CheckCycles(course.packages);
    if !ok {
      RejectedIsInvalid(course, Cycle(at.value));
      return Some(Cycle(at.value)), [];
    }
    forall path ensures !IsCycle(course.packages, path) {
      OrderExcludesCycles(course.packages, evidence, path);
    }
    if course.status == Engaged && !IsApproved(course) {
      return Some(NoApproval), [];
    }
    return None, evidence;
  }

  /** A justified rejection is a rejection of an invalid course. */
  lemma RejectedIsInvalid(course: Course, fault: Fault)
    requires IsJustified(course, fault)
    ensures !IsValid(course)
  {
  }
}
