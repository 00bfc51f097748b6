/** Handing out work packages: who is eligible, that work never runs dry, and what checkpoints withhold. */
module CourseSchedule {
  import opened Wrappers
  import opened Courses
  import opened CourseGraph

  predicate IsPassed(status: CheckpointStatus) {
    status == Approved || status == Resolved || status == CheckpointWaived
  }

  /** A checkpoint concerns a package when either names the other. */
  predicate IsLinked(c: Checkpoint, p: WorkPackage) {
    c.key in p.checkpointKeys || p.key in c.blocks
  }

  predicate IsCleared(course: Course, p: WorkPackage) {
    forall c | c in course.checkpoints :: IsLinked(c, p) ==> IsPassed(c.status)
  }

  predicate IsEligible(course: Course, p: WorkPackage, completed: set<string>) {
    && course.status == Engaged
    && p.key !in completed
    && (p.status == Planned || p.status == PackageReady)
    && (forall d | d in p.dependencies :: d in completed)
    && IsCleared(course, p)
  }

  /** The eligible packages among the first `n`, in course order. */
  function EligibleFirst(course: Course, completed: set<string>, n: nat): (r: seq<WorkPackage>)
    requires n <= |course.packages|
    ensures forall p :: p in r <==> p in course.packages[..n] && IsEligible(course, p, completed)
  {
    if n == 0 then []
    else
      var earlier := EligibleFirst(course, completed, n - 1);
      var p := course.packages[n - 1];
      assert course.packages[..n] == course.packages[..n - 1] + [p];
      if IsEligible(course, p, completed) then earlier + [p] else earlier
  }

  function StatusByKey(checkpoints: seq<Checkpoint>, n: nat): map<string, CheckpointStatus>
    requires n <= |checkpoints|
  {
    if n == 0 then map[] else StatusByKey(checkpoints, n - 1)[checkpoints[n - 1].key := checkpoints[n - 1].status]
  }

  lemma {:induction false} StatusByKeyIsExact(checkpoints: seq<Checkpoint>, n: nat)
    requires n <= |checkpoints|
    requires forall i, j :: 0 <= i < j < |checkpoints| ==> checkpoints[i].key != checkpoints[j].key
    ensures forall k :: k in StatusByKey(checkpoints, n) <==> exists i :: 0 <= i < n && checkpoints[i].key == k
    ensures forall i :: 0 <= i < n ==> StatusByKey(checkpoints, n)[checkpoints[i].key] == checkpoints[i].status
  {
    if n > 0 {
      StatusByKeyIsExact(checkpoints, n - 1);
    }
  }

  /** The keys of all checkpoints linked to a package, in either direction. */
  function LinkedKeys(course: Course, p: WorkPackage): set<string> {
    (set k | k in p.checkpointKeys) + (set c | c in course.checkpoints && p.key in c.blocks :: c.key)
  }

  lemma LinkedKeysAreLinks(course: Course, p: WorkPackage)
    requires UniqueCheckpoints(course) && All(p.checkpointKeys, CheckpointKeys(course))
    ensures var status := StatusByKey(course.checkpoints, |course.checkpoints|);
            && (forall k :: k in LinkedKeys(course, p) ==> k in status)
            && (IsCleared(course, p) <==> forall k :: k in LinkedKeys(course, p) ==> IsPassed(status[k]))
  {
    StatusByKeyIsExact(course.checkpoints, |course.checkpoints|);
    var status := StatusByKey(course.checkpoints, |course.checkpoints|);
    forall k | k in LinkedKeys(course, p)
      ensures k in status
      ensures exists c :: c in course.checkpoints && c.key == k && IsLinked(c, p) && status[k] == c.status
    {
      var c :| c in course.checkpoints && c.key == k;
      var i :| 0 <= i < |course.checkpoints| && course.checkpoints[i] == c;
    }
    forall c | c in course.checkpoints && IsLinked(c, p)
      ensures c.key in LinkedKeys(course, p) && status[c.key] == c.status
    {
      var i :| 0 <= i < |course.checkpoints| && course.checkpoints[i] == c;
    }
  }

  lemma {:induction false} NothingUnlessEngaged(course: Course, completed: set<string>, n: nat)
    requires course.status != Engaged && n <= |course.packages|
    ensures EligibleFirst(course, completed, n) == []
  {
    if n > 0 {
      NothingUnlessEngaged(course, completed, n - 1);
    }
  }

  /** `eligible_work_packages`. */
  method EligibleWorkPackages(course: Course, completed: set<string>) returns (eligible: seq<WorkPackage>)
    requires UniqueCheckpoints(course)
    requires forall p :: p in course.packages ==> All(p.checkpointKeys, CheckpointKeys(course))
    ensures eligible == EligibleFirst(course, completed, |course.packages|)
  {
    eligible := [];
    if course.status != Engaged {
      NothingUnlessEngaged(course, completed, |course.packages|);
      return;
    }
    var checkpointByKey := StatusByKey(course.checkpoints, |course.checkpoints|);
    for i := 0 to |course.packages|
      invariant eligible == EligibleFirst(course, completed, i)
    {
      var package := course.packages[i];
      LinkedKeysAreLinks(course, package);
      if package.key in completed {
        continue;
      }
      if package.status != Planned && package.status != PackageReady {
        continue;
      }
      if !forall d | d in package.dependencies :: d in completed {
        continue;
      }
      var checkpointKeys := LinkedKeys(course, package);
      if exists k | k in checkpointKeys :: !IsPassed(checkpointByKey[k]) {
        continue;
      }
      eligible := eligible + [package];
    }
  }

  // ---------------------------------------------------------------- work never runs dry

  /** All checkpoints are passed and every package that is not completed can be started. */
  ghost predicate IsOpenCourse(course: Course, completed: set<string>) {
    && course.status == Engaged
    && (forall c :: c in course.checkpoints ==> IsPassed(c.status))
    && (forall p :: p in course.packages && p.key !in completed ==> p.status == Planned || p.status == PackageReady)
  }

  lemma {:induction false} FirstMissing(order: seq<string>, completed: set<string>, n: nat) returns (i: nat)
    requires n < |order| && order[n] !in completed
    ensures i <= n && order[i] !in completed && forall k :: 0 <= k < i ==> order[k] in completed
  {
    i := 0;
    while order[i] in completed
      invariant i <= n && forall k :: 0 <= k < i ==> order[k] in completed
      decreases n - i
    {
      i := i + 1;
    }
  }

  /** While some package is not completed, some package is eligible. */
  lemma WorkNeverRunsDry(course: Course, order: seq<string>, completed: set<string>) returns (p: WorkPackage)
    requires IsFullOrder(course.packages, order) && UniquePackages(course) && IsOpenCourse(course, completed)
    requires exists q :: q in course.packages && q.key !in completed
    ensures p in course.packages && IsEligible(course, p, completed)
  {
    var q :| q in course.packages && q.key !in completed;
    assert q.key in Keys(course.packages);
    var n :| 0 <= n < |order| && order[n] == q.key;
    var i := FirstMissing(order, completed, n);
    assert PlacedAt(course.packages, order, i);
    p := Lookup(course.packages, order[i]);
    forall d | d in p.dependencies ensures d in completed {
      var k :| 0 <= k < i && order[..i][k] == d;
    }
  }

  // ---------------------------------------------------------------- runs of completions

  /** A list of completions, each of a package that was eligible at the time. */
  ghost predicate IsCompletionAt(course: Course, done: seq<string>, i: nat)
    requires i < |done|
  {
    exists p :: p in course.packages && p.key == done[i] && IsEligible(course, p, Elements(done[..i]))
  }

  ghost predicate IsCompletionRun(course: Course, done: seq<string>) {
    forall i :: 0 <= i < |done| ==> IsCompletionAt(course, done, i)
  }

  lemma UniqueLookup(course: Course, p: WorkPackage)
    requires UniquePackages(course) && p in course.packages
    ensures Lookup(course.packages, p.key) == p
  {
    var q := Lookup(course.packages, p.key);
    var i :| 0 <= i < |course.packages| && course.packages[i] == p;
    var j :| 0 <= j < |course.packages| && course.packages[j] == q;
  }

  /** Completing eligible packages visits each at most once, dependencies first. */
  lemma RunIsInOrder(course: Course, done: seq<string>)
    requires UniquePackages(course) && IsCompletionRun(course, done)
    ensures IsDependencyOrder(course.packages, done)
  {
    forall i, j | 0 <= i < j < |done| ensures done[i] != done[j] {
      assert IsCompletionAt(course, done, j);
      assert done[..j][i] == done[i];
    }
    forall i | 0 <= i < |done| ensures PlacedAt(course.packages, done, i) {
      assert IsCompletionAt(course, done, i);
      var p :| p in course.packages && p.key == done[i] && IsEligible(course, p, Elements(done[..i]));
      UniqueLookup(course, p);
    }
  }

  /** A run that cannot be continued has completed every package, each once, dependencies first. */
  lemma MaximalRunCompletesAll(course: Course, order: seq<string>, done: seq<string>)
    requires IsFullOrder(course.packages, order) && UniquePackages(course) && IsOpenCourse(course, {})
    requires IsCompletionRun(course, done)
    requires forall p :: p in course.packages ==> !IsEligible(course, p, Elements(done))
    ensures IsFullOrder(course.packages, done)
  {
    RunIsInOrder(course, done);
    if exists q :: q in course.packages && q.key !in Elements(done) {
      var p := WorkNeverRunsDry(course, order, Elements(done));
    }
    forall key | key in Keys(course.packages) ensures key in done {
      var q :| q in course.packages && q.key == key;
    }
  }

  // ---------------------------------------------------------------- checkpoints withhold what they are linked to

  ghost predicate StatusOnly(before: seq<Checkpoint>, after: seq<Checkpoint>, key: string, status: CheckpointStatus) {
    && |after| == |before|
    && forall i :: 0 <= i < |before| ==>
         && after[i].key == before[i].key && after[i].blocks == before[i].blocks
         && after[i].status == if before[i].key == key then status else before[i].status
  }

  ghost predicate ClearsAt(checkpoints: seq<Checkpoint>, p: WorkPackage, i: nat)
    requires i < |checkpoints|
  {
    IsLinked(checkpoints[i], p) ==> IsPassed(checkpoints[i].status)
  }

  lemma ClearedByPosition(course: Course, p: WorkPackage)
    ensures IsCleared(course, p) <==> forall i :: 0 <= i < |course.checkpoints| ==> ClearsAt(course.checkpoints, p, i)
  {
    forall c | c in course.checkpoints && IsLinked(c, p) && !IsPassed(c.status)
      ensures exists i :: 0 <= i < |course.checkpoints| && !ClearsAt(course.checkpoints, p, i)
    {
      var i :| 0 <= i < |course.checkpoints| && course.checkpoints[i] == c;
      assert !ClearsAt(course.checkpoints, p, i);
    }
    forall i | 0 <= i < |course.checkpoints| && !ClearsAt(course.checkpoints, p, i) ensures !IsCleared(course, p) {
      assert course.checkpoints[i] in course.checkpoints;
    }
  }

  lemma HeldAt(cs: seq<Checkpoint>, on: seq<Checkpoint>, off: seq<Checkpoint>, key: string, p: WorkPackage,
               yes: CheckpointStatus, no: CheckpointStatus, i: nat)
    requires StatusOnly(cs, on, key, yes) && IsPassed(yes) && StatusOnly(cs, off, key, no) && !IsPassed(no) && i < |cs|
    ensures ClearsAt(off, p, i) <==> ClearsAt(on, p, i) && !(cs[i].key == key && IsLinked(cs[i], p))
  {
  }

  /** A package cleared once `key` is passed is withheld by `key` exactly when it is linked to it. */
  lemma ClearanceAfter(course: Course, a: Course, b: Course, key: string, p: WorkPackage, on: CheckpointStatus,
                       off: CheckpointStatus)
    requires StatusOnly(course.checkpoints, a.checkpoints, key, on) && IsPassed(on)
    requires StatusOnly(course.checkpoints, b.checkpoints, key, off) && !IsPassed(off)
    ensures IsCleared(b, p)
       <==> IsCleared(a, p) && !(exists c :: c in course.checkpoints && c.key == key && IsLinked(c, p))
  {
    ClearedByPosition(a, p);
    ClearedByPosition(b, p);
    forall i | 0 <= i < |course.checkpoints|
      ensures ClearsAt(b.checkpoints, p, i)
         <==> ClearsAt(a.checkpoints, p, i) && !(course.checkpoints[i].key == key && IsLinked(course.checkpoints[i], p))
    {
      HeldAt(course.checkpoints, a.checkpoints, b.checkpoints, key, p, on, off, i);
    }
    if c :| c in course.checkpoints && c.key == key && IsLinked(c, p) {
      var i :| 0 <= i < |course.checkpoints| && course.checkpoints[i] == c;
      assert !ClearsAt(b.checkpoints, p, i);
    }
  }

  /** Putting a checkpoint on hold withholds exactly the packages linked to it, in either direction;
      everything else stays as it is when the checkpoint is passed. */
  lemma HoldWithholdsExactlyLinked(course: Course, key: string, actor: string, on: CheckpointStatus,
                                   off: CheckpointStatus, p: WorkPackage, completed: set<string>)
    requires IsPassed(on) && !IsPassed(off)
    requires ResolveCheckpoint(course, key, on, actor).Ok? && ResolveCheckpoint(course, key, off, actor).Ok?
    ensures IsEligible(ResolveCheckpoint(course, key, off, actor).value, p, completed)
       <==> IsEligible(ResolveCheckpoint(course, key, on, actor).value, p, completed)
            && !(exists c :: c in course.checkpoints && c.key == key && IsLinked(c, p))
  {
    ClearanceAfter(course, ResolveCheckpoint(course, key, on, actor).value,
                   ResolveCheckpoint(course, key, off, actor).value, key, p, on, off);
  }

  // ---------------------------------------------------------------- the engine's call

  function CompletedKeys(course: Course): set<string> {
    set p | p in course.packages && p.status == Complete :: p.key
  }

  /** The engine asks with no completed packages.  It then sees everything that is eligible exactly
      when nothing that is eligible has dependencies. */
  lemma EngineSeesAllIff(course: Course)
    requires UniquePackages(course)
    ensures (forall p :: p in course.packages && IsEligible(course, p, CompletedKeys(course)) ==>
      IsEligible(course, p, {}))
       <==> (forall p :: p in course.packages && IsEligible(course, p, CompletedKeys(course)) ==> p.dependencies == [])
  {
    forall p | p in course.packages && IsEligible(course, p, CompletedKeys(course))
      ensures IsEligible(course, p, {}) <==> p.dependencies == []
    {
      if p.dependencies != [] {
        assert p.dependencies[0] in p.dependencies;
      }
    }
  }

  /** A two-package course that is stuck for the engine although its second package can be started. */
  lemma EngineStarves(course: Course, first: WorkPackage, second: WorkPackage)
    requires course.status == Engaged && course.packages == [first, second] && course.checkpoints == []
    requires first.key != second.key && first.status == Complete
    requires second.dependencies == [first.key] && second.status == Planned
    ensures IsEligible(course, second, CompletedKeys(course))
    ensures EligibleFirst(course, {}, 2) == []
  {
    assert first in course.packages;
    assert first.key in second.dependencies;
    assert EligibleFirst(course, {}, 1) == [] by {
      assert EligibleFirst(course, {}, 0) == [];
    }
  }
}
