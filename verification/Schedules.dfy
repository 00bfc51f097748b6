/**
 Schedule management: inspecting the cron table, reconciling it with the managed definitions, and
 pausing, resuming or removing them.
 */
module Schedules {
  import opened Wrappers
  import opened Text
  import opened Intervals

  datatype Definition = Definition(name: string, every: string, command: seq<string>)

  /** A cron job as listed: an interval in milliseconds, or else as text. */
  datatype CronJob = CronJob(
    id: string, name: string, everyMs: Option<int>, everyText: Option<string>, argv: Option<seq<string>>, enabled: bool)

  datatype Host = Host(python: string, configPath: string)

  // ---------------------------------------------------------------- inspection

  /** `buildCommandArgv`, for a definition with a command. */
  function CommandArgv(d: Definition, host: Host): seq<string> {
    var command := if d.command == [] then []
                   else if Contains(Lower(d.command[0]), "python") then [host.python] + d.command[1..]
                   else d.command;
    command + ["--config", host.configPath]
  }

  /** A command is run as it is declared, by the host's own interpreter if it asks for one in any spelling, and always
      with the host's configuration behind it. */
  lemma CommandOfHost(d: Definition, host: Host)
    ensures var argv, n := CommandArgv(d, host), |d.command|;
            && |argv| == n + 2 && argv[n] == "--config" && argv[n + 1] == host.configPath
            && (forall k :: 1 <= k < n ==> argv[k] == d.command[k])
            && (n > 0 ==> argv[0] == if Contains(Lower(d.command[0]), "python") then host.python else d.command[0])
  {
  }

  /** `readEvery`; `None` where it throws. */
  function ReadEvery(job: CronJob): Option<string> {
    if job.everyMs.Some? then Print(job.everyMs.value) else job.everyText
  }

  datatype Drift = Missing | Interval | IntervalUnreadable | Command | CommandUnreadable

  function DriftOf(job: CronJob, d: Definition, host: Host): seq<Drift> {
    (if ReadEvery(job).None? then [IntervalUnreadable]
     else if ReadEvery(job).value != d.every then [Interval] else [])
    + (if job.argv.None? then [CommandUnreadable]
       else if job.argv.value != CommandArgv(d, host) then [Command] else [])
  }

  /** The jobs of a name, in table order. */
  function Named(jobs: seq<CronJob>, name: string): (r: seq<CronJob>)
    ensures forall j :: j in r <==> j in jobs && j.name == name
  {
    if jobs == [] then []
    else
      var earlier := Named(jobs[..|jobs| - 1], name);
      if jobs[|jobs| - 1].name == name then earlier + [jobs[|jobs| - 1]] else earlier
  }

  datatype Inspection = Inspection(primary: Option<CronJob>, duplicates: seq<CronJob>, drift: seq<Drift>, enabled: bool)

  /** What `cron edit` and `cron add` store: the interval in milliseconds and the command. */
  function Configured(job: CronJob, d: Definition, host: Host): CronJob {
    job.(name := d.name, everyMs := if Parse(d.every).Some? then Some(Parse(d.every).value) else job.everyMs,
         argv := Some(CommandArgv(d, host)))
  }

  /** A job with an interval shows no drift exactly when editing it would change nothing and the interval is
      written in its largest unit; a job with a text only, when text and command are those of the definition. */
  lemma NoDriftIff(job: CronJob, d: Definition, host: Host)
    requires Parse(d.every).Some? && job.name == d.name
    ensures job.everyMs.Some? ==>
      (DriftOf(job, d, host) == [] <==> Configured(job, d, host) == job && IsCanonical(d.every))
    ensures job.everyMs.None? ==>
      (DriftOf(job, d, host) == [] <==> job.everyText == Some(d.every) && job.argv == Some(CommandArgv(d, host)))
  {
    hide Print;
    hide Parse;
    hide IsCanonical;
    if job.everyMs.Some? {
      PrintsIff(job.everyMs.value, d.every);
    }
  }

  /** `inspectCronJob`: the first job of the name, the others, and whether an edit has anything to do. */
  method InspectCronJob(jobs: seq<CronJob>, d: Definition, host: Host) returns (r: Inspection)
    ensures Named(jobs, d.name) == [] ==> r == Inspection(None, [], [Missing], false)
    ensures Named(jobs, d.name) != [] ==>
      var primary := Named(jobs, d.name)[0];
      r == Inspection(Some(primary), Named(jobs, d.name)[1..], DriftOf(primary, d, host), primary.enabled)
    ensures r.primary.None? <==> forall j :: j in jobs ==> j.name != d.name
    ensures r.primary.Some? ==> forall j :: j in [r.primary.value] + r.duplicates <==> j in jobs && j.name == d.name
    ensures r.primary.Some? && r.primary.value.everyMs.Some? && Parse(d.every).Some? ==>
      (r.drift == [] <==> Configured(r.primary.value, d, host) == r.primary.value && IsCanonical(d.every))
  {
    hide Parse;
    hide IsCanonical;
    hide Configured;
    hide CommandArgv;
    hide Print;
    var matching := Named(jobs, d.name);
    if matching == [] {
      return Inspection(None, [], [Missing], false);
    }
    var primary := matching[0];
    var drift: seq<Drift> := [];
    var every := ReadEvery(primary);
    if every.None? {
      drift := drift + [IntervalUnreadable];
    } else if every.value != d.every {
      drift := drift + [Interval];
    }
    if primary.argv.None? {
      drift := drift + [CommandUnreadable];
    } else if primary.argv.value != CommandArgv(d, host) {
      drift := drift + [Command];
    }
    r := Inspection(Some(primary), matching[1..], drift, primary.enabled);
    assert [primary] + matching[1..] == matching && primary in matching;
    if Parse(d.every).Some? {
      NoDriftIff(primary, d, host);
    }
  }

  // ---------------------------------------------------------------- the cron service

  function Without(jobs: seq<CronJob>, id: string): (r: seq<CronJob>)
    ensures forall j :: j in r <==> j in jobs && j.id != id
  {
    if jobs == [] then []
    else
      var earlier := Without(jobs[..|jobs| - 1], id);
      if jobs[|jobs| - 1].id == id then earlier else earlier + [jobs[|jobs| - 1]]
  }

  function Edited(jobs: seq<CronJob>, id: string, d: Definition, host: Host): (r: seq<CronJob>)
    ensures |r| == |jobs|
  {
    seq(|jobs|, i requires 0 <= i < |jobs| => if jobs[i].id == id then Configured(jobs[i], d, host) else jobs[i])
  }

  function Switched(jobs: seq<CronJob>, id: string, enabled: bool): (r: seq<CronJob>)
    ensures |r| == |jobs|
  {
    seq(|jobs|, i requires 0 <= i < |jobs| => if jobs[i].id == id then jobs[i].(enabled := enabled) else jobs[i])
  }

  ghost predicate UniqueIds(jobs: seq<CronJob>) {
    forall i, j :: 0 <= i < j < |jobs| ==> jobs[i].id != jobs[j].id
  }

  lemma {:induction false} WithoutKeepsUnique(jobs: seq<CronJob>, id: string)
    requires UniqueIds(jobs)
    ensures UniqueIds(Without(jobs, id))
  {
    if jobs != [] {
      var init := jobs[..|jobs| - 1];
      WithoutKeepsUnique(init, id);
      forall k | 0 <= k < |Without(init, id)| ensures Without(init, id)[k].id != jobs[|jobs| - 1].id {
        assert Without(init, id)[k] in init;
      }
    }
  }

  lemma {:induction false} NamedWithout(jobs: seq<CronJob>, id: string, name: string)
    ensures Named(Without(jobs, id), name) == Without(Named(jobs, name), id)
  {
    if jobs != [] {
      var init, last := jobs[..|jobs| - 1], jobs[|jobs| - 1];
      NamedWithout(init, id, name);
      assert (Without(init, id) + [last])[..|Without(init, id)|] == Without(init, id);
      assert (Named(init, name) + [last])[..|Named(init, name)|] == Named(init, name);
    }
  }

  lemma {:induction false} WithoutOther(jobs: seq<CronJob>, id: string)
    requires forall j :: j in jobs ==> j.id != id
    ensures Without(jobs, id) == jobs
  {
    if jobs != [] {
      var init, last := jobs[..|jobs| - 1], jobs[|jobs| - 1];
      assert jobs == init + [last] && last in jobs;
      WithoutOther(init, id);
    }
  }

  lemma {:induction false} NamedIsUnique(jobs: seq<CronJob>, name: string)
    requires UniqueIds(jobs)
    ensures UniqueIds(Named(jobs, name))
  {
    if jobs != [] {
      var init := jobs[..|jobs| - 1];
      NamedIsUnique(init, name);
      forall k | 0 <= k < |Named(init, name)| ensures Named(init, name)[k].id != jobs[|jobs| - 1].id {
        assert Named(init, name)[k] in init;
      }
    }
  }

  lemma NamedAdded(jobs: seq<CronJob>, job: CronJob, name: string)
    ensures Named(jobs + [job], name) == if job.name == name then Named(jobs, name) + [job] else Named(jobs, name)
  {
    assert (jobs + [job])[..|jobs|] == jobs;
  }

  lemma EditedAdded(jobs: seq<CronJob>, job: CronJob, id: string, d: Definition, host: Host)
    ensures Edited(jobs + [job], id, d, host)
         == Edited(jobs, id, d, host) + [if job.id == id then Configured(job, d, host) else job]
  {
  }

  lemma {:induction false} NamedEdited(jobs: seq<CronJob>, id: string, d: Definition, host: Host, name: string)
    requires forall j :: j in jobs && j.id == id ==> j.name == d.name
    ensures Named(Edited(jobs, id, d, host), name) == Edited(Named(jobs, name), id, d, host)
  {
    if jobs != [] {
      var init, last := jobs[..|jobs| - 1], jobs[|jobs| - 1];
      var last' := if last.id == id then Configured(last, d, host) else last;
      assert jobs == init + [last] && last in jobs && forall j :: j in init ==> j in jobs;
      NamedEdited(init, id, d, host, name);
      EditedAdded(init, last, id, d, host);
      NamedAdded(Edited(init, id, d, host), last', name);
      NamedAdded(init, last, name);
      EditedAdded(Named(init, name), last, id, d, host);
    }
  }

  lemma {:induction false} NamedSwitched(jobs: seq<CronJob>, id: string, enabled: bool, name: string)
    ensures Named(Switched(jobs, id, enabled), name) == Switched(Named(jobs, name), id, enabled)
  {
    if jobs != [] {
      var init := jobs[..|jobs| - 1];
      NamedSwitched(init, id, enabled, name);
      assert Switched(jobs, id, enabled)[..|init|] == Switched(init, id, enabled);
    }
  }

  class CronService {
    var jobs: seq<CronJob>

    constructor (jobs: seq<CronJob>)
      ensures this.jobs == jobs
    {
      this.jobs := jobs;
    }

    method Add(d: Definition, host: Host, id: string)
      modifies this
      ensures jobs == old(jobs) + [Configured(CronJob(id, d.name, None, None, None, true), d, host)]
    {
      jobs := jobs + [Configured(CronJob(id, d.name, None, None, None, true), d, host)];
    }

    method Edit(id: string, d: Definition, host: Host)
      modifies this
      ensures jobs == Edited(old(jobs), id, d, host)
    {
      jobs := Edited(jobs, id, d, host);
    }

    method Remove(id: string)
      modifies this
      ensures jobs == Without(old(jobs), id)
    {
      jobs := Without(jobs, id);
    }

    method Switch(id: string, enabled: bool)
      modifies this
      ensures jobs == Switched(old(jobs), id, enabled)
    {
      jobs := Switched(jobs, id, enabled);
    }
  }

  // ---------------------------------------------------------------- reconciliation

  /** Exactly one job, configured as the definition says. */
  predicate IsSettled(matching: seq<CronJob>, d: Definition, host: Host) {
    && |matching| == 1
    && Parse(d.every).Some? && matching[0].everyMs == Some(Parse(d.every).value)
    && matching[0].argv == Some(CommandArgv(d, host))
  }

  predicate IsDriftFree(matching: seq<CronJob>, d: Definition, host: Host) {
    matching != [] && DriftOf(matching[0], d, host) == []
  }

  /** Nothing to do: one job, without drift. */
  predicate IsQuiet(matching: seq<CronJob>, d: Definition, host: Host) {
    |matching| == 1 && IsDriftFree(matching, d, host)
  }

  /** What one pass does for a definition, on the jobs of its name: one job is left, configured or
      without drift; an existing primary keeps its id and stays paused or enabled; and the inspector
      finds no drift afterwards exactly when it found none before or the interval is canonical. */
  ghost predicate Converges(before: seq<CronJob>, after: seq<CronJob>, d: Definition, host: Host) {
    && |after| == 1
    && (IsSettled(after, d, host) || IsQuiet(after, d, host))
    && (if before == [] then after[0].enabled
        else after[0].id == before[0].id && after[0].enabled == before[0].enabled)
    && (IsQuiet(after, d, host) <==> IsDriftFree(before, d, host) || IsCanonical(d.every))
  }

  /** A configured job shows no drift exactly when the interval is canonical: otherwise the printer
      writes a larger unit than the definition. */
  lemma ConfiguredIsQuietIff(job: CronJob, d: Definition, host: Host)
    requires Parse(d.every).Some?
    ensures DriftOf(Configured(job, d, host), d, host) == [] <==> IsCanonical(d.every)
    ensures IsSettled([Configured(job, d, host)], d, host)
  {
    ParseThenPrintIff(d.every);
  }

  /** Removing a job leaves the jobs of other names alone. */
  lemma WithoutOtherName(jobs: seq<CronJob>, job: CronJob, other: string)
    requires UniqueIds(jobs) && job in jobs && job.name != other
    ensures Named(Without(jobs, job.id), other) == Named(jobs, other)
  {
    NamedWithout(jobs, job.id, other);
    forall j | j in Named(jobs, other) ensures j.id != job.id {
      if j.id == job.id {
        SameIdSameJob(jobs, j, job);
      }
    }
    WithoutOther(Named(jobs, other), job.id);
  }

  /** The duplicates that are still to be removed after the first `k`. */
  lemma RemovalStep(jobs: seq<CronJob>, matching: seq<CronJob>, k: nat, name: string)
    requires UniqueIds(jobs) && 1 <= k < |matching| && UniqueIds(matching)
    requires Named(jobs, name) == [matching[0]] + matching[k..]
    ensures UniqueIds(Without(jobs, matching[k].id))
    ensures Named(Without(jobs, matching[k].id), name) == [matching[0]] + matching[k + 1..]
    ensures forall other :: other != name ==> Named(Without(jobs, matching[k].id), other) == Named(jobs, other)
  {
    var job := matching[k];
    WithoutKeepsUnique(jobs, job.id);
    NextDuplicate(jobs, matching, k, name);
    forall other | other != name ensures Named(Without(jobs, job.id), other) == Named(jobs, other) {
      WithoutOtherName(jobs, job, other);
    }
  }

  lemma SplitAt(matching: seq<CronJob>, k: nat)
    requires UniqueIds(matching) && k < |matching|
    ensures matching[k..] == [matching[k]] + matching[k + 1..]
    ensures forall j :: j in matching[k + 1..] ==> j.id != matching[k].id
  {
    var rest := matching[k + 1..];
    forall j | j in rest ensures j.id != matching[k].id {
      var i :| 0 <= i < |rest| && rest[i] == j;
      assert matching[k + 1 + i] == j;
    }
  }

  lemma NextDuplicate(jobs: seq<CronJob>, matching: seq<CronJob>, k: nat, name: string)
    requires 1 <= k < |matching| && UniqueIds(matching) && Named(jobs, name) == [matching[0]] + matching[k..]
    ensures Named(Without(jobs, matching[k].id), name) == [matching[0]] + matching[k + 1..]
    ensures matching[k] in Named(jobs, name)
  {
    var a, job, rest := matching[0], matching[k], matching[k + 1..];
    SplitAt(matching, k);
    NamedWithout(jobs, job.id, name);
    assert Named(jobs, name) == [a] + [job] + rest by {
      assert [a] + ([job] + rest) == [a] + [job] + rest;
    }
    assert Named(jobs, name)[1] == job;
    RemoveSecond(a, job, rest);
  }

  lemma SameIdSameJob(jobs: seq<CronJob>, a: CronJob, b: CronJob)
    requires UniqueIds(jobs) && a in jobs && b in jobs && a.id == b.id
    ensures a == b
  {
  }

  lemma RemoveSecond(a: CronJob, b: CronJob, rest: seq<CronJob>)
    requires a.id != b.id && forall j :: j in rest ==> j.id != b.id
    ensures Without([a] + [b] + rest, b.id) == [a] + rest
  {
    WithoutConcat([a] + [b], rest, b.id);
    WithoutOther(rest, b.id);
    assert ([a] + [b])[..1] == [a] && [a][..0] == [];
    assert Without([a], b.id) == [a];
  }

  lemma {:induction false} WithoutConcat(xs: seq<CronJob>, ys: seq<CronJob>, id: string)
    ensures Without(xs + ys, id) == Without(xs, id) + Without(ys, id)
  {
    if ys == [] {
      assert xs + ys == xs;
    } else {
      assert (xs + ys)[..|xs + ys| - 1] == xs + ys[..|ys| - 1];
      WithoutConcat(xs, ys[..|ys| - 1], id);
    }
  }

  lemma EditStep(jobs: seq<CronJob>, primary: CronJob, d: Definition, host: Host)
    requires UniqueIds(jobs) && Named(jobs, d.name) == [primary]
    ensures UniqueIds(Edited(jobs, primary.id, d, host))
    ensures Named(Edited(jobs, primary.id, d, host), d.name) == [Configured(primary, d, host)]
    ensures forall other :: other != d.name ==> Named(Edited(jobs, primary.id, d, host), other) == Named(jobs, other)
  {
    assert primary in Named(jobs, d.name);
    forall j | j in jobs && j.id == primary.id ensures j.name == d.name {
      SameIdSameJob(jobs, j, primary);
    }
    NamedEdited(jobs, primary.id, d, host, d.name);
    forall other | other != d.name ensures Named(Edited(jobs, primary.id, d, host), other) == Named(jobs, other) {
      NamedEdited(jobs, primary.id, d, host, other);
      var same := Named(jobs, other);
      assert Edited(same, primary.id, d, host) == same by {
        forall i | 0 <= i < |same| ensures same[i].id != primary.id {
          assert same[i] in same;
        }
      }
    }
  }

  ghost predicate IsUnused(id: string, jobs: seq<CronJob>) {
    forall j :: j in jobs ==> j.id != id
  }

  lemma AddStep(jobs: seq<CronJob>, d: Definition, host: Host, id: string)
    requires UniqueIds(jobs) && IsUnused(id, jobs) && Named(jobs, d.name) == []
    ensures var job := Configured(CronJob(id, d.name, None, None, None, true), d, host);
            && UniqueIds(jobs + [job]) && Named(jobs + [job], d.name) == [job]
            && forall other :: other != d.name ==> Named(jobs + [job], other) == Named(jobs, other)
  {
    var job := Configured(CronJob(id, d.name, None, None, None, true), d, host);
    forall name
      ensures Named(jobs + [job], name) == if job.name == name then Named(jobs, name) + [job] else Named(jobs, name)
    {
      NamedAdded(jobs, job, name);
    }
  }

  /** The definitions have different names, commands, and intervals that the service can parse. */
  ghost predicate AreManaged(defs: seq<Definition>) {
    && (forall i, j :: 0 <= i < j < |defs| ==> defs[i].name != defs[j].name)
    && (forall d :: d in defs ==> d.command != [] && Parse(d.every).Some?)
  }

  // ---------------------------------------------------------------- the pass

  lemma AddedConverges(d: Definition, host: Host, id: string)
    requires Parse(d.every).Some?
    ensures Converges([], [Configured(CronJob(id, d.name, None, None, None, true), d, host)], d, host)
  {
    ConfiguredIsQuietIff(CronJob(id, d.name, None, None, None, true), d, host);
  }

  lemma EditedConverges(matching: seq<CronJob>, d: Definition, host: Host)
    requires matching != [] && Parse(d.every).Some? && DriftOf(matching[0], d, host) != []
    ensures Converges(matching, [Configured(matching[0], d, host)], d, host)
  {
    ConfiguredIsQuietIff(matching[0], d, host);
  }

  lemma QuietConverges(matching: seq<CronJob>, d: Definition, host: Host)
    requires matching != [] && DriftOf(matching[0], d, host) == []
    ensures Converges(matching, [matching[0]], d, host)
  {
  }

  /** What a step for the jobs of `name` leaves alone: the jobs of all other names, and all ids that
      are used neither before nor by the step. */
  ghost predicate LeavesOthers(before: seq<CronJob>, after: seq<CronJob>, name: string, id: string) {
    && (forall other :: other != name ==> Named(after, other) == Named(before, other))
    && (forall x :: IsUnused(x, before) && x != id ==> IsUnused(x, after))
  }

  lemma LeavesTwice(a: seq<CronJob>, b: seq<CronJob>, c: seq<CronJob>, name: string, id: string)
    requires LeavesOthers(a, b, name, id) && LeavesOthers(b, c, name, id)
    ensures LeavesOthers(a, c, name, id)
  {
  }

  lemma RemovalLeaves(jobs: seq<CronJob>, removed: string, name: string, id: string)
    requires forall other :: other != name ==> Named(Without(jobs, removed), other) == Named(jobs, other)
    ensures LeavesOthers(jobs, Without(jobs, removed), name, id)
  {
  }

  method AddMissing(service: CronService, d: Definition, host: Host, id: string)
    requires UniqueIds(service.jobs) && IsUnused(id, service.jobs) && Parse(d.every).Some?
    requires Named(service.jobs, d.name) == []
    modifies service
    ensures UniqueIds(service.jobs) && Converges([], Named(service.jobs, d.name), d, host)
    ensures LeavesOthers(old(service.jobs), service.jobs, d.name, id)
  {
    AddStep(service.jobs, d, host, id);
    AddedConverges(d, host, id);
    service.Add(d, host, id);
  }

  method EditPrimary(service: CronService, matching: seq<CronJob>, d: Definition, host: Host, ghost id: string)
    requires UniqueIds(service.jobs) && Parse(d.every).Some? && matching != []
    requires Named(service.jobs, d.name) == [matching[0]] && DriftOf(matching[0], d, host) != []
    modifies service
    ensures UniqueIds(service.jobs) && Converges(matching, Named(service.jobs, d.name), d, host)
    ensures LeavesOthers(old(service.jobs), service.jobs, d.name, id)
  {
    EditStep(service.jobs, matching[0], d, host);
    EditedConverges(matching, d, host);
    service.Edit(matching[0].id, d, host);
    forall x | IsUnused(x, old(service.jobs)) ensures IsUnused(x, service.jobs) {
      forall j | j in service.jobs ensures j.id != x {
        var i :| 0 <= i < |service.jobs| && service.jobs[i] == j;
        assert old(service.jobs)[i] in old(service.jobs);
      }
    }
  }

  /** Remove the duplicates, then add, edit or leave alone: the body of the loop for one definition. */
  method ReconcileOne(service: CronService, listed: seq<CronJob>, d: Definition, host: Host, id: string)
    returns (commands: nat)
    requires UniqueIds(service.jobs) && UniqueIds(listed) && IsUnused(id, service.jobs) && Parse(d.every).Some?
    requires Named(service.jobs, d.name) == Named(listed, d.name)
    modifies service
    ensures UniqueIds(service.jobs)
    ensures Converges(Named(listed, d.name), Named(service.jobs, d.name), d, host)
    ensures LeavesOthers(old(service.jobs), service.jobs, d.name, id)
    ensures commands == 0 <==> IsQuiet(Named(listed, d.name), d, host)
    ensures commands == 0 ==> service.jobs == old(service.jobs)
  {
    var inspection := InspectCronJob(listed, d, host);
    if inspection.primary.None? {
      AddMissing(service, d, host, id);
      return 1;
    }
    ghost var before := service.jobs;
    commands := RemoveDuplicates(service, listed, d.name, id);
    if inspection.drift != [] {
      ghost var between := service.jobs;
      EditPrimary(service, Named(listed, d.name), d, host, id);
      LeavesTwice(before, between, service.jobs, d.name, id);
      commands := commands + 1;
    } else {
      QuietConverges(Named(listed, d.name), d, host);
    }
  }

  method RemoveDuplicates(service: CronService, listed: seq<CronJob>, name: string, ghost id: string)
    returns (commands: nat)
    requires UniqueIds(service.jobs) && UniqueIds(listed)
    requires Named(service.jobs, name) == Named(listed, name) != []
    modifies service
    ensures UniqueIds(service.jobs) && Named(service.jobs, name) == [Named(listed, name)[0]]
    ensures LeavesOthers(old(service.jobs), service.jobs, name, id)
    ensures commands == |Named(listed, name)| - 1
    ensures commands == 0 ==> service.jobs == old(service.jobs)
  {
    var matching := Named(listed, name);
    NamedIsUnique(listed, name);
    commands := 0;
    var k := 1;
    assert matching == [matching[0]] + matching[1..];
    ghost var start := service.jobs;
    while k < |matching|
      invariant 1 <= k <= |matching| && commands == k - 1
      invariant UniqueIds(service.jobs) && Named(service.jobs, name) == [matching[0]] + matching[k..]
      invariant LeavesOthers(start, service.jobs, name, id)
      invariant commands == 0 ==> service.jobs == start
    {
      ghost var before := service.jobs;
      RemoveDuplicate(service, matching, k, name, id);
      LeavesTwice(start, before, service.jobs, name, id);
      commands := commands + 1;
      k := k + 1;
    }
  }

  method RemoveDuplicate(service: CronService, matching: seq<CronJob>, k: nat, name: string, ghost id: string)
    requires UniqueIds(service.jobs) && 1 <= k < |matching| && UniqueIds(matching)
    requires Named(service.jobs, name) == [matching[0]] + matching[k..]
    modifies service
    ensures UniqueIds(service.jobs) && Named(service.jobs, name) == [matching[0]] + matching[k + 1..]
    ensures LeavesOthers(old(service.jobs), service.jobs, name, id)
  {
    RemovalStep(service.jobs, matching, k, name);
    RemovalLeaves(service.jobs, matching[k].id, name, id);
    service.Remove(matching[k].id);
  }

  /** Ids for new jobs: unused in the table, and different. */
  ghost predicate AreFresh(ids: seq<string>, jobs: seq<CronJob>) {
    && (forall i :: 0 <= i < |ids| ==> IsUnused(ids[i], jobs))
    && (forall i, j :: 0 <= i < j < |ids| ==> ids[i] != ids[j])
  }

  ghost predicate ConvergedAt(listed: seq<CronJob>, jobs: seq<CronJob>, d: Definition, host: Host) {
    Converges(Named(listed, d.name), Named(jobs, d.name), d, host)
  }

  ghost predicate IsAhead(defs: seq<Definition>, i: nat, name: string)
    requires i <= |defs|
  {
    forall k :: 0 <= k < i ==> defs[k].name != name
  }

  /** The pass has dealt with the first `i` definitions. */
  ghost predicate IsPassPoint(listed: seq<CronJob>, jobs: seq<CronJob>, defs: seq<Definition>, host: Host,
                              ids: seq<string>, i: nat)
    requires i <= |defs|
  {
    && (forall k :: 0 <= k < i ==> ConvergedAt(listed, jobs, defs[k], host))
    && (forall name :: IsAhead(defs, i, name) ==> Named(jobs, name) == Named(listed, name))
    && (forall k :: i <= k < |ids| ==> IsUnused(ids[k], jobs))
  }

  lemma PassStep(listed: seq<CronJob>, jobs: seq<CronJob>, jobs': seq<CronJob>, defs: seq<Definition>, host: Host,
                 ids: seq<string>, i: nat)
    requires AreManaged(defs) && i < |defs| == |ids| && AreFresh(ids, listed)
    requires IsPassPoint(listed, jobs, defs, host, ids, i)
    requires ConvergedAt(listed, jobs', defs[i], host) && LeavesOthers(jobs, jobs', defs[i].name, ids[i])
    ensures IsPassPoint(listed, jobs', defs, host, ids, i + 1)
  {
    forall k: nat | k < i + 1 ensures ConvergedAt(listed, jobs', defs[k], host) {
      ConvergedStays(listed, jobs, jobs', defs, host, ids, i, k);
    }
    forall name | IsAhead(defs, i + 1, name) ensures Named(jobs', name) == Named(listed, name) {
      assert IsAhead(defs, i, name) && defs[i].name != name;
    }
  }

  lemma ConvergedStays(listed: seq<CronJob>, jobs: seq<CronJob>, jobs': seq<CronJob>, defs: seq<Definition>, host: Host,
                       ids: seq<string>, i: nat, k: nat)
    requires AreManaged(defs) && k <= i < |defs| && IsPassPoint(listed, jobs, defs, host, ids, i) && i < |ids|
    requires ConvergedAt(listed, jobs', defs[i], host) && LeavesOthers(jobs, jobs', defs[i].name, ids[i])
    ensures ConvergedAt(listed, jobs', defs[k], host)
  {
    if k < i {
      assert ConvergedAt(listed, jobs, defs[k], host) && defs[k].name != defs[i].name;
      assert Named(jobs', defs[k].name) == Named(jobs, defs[k].name);
    }
  }

  ghost predicate AllQuiet(listed: seq<CronJob>, defs: seq<Definition>, host: Host, i: nat)
    requires i <= |defs|
  {
    forall k :: 0 <= k < i ==> IsQuiet(Named(listed, defs[k].name), defs[k], host)
  }

  lemma AllQuietNext(listed: seq<CronJob>, defs: seq<Definition>, host: Host, i: nat)
    requires i < |defs|
    ensures AllQuiet(listed, defs, host, i + 1)
       <==> AllQuiet(listed, defs, host, i) && IsQuiet(Named(listed, defs[i].name), defs[i], host)
  {
  }

  /** `reconcileSchedules`: one pass over the definitions, on the job list read at its start. */
  method ReconcileSchedules(service: CronService, defs: seq<Definition>, host: Host, ids: seq<string>)
    returns (commands: nat)
    requires AreManaged(defs) && UniqueIds(service.jobs) && |ids| == |defs| && AreFresh(ids, service.jobs)
    modifies service
    ensures UniqueIds(service.jobs)
    ensures IsPassPoint(old(service.jobs), service.jobs, defs, host, ids, |defs|)
    ensures commands == 0 <==> AllQuiet(old(service.jobs), defs, host, |defs|)
    ensures commands == 0 ==> service.jobs == old(service.jobs)
  {
    hide LeavesOthers;
    hide IsQuiet;
    hide ConvergedAt;
    var listed := service.jobs;
    commands := 0;
    for i := 0 to |defs|
      invariant UniqueIds(service.jobs) && IsPassPoint(listed, service.jobs, defs, host, ids, i)
      invariant commands == 0 <==> AllQuiet(listed, defs, host, i)
      invariant commands == 0 ==> service.jobs == listed
    {
      assert defs[i] in defs && IsAhead(defs, i, defs[i].name);
      ghost var before := service.jobs;
      var issued := ReconcileOne(service, listed, defs[i], host, ids[i]);
      PassStep(listed, before, service.jobs, defs, host, ids, i);
      AllQuietNext(listed, defs, host, i);
      commands := commands + issued;
    }
  }

  // ---------------------------------------------------------------- convergence

  /** Every definition whose interval is not written in its largest unit drifts for ever: after a pass
      the next one issues no command exactly when each interval is canonical or showed no drift
      before the first pass. */
  lemma SecondPassIsQuietIff(listed: seq<CronJob>, jobs: seq<CronJob>, defs: seq<Definition>, host: Host,
                             ids: seq<string>)
    requires IsPassPoint(listed, jobs, defs, host, ids, |defs|)
    ensures AllQuiet(jobs, defs, host, |defs|)
       <==> forall k :: 0 <= k < |defs| ==>
              IsDriftFree(Named(listed, defs[k].name), defs[k], host) || IsCanonical(defs[k].every)
  {
    forall k | 0 <= k < |defs|
      ensures IsQuiet(Named(jobs, defs[k].name), defs[k], host)
         <==> IsDriftFree(Named(listed, defs[k].name), defs[k], host) || IsCanonical(defs[k].every)
    {
      assert ConvergedAt(listed, jobs, defs[k], host);
    }
  }

  // ---------------------------------------------------------------- status and switching

  datatype Health = HealthMissing | Duplicate | Drifted | Healthy | Paused

  /** `scheduleStatus` for one definition. */
  function HealthOf(r: Inspection): Health {
    if r.primary.None? then HealthMissing
    else if r.duplicates != [] then Duplicate
    else if r.drift != [] then Drifted
    else if r.enabled then Healthy
    else Paused
  }

  /** The health of a definition, told by the table: missing without a job of the name, duplicate with several, drifted
      with one whose interval or command is not the definition's, and else healthy or paused as the job is enabled. */
  lemma HealthIff(jobs: seq<CronJob>, d: Definition, host: Host, r: Inspection)
    requires var matching := Named(jobs, d.name);
             r == if matching == [] then Inspection(None, [], [Missing], false)
                  else Inspection(Some(matching[0]), matching[1..], DriftOf(matching[0], d, host), matching[0].enabled)
    ensures HealthOf(r) == HealthMissing <==> forall j :: j in jobs ==> j.name != d.name
    ensures HealthOf(r) == Duplicate <==> |Named(jobs, d.name)| > 1
    ensures HealthOf(r) == Drifted
       <==> |Named(jobs, d.name)| == 1 && DriftOf(Named(jobs, d.name)[0], d, host) != []
    ensures HealthOf(r) == Healthy <==> IsQuiet(Named(jobs, d.name), d, host) && Named(jobs, d.name)[0].enabled
    ensures HealthOf(r) == Paused <==> IsQuiet(Named(jobs, d.name), d, host) && !Named(jobs, d.name)[0].enabled
  {
    hide DriftOf;
    var matching := Named(jobs, d.name);
    if matching != [] {
      assert matching[0] in matching;
    }
  }

  /** After a pass nothing is missing or duplicated; a canonical definition is healthy, or still paused
      if its primary was paused before. */
  lemma HealthAfterPass(before: seq<CronJob>, after: seq<CronJob>, d: Definition, host: Host)
    requires Converges(before, after, d, host)
    ensures var r := Inspection(Some(after[0]), after[1..], DriftOf(after[0], d, host), after[0].enabled);
            && HealthOf(r) != HealthMissing && HealthOf(r) != Duplicate
            && (IsCanonical(d.every) ==> HealthOf(r) == if before != [] && !before[0].enabled then Paused else Healthy)
  {
  }

  datatype Action = Pause | Resume | Delete

  /** What an action makes of the jobs of one name. */
  function Acted(matching: seq<CronJob>, action: Action): (r: seq<CronJob>)
    ensures action == Delete ==> r == []
    ensures action != Delete ==> |r| == |matching|
  {
    if action == Delete then []
    else seq(|matching|, i requires 0 <= i < |matching| => matching[i].(enabled := action == Resume))
  }

  /** One command of `mutateSchedules`. */
  function ActOn(jobs: seq<CronJob>, id: string, action: Action): seq<CronJob> {
    if action == Delete then Without(jobs, id) else Switched(jobs, id, action == Resume)
  }

  /** The commands for the first `k` jobs of a name. */
  function ActFirst(jobs: seq<CronJob>, matching: seq<CronJob>, k: nat, action: Action): seq<CronJob>
    requires k <= |matching|
  {
    if k == 0 then jobs else ActOn(ActFirst(jobs, matching, k - 1, action), matching[k - 1].id, action)
  }

  lemma ActOnNamed(jobs: seq<CronJob>, id: string, action: Action, name: string)
    ensures Named(ActOn(jobs, id, action), name) == ActOn(Named(jobs, name), id, action)
  {
    NamedWithout(jobs, id, name);
    NamedSwitched(jobs, id, action == Resume, name);
  }

  lemma ActFirstNext(jobs: seq<CronJob>, matching: seq<CronJob>, k: nat, action: Action)
    requires 0 < k <= |matching|
    ensures ActFirst(jobs, matching, k, action)
      == ActOn(ActFirst(jobs, matching, k - 1, action), matching[k - 1].id, action)
  {
  }

  lemma {:induction false} ActFirstNamed(jobs: seq<CronJob>, matching: seq<CronJob>, k: nat, action: Action,
                                         name: string)
    requires k <= |matching|
    ensures Named(ActFirst(jobs, matching, k, action), name) == ActFirst(Named(jobs, name), matching, k, action)
  {
    hide Named;
    hide ActOn;
    if k > 0 {
      ActFirstNamed(jobs, matching, k - 1, action, name);
      NamedStep(jobs, matching, k, action, name, ActFirst(jobs, matching, k - 1, action),
                ActFirst(Named(jobs, name), matching, k - 1, action));
    }
  }

  lemma NamedStep(jobs: seq<CronJob>, matching: seq<CronJob>, k: nat, action: Action, name: string,
                  all: seq<CronJob>, own: seq<CronJob>)
    requires 0 < k <= |matching| && Named(all, name) == own
    requires all == ActFirst(jobs, matching, k - 1, action)
      && own == ActFirst(Named(jobs, name), matching, k - 1, action)
    ensures Named(ActFirst(jobs, matching, k, action), name) == ActFirst(Named(jobs, name), matching, k, action)
  {
    var id := matching[k - 1].id;
    ActFirstNext(jobs, matching, k, action);
    ActFirstNext(Named(jobs, name), matching, k, action);
    ActOnNamed(all, id, action, name);
  }

  lemma ActOnOther(jobs: seq<CronJob>, id: string, action: Action)
    requires forall j :: j in jobs ==> j.id != id
    ensures ActOn(jobs, id, action) == jobs
  {
    WithoutOther(jobs, id);
    assert forall i :: 0 <= i < |jobs| ==> jobs[i] in jobs;
  }

  lemma {:induction false} ActFirstOther(jobs: seq<CronJob>, matching: seq<CronJob>, k: nat, action: Action)
    requires k <= |matching| && forall j, i :: j in jobs && 0 <= i < |matching| ==> j.id != matching[i].id
    ensures ActFirst(jobs, matching, k, action) == jobs
  {
    if k > 0 {
      ActFirstOther(jobs, matching, k - 1, action);
      ActOnOther(jobs, matching[k - 1].id, action);
    }
  }

  lemma ActOnMiddle(head: seq<CronJob>, x: CronJob, rest: seq<CronJob>, action: Action)
    requires forall j :: j in head || j in rest ==> j.id != x.id
    ensures ActOn(head + [x] + rest, x.id, action) == head + Acted([x], action) + rest
  {
    if action == Delete {
      WithoutConcat(head + [x], rest, x.id);
      WithoutOther(rest, x.id);
      WithoutOther(head, x.id);
      assert (head + [x])[..|head|] == head;
    } else {
      forall i | 0 <= i < |head + [x] + rest|
        ensures Switched(head + [x] + rest, x.id, action == Resume)[i] == (head + Acted([x], action) + rest)[i]
      {
        if i < |head| {
          assert head[i] in head;
        } else if i > |head| {
          assert rest[i - |head| - 1] in rest;
        }
      }
    }
  }

  lemma ActedNext(matching: seq<CronJob>, k: nat, action: Action)
    requires 0 < k <= |matching|
    ensures Acted(matching[..k], action) == Acted(matching[..k - 1], action) + Acted([matching[k - 1]], action)
  {
    assert matching[..k] == matching[..k - 1] + [matching[k - 1]];
  }

  lemma ActedIds(matching: seq<CronJob>, k: nat, action: Action, j: CronJob)
    requires k <= |matching| && j in Acted(matching[..k], action)
    ensures exists i :: 0 <= i < k && j.id == matching[i].id
  {
    var head := Acted(matching[..k], action);
    var i :| 0 <= i < |head| && head[i] == j;
    assert matching[..k][i] == matching[i];
  }

  /** Acting on the first `k` of some jobs by id changes exactly those. */
  lemma {:induction false} ActFirstSelf(matching: seq<CronJob>, k: nat, action: Action)
    requires UniqueIds(matching) && k <= |matching|
    ensures ActFirst(matching, matching, k, action) == Acted(matching[..k], action) + matching[k..]
  {
    if k == 0 {
      assert Acted(matching[..0], action) == [];
    } else {
      ActFirstSelf(matching, k - 1, action);
      ActFirstNext(matching, matching, k, action);
      ActMiddleNext(matching, k, action);
    }
  }

  lemma ActMiddleNext(matching: seq<CronJob>, k: nat, action: Action)
    requires UniqueIds(matching) && 0 < k <= |matching|
    ensures ActOn(Acted(matching[..k - 1], action) + matching[k - 1..], matching[k - 1].id, action)
         == Acted(matching[..k], action) + matching[k..]
  {
    var head, x, rest := Acted(matching[..k - 1], action), matching[k - 1], matching[k..];
    ActedNext(matching, k, action);
    OthersDiffer(matching, k, action);
    assert head + matching[k - 1..] == head + [x] + rest by {
      SplitAt(matching, k - 1);
      assert head + ([x] + rest) == head + [x] + rest;
    }
    ActOnMiddle(head, x, rest, action);
  }

  lemma OthersDiffer(matching: seq<CronJob>, k: nat, action: Action)
    requires UniqueIds(matching) && 0 < k <= |matching|
    ensures forall j :: j in Acted(matching[..k - 1], action) || j in matching[k..] ==> j.id != matching[k - 1].id
  {
    SplitAt(matching, k - 1);
    forall j | j in Acted(matching[..k - 1], action) ensures j.id != matching[k - 1].id {
      ActedIds(matching, k - 1, action, j);
    }
  }

  /** One command for each of the given jobs. */
  method ActOnAll(service: CronService, matches: seq<CronJob>, action: Action)
    requires UniqueIds(service.jobs)
    modifies service
    ensures UniqueIds(service.jobs) && service.jobs == ActFirst(old(service.jobs), matches, |matches|, action)
  {
    for k := 0 to |matches|
      invariant UniqueIds(service.jobs) && service.jobs == ActFirst(old(service.jobs), matches, k, action)
    {
      ActFirstNext(old(service.jobs), matches, k + 1, action);
      Act(service, matches[k].id, action);
    }
  }

  method Act(service: CronService, id: string, action: Action)
    requires UniqueIds(service.jobs)
    modifies service
    ensures UniqueIds(service.jobs) && service.jobs == ActOn(old(service.jobs), id, action)
  {
    if action == Delete {
      WithoutKeepsUnique(service.jobs, id);
      service.Remove(id);
    } else {
      service.Switch(id, action == Resume);
    }
  }

  /** The loop of `mutateSchedules` over the jobs of one definition: all of them are switched or
      removed, and the jobs of other names are left alone. */
  method MutateOne(service: CronService, name: string, action: Action)
    requires UniqueIds(service.jobs)
    modifies service
    ensures UniqueIds(service.jobs)
    ensures Named(service.jobs, name) == Acted(Named(old(service.jobs), name), action)
    ensures forall other :: other != name ==> Named(service.jobs, other) == Named(old(service.jobs), other)
  {
    ghost var jobs := service.jobs;
    ActOnAll(service, Named(service.jobs, name), action);
    ActedOwn(jobs, name, action);
    forall other | other != name ensures Named(service.jobs, other) == Named(jobs, other) {
      ActedOther(jobs, name, other, action);
    }
  }

  lemma ActedOwn(jobs: seq<CronJob>, name: string, action: Action)
    requires UniqueIds(jobs)
    ensures var matches := Named(jobs, name);
            Named(ActFirst(jobs, matches, |matches|, action), name) == Acted(matches, action)
  {
    var matches := Named(jobs, name);
    NamedIsUnique(jobs, name);
    ActFirstNamed(jobs, matches, |matches|, action, name);
    ActFirstSelf(matches, |matches|, action);
    assert matches[..|matches|] == matches && matches[|matches|..] == [];
  }

  lemma ActedOther(jobs: seq<CronJob>, name: string, other: string, action: Action)
    requires UniqueIds(jobs) && name != other
    ensures var matches := Named(jobs, name);
            Named(ActFirst(jobs, matches, |matches|, action), other) == Named(jobs, other)
  {
    var matches := Named(jobs, name);
    OtherIds(jobs, name, other);
    ActFirstNamed(jobs, matches, |matches|, action, other);
    ActFirstOther(Named(jobs, other), matches, |matches|, action);
  }

  lemma OtherIds(jobs: seq<CronJob>, name: string, other: string)
    requires UniqueIds(jobs) && name != other
    ensures forall j, i :: j in Named(jobs, other) && 0 <= i < |Named(jobs, name)| ==> j.id != Named(jobs, name)[i].id
  {
    forall j, i | j in Named(jobs, other) && 0 <= i < |Named(jobs, name)| ensures j.id != Named(jobs, name)[i].id {
      var m := Named(jobs, name)[i];
      assert m in Named(jobs, name);
      if j.id == m.id {
        SameIdSameJob(jobs, j, m);
      }
    }
  }

  predicate IsSelected(d: Definition, name: Option<string>) {
    name.None? || name.value == "" || d.name == name.value
  }

  /** A name that is given selects the definition of that name and no other; without one all are selected. */
  lemma SelectedIff(defs: seq<Definition>, name: string)
    requires |name| > 0
    ensures forall d :: d in defs ==> IsSelected(d, None) && IsSelected(d, Some(""))
    ensures forall d :: d in defs ==> (IsSelected(d, Some(name)) <==> d.name == name)
  {
  }

  /** What `mutateSchedules` does to the jobs of each name, between two tables. */
  ghost predicate MutatedFirst(before: seq<CronJob>, after: seq<CronJob>, defs: seq<Definition>, i: nat,
                               name: Option<string>, action: Action)
    requires i <= |defs|
  {
    && (forall k :: 0 <= k < i ==> MutatedAt(before, after, defs[k], name, action))
    && (forall other :: IsLeft(defs, i, name, other) ==> Named(after, other) == Named(before, other))
  }

  ghost predicate MutatedAt(before: seq<CronJob>, after: seq<CronJob>, d: Definition, name: Option<string>,
                            action: Action)
  {
    IsSelected(d, name) ==> Named(after, d.name) == Acted(Named(before, d.name), action)
  }

  /** No selected definition among the first `i` has this name. */
  ghost predicate IsLeft(defs: seq<Definition>, i: nat, name: Option<string>, other: string)
    requires i <= |defs|
  {
    forall k :: 0 <= k < i ==> !(IsSelected(defs[k], name) && defs[k].name == other)
  }

  /** `mutateSchedules`: resuming reconciles first; without a selected definition it fails. */
  method MutateSchedules(service: CronService, defs: seq<Definition>, action: Action, name: Option<string>,
                         host: Host, ids: seq<string>)
    returns (ok: bool, ghost reconciled: seq<CronJob>)
    requires AreManaged(defs) && UniqueIds(service.jobs) && |ids| == |defs| && AreFresh(ids, service.jobs)
    modifies service
    ensures ok <==> exists d :: d in defs && IsSelected(d, name)
    ensures if action == Resume then IsPassPoint(old(service.jobs), reconciled, defs, host, ids, |defs|)
            else reconciled == old(service.jobs)
    ensures ok ==> MutatedFirst(reconciled, service.jobs, defs, |defs|, name, action)
    ensures !ok ==> service.jobs == reconciled
  {
    if action == Resume {
      var _ := ReconcileSchedules(service, defs, host, ids);
    }
    reconciled := service.jobs;
    if !exists d | d in defs :: IsSelected(d, name) {
      return false, reconciled;
    }
    for i := 0 to |defs|
      invariant UniqueIds(service.jobs) && MutatedFirst(reconciled, service.jobs, defs, i, name, action)
    {
      ghost var before := service.jobs;
      if IsSelected(defs[i], name) {
        MutateOne(service, defs[i].name, action);
      }
      MutationStep(reconciled, before, service.jobs, defs, i, name, action);
    }
    ok := true;
  }

  /** The loop body changes the jobs of one definition if that is selected, and nothing else. */
  ghost predicate IsMutation(before: seq<CronJob>, after: seq<CronJob>, d: Definition, name: Option<string>,
                             action: Action)
  {
    && MutatedAt(before, after, d, name, action)
    && forall other :: other != d.name || !IsSelected(d, name) ==> Named(after, other) == Named(before, other)
  }

  lemma MutatedStays(start: seq<CronJob>, before: seq<CronJob>, after: seq<CronJob>, defs: seq<Definition>, i: nat,
                     name: Option<string>, action: Action, k: nat)
    requires AreManaged(defs) && k <= i < |defs| && MutatedFirst(start, before, defs, i, name, action)
    requires IsMutation(before, after, defs[i], name, action)
    ensures MutatedAt(start, after, defs[k], name, action)
  {
    if k < i {
      assert MutatedAt(start, before, defs[k], name, action) && defs[k].name != defs[i].name;
      assert Named(after, defs[k].name) == Named(before, defs[k].name);
    } else if IsSelected(defs[i], name) {
      assert IsLeft(defs, i, name, defs[i].name);
      assert Named(before, defs[i].name) == Named(start, defs[i].name);
    }
  }

  lemma MutationStep(start: seq<CronJob>, before: seq<CronJob>, after: seq<CronJob>, defs: seq<Definition>, i: nat,
                     name: Option<string>, action: Action)
    requires AreManaged(defs) && i < |defs| && MutatedFirst(start, before, defs, i, name, action)
    requires IsMutation(before, after, defs[i], name, action)
    ensures MutatedFirst(start, after, defs, i + 1, name, action)
  {
    forall k: nat | k < i + 1 ensures MutatedAt(start, after, defs[k], name, action) {
      MutatedStays(start, before, after, defs, i, name, action, k);
    }
    forall other | IsLeft(defs, i + 1, name, other) ensures Named(after, other) == Named(start, other) {
      assert IsLeft(defs, i, name, other);
      assert Named(before, other) == Named(start, other);
    }
  }

  /** After a resume every selected definition has exactly one job, and it is enabled. */
  lemma ResumeEnables(listed: seq<CronJob>, reconciled: seq<CronJob>, after: seq<CronJob>, defs: seq<Definition>,
                      name: Option<string>, host: Host, ids: seq<string>, k: nat)
    requires IsPassPoint(listed, reconciled, defs, host, ids, |defs|)
    requires MutatedFirst(reconciled, after, defs, |defs|, name, Resume)
    requires k < |defs| && IsSelected(defs[k], name)
    ensures |Named(after, defs[k].name)| == 1 && Named(after, defs[k].name)[0].enabled
  {
    assert ConvergedAt(listed, reconciled, defs[k], host);
    assert MutatedAt(reconciled, after, defs[k], name, Resume);
  }

  // ---------------------------------------------------------------- the other reader of intervals

  /** The interval test of `_schedule_matches`: milliseconds against milliseconds. */
  predicate IntervalMatches(job: CronJob, every: string) {
    job.everyMs.Some? && job.everyMs.value == if Parse(every).Some? then Parse(every).value else -1
  }

  /** An interval that cannot be parsed matches a job of -1 milliseconds only. */
  lemma IntervalMatchesIff(job: CronJob, every: string)
    ensures IntervalMatches(job, every)
       <==> || (Parse(every).Some? && job.everyMs == Some(Parse(every).value))
            || (Parse(every).None? && job.everyMs == Some(-1))
  {
    hide Parse;
  }

  /** On a configured job the scheduler never sees a drift, while the plugin's inspector sees one exactly
      when the interval is not canonical. */
  lemma SchedulerSeesNoDrift(matching: seq<CronJob>, d: Definition, host: Host)
    requires IsSettled(matching, d, host)
    ensures IntervalMatches(matching[0], d.every)
    ensures Interval in DriftOf(matching[0], d, host) <==> !IsCanonical(d.every)
  {
    ParseThenPrintIff(d.every);
  }
}
