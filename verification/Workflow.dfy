/** The workflow graph: stage rows, card plans, and their idempotent materialisation on a board. */
module Workflow {
  import opened Wrappers
  import opened Text
  import opened Cards
  import opened CardBoard
  import opened Qa

  /** The actions that the stage sequence distinguishes; `Coding` is any action not named. */
  datatype ActionKind = IssueAction | ReviewPr | MergePr | RepairPr | Coding

  /** One stage: its key suffix, its dependencies (`None` is the root card) and its QA profile. */
  datatype Row = Row(suffix: string, stage: WorkStage, deps: seq<Option<string>>, profile: Option<Profile>)

  predicate IsKeyChar(c: char) {
    '0' <= c <= '9' || 'a' <= c <= 'z' || 'A' <= c <= 'Z' || c == '.' || c == '_' || c == '-'
  }

  /** `_qa_key`: the normalised, bounded form of a profile key. */
  function QaKey(key: string): string {
    var normalized := Take(seq(|key|, i requires 0 <= i < |key| => if IsKeyChar(key[i]) then key[i] else '-'), 80);
    if normalized == "" then "qa" else normalized
  }

  function QaSuffix(profile: Profile): string {
    "qa:" + QaKey(profile.key)
  }

  function QaRow(profile: Profile, roles: map<string, WorkerRole>, parent: Option<string>): Row {
    Row(QaSuffix(profile),
        if profile.key in roles && roles[profile.key] == UxReviewer then UxReview else Test,
        [parent], Some(profile))
  }

  function QaRows(sel: Selection, parent: Option<string>, n: nat): (rows: seq<Row>)
    requires n <= |sel.profiles|
    ensures |rows| == n
    ensures forall i :: 0 <= i < n ==> rows[i] == QaRow(sel.profiles[i], sel.roles, parent)
  {
    seq(n, i requires 0 <= i < n => QaRow(sel.profiles[i], sel.roles, parent))
  }

  function Suffixes(rows: seq<Row>): seq<Option<string>> {
    seq(|rows|, i requires 0 <= i < |rows| => Some(rows[i].suffix))
  }

  /** The first stage of a workflow that changes code, if any. */
  function CodingStage(action: ActionKind): Option<WorkStage> {
    match action
    case RepairPr => Some(Repair)
    case Coding => Some(Implementation)
    case _ => None
  }

  function LeadingRows(action: ActionKind): seq<Row> {
    match CodingStage(action)
    case None => [Row("review", Review, [None], None)]
    case Some(stage) =>
      [Row(StageName(stage), stage, [None], None), Row("review", Review, [Some(StageName(stage))], None)]
  }

  function QaParent(action: ActionKind): Option<string> {
    match CodingStage(action)
    case None => None
    case Some(stage) => Some(StageName(stage))
  }

  function ClosingRows(policy: CompletionPolicy): seq<Row> {
    if policy == AutoMerge then
      [Row("merge", Merge, [Some("final_review")], None), Row("post_merge", PostMerge, [Some("merge")], None)]
    else []
  }

  function StageRows(action: ActionKind, policy: CompletionPolicy, sel: Selection): seq<Row> {
    if action == IssueAction then
      [Row("control_plane_action", ControlPlaneAction, [None], None),
       Row("post_merge", PostMerge, [Some("control_plane_action")], None)]
    else
      var qa := QaRows(sel, QaParent(action), |sel.profiles|);
      LeadingRows(action) + qa
      + [Row("final_review", FinalReview, [Some("review")] + Suffixes(qa), None)]
      + ClosingRows(policy)
  }

  /** `_stage_sequence`. */
  method StageSequence(action: ActionKind, policy: CompletionPolicy, sel: Selection) returns (rows: seq<Row>)
    ensures rows == StageRows(action, policy, sel)
  {
    if action == IssueAction {
      return [Row("control_plane_action", ControlPlaneAction, [None], None),
              Row("post_merge", PostMerge, [Some("control_plane_action")], None)];
    }
    var first := "review";
    var qaParent: Option<string> := None;
    if action == ReviewPr || action == MergePr {
      rows := [Row("review", Review, [None], None)];
    } else {
      var firstStage := if action == RepairPr then Repair else Implementation;
      first := StageName(firstStage);
      qaParent := Some(first);
      rows := [Row(first, firstStage, [None], None), Row("review", Review, [Some(first)], None)];
    }
    var reviewDependencies := [Some("review")];
    for i := 0 to |sel.profiles|
      invariant rows == LeadingRows(action) + QaRows(sel, QaParent(action), i)
      invariant reviewDependencies == [Some("review")] + Suffixes(QaRows(sel, QaParent(action), i))
    {
      var row := QaRow(sel.profiles[i], sel.roles, qaParent);
      rows := rows + [row];
      reviewDependencies := reviewDependencies + [Some(row.suffix)];
      assert QaRows(sel, QaParent(action), i + 1) == QaRows(sel, QaParent(action), i) + [row];
    }
    rows := rows + [Row("final_review", FinalReview, reviewDependencies, None)];
    if policy == AutoMerge {
      rows := rows + [Row("merge", Merge, [Some("final_review")], None)];
      rows := rows + [Row("post_merge", PostMerge, [Some("merge")], None)];
    }
  }

  // ---------------------------------------------------------------- plans

  /** A card to create; its parents are still named by key. */
  datatype Plan = Plan(spec: CardSpec, parents: seq<CardKey>)

  /** The part of the decision and configuration that card plans carry; `digest` stands for the hash
      of a long action id. */
  datatype Job = Job(
    action: string, kind: ActionKind, actionName: string, policy: CompletionPolicy, repo: string,
    digest: string, captain: string, workerFor: WorkStage -> string, deterministicMerge: bool, maxRetries: nat)

  function WorkflowLabelOf(job: Job): string {
    "workflow:" + (if |job.action| <= 31 then job.action else job.action[..22] + "-" + job.digest)
  }

  function CommonLabels(job: Job): seq<string> {
    ["make_it_so", "repo:" + Lower(job.repo), "action:" + job.actionName, WorkflowLabelOf(job)]
  }

  function KeyOf(job: Job, suffix: string): CardKey {
    WorkKey(job.action, suffix)
  }

  function RootPlan(job: Job): Plan {
    Plan(CardSpec(KeyOf(job, "root"), Todo, CommonLabels(job) + ["stage:orchestration"], Some(job.captain), [],
                  job.maxRetries, ""), [])
  }

  function RowPlan(job: Job, row: Row): Plan {
    Plan(CardSpec(
           KeyOf(job, row.suffix), Todo,
           CommonLabels(job)
           + (match row.profile case None => [] case Some(p) => [BoundedLabel("qa:" + p.key)])
           + ["stage:" + StageName(row.stage)],
           if row.stage == Merge && job.deterministicMerge then None else Some(job.workerFor(row.stage)),
           [], job.maxRetries,
           match row.profile case None => "" case Some(p) => p.key),
         seq(|row.deps|, i requires 0 <= i < |row.deps| =>
           KeyOf(job, match row.deps[i] case None => "root" case Some(suffix) => suffix)))
  }

  function RowPlans(job: Job, rows: seq<Row>): seq<Plan> {
    seq(|rows|, i requires 0 <= i < |rows| => RowPlan(job, rows[i]))
  }

  /** `build_workflow`: the root card, then one card per stage row. */
  function BuildWorkflow(job: Job, sel: Selection): seq<Plan> {
    [RootPlan(job)] + RowPlans(job, StageRows(job.kind, job.policy, sel))
  }

  // ---------------------------------------------------------------- every dependency comes earlier

  ghost predicate DepsBefore(rows: seq<Row>, i: nat)
    requires i < |rows|
  {
    forall d :: d in rows[i].deps && d.Some? ==> exists k :: 0 <= k < i && rows[k].suffix == d.value
  }

  /** Every row depends on the root or on earlier rows only. */
  lemma RowsAreOrdered(action: ActionKind, policy: CompletionPolicy, sel: Selection, i: nat)
    requires i < |StageRows(action, policy, sel)|
    ensures DepsBefore(StageRows(action, policy, sel), i)
  {
    var rows := StageRows(action, policy, sel);
    if action == IssueAction {
      assert rows[0].suffix == "control_plane_action";
    } else {
      var lead, qa := LeadingRows(action), QaRows(sel, QaParent(action), |sel.profiles|);
      var f := |lead| + |qa|;
      assert rows[0] == lead[0] && rows[|lead| - 1] == lead[|lead| - 1] && lead[|lead| - 1].suffix == "review";
      assert rows[f] == Row("final_review", FinalReview, [Some("review")] + Suffixes(qa), None);
      if i < |lead| {
        assert rows[i] == lead[i];
      } else if i < f {
        assert rows[i] == qa[i - |lead|] && rows[i].deps == [QaParent(action)];
        assert QaParent(action).Some? ==> rows[0].suffix == QaParent(action).value;
      } else if i == f {
        FinalReviewDeps(lead, qa, rows);
      } else {
        assert rows[i] == ClosingRows(policy)[i - f - 1];
        assert rows[i - 1].suffix == if i == f + 1 then "final_review" else "merge";
        assert rows[i].deps == [Some(rows[i - 1].suffix)];
      }
    }
  }

  lemma FinalReviewDeps(lead: seq<Row>, qa: seq<Row>, rows: seq<Row>)
    requires lead != [] && lead[|lead| - 1].suffix == "review" && lead + qa <= rows
    ensures forall d :: d in [Some("review")] + Suffixes(qa) ==>
      d.Some? && exists k :: 0 <= k < |lead| + |qa| && rows[k].suffix == d.value
  {
    var deps := [Some("review")] + Suffixes(qa);
    forall d | d in deps
      ensures d.Some? && exists k :: 0 <= k < |lead| + |qa| && rows[k].suffix == d.value
    {
      var n :| 0 <= n < |deps| && deps[n] == d;
      assert rows[|lead| - 1] == (lead + qa)[|lead| - 1];
      if n > 0 {
        assert rows[|lead| + n - 1] == (lead + qa)[|lead| + n - 1] == qa[n - 1];
      }
    }
  }

  /** The plan is TODO, carries no ids, and its parents are created before it. */
  ghost predicate CreatableAt(plans: seq<Plan>, i: nat)
    requires i < |plans|
  {
    && plans[i].spec.status == Todo && plans[i].spec.parents == []
    && forall key :: key in plans[i].parents ==> exists k :: 0 <= k < i && plans[k].spec.key == key
  }

  ghost predicate Creatable(plans: seq<Plan>) {
    forall i {:trigger CreatableAt(plans, i)} :: 0 <= i < |plans| ==> CreatableAt(plans, i)
  }

  /** The plan of a row comes after the plans of its dependencies. */
  lemma RowIsCreatable(job: Job, sel: Selection, i: nat, n: nat)
    requires i < |StageRows(job.kind, job.policy, sel)| && n < |StageRows(job.kind, job.policy, sel)[i].deps|
    ensures i + 1 < |BuildWorkflow(job, sel)|
    ensures var plans, dep := BuildWorkflow(job, sel), StageRows(job.kind, job.policy, sel)[i].deps[n];
            exists k :: 0 <= k < i + 1 && plans[k].spec.key == KeyOf(job, if dep.None? then "root" else dep.value)
  {
    var rows, plans := StageRows(job.kind, job.policy, sel), BuildWorkflow(job, sel);
    RowsAreOrdered(job.kind, job.policy, sel, i);
    var dep := rows[i].deps[n];
    assert dep in rows[i].deps;
    if dep.None? {
      assert plans[0].spec.key == KeyOf(job, "root");
    } else {
      var k :| 0 <= k < i && rows[k].suffix == dep.value;
      assert plans[k + 1] == RowPlan(job, rows[k]);
    }
  }

  lemma WorkflowIsCreatable(job: Job, sel: Selection)
    ensures Creatable(BuildWorkflow(job, sel))
  {
    var rows, plans := StageRows(job.kind, job.policy, sel), BuildWorkflow(job, sel);
    forall i | 0 <= i < |plans| ensures CreatableAt(plans, i) {
      if i > 0 {
        assert plans[i] == RowPlan(job, rows[i - 1]);
        forall key | key in plans[i].parents ensures exists k :: 0 <= k < i && plans[k].spec.key == key {
          var n :| 0 <= n < |plans[i].parents| && plans[i].parents[n] == key;
          RowIsCreatable(job, sel, i - 1, n);
        }
      }
    }
  }
}
