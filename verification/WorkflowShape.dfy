/**
 The shape of a workflow: which stages it has, what each of them waits for, and what its cards say.  In a workflow that
 changes code nothing starts before that change is DONE.
 */
module WorkflowShape {
  import opened Wrappers
  import opened Text
  import opened Cards
  import opened CardBoard
  import opened RetryLabels
  import opened Qa
  import opened Workflow
  import opened Enqueue
  import opened LeaseProtocol
  import opened WorkflowRuns
  import opened BuiltWorkflow
  import opened EnqueuedRetries
  import opened MixedRuns

  // ---------------------------------------------------------------- the census of stages

  function CountStage(rows: seq<Row>, stage: WorkStage): nat {
    if rows == [] then 0 else CountStage(rows[..|rows| - 1], stage) + (if rows[|rows| - 1].stage == stage then 1 else 0)
  }

  lemma {:induction false} CountConcat(xs: seq<Row>, ys: seq<Row>, stage: WorkStage)
    ensures CountStage(xs + ys, stage) == CountStage(xs, stage) + CountStage(ys, stage)
  {
    if ys == [] {
      assert xs + ys == xs;
    } else {
      assert (xs + ys)[..|xs + ys| - 1] == xs + ys[..|ys| - 1];
      CountConcat(xs, ys[..|ys| - 1], stage);
    }
  }

  lemma CountOne(row: Row, stage: WorkStage)
    ensures CountStage([row], stage) == if row.stage == stage then 1 else 0
  {
    assert [row][..0] == [];
  }

  lemma CountTwo(row: Row, row': Row, stage: WorkStage)
    ensures CountStage([row, row'], stage)
         == (if row.stage == stage then 1 else 0) + (if row'.stage == stage then 1 else 0)
  {
    CountOne(row, stage);
    CountOne(row', stage);
    CountConcat([row], [row'], stage);
    assert [row] + [row'] == [row, row'];
  }

  lemma {:induction false} CountQa(rows: seq<Row>, stage: WorkStage)
    requires forall k :: 0 <= k < |rows| ==> rows[k].stage == Test || rows[k].stage == UxReview
    ensures stage != Test && stage != UxReview ==> CountStage(rows, stage) == 0
    ensures CountStage(rows, Test) + CountStage(rows, UxReview) == |rows|
  {
    if rows != [] {
      CountQa(rows[..|rows| - 1], stage);
    }
  }

  /** How often a stage occurs in a workflow; QA cards are of two stages. */
  function Census(action: ActionKind, policy: CompletionPolicy, stage: WorkStage): nat {
    match stage
    case ControlPlaneAction => if action == IssueAction then 1 else 0
    case Implementation => if action == Coding then 1 else 0
    case Repair => if action == RepairPr then 1 else 0
    case Review => if action == IssueAction then 0 else 1
    case FinalReview => if action == IssueAction then 0 else 1
    case Merge => if action != IssueAction && policy == AutoMerge then 1 else 0
    case PostMerge => if action == IssueAction || policy == AutoMerge then 1 else 0
    case _ => 0
  }

  /** Every stage occurs as often as the action and the policy ask for: a workflow that implements has one
      implementation card, one that repairs one repair card, and every other has neither. */
  lemma StagesAreCounted(action: ActionKind, policy: CompletionPolicy, sel: Selection, stage: WorkStage)
    ensures var rows := StageRows(action, policy, sel);
            && (stage != Test && stage != UxReview ==> CountStage(rows, stage) == Census(action, policy, stage))
            && CountStage(rows, Test) + CountStage(rows, UxReview)
               == if action == IssueAction then 0 else |sel.profiles|
  {
    StagesCountedOne(action, policy, sel, stage);
    StagesCountedOne(action, policy, sel, Test);
    StagesCountedOne(action, policy, sel, UxReview);
    if action != IssueAction {
      CountQa(QaRows(sel, QaParent(action), |sel.profiles|), stage);
    }
  }

  lemma StagesCountedOne(action: ActionKind, policy: CompletionPolicy, sel: Selection, stage: WorkStage)
    ensures CountStage(StageRows(action, policy, sel), stage)
         == Census(action, policy, stage)
            + (if action == IssueAction then 0
               else CountStage(QaRows(sel, QaParent(action), |sel.profiles|), stage))
  {
    hide CountStage;
    hide LeadingRows;
    hide ClosingRows;
    hide QaRows;
    hide QaParent;
    hide Suffixes;
    if action == IssueAction {
      CountTwo(Row("control_plane_action", ControlPlaneAction, [None], None),
               Row("post_merge", PostMerge, [Some("control_plane_action")], None), stage);
    } else {
      var qa := QaRows(sel, QaParent(action), |sel.profiles|);
      var final := Row("final_review", FinalReview, [Some("review")] + Suffixes(qa), None);
      CountLeading(action, stage);
      CountClosing(policy, stage);
      CountOne(final, stage);
      CountConcat(LeadingRows(action), qa, stage);
      CountConcat(LeadingRows(action) + qa, [final], stage);
      CountConcat(LeadingRows(action) + qa + [final], ClosingRows(policy), stage);
    }
  }

  lemma CountLeading(action: ActionKind, stage: WorkStage)
    requires action != IssueAction
    ensures CountStage(LeadingRows(action), stage)
         == (if stage == Review then 1 else 0)
            + (if || (stage == Implementation && action == Coding)
                  || (stage == Repair && action == RepairPr) then 1 else 0)
  {
    var rows := LeadingRows(action);
    if |rows| == 1 {
      CountOne(rows[0], stage);
      assert rows == [rows[0]];
    } else {
      CountTwo(rows[0], rows[1], stage);
      assert rows == [rows[0], rows[1]];
    }
  }

  lemma CountClosing(policy: CompletionPolicy, stage: WorkStage)
    ensures CountStage(ClosingRows(policy), stage)
         == if policy == AutoMerge && (stage == Merge || stage == PostMerge) then 1 else 0
  {
    CountTwo(Row("merge", Merge, [Some("final_review")], None), Row("post_merge", PostMerge, [Some("merge")], None),
             stage);
  }

  // ---------------------------------------------------------------- what each stage waits for

  /** The stage that changes code, which review and QA wait for: there is one for two of the actions. */
  function FirstSuffix(action: ActionKind): Option<string> {
    if action == Coding then Some("implementation")
    else if action == RepairPr then Some("repair")
    else None
  }

  predicate IsQaRow(action: ActionKind, sel: Selection, row: Row, p: Profile) {
    && row.profile == Some(p) && row.suffix == "qa:" + QaKey(p.key) && row.deps == [FirstSuffix(action)]
    && row.stage == if p.key in sel.roles && sel.roles[p.key] == UxReviewer then UxReview else Test
  }

  ghost predicate HasQaRow(action: ActionKind, sel: Selection, rows: seq<Row>, p: Profile) {
    exists row :: row in rows && IsQaRow(action, sel, row, p)
  }

  ghost predicate IsFinalRow(sel: Selection, row: Row) {
    && row.suffix == "final_review" && row.profile.None? && |row.deps| == |sel.profiles| + 1
    && row.deps[0] == Some("review")
    && forall i :: 0 <= i < |sel.profiles| ==> row.deps[i + 1] == Some("qa:" + QaKey(sel.profiles[i].key))
  }

  /** What a row of a stage is called, and what it waits for. */
  ghost predicate RowMeans(action: ActionKind, sel: Selection, row: Row) {
    match row.stage
    case ControlPlaneAction => row == Row("control_plane_action", ControlPlaneAction, [None], None)
    case Implementation => row == Row("implementation", Implementation, [None], None)
    case Repair => row == Row("repair", Repair, [None], None)
    case Review => row == Row("review", Review, [FirstSuffix(action)], None)
    case FinalReview => IsFinalRow(sel, row)
    case Merge => row == Row("merge", Merge, [Some("final_review")], None)
    case PostMerge =>
      row == Row("post_merge", PostMerge, [Some(if action == IssueAction then "control_plane_action" else "merge")],
                 None)
    case _ => exists p :: p in sel.profiles && IsQaRow(action, sel, row, p)
  }

  lemma ParentIsFirst(action: ActionKind)
    ensures QaParent(action) == FirstSuffix(action)
  {
  }

  lemma QaRowMeans(action: ActionKind, sel: Selection, p: Profile)
    requires p in sel.profiles
    ensures IsQaRow(action, sel, QaRow(p, sel.roles, QaParent(action)), p)
    ensures RowMeans(action, sel, QaRow(p, sel.roles, QaParent(action)))
  {
    ParentIsFirst(action);
    assert IsQaRow(action, sel, QaRow(p, sel.roles, QaParent(action)), p);
  }

  lemma LeadingRowMeans(action: ActionKind, sel: Selection, row: Row)
    requires action != IssueAction && row in LeadingRows(action)
    ensures RowMeans(action, sel, row)
  {
  }

  lemma ClosingRowMeans(action: ActionKind, policy: CompletionPolicy, sel: Selection, row: Row)
    requires action != IssueAction && row in ClosingRows(policy)
    ensures RowMeans(action, sel, row)
  {
  }

  lemma FinalRowMeans(action: ActionKind, sel: Selection)
    ensures RowMeans(action, sel, Row("final_review", FinalReview,
                                      [Some("review")] + Suffixes(QaRows(sel, QaParent(action), |sel.profiles|)), None))
  {
  }

  /** Every row is called and waits as its stage does, and every selected profile has its row. */
  lemma RowsMean(action: ActionKind, policy: CompletionPolicy, sel: Selection)
    ensures forall row :: row in StageRows(action, policy, sel) ==> RowMeans(action, sel, row)
    ensures action != IssueAction ==>
      forall p :: p in sel.profiles ==> HasQaRow(action, sel, StageRows(action, policy, sel), p)
  {
    hide RowMeans;
    hide LeadingRows;
    hide ClosingRows;
    hide IsQaRow;
    var rows := StageRows(action, policy, sel);
    if action == IssueAction {
      IssueRowsMean(sel);
    } else {
      var qa := QaRows(sel, QaParent(action), |sel.profiles|);
      FinalRowMeans(action, sel);
      forall row | row in rows ensures RowMeans(action, sel, row) {
        if row in LeadingRows(action) {
          LeadingRowMeans(action, sel, row);
        } else if row in ClosingRows(policy) {
          ClosingRowMeans(action, policy, sel, row);
        } else if row in qa {
          var i :| 0 <= i < |qa| && qa[i] == row;
          QaRowMeans(action, sel, sel.profiles[i]);
        }
      }
      forall p | p in sel.profiles ensures HasQaRow(action, sel, rows, p) {
        QaRowMeans(action, sel, p);
        var i :| 0 <= i < |sel.profiles| && sel.profiles[i] == p;
        assert qa[i] in rows;
      }
    }
  }

  lemma IssueRowsMean(sel: Selection)
    ensures RowMeans(IssueAction, sel, Row("control_plane_action", ControlPlaneAction, [None], None))
    ensures RowMeans(IssueAction, sel, Row("post_merge", PostMerge, [Some("control_plane_action")], None))
  {
  }

  /** A letter, a digit, an underscore, a dot or a hyphen. */
  predicate IsSafe(c: char) {
    IsWord(c) || c == '.' || c == '-'
  }

  /** A QA key is a short, safe form of the profile key, which keeps the characters that are safe. */
  lemma QaKeyIsSafe(key: string)
    ensures 0 < |QaKey(key)| <= 80
    ensures forall i :: 0 <= i < |QaKey(key)| ==> IsSafe(QaKey(key)[i])
    ensures key != "" && |key| <= 80 && (forall i :: 0 <= i < |key| ==> IsSafe(key[i])) ==> QaKey(key) == key
    ensures forall i :: 0 <= i < |key| && i < 80 ==>
      i < |QaKey(key)| && QaKey(key)[i] == if IsSafe(key[i]) then key[i] else '-'
  {
  }

  // ---------------------------------------------------------------- what the cards say

  lemma {:induction false} ValueSkips(xs: seq<string>, ys: seq<string>, p: string)
    requires forall i :: 0 <= i < |xs| ==> !(p <= xs[i])
    ensures FirstValue(xs + ys, p) == FirstValue(ys, p)
  {
    if xs == [] {
      assert xs + ys == ys;
    } else {
      ValueSkips(xs[1..], ys, p);
      assert (xs + ys)[1..] == xs[1..] + ys;
    }
  }

  lemma StageNameReads(stage: WorkStage)
    ensures StageNamed(StageName(stage)) == Some(stage)
  {
  }

  lemma StageReads(job: Job, qa: seq<string>, stage: WorkStage)
    requires forall i :: 0 <= i < |qa| ==> qa[i] != "" && qa[i][0] == 'q'
    ensures StageOfLabels(CommonLabels(job) + qa + ["stage:" + StageName(stage)]) == Some(stage)
  {
    hide StageName;
    hide StageNamed;
    StageNameReads(stage);
    var repo, action, workflow := "repo:" + Lower(job.repo), "action:" + job.actionName, WorkflowLabelOf(job);
    assert repo[0] == 'r' && action[0] == 'a' && workflow[0] == 'w';
    var last := "stage:" + StageName(stage);
    assert last[6..] == StageName(stage);
    var before := CommonLabels(job) + qa;
    forall i | 0 <= i < |before| ensures !("stage:" <= before[i]) {
      assert before[i][0] != "stage:"[0];
    }
    ValueSkips(before, [last], "stage:");
  }

  lemma WorkflowLabelStarts(job: Job)
    ensures "workflow:" <= WorkflowLabelOf(job)
  {
  }

  lemma WorkflowReads(job: Job, rest: seq<string>)
    ensures FirstValue(CommonLabels(job) + rest, "workflow:").Some?
    ensures "workflow:" + FirstValue(CommonLabels(job) + rest, "workflow:").value == WorkflowLabelOf(job)
  {
    hide WorkflowLabelOf;
    hide Lower;
    var repo, action, workflow := "repo:" + Lower(job.repo), "action:" + job.actionName, WorkflowLabelOf(job);
    assert repo[0] == 'r' && action[0] == 'a';
    WorkflowLabelStarts(job);
    var before := ["make_it_so", repo, action];
    forall i | 0 <= i < |before| ensures !("workflow:" <= before[i]) {
      assert before[i][0] != "workflow:"[0];
    }
    ValueSkips(before, [workflow] + rest, "workflow:");
    assert CommonLabels(job) + rest == ["make_it_so", repo, action] + ([workflow] + rest);
    assert ([workflow] + rest)[0] == workflow;
  }

  /** The card of a row reads back as what it was planned for: its stage, its workflow and its QA profile; it goes to
      the worker of the stage, or to nobody if the adapter merges itself. */
  lemma PlannedCardReads(job: Job, row: Row, id: CardId)
    ensures var card := NewCard(RowPlan(job, row).spec, id);
            && CardStage(card) == Some(row.stage) && WorkflowLabel(card) == Some(WorkflowLabelOf(job))
            && card.status == Todo && card.metadata.maxRetries == Some(job.maxRetries)
            && card.metadata.qaProfile == (if row.profile.Some? then row.profile.value.key else "")
            && card.agent == (if row.stage == Merge && job.deterministicMerge then None
                              else Some(job.workerFor(row.stage)))
  {
    hide WorkflowLabelOf;
    hide StageOfLabels;
    hide FirstValue;
    var qa := match row.profile case None => [] case Some(p) => [BoundedLabel("qa:" + p.key)];
    if row.profile.Some? {
      BoundedKeepsPrefix("qa:" + row.profile.value.key, "qa:");
      assert BoundedLabel("qa:" + row.profile.value.key)[0] == "qa:"[0];
    }
    StageReads(job, qa, row.stage);
    WorkflowReads(job, qa + ["stage:" + StageName(row.stage)]);
    assert CommonLabels(job) + qa + ["stage:" + StageName(row.stage)]
        == CommonLabels(job) + (qa + ["stage:" + StageName(row.stage)]);
  }

  /** Workflow labels fit the label limit, so retries carry them; ids of up to 31 characters never share one. */
  lemma WorkflowLabelsFit(job: Job, job': Job)
    requires |job.digest| <= 8
    ensures |WorkflowLabelOf(job)| <= LABEL_LIMIT
    ensures |job.action| <= 31 && |job'.action| <= 31 && WorkflowLabelOf(job) == WorkflowLabelOf(job') ==>
      job.action == job'.action
  {
    if |job.action| <= 31 {
      assert WorkflowLabelOf(job)[9..] == job.action;
    }
    if |job'.action| <= 31 {
      assert WorkflowLabelOf(job')[9..] == job'.action;
    }
  }

  // ---------------------------------------------------------------- the change comes first

  /** A card that has left TODO. */
  predicate HasStarted(table: Table, id: CardId) {
    id in table && table[id].status != Todo
  }

  /** A stage other than the one that changes code waits for that one, or for an earlier stage that is not the root. */
  lemma LaterRowWaits(action: ActionKind, policy: CompletionPolicy, sel: Selection, k: nat) returns (j: nat)
    requires FirstSuffix(action).Some? && 0 < k < |StageRows(action, policy, sel)|
    ensures j < k && Some(StageRows(action, policy, sel)[j].suffix) in StageRows(action, policy, sel)[k].deps
  {
    hide StageRows;
    hide IsQaRow;
    var rows := StageRows(action, policy, sel);
    RowsMean(action, policy, sel);
    FirstRow(action, policy, sel);
    OnlyFirstRow(action, policy, sel, k);
    RowsAreOrdered(action, policy, sel, k);
    var d := LaterDependency(action, sel, rows[k]);
    j :| 0 <= j < k && rows[j].suffix == d;
  }

  lemma FirstRow(action: ActionKind, policy: CompletionPolicy, sel: Selection)
    requires FirstSuffix(action).Some?
    ensures |StageRows(action, policy, sel)| > 1
    ensures StageRows(action, policy, sel)[0].suffix == FirstSuffix(action).value
    ensures StageRows(action, policy, sel)[0].stage in {Implementation, Repair}
  {
  }

  lemma {:induction false} TwoAreCounted(rows: seq<Row>, k: nat)
    requires 0 < k < |rows| && rows[k].stage == rows[0].stage
    ensures CountStage(rows, rows[0].stage) >= 2
  {
    var head, tail := rows[..1], rows[1..];
    CountOne(rows[0], rows[0].stage);
    OneIsCounted(tail, k - 1);
    CountConcat(head, tail, rows[0].stage);
    assert head == [rows[0]] && head + tail == rows;
  }

  lemma {:induction false} OneIsCounted(rows: seq<Row>, k: nat)
    requires k < |rows|
    ensures CountStage(rows, rows[k].stage) >= 1
  {
    if k < |rows| - 1 {
      OneIsCounted(rows[..|rows| - 1], k);
    }
  }

  lemma OnlyFirstRow(action: ActionKind, policy: CompletionPolicy, sel: Selection, k: nat)
    requires FirstSuffix(action).Some? && 0 < k < |StageRows(action, policy, sel)|
    ensures StageRows(action, policy, sel)[k].stage !in {Implementation, Repair, ControlPlaneAction}
  {
    hide StageRows;
    var rows := StageRows(action, policy, sel);
    FirstRow(action, policy, sel);
    StagesAreCounted(action, policy, sel, rows[k].stage);
    OneIsCounted(rows, k);
    if rows[k].stage == rows[0].stage {
      TwoAreCounted(rows, k);
    }
    StagesAreCounted(action, policy, sel, rows[0].stage);
    OneIsCounted(rows, 0);
  }

  lemma LaterDependency(action: ActionKind, sel: Selection, row: Row) returns (d: string)
    requires FirstSuffix(action).Some? && RowMeans(action, sel, row)
    requires row.stage !in {Implementation, Repair, ControlPlaneAction}
    ensures Some(d) in row.deps
  {
    assert row.deps != [] && row.deps[0].Some?;
    d := row.deps[0].value;
  }

  /** The card of the first stage is DONE. */
  ghost predicate IsChanged(job: Job, b: Board, table: Table) {
    && (job.kind == Coding ==> IsDone(table, StageCard(b, job, "implementation")))
    && (job.kind == RepairPr ==> IsDone(table, StageCard(b, job, "repair")))
  }

  /** Nothing but the first stage starts before the first stage is DONE. */
  lemma {:induction false} ChangeComesFirst(job: Job, sel: Selection, name: CardKey -> CardId, table: Table, k: nat)
    requires FreshNames(job, sel, name) && Gated(table) && Keeps(BuiltBoard(job, sel, name).cards, table)
    requires FirstSuffix(job.kind).Some? && 0 < k < |StageRows(job.kind, job.policy, sel)|
    requires HasStarted(table, StageCard(BuiltBoard(job, sel, name), job,
                                         StageRows(job.kind, job.policy, sel)[k].suffix))
    ensures IsChanged(job, BuiltBoard(job, sel, name), table)
    decreases k
  {
    hide BuiltBoard;
    hide StageRows;
    hide Gated;
    hide Keeps;
    hide FreshNames;
    var rows := StageRows(job.kind, job.policy, sel);
    FirstRow(job.kind, job.policy, sel);
    var j := LaterRowWaits(job.kind, job.policy, sel, k);
    DependenciesAreDone(job, sel, name, table, rows[k], Some(rows[j].suffix));
    if j > 0 {
      ChangeComesFirst(job, sel, name, table, j);
    }
  }

  /** Every stage of a workflow that changes code: whatever has started of it but the change, the change is DONE. */
  ghost predicate ChangeIsFirst(job: Job, sel: Selection, b: Board, table: Table) {
    forall row :: row in StageRows(job.kind, job.policy, sel) && row.stage !in {Implementation, Repair} ==>
      HasStarted(table, StageCard(b, job, row.suffix)) ==> IsChanged(job, b, table)
  }

  lemma GatedIsFirst(job: Job, sel: Selection, name: CardKey -> CardId, table: Table)
    requires FreshNames(job, sel, name) && Gated(table) && Keeps(BuiltBoard(job, sel, name).cards, table)
    ensures ChangeIsFirst(job, sel, BuiltBoard(job, sel, name), table)
  {
    hide BuiltBoard;
    hide StageRows;
    hide Gated;
    hide Keeps;
    hide FreshNames;
    hide HasStarted;
    var rows := StageRows(job.kind, job.policy, sel);
    if FirstSuffix(job.kind).Some? {
      FirstRow(job.kind, job.policy, sel);
      forall row | row in rows && row.stage !in {Implementation, Repair}
                   && HasStarted(table, StageCard(BuiltBoard(job, sel, name), job, row.suffix))
        ensures IsChanged(job, BuiltBoard(job, sel, name), table)
      {
        var k :| 0 <= k < |rows| && rows[k] == row;
        ChangeComesFirst(job, sel, name, table, k);
      }
    }
  }

  /** In every reachable state of a workflow that changes code, a review, QA, final review, merge or post-merge card
      that has left TODO has its implementation, or its repair, DONE. */
  lemma NothingStartsBeforeTheChange(job: Job, sel: Selection, name: CardKey -> CardId,
                                     states: seq<Sys>, events: seq<Event>, lease: nat, n: nat)
    requires WorkflowRun(job, sel, name, states, events, lease) && n < |states|
    ensures ChangeIsFirst(job, sel, BuiltBoard(job, sel, name), states[n].table)
  {
    RunStaysGated(job, sel, name, states, events, lease, 0, n);
    GatedIsFirst(job, sel, name, states[n].table);
  }

  lemma RestrictedIsFirst(job: Job, sel: Selection, b: Board, built: Table, table: Table)
    requires ChangeIsFirst(job, sel, b, Restricted(built, table))
    requires forall row :: row in StageRows(job.kind, job.policy, sel) ==> StageCard(b, job, row.suffix) in built
    ensures ChangeIsFirst(job, sel, b, table)
  {
    hide StageRows;
    hide StageCard;
  }

  lemma RowsHaveCards(job: Job, sel: Selection, name: CardKey -> CardId, row: Row)
    requires FreshNames(job, sel, name) && row in StageRows(job.kind, job.policy, sel)
    ensures StageCard(BuiltBoard(job, sel, name), job, row.suffix) in BuiltBoard(job, sel, name).cards
  {
    hide BuiltBoard;
    hide StageRows;
    hide FreshNames;
    var rows := StageRows(job.kind, job.policy, sel);
    var k :| 0 <= k < |rows| && rows[k] == row;
    BuiltHolds(job, sel, name, k + 1);
    assert BuildWorkflow(job, sel)[k + 1] == RowPlan(job, row);
  }

  /** So it is when reconcile passes and further cards join in, for at least one retry. */
  lemma NothingStartsBeforeTheChangeMixed(job: Job, sel: Selection, name: CardKey -> CardId, used: set<CardKey>,
                                          lease: nat, plants: seq<Plant>, events: seq<MixedEvent>, n: nat)
    requires MixedRun(job, sel, name, used, lease, plants, events) && n < |plants| && job.maxRetries >= 1
    ensures ChangeIsFirst(job, sel, BuiltBoard(job, sel, name), plants[n].sys.table)
  {
    hide MixedStep;
    hide BuiltBoard;
    hide FreshNames;
    hide IsOrdinaryTable;
    hide AllStayBuilt;
    hide ChangeIsFirst;
    hide Gated;
    hide Keeps;
    hide StageRows;
    hide StageCard;
    var b := BuiltBoard(job, sel, name);
    RunStartsSound(job, sel, name, used, lease, plants, events);
    RunKeepsMixedInv(job, sel, name, used, lease, plants, events, 0, n);
    assert BoardOf(plants[0]).cards == plants[0].sys.table;
    RestrictedIsGated(b.cards, plants[n].sys.table);
    GatedIsFirst(job, sel, name, Restricted(b.cards, plants[n].sys.table));
    forall row | row in StageRows(job.kind, job.policy, sel) ensures StageCard(b, job, row.suffix) in b.cards {
      RowsHaveCards(job, sel, name, row);
    }
    RestrictedIsFirst(job, sel, b, b.cards, plants[n].sys.table);
  }
}
