/**
 From a built workflow to its runs: the merge gate, the bound on all progress, and the absence of
 dependency deadlocks, for every action, policy and QA selection.
 */
module BuiltWorkflow {
  import opened Wrappers
  import opened Text
  import opened Cards
  import opened CardBoard
  import opened Qa
  import opened Workflow
  import opened Enqueue
  import opened LeaseProtocol
  import opened WorkflowRuns

  // ---------------------------------------------------------------- the enqueued board

  ghost predicate AgreeAt(plans: seq<Plan>, i: nat, j: nat)
    requires i < |plans| && j < |plans|
  {
    plans[i].spec.key == plans[j].spec.key ==> plans[i].parents == plans[j].parents
  }

  /** Plans of one key have the same parents, so the one that is created stands for all. */
  ghost predicate ParentsAgree(plans: seq<Plan>) {
    forall i, j :: 0 <= i < |plans| && 0 <= j < |plans| ==> AgreeAt(plans, i, j)
  }

  /** The board holds a card for the plan, whose parents are the cards of the parent keys. */
  ghost predicate Holds(b: Board, plan: Plan) {
    && plan.spec.key in b.keys && b.keys[plan.spec.key] in b.cards
    && CanCreate(b, plan)
    && b.cards[b.keys[plan.spec.key]].metadata.parents == ResolveParents(b, plan.parents)
  }

  ghost predicate HoldsFirst(b: Board, plans: seq<Plan>, n: nat)
    requires n <= |plans|
  {
    forall k :: 0 <= k < n ==> Holds(b, plans[k])
  }

  /** A card that nothing has happened to. */
  predicate IsUntouched(card: Card, limit: nat) {
    && card.status == Todo && card.metadata.claim.None? && card.metadata.failures == 0
    && card.metadata.maxRetries == Some(limit) && card.metadata.failureCount.None? && card.metadata.attempts.None?
    && !card.metadata.archived
  }

  ghost predicate AllUntouched(b: Board, limit: nat) {
    forall id :: id in b.cards ==> IsUntouched(b.cards[id], limit)
  }

  lemma CreateHolds(b: Board, plan: Plan, id: CardId, old_: Plan)
    requires Valid(b) && CanCreate(b, plan) && plan.spec.key !in b.keys && id !in b.cards
    requires old_ == plan || Holds(b, old_)
    ensures Holds(Create(b, plan.spec.(parents := ResolveParents(b, plan.parents)), id), old_)
  {
    var b' := Create(b, plan.spec.(parents := ResolveParents(b, plan.parents)), id);
    assert ResolveParents(b', old_.parents) == ResolveParents(b, old_.parents);
  }

  lemma CreateKeepsOrdered(b: Board, spec: CardSpec, id: CardId)
    requires Valid(b) && spec.key !in b.keys && id !in b.cards && Ordered(b.order, b.cards)
    requires forall p :: p in spec.parents ==> p in b.cards
    ensures Ordered(Create(b, spec, id).order, Create(b, spec, id).cards)
  {
    var b' := Create(b, spec, id);
    forall i | 0 <= i < |b'.order| ensures OrderedAt(b'.order, b'.cards, i) {
      assert b'.order[..i] == b.order[..i];
      if i < |b.order| {
        assert OrderedAt(b.order, b.cards, i);
        assert b'.order[i] == b.order[i] && b.order[i] in b.order;
      }
    }
  }

  ghost predicate Laid(b: Board, plans: seq<Plan>, n: nat, limit: nat)
    requires n <= |plans|
  {
    Tabled(b) && HoldsFirst(b, plans, n) && AllUntouched(b, limit) && Ordered(b.order, b.cards)
  }

  /** A key that is already there was created for an earlier plan. */
  lemma RepeatedPlanHolds(b: Board, plans: seq<Plan>, n: nat, name: CardKey -> CardId)
    requires Creatable(plans) && ParentsAgree(plans) && n < |plans|
    requires b == CreateFirst(EMPTY, plans, n, name) && HoldsFirst(b, plans, n) && plans[n].spec.key in b.keys
    ensures Holds(b, plans[n])
  {
    AddedRows(EMPTY, plans, n, name);
    var k :| 0 <= k < n && plans[k].spec.key == plans[n].spec.key;
    assert AgreeAt(plans, k, n);
    assert Holds(b, plans[k]);
  }

  lemma NewPlanLaid(b: Board, plans: seq<Plan>, n: nat, name: CardKey -> CardId, limit: nat)
    requires n < |plans| && Laid(b, plans, n, limit) && CanAppend(b, plans[n], name)
    requires plans[n].spec.key !in b.keys && plans[n].spec.maxRetries == limit && plans[n].spec.status == Todo
    ensures Laid(CreatePlanned(b, plans[n], name), plans, n + 1, limit)
  {
    var plan := plans[n];
    var id := name(plan.spec.key);
    var spec := plan.spec.(parents := ResolveParents(b, plan.parents));
    CreateKeepsValid(b, spec, id);
    CreateKeepsParents(b, plan, id);
    CreateKeepsOrdered(b, spec, id);
    forall k | 0 <= k < n + 1 ensures Holds(Create(b, spec, id), plans[k]) {
      assert k < n ==> Holds(b, plans[k]);
      CreateHolds(b, plan, id, plans[k]);
    }
  }

  lemma NextPlanLaid(plans: seq<Plan>, n: nat, name: CardKey -> CardId, limit: nat)
    requires Creatable(plans) && ParentsAgree(plans) && n < |plans| && FreshFor(name, EMPTY, plans)
    requires plans[n].spec.maxRetries == limit
    requires Laid(CreateFirst(EMPTY, plans, n, name), plans, n, limit)
    ensures Laid(CreateFirst(EMPTY, plans, n + 1, name), plans, n + 1, limit)
  {
    var b := CreateFirst(EMPTY, plans, n, name);
    NextIsReady(EMPTY, plans, n, name);
    assert CreatableAt(plans, n);
    if plans[n].spec.key in b.keys {
      RepeatedPlanHolds(b, plans, n, name);
    } else {
      NewPlanLaid(b, plans, n, name, limit);
    }
  }

  lemma NothingLaid(plans: seq<Plan>, name: CardKey -> CardId, limit: nat)
    ensures Laid(CreateFirst(EMPTY, plans, 0, name), plans, 0, limit)
  {
  }

  lemma {:induction false} CreationsLaid(plans: seq<Plan>, n: nat, name: CardKey -> CardId, limit: nat)
    requires Creatable(plans) && ParentsAgree(plans) && n <= |plans| && FreshFor(name, EMPTY, plans)
    requires forall k :: 0 <= k < |plans| ==> plans[k].spec.maxRetries == limit
    ensures Laid(CreateFirst(EMPTY, plans, n, name), plans, n, limit)
  {
    hide Laid;
    hide CreateFirst;
    hide FreshFor;
    hide ParentsAgree;
    if n == 0 {
      NothingLaid(plans, name, limit);
    } else {
      CreationsLaid(plans, n - 1, name, limit);
      NextPlanLaid(plans, n - 1, name, limit);
    }
  }

  /** The cards that `enqueue` leaves: the root is DONE and has no parents, the rest is TODO, and
      parents come before children. */
  ghost predicate Launched(b: Board, root: CardKey, limit: nat) {
    && Valid(b) && Ordered(b.order, b.cards)
    && root in b.keys && b.keys[root] in b.cards && b.cards[b.keys[root]].metadata.parents == []
    && forall id :: id in b.cards ==>
         && IsUntouched(b.cards[id].(status := Todo), limit)
         && b.cards[id].status == (if id == b.keys[root] then Done else Todo)
  }

  lemma {:induction false} AtMostOneRowEach(plans: seq<Plan>, n: nat, name: CardKey -> CardId)
    requires n <= |plans|
    ensures |CreateFirst(EMPTY, plans, n, name).order| <= n
  {
    if n > 0 {
      AtMostOneRowEach(plans, n - 1, name);
    }
  }

  lemma CompletionKeepsHolds(b: Board, plans: seq<Plan>)
    requires plans != [] && Valid(b) && Ordered(b.order, b.cards) && HoldsFirst(b, plans, |plans|)
    ensures var m := CompleteKey(b, plans[0].spec.key); Ordered(m.order, m.cards) && HoldsFirst(m, plans, |plans|)
  {
    var m := CompleteKey(b, plans[0].spec.key);
    forall i | 0 <= i < |m.order| ensures OrderedAt(m.order, m.cards, i) {
      assert OrderedAt(b.order, b.cards, i);
    }
    forall k | 0 <= k < |plans| ensures Holds(m, plans[k]) {
      assert Holds(b, plans[k]);
      assert ResolveParents(m, plans[k].parents) == ResolveParents(b, plans[k].parents);
    }
  }

  lemma CompletionLaunches(b: Board, root: CardKey, limit: nat)
    requires Valid(b) && AllUntouched(b, limit) && root in b.keys && b.keys[root] in b.cards
    requires b.cards[b.keys[root]].metadata.parents == []
    requires Ordered(CompleteKey(b, root).order, CompleteKey(b, root).cards)
    ensures Launched(CompleteKey(b, root), root, limit)
  {
    hide Ordered;
    PutKeepsValid(b, Completed(b.cards[b.keys[root]], MATERIALIZED));
  }

  lemma RootIsLaid(b: Board, plans: seq<Plan>, limit: nat)
    requires plans != [] && Laid(b, plans, |plans|, limit) && plans[0].parents == []
    ensures var root := plans[0].spec.key;
            root in b.keys && b.keys[root] in b.cards && b.cards[b.keys[root]].metadata.parents == []
  {
    assert Holds(b, plans[0]);
  }

  lemma EnqueueGives(plans: seq<Plan>, name: CardKey -> CardId, limit: nat)
    requires Creatable(plans) && ParentsAgree(plans) && plans != [] && FreshFor(name, EMPTY, plans)
    requires forall k :: 0 <= k < |plans| ==> plans[k].spec.maxRetries == limit
    requires plans[0].parents == []
    ensures var m := EnqueueAll(EMPTY, plans, name);
            Launched(m, plans[0].spec.key, limit) && HoldsFirst(m, plans, |plans|) && |m.order| <= |plans|
  {
    hide Launched;
    hide HoldsFirst;
    hide Ordered;
    hide AllUntouched;
    hide FreshFor;
    hide ParentsAgree;
    var b := CreateFirst(EMPTY, plans, |plans|, name);
    CreationsLaid(plans, |plans|, name, limit);
    AtMostOneRowEach(plans, |plans|, name);
    RootIsLaid(b, plans, limit);
    CompletionKeepsHolds(b, plans);
    CompletionLaunches(b, plans[0].spec.key, limit);
  }

  // ---------------------------------------------------------------- workflows

  lemma RowOf(job: Job, sel: Selection, k: nat) returns (row: Row)
    requires 0 < k < |BuildWorkflow(job, sel)|
    ensures row in StageRows(job.kind, job.policy, sel) && BuildWorkflow(job, sel)[k] == RowPlan(job, row)
  {
    row := StageRows(job.kind, job.policy, sel)[k - 1];
  }

  /** The dependencies of a stage, by its key suffix. */
  function DepsOf(kind: ActionKind, sel: Selection, suffix: string): seq<Option<string>> {
    if "qa:" <= suffix || suffix == "review" then [QaParent(kind)]
    else if suffix == "final_review" then
      [Some("review")] + Suffixes(QaRows(sel, QaParent(kind), |sel.profiles|))
    else if suffix == "merge" then [Some("final_review")]
    else if suffix == "post_merge" then [Some(if kind == IssueAction then "control_plane_action" else "merge")]
    else [None]
  }

  lemma QaRowShape(kind: ActionKind, sel: Selection, row: Row)
    requires row in QaRows(sel, QaParent(kind), |sel.profiles|)
    ensures "qa:" <= row.suffix && row.deps == DepsOf(kind, sel, row.suffix)
  {
  }

  /** A row's suffix determines its dependencies, and no row is called like the root. */
  lemma RowShape(kind: ActionKind, policy: CompletionPolicy, sel: Selection, row: Row)
    requires row in StageRows(kind, policy, sel)
    ensures row.suffix != "root" && row.deps == DepsOf(kind, sel, row.suffix)
  {
    if row in QaRows(sel, QaParent(kind), |sel.profiles|) {
      QaRowShape(kind, sel, row);
      assert "root"[0] != row.suffix[0];
    } else {
      assert row.suffix[0] != 'q';
    }
  }

  lemma WorkflowAgrees(job: Job, sel: Selection)
    ensures ParentsAgree(BuildWorkflow(job, sel))
  {
    var plans := BuildWorkflow(job, sel);
    forall i, j | 0 <= i < |plans| && 0 <= j < |plans| ensures AgreeAt(plans, i, j) {
      if i > 0 {
        var r := RowOf(job, sel, i);
        RowShape(job.kind, job.policy, sel, r);
      }
      if j > 0 {
        var s := RowOf(job, sel, j);
        RowShape(job.kind, job.policy, sel, s);
      }
    }
  }

  function BuiltBoard(job: Job, sel: Selection, name: CardKey -> CardId): Board {
    EnqueueAll(EMPTY, BuildWorkflow(job, sel), name)
  }

  ghost predicate FreshNames(job: Job, sel: Selection, name: CardKey -> CardId) {
    FreshFor(name, EMPTY, BuildWorkflow(job, sel))
  }

  /** Every workflow materialises completely: the root DONE, the rest TODO, parents before children. */
  lemma BuiltIsLaunched(job: Job, sel: Selection, name: CardKey -> CardId)
    requires FreshNames(job, sel, name)
    ensures Launched(BuiltBoard(job, sel, name), KeyOf(job, "root"), job.maxRetries)
    ensures |BuiltBoard(job, sel, name).order| <= |BuildWorkflow(job, sel)|
  {
    WorkflowIsCreatable(job, sel);
    WorkflowAgrees(job, sel);
    EnqueueGives(BuildWorkflow(job, sel), name, job.maxRetries);
  }

  /** Every plan has its card, whose parents are the cards of the parent keys. */
  lemma BuiltHolds(job: Job, sel: Selection, name: CardKey -> CardId, k: nat)
    requires FreshNames(job, sel, name) && k < |BuildWorkflow(job, sel)|
    ensures Holds(BuiltBoard(job, sel, name), BuildWorkflow(job, sel)[k])
  {
    WorkflowIsCreatable(job, sel);
    WorkflowAgrees(job, sel);
    EnqueueGives(BuildWorkflow(job, sel), name, job.maxRetries);
  }

  // ---------------------------------------------------------------- runs of a built workflow

  lemma LaunchedIsGated(b: Board, root: CardKey, limit: nat, now: int)
    requires Launched(b, root, limit)
    ensures StoreInv(Store(b.cards, now, {})) && Gated(b.cards)
  {
    forall id | id in b.cards ensures GatedAt(b.cards, id) {
    }
  }

  lemma {:induction false} MeasureWithin(order: seq<CardId>, table: Table, c: nat)
    requires forall id :: id in order && id in table ==> Weight(table[id]) <= c
    ensures Measure(table, order) <= |order| * c
  {
    if order != [] {
      MeasureWithin(order[1..], table, c);
      Distributes(|order| - 1, c);
    }
  }

  lemma Distributes(a: nat, c: nat)
    ensures (a + 1) * c == a * c + c
  {
  }

  lemma ScalesUp(a: nat, b: nat, c: nat)
    requires a <= b
    ensures a * c <= b * c
  {
  }

  /** A run of the store from a freshly enqueued workflow: workers interleave freely with split
      promotions, and no administrative operation intervenes. */
  ghost predicate WorkflowRun(job: Job, sel: Selection, name: CardKey -> CardId,
                              states: seq<Sys>, events: seq<Event>, lease: nat)
  {
    && FreshNames(job, sel, name)
    && Behaviour(states, events, lease)
    && states[0].table == BuiltBoard(job, sel, name).cards
    && states[0].issued == {} && states[0].lessee == Idle
    && forall i :: 0 <= i < |events| ==> !events[i].AdminWrite?
  }

  lemma LaunchedMeasure(b: Board, root: CardKey, limit: nat, n: nat)
    requires Launched(b, root, limit) && |b.order| <= n
    ensures Measure(b.cards, b.order) <= n * (2 * limit + 5)
  {
    forall id | id in b.order && id in b.cards ensures Weight(b.cards[id]) <= 2 * limit + 5 {
    }
    MeasureWithin(b.order, b.cards, 2 * limit + 5);
    ScalesUp(|b.order|, n, 2 * limit + 5);
  }

  lemma LaunchedCovers(b: Board, root: CardKey, limit: nat)
    requires Launched(b, root, limit)
    ensures Covers(b.order, b.cards) && WorkingStatuses(b.cards)
  {
  }

  lemma RunRefines(job: Job, sel: Selection, name: CardKey -> CardId, states: seq<Sys>, events: seq<Event>, lease: nat)
    requires WorkflowRun(job, sel, name, states, events, lease)
    ensures Inv(states[0]) && Gated(states[0].table)
    ensures forall i :: 0 <= i < |events| ==> Enabled(states[i], events[i])
    ensures GraphRun(StoresOf(states), AtomicEventsOf(states, events), lease)
  {
    hide Launched;
    hide BuiltBoard;
    hide FreshNames;
    BuiltIsLaunched(job, sel, name);
    LaunchedIsGated(BuiltBoard(job, sel, name), KeyOf(job, "root"), job.maxRetries, states[0].now);
    BehaviourRefinesAtomic(states, events, lease);
  }

  lemma RunStaysGated(job: Job, sel: Selection, name: CardKey -> CardId,
                      states: seq<Sys>, events: seq<Event>, lease: nat, m: nat, n: nat)
    requires WorkflowRun(job, sel, name, states, events, lease) && m <= n < |states|
    ensures Gated(states[n].table) && Keeps(states[m].table, states[n].table)
  {
    RunRefines(job, sel, name, states, events, lease);
    var stores, labels := StoresOf(states), AtomicEventsOf(states, events);
    RunKeepsGated(stores, labels, lease, 0, m);
    RunKeepsGated(stores, labels, lease, m, n);
  }

  // ---------------------------------------------------------------- the merge gate

  /** The card of a stage. */
  function StageCard(b: Board, job: Job, suffix: string): CardId {
    if KeyOf(job, suffix) in b.keys then b.keys[KeyOf(job, suffix)] else ""
  }

  lemma HeldDependency(b: Board, plan: Plan, table: Table, d: nat)
    requires Holds(b, plan) && Gated(table) && Keeps(b.cards, table) && d < |plan.parents|
    ensures var id := b.keys[plan.spec.key];
            id in table && plan.parents[d] in b.keys
            && (table[id].status != Todo ==> IsDone(table, b.keys[plan.parents[d]]))
  {
    var id := b.keys[plan.spec.key];
    assert KeptAt(b.cards, table, id) && GatedAt(table, id);
    assert ResolveParents(b, plan.parents)[d] in b.cards[id].metadata.parents;
  }

  /** A stage that has left TODO has all its dependencies DONE. */
  lemma DependenciesAreDone(job: Job, sel: Selection, name: CardKey -> CardId, table: Table, row: Row,
                            dep: Option<string>)
    requires FreshNames(job, sel, name) && Gated(table) && Keeps(BuiltBoard(job, sel, name).cards, table)
    requires row in StageRows(job.kind, job.policy, sel) && dep in row.deps
    ensures var id := StageCard(BuiltBoard(job, sel, name), job, row.suffix);
            id in table &&
            (table[id].status != Todo ==>
               IsDone(table, StageCard(BuiltBoard(job, sel, name), job, if dep.None? then "root" else dep.value)))
  {
    hide BuiltBoard;
    hide Gated;
    hide Keeps;
    hide FreshNames;
    hide Holds;
    var b, plans := BuiltBoard(job, sel, name), BuildWorkflow(job, sel);
    var rows := StageRows(job.kind, job.policy, sel);
    var k :| 0 <= k < |rows| && rows[k] == row;
    var d :| 0 <= d < |row.deps| && row.deps[d] == dep;
    BuiltHolds(job, sel, name, k + 1);
    assert plans[k + 1] == RowPlan(job, row);
    HeldDependency(b, plans[k + 1], table, d);
  }

  /** Everything that must be finished before a merge. */
  ghost predicate GatesDone(job: Job, sel: Selection, b: Board, table: Table) {
    && IsDone(table, StageCard(b, job, "final_review"))
    && IsDone(table, StageCard(b, job, "review"))
    && (job.kind == Coding ==> IsDone(table, StageCard(b, job, "implementation")))
    && (job.kind == RepairPr ==> IsDone(table, StageCard(b, job, "repair")))
    && forall i :: 0 <= i < |sel.profiles| ==> IsDone(table, StageCard(b, job, QaSuffix(sel.profiles[i])))
  }

  lemma MergeRows(kind: ActionKind, sel: Selection)
    requires kind != IssueAction
    ensures var rows := StageRows(kind, AutoMerge, sel);
            var qa := QaRows(sel, QaParent(kind), |sel.profiles|);
            && Row("merge", Merge, [Some("final_review")], None) in rows
            && Row("final_review", FinalReview, [Some("review")] + Suffixes(qa), None) in rows
            && Row("review", Review, [QaParent(kind)], None) in rows
  {
    var lead := LeadingRows(kind);
    assert lead[|lead| - 1] in lead;
    var qa := QaRows(sel, QaParent(kind), |sel.profiles|);
    var final := Row("final_review", FinalReview, [Some("review")] + Suffixes(qa), None);
    assert final in [final] && ClosingRows(AutoMerge)[0] in ClosingRows(AutoMerge);
  }

  lemma ReviewNeedsCoding(job: Job, sel: Selection, name: CardKey -> CardId, table: Table)
    requires FreshNames(job, sel, name) && Gated(table) && Keeps(BuiltBoard(job, sel, name).cards, table)
    requires job.kind != IssueAction && job.policy == AutoMerge
    requires IsDone(table, StageCard(BuiltBoard(job, sel, name), job, "review"))
    ensures job.kind == Coding ==> IsDone(table, StageCard(BuiltBoard(job, sel, name), job, "implementation"))
    ensures job.kind == RepairPr ==> IsDone(table, StageCard(BuiltBoard(job, sel, name), job, "repair"))
  {
    hide BuiltBoard;
    hide StageRows;
    hide Gated;
    hide Keeps;
    hide FreshNames;
    MergeRows(job.kind, sel);
    DependenciesAreDone(job, sel, name, table, Row("review", Review, [QaParent(job.kind)], None), QaParent(job.kind));
  }

  function FinalRow(kind: ActionKind, sel: Selection): Row {
    Row("final_review", FinalReview, [Some("review")] + Suffixes(QaRows(sel, QaParent(kind), |sel.profiles|)), None)
  }

  lemma FinalNeedsReview(job: Job, sel: Selection, name: CardKey -> CardId, table: Table)
    requires FreshNames(job, sel, name) && Gated(table) && Keeps(BuiltBoard(job, sel, name).cards, table)
    requires job.kind != IssueAction && job.policy == AutoMerge
    requires IsDone(table, StageCard(BuiltBoard(job, sel, name), job, "final_review"))
    ensures IsDone(table, StageCard(BuiltBoard(job, sel, name), job, "review"))
  {
    hide BuiltBoard;
    hide StageRows;
    hide Gated;
    hide Keeps;
    hide FreshNames;
    MergeRows(job.kind, sel);
    assert FinalRow(job.kind, sel).deps[0] == Some("review");
    DependenciesAreDone(job, sel, name, table, FinalRow(job.kind, sel), Some("review"));
  }

  lemma FinalNeedsQa(job: Job, sel: Selection, name: CardKey -> CardId, table: Table, i: nat)
    requires FreshNames(job, sel, name) && Gated(table) && Keeps(BuiltBoard(job, sel, name).cards, table)
    requires job.kind != IssueAction && job.policy == AutoMerge && i < |sel.profiles|
    requires IsDone(table, StageCard(BuiltBoard(job, sel, name), job, "final_review"))
    ensures IsDone(table, StageCard(BuiltBoard(job, sel, name), job, QaSuffix(sel.profiles[i])))
  {
    hide BuiltBoard;
    hide StageRows;
    hide Gated;
    hide Keeps;
    hide FreshNames;
    MergeRows(job.kind, sel);
    assert FinalRow(job.kind, sel).deps[i + 1] == Some(QaSuffix(sel.profiles[i]));
    DependenciesAreDone(job, sel, name, table, FinalRow(job.kind, sel), Some(QaSuffix(sel.profiles[i])));
  }

  lemma MergeNeedsGates(job: Job, sel: Selection, name: CardKey -> CardId, table: Table)
    requires FreshNames(job, sel, name) && Gated(table) && Keeps(BuiltBoard(job, sel, name).cards, table)
    requires job.kind != IssueAction && job.policy == AutoMerge
    ensures var b := BuiltBoard(job, sel, name);
            StageCard(b, job, "merge") in table &&
            (table[StageCard(b, job, "merge")].status != Todo ==> GatesDone(job, sel, b, table))
  {
    MergeRows(job.kind, sel);
    DependenciesAreDone(job, sel, name, table, Row("merge", Merge, [Some("final_review")], None), Some("final_review"));
    if table[StageCard(BuiltBoard(job, sel, name), job, "merge")].status != Todo {
      FinalNeedsReview(job, sel, name, table);
      ReviewNeedsCoding(job, sel, name, table);
      forall i: nat | i < |sel.profiles|
        ensures IsDone(table, StageCard(BuiltBoard(job, sel, name), job, QaSuffix(sel.profiles[i])))
      {
        FinalNeedsQa(job, sel, name, table, i);
      }
    }
  }

  /** The merge gate: in every reachable state of an auto-merge workflow, a merge card that has left
      TODO has its final review, review, first coding stage and every QA card DONE, and from then on
      they stay DONE. */
  lemma MergeWaitsForItsGates(job: Job, sel: Selection, name: CardKey -> CardId,
                              states: seq<Sys>, events: seq<Event>, lease: nat, n: nat, later: nat)
    requires WorkflowRun(job, sel, name, states, events, lease) && n <= later < |states|
    requires job.kind != IssueAction && job.policy == AutoMerge
    ensures var b := BuiltBoard(job, sel, name);
            var merge := StageCard(b, job, "merge");
            merge in states[n].table &&
            (states[n].table[merge].status != Todo ==>
               GatesDone(job, sel, b, states[n].table) && GatesDone(job, sel, b, states[later].table))
  {
    RunStaysGated(job, sel, name, states, events, lease, 0, n);
    RunStaysGated(job, sel, name, states, events, lease, n, later);
    MergeNeedsGates(job, sel, name, states[n].table);
    forall id | IsDone(states[n].table, id) ensures IsDone(states[later].table, id) {
      assert KeptAt(states[n].table, states[later].table, id);
    }
  }

  /** No QA gate can be skipped: once the merge card has left TODO, every declared or inferred surface
      and every repository or manifest check lies in a profile whose QA card is DONE. */
  lemma MergeImpliesQa(job: Job, sel: Selection, repo: QaRepo, manifest: Option<QaSource>, paths: seq<ChangedPath>,
                       name: CardKey -> CardId, states: seq<Sys>, events: seq<Event>, lease: nat, n: nat)
    requires WorkflowRun(job, sel, name, states, events, lease) && n < |states|
    requires job.kind != IssueAction && job.policy == AutoMerge && CoversAll(repo, manifest, paths, sel)
    requires IsDone(states[n].table, StageCard(BuiltBoard(job, sel, name), job, "merge"))
    ensures var b := BuiltBoard(job, sel, name);
            && (forall s :: s in Declared(repo, manifest) || (paths != [] && s in Inferred(paths)) ==>
                  exists p :: p in sel.profiles && s in p.surfaces
                              && IsDone(states[n].table, StageCard(b, job, QaSuffix(p))))
            && (forall c :: c in repo.own.checks || c in ManifestChecks(manifest) ==>
                  exists p :: p in sel.profiles && c in p.checks
                              && IsDone(states[n].table, StageCard(b, job, QaSuffix(p))))
  {
    var b, table := BuiltBoard(job, sel, name), states[n].table;
    MergeWaitsForItsGates(job, sel, name, states, events, lease, n, n);
    forall p | p in sel.profiles ensures IsDone(table, StageCard(b, job, QaSuffix(p))) {
      var i :| 0 <= i < |sel.profiles| && sel.profiles[i] == p;
    }
    forall s | s in sel.surfaces
      ensures exists p :: p in sel.profiles && s in p.surfaces && IsDone(table, StageCard(b, job, QaSuffix(p)))
    {
      assert Gates(sel, s);
      var p :| p in sel.profiles && s in p.surfaces;
    }
    forall c | c in repo.own.checks || c in ManifestChecks(manifest)
      ensures exists p :: p in sel.profiles && c in p.checks && IsDone(table, StageCard(b, job, QaSuffix(p)))
    {
      assert RunsCheck(sel, c);
      var p :| p in sel.profiles && c in p.checks;
    }
  }

  // ---------------------------------------------------------------- progress and quiescence

  /** A run of a built workflow makes a bounded number of steps other than heartbeats and refused
      requests: the bound only depends on the plan and the retry limit. */
  lemma WorkflowRunsAreFinite(job: Job, sel: Selection, name: CardKey -> CardId,
                              states: seq<Sys>, events: seq<Event>, lease: nat)
    requires WorkflowRun(job, sel, name, states, events, lease)
    ensures AtomicBehaviour(StoresOf(states), AtomicEventsOf(states, events), lease)
    ensures ProgressSteps(StoresOf(states), AtomicEventsOf(states, events), |events|)
         <= |BuildWorkflow(job, sel)| * (2 * job.maxRetries + 5)
  {
    RunMeasure(job, sel, name, states, events, lease);
    RunRefines(job, sel, name, states, events, lease);
    ProgressIsBounded(StoresOf(states), AtomicEventsOf(states, events), lease,
                      BuiltBoard(job, sel, name).order, |events|);
  }

  lemma RunMeasure(job: Job, sel: Selection, name: CardKey -> CardId, states: seq<Sys>, events: seq<Event>, lease: nat)
    requires WorkflowRun(job, sel, name, states, events, lease)
    ensures Covers(BuiltBoard(job, sel, name).order, states[0].table)
    ensures Measure(states[0].table, BuiltBoard(job, sel, name).order)
         <= |BuildWorkflow(job, sel)| * (2 * job.maxRetries + 5)
  {
    hide BuiltBoard;
    hide StageRows;
    hide Ordered;
    hide FreshNames;
    hide Launched;
    hide Behaviour;
    hide Measure;
    var b := BuiltBoard(job, sel, name);
    BuiltIsLaunched(job, sel, name);
    LaunchedCovers(b, KeyOf(job, "root"), job.maxRetries);
    LaunchedMeasure(b, KeyOf(job, "root"), job.maxRetries, |BuildWorkflow(job, sel)|);
  }

  /** A built workflow never gets stuck on its own dependencies: in a reachable state where dispatch
      can promote nothing and no card is READY or RUNNING, every card is DONE or some card is BLOCKED. */
  lemma WorkflowNeverSticks(job: Job, sel: Selection, name: CardKey -> CardId,
                            states: seq<Sys>, events: seq<Event>, lease: nat, n: nat)
    requires WorkflowRun(job, sel, name, states, events, lease) && n < |states|
    requires forall id :: id in states[n].table ==>
      states[n].table[id].status != Ready && states[n].table[id].status != Running && !IsPromotable(states[n].table, id)
    ensures (forall id :: id in states[n].table ==> states[n].table[id].status == Done)
         || (exists id :: id in states[n].table && states[n].table[id].status == Blocked)
  {
    RunStaysSound(job, sel, name, states, events, lease, n);
    QuiescentIsFinishedOrBlocked(BuiltBoard(job, sel, name).order, states[n].table);
  }

  /** In every reachable state the cards are the built ones, parents come first, and no status is one
      that the workflow does not use. */
  lemma RunStaysSound(job: Job, sel: Selection, name: CardKey -> CardId,
                      states: seq<Sys>, events: seq<Event>, lease: nat, n: nat)
    requires WorkflowRun(job, sel, name, states, events, lease) && n < |states|
    ensures var order, table := BuiltBoard(job, sel, name).order, states[n].table;
            Covers(order, table) && Ordered(order, table) && WorkingStatuses(table)
  {
    var b := BuiltBoard(job, sel, name);
    BuiltIsLaunched(job, sel, name);
    LaunchedCovers(b, KeyOf(job, "root"), job.maxRetries);
    RunRefines(job, sel, name, states, events, lease);
    RunStaysGated(job, sel, name, states, events, lease, 0, n);
    RunKeepsStatuses(StoresOf(states), AtomicEventsOf(states, events), lease, n);
    KeepsOrdered(b.order, states[0].table, states[n].table);
  }

  lemma KeepsOrdered(order: seq<CardId>, first: Table, table: Table)
    requires Covers(order, first) && Ordered(order, first) && Keeps(first, table)
    ensures Covers(order, table) && Ordered(order, table)
  {
    forall i | 0 <= i < |order| ensures OrderedAt(order, table, i) {
      assert OrderedAt(order, first, i);
      assert KeptAt(first, table, order[i]);
    }
  }
}
