/**
 The merge gate over whole histories: worker steps, split promotions and reconcile passes, in any order.

 A pass runs while the holder of the repository lease does nothing else, and as one step.
 */
module MixedRuns {
  import opened Wrappers
  import opened Cards
  import opened CardBoard
  import opened RetryChain
  import opened Reconcile
  import opened ReconcileOps
  import opened BoardFold
  import opened ReconcileInvariant
  import opened ReconcileSafety
  import RetryBudget
  import opened Qa
  import opened Workflow
  import opened Enqueue
  import opened LeaseProtocol
  import opened WorkflowRuns
  import opened BuiltWorkflow
  import opened EnqueuedRetries
  import opened ReconciledWorkflow

  /** The store, its lessee, and the row order and keys that a pass works with. */
  datatype Plant = Plant(sys: Sys, order: seq<CardId>, keys: map<CardKey, CardId>)

  datatype MixedEvent = StoreStep(event: Event) | PassStep(env: Env) | EnqueueStep(spec: CardSpec)

  function BoardOf(p: Plant): Board {
    Board(p.order, p.sys.table, p.keys)
  }

  function PlantAfter(p: Plant, b: Board): Plant {
    Plant(p.sys.(table := b.cards), b.order, b.keys)
  }

  /** A step of the store without administrative writes, a pass, or a card of a further workflow. */
  ghost predicate MixedStep(name: CardKey -> CardId, fallback: nat, used: set<CardKey>, lease: nat,
                            p: Plant, e: MixedEvent, p': Plant)
  {
    match e
    case StoreStep(event) =>
      Enabled(p.sys, event) && !event.AdminWrite? && p' == p.(sys := Next(p.sys, event, lease))
    case PassStep(env) =>
      && p.sys.lessee == Idle && env.name == name && env.maxRetries == fallback && Valid(BoardOf(p))
      && ReconcileInvariant.Covers(used, PassOps(env, Listing(BoardOf(p))))
      && p' == PlantAfter(p, Pass(env, BoardOf(p)))
    case EnqueueStep(spec) =>
      && p.sys.lessee == Idle && RetryBudget.IsPlainSpec(spec) && spec.key in used && spec.status in {Todo, Ready}
      && p' == PlantAfter(p, CardBoard.Create(BoardOf(p), spec, name(spec.key)))
  }

  ghost predicate MixedRun(job: Job, sel: Selection, name: CardKey -> CardId, used: set<CardKey>, lease: nat,
                           plants: seq<Plant>, events: seq<MixedEvent>)
  {
    && PrefixFree(name, used) && CoversPlans(used, BuildWorkflow(job, sel))
    && |plants| == |events| + 1
    && BoardOf(plants[0]) == BuiltBoard(job, sel, name)
    && plants[0].sys.issued == {} && plants[0].sys.lessee == Idle
    && forall i :: 0 <= i < |events| ==>
         MixedStep(name, job.maxRetries, used, lease, plants[i], events[i], plants[i + 1])
  }

  // ---------------------------------------------------------------- the cards of the workflow

  /** What stays of a card that was built: its labels, parents and limit; no failure is recorded where the
      reconciler looks for it; and it leaves TODO only after its parents are DONE. */
  ghost predicate StaysBuilt(built: Table, table: Table, id: CardId)
    requires id in built
  {
    && id in table
    && table[id].labels == built[id].labels
    && table[id].metadata.parents == built[id].metadata.parents
    && table[id].metadata.maxRetries == built[id].metadata.maxRetries
    && table[id].metadata.qaProfile == built[id].metadata.qaProfile
    && table[id].metadata.failureCount.None? && table[id].metadata.attempts.None?
    && (IsDone(built, id) ==> IsDone(table, id))
    && (table[id].status != Todo ==> forall p :: p in built[id].metadata.parents ==> IsDone(table, p))
  }

  ghost predicate AllStayBuilt(built: Table, table: Table) {
    forall id :: id in built ==> StaysBuilt(built, table, id)
  }

  /** A card without the labels of a retry, repair or recovery, and with at least one retry. */
  ghost predicate IsOrdinary(card: Card) {
    && IsUnlabelled(card)
    && card.metadata.maxRetries.Some? && card.metadata.maxRetries.value >= 1
  }

  ghost predicate IsOrdinaryTable(built: Table) {
    && (forall id :: id in built ==> built[id].id == id && IsOrdinary(built[id]))
    && (forall id :: id in built ==> forall p :: p in built[id].metadata.parents ==> p in built)
  }

  /** The invariant of a mixed run. */
  ghost predicate MixedInv(name: CardKey -> CardId, fallback: nat, used: set<CardKey>, built: Table, p: Plant) {
    && Inv(p.sys)
    && RetryBudget.Bounded(BoardOf(p), name, fallback, used)
    && AllStayBuilt(built, p.sys.table)
  }

  // ---------------------------------------------------------------- steps of the store

  lemma StoreStepShape(s: Sys, e: Event, lease: nat)
    requires Inv(s) && Enabled(s, e) && !e.AdminWrite?
    ensures var table' := Next(s, e, lease).table;
            table' == s.table || exists id :: Changes(s.table, table', id)
  {
    StepRefinesAtomic(s, e, lease);
    StepShape(StoreOf(s), AtomicOf(s, e), lease);
  }

  lemma ChangeIsWork(b: Board, table': Table, id: CardId)
    requires Changes(b.cards, table', id)
    ensures RetryBudget.WorkerChange(b, b.(cards := table'))
  {
  }

  lemma ChangeStaysBuilt(built: Table, table: Table, table': Table, id: CardId, x: CardId)
    requires IsOrdinaryTable(built) && AllStayBuilt(built, table) && Changes(table, table', id) && x in built
    ensures StaysBuilt(built, table', x)
    ensures IsDone(table, x) ==> IsDone(table', x)
  {
    assert StaysBuilt(built, table, x);
    forall p | p in built[x].metadata.parents && IsDone(table, p) ensures IsDone(table', p) {
      ChangeKeepsDone(table, table', id, p);
    }
  }

  lemma StoreStepKeeps(name: CardKey -> CardId, fallback: nat, used: set<CardKey>, built: Table, lease: nat,
                       p: Plant, e: Event)
    requires MixedInv(name, fallback, used, built, p) && IsOrdinaryTable(built)
    requires Enabled(p.sys, e) && !e.AdminWrite?
    ensures MixedInv(name, fallback, used, built, p.(sys := Next(p.sys, e, lease)))
    ensures KeepsDone(built, p.sys.table, Next(p.sys, e, lease).table)
  {
    hide Inv;
    hide Next;
    hide Enabled;
    hide RetryBudget.Bounded;
    hide StaysBuilt;
    hide Changes;
    hide RetryBudget.WorkerChange;
    hide IsOrdinaryTable;
    StepKeepsInv(p.sys, e, lease);
    StoreStepShape(p.sys, e, lease);
    var table' := Next(p.sys, e, lease).table;
    if table' != p.sys.table {
      var id :| Changes(p.sys.table, table', id);
      ChangeIsWork(BoardOf(p), table', id);
      RetryBudget.WorkKeepsBounded(BoardOf(p), BoardOf(p).(cards := table'), name, fallback, used);
      forall x | x in built ensures StaysBuilt(built, table', x) && (IsDone(p.sys.table, x) ==> IsDone(table', x)) {
        ChangeStaysBuilt(built, p.sys.table, table', id, x);
      }
    }
  }

  ghost predicate KeepsDone(built: Table, table: Table, table': Table) {
    forall id :: id in built && IsDone(table, id) ==> IsDone(table', id)
  }

  // ---------------------------------------------------------------- passes

  /** What no operation of a pass touches on a card. */
  ghost predicate SameRecord(card: Card, after: Card) {
    && after.id == card.id && after.labels == card.labels
    && after.metadata.parents == card.metadata.parents && after.metadata.maxRetries == card.metadata.maxRetries
    && after.metadata.failureCount == card.metadata.failureCount && after.metadata.attempts == card.metadata.attempts
    && after.metadata.qaProfile == card.metadata.qaProfile
  }

  lemma {:induction false} EffectsKeepRecord(card: Card, ops: seq<Op>)
    ensures SameRecord(card, EffectAll(card, ops))
  {
    if ops != [] {
      EffectsKeepRecord(card, ops[..|ops| - 1]);
    }
  }

  /** A pass takes claims away, and completes no claimed card. */
  lemma {:induction false} EffectsReleaseClaims(env: Env, cards: seq<Card>, i: nat, ops: seq<Op>)
    requires DistinctIds(cards) && i < |cards| && AllJustified(env, cards, ops)
    requires cards[i].metadata.claim.Some? <==> cards[i].status == Running
    ensures var after := EffectAll(cards[i], ops);
            after == cards[i] || (after.metadata.claim.None? && after.status != Running)
  {
    if ops != [] {
      var op := ops[|ops| - 1];
      assert Justified(env, cards, op);
      EffectsReleaseClaims(env, cards, i, ops[..|ops| - 1]);
      if op.CompleteOp? && op.id == cards[i].id {
        var n :| 0 <= n < |cards| && cards[n].id == op.id && IsLeft(cards[n]);
        assert n == i;
      }
    }
  }

  lemma OldRowClaims(env: Env, b: Board, used: set<CardKey>, i: nat)
    requires Sound(b, env.name, used) && ReconcileInvariant.Covers(used, PassOps(env, Listing(b))) && i < |b.order|
    requires ClaimsMatch(b.cards)
    ensures Valid(Pass(env, b)) && i < |Pass(env, b).order|
    ensures var before, after := Listing(b)[i], Listing(Pass(env, b))[i];
            after == before || (after.metadata.claim.None? && after.status != Running)
  {
    ListingAt(b, i);
    assert b.order[i] in b.order;
    ListingIdsDistinct(b);
    PassIsJustified(env, Listing(b));
    EffectsReleaseClaims(env, Listing(b), i, PassOps(env, Listing(b)));
    PassOldRow(env, b, used, i);
  }

  lemma FromPassIsReady(env: Env, cards: seq<Card>, spec: CardSpec, id: CardId)
    requires FromPass(env, cards, spec)
    ensures NewCard(spec, id).status == Ready && NewCard(spec, id).metadata.claim.None?
  {
  }

  lemma NewRowClaims(env: Env, b: Board, used: set<CardKey>, j: nat)
    requires Sound(b, env.name, used) && ReconcileInvariant.Covers(used, PassOps(env, Listing(b)))
    requires Valid(Pass(env, b)) && |b.order| <= j < |Pass(env, b).order|
    ensures var after := Listing(Pass(env, b))[j]; after.metadata.claim.None? && after.status == Ready
  {
    PassIsFold(env, b, used);
    hide Sound;
    hide PassOps;
    hide Pass;
    hide FromPass;
    hide NewCard;
    var specs := NewSpecs(PassOps(env, Listing(b)), b.keys.Keys);
    var n := j - |b.order|;
    assert Listing(Pass(env, b))[j] == NewCards(specs, env.name)[n];
    assert specs[n] in specs;
    FromPassIsReady(env, Listing(b), specs[n], env.name(specs[n].key));
  }

  lemma SoundIsValid(b: Board, name: CardKey -> CardId, used: set<CardKey>)
    requires Sound(b, name, used)
    ensures Valid(b)
  {
  }

  lemma PassRowsGrow(env: Env, b: Board, used: set<CardKey>)
    requires Sound(b, env.name, used) && ReconcileInvariant.Covers(used, PassOps(env, Listing(b)))
    ensures Valid(Pass(env, b)) && |b.order| <= |Pass(env, b).order|
    ensures forall i :: 0 <= i < |b.order| ==> Pass(env, b).order[i] == b.order[i]
  {
    PassIsFold(env, b, used);
    forall i | 0 <= i < |b.order| ensures i < |Pass(env, b).order| && Pass(env, b).order[i] == b.order[i] {
      OldRow(b, Pass(env, b), PassOps(env, Listing(b)), env.name, used, i);
    }
    if |b.order| > 0 {
      OldRow(b, Pass(env, b), PassOps(env, Listing(b)), env.name, used, |b.order| - 1);
    }
  }

  lemma RowAfterPass(env: Env, b: Board, used: set<CardKey>, id: CardId)
    requires Sound(b, env.name, used) && ReconcileInvariant.Covers(used, PassOps(env, Listing(b)))
    requires ClaimsMatch(b.cards) && Valid(Pass(env, b)) && id in Pass(env, b).cards
    ensures var after := Pass(env, b).cards[id];
            && after.id == id
            && ((id in b.cards && after == b.cards[id]) || (after.metadata.claim.None? && after.status != Running))
  {
    var m := Pass(env, b);
    assert id in m.order;
    var j :| 0 <= j < |m.order| && m.order[j] == id;
    ListingAt(m, j);
    PassRowsGrow(env, b, used);
    if j < |b.order| {
      ListingAt(b, j);
      assert b.order[j] in b.order;
      OldRowClaims(env, b, used, j);
    } else {
      NewRowClaims(env, b, used, j);
    }
  }

  lemma PassKeepsInv(env: Env, p: Plant, used: set<CardKey>)
    requires Inv(p.sys) && p.sys.lessee == Idle && Sound(BoardOf(p), env.name, used)
    requires ReconcileInvariant.Covers(used, PassOps(env, Listing(BoardOf(p))))
    ensures Inv(PlantAfter(p, Pass(env, BoardOf(p))).sys)
  {
    hide PassOps;
    hide Sound;
    var b := BoardOf(p);
    SoundIsValid(b, env.name, used);
    PassRowsGrow(env, b, used);
    var m := Pass(env, b);
    forall id | id in m.cards
      ensures m.cards[id].id == id && (m.cards[id].metadata.claim.Some? <==> m.cards[id].status == Running)
      ensures m.cards[id].metadata.claim.Some? ==> m.cards[id].metadata.claim.value.token in p.sys.issued
    {
      RowAfterPass(env, b, used, id);
    }
  }

  lemma {:induction false} WaitingStays(env: Env, card: Card, cards: seq<Card>)
    requires IsOrdinary(card) && card.metadata.failureCount.None? && card.metadata.attempts.None?
    requires card.status == Todo
    ensures OwnSteps(env, card, cards) == card
  {
    hide HasValidMergePredecessor;
    hide TargetIsSettled;
    assert StepOps(env, 0, card, cards) == [] && StepOps(env, 1, card, cards) == [];
    assert StepOps(env, 2, card, cards) == [] && MainOps(env, card, cards) == [];
  }

  predicate IsUndone(op: Op, id: CardId) {
    (op.ReclaimOp? || op.ReassignOp?) && op.id == id
  }

  lemma {:induction false} DoneStays(card: Card, ops: seq<Op>)
    requires card.status == Done && forall k :: 0 <= k < |ops| ==> !IsUndone(ops[k], card.id)
    ensures EffectAll(card, ops).status == Done
  {
    if ops != [] {
      DoneStays(card, ops[..|ops| - 1]);
    }
  }

  lemma {:induction false} NeverBackToTodo(env: Env, cards: seq<Card>, card: Card, ops: seq<Op>)
    requires AllJustified(env, cards, ops) && card.status != Todo
    ensures EffectAll(card, ops).status != Todo
  {
    if ops != [] {
      assert Justified(env, cards, ops[|ops| - 1]);
      NeverBackToTodo(env, cards, card, ops[..|ops| - 1]);
    }
  }

  lemma FreshRetryUndoesNothing(env: Env, card: Card, cards: seq<Card>, id: CardId)
    requires CardStage(card).Some?
    ensures forall op :: op in FreshRetryOps(env, card, cards) ==> !IsUndone(op, id)
    ensures forall op :: op in GuardedRetryOps(env, card, cards) ==> !IsUndone(op, id)
  {
  }

  /** The turn of a DONE card may complete it again or retry it, but not move it. */
  lemma DoneTurn(env: Env, card: Card, cards: seq<Card>, phase: nat)
    requires card.status == Done
    ensures forall op :: op in StepOps(env, phase, card, cards) ==> !IsUndone(op, card.id)
  {
    hide HasValidMergePredecessor;
    hide HasValidCompletion;
    hide RepairIsObsolete;
    hide FreshRetryOps;
    hide GuardedRetryOps;
    if CardStage(card).Some? {
      FreshRetryUndoesNothing(env, card, cards, card.id);
    }
  }

  lemma StepKeepsDone(env: Env, phase: nat, card: Card, cards: seq<Card>, c: Card)
    requires card.status == Done && c.status == Done && c.id == card.id
    ensures EffectAll(c, StepOps(env, phase, card, cards)).status == Done
  {
    var ops := StepOps(env, phase, card, cards);
    DoneTurn(env, card, cards, phase);
    assert forall k :: 0 <= k < |ops| ==> ops[k] in ops;
    DoneStays(c, ops);
  }

  lemma OwnStepsKeepDone(env: Env, card: Card, cards: seq<Card>)
    requires card.status == Done
    ensures OwnSteps(env, card, cards).status == Done
  {
    hide StepOps;
    var c0 := EffectAll(card, StepOps(env, 0, card, cards));
    StepKeepsDone(env, 0, card, cards, card);
    var c1 := EffectAll(c0, StepOps(env, 1, card, cards));
    StepKeepsDone(env, 1, card, cards, c0);
    var c2 := EffectAll(c1, StepOps(env, 2, card, cards));
    StepKeepsDone(env, 2, card, cards, c1);
    StepKeepsDone(env, 3, card, cards, c2);
  }

  /** A pass on an ordinary card: one that waits goes on waiting, one that is DONE stays DONE, and none starts
      to wait. */
  lemma OrdinaryAfterPass(env: Env, b: Board, used: set<CardKey>, id: CardId)
    requires Sound(b, env.name, used) && ReconcileInvariant.Covers(used, PassOps(env, Listing(b)))
    requires id in b.cards && IsOrdinary(b.cards[id])
    requires b.cards[id].metadata.failureCount.None? && b.cards[id].metadata.attempts.None?
    ensures var m := Pass(env, b);
            && id in m.cards && SameRecord(b.cards[id], m.cards[id])
            && (b.cards[id].status == Todo <==> m.cards[id].status == Todo)
            && (b.cards[id].status == Done ==> m.cards[id].status == Done)
  {
    hide PassOps;
    hide OwnSteps;
    var m := Pass(env, b);
    assert id in b.order;
    var i :| 0 <= i < |b.order| && b.order[i] == id;
    ListingAt(b, i);
    PassRowsGrow(env, b, used);
    ListingAt(m, i);
    assert m.order[i] in m.order;
    PassOldRow(env, b, used, i);
    EffectsKeepRecord(Listing(b)[i], PassOps(env, Listing(b)));
    PassIsLocal(env, b, used, i);
    PassIsJustified(env, Listing(b));
    if b.cards[id].status == Todo {
      WaitingStays(env, b.cards[id], Listing(b));
    } else {
      NeverBackToTodo(env, Listing(b), Listing(b)[i], PassOps(env, Listing(b)));
      if b.cards[id].status == Done {
        OwnStepsKeepDone(env, b.cards[id], Listing(b));
      }
    }
  }

  lemma BuiltStaysOrdinary(built: Table, table: Table, id: CardId)
    requires IsOrdinaryTable(built) && id in built && StaysBuilt(built, table, id)
    ensures id in table && IsOrdinary(table[id])
    ensures table[id].metadata.failureCount.None? && table[id].metadata.attempts.None?
  {
  }

  lemma PassStaysBuilt(env: Env, b: Board, used: set<CardKey>, built: Table, id: CardId)
    requires Sound(b, env.name, used) && ReconcileInvariant.Covers(used, PassOps(env, Listing(b)))
    requires IsOrdinaryTable(built) && AllStayBuilt(built, b.cards) && id in built
    ensures StaysBuilt(built, Pass(env, b).cards, id)
    ensures IsDone(b.cards, id) ==> IsDone(Pass(env, b).cards, id)
  {
    hide Sound;
    hide PassOps;
    hide Pass;
    hide IsOrdinary;
    SoundIsValid(b, env.name, used);
    BuiltStaysOrdinary(built, b.cards, id);
    OrdinaryAfterPass(env, b, used, id);
    forall p | p in built[id].metadata.parents && IsDone(b.cards, p) ensures IsDone(Pass(env, b).cards, p) {
      BuiltStaysOrdinary(built, b.cards, p);
      OrdinaryAfterPass(env, b, used, p);
    }
  }

  lemma PassStepKeeps(name: CardKey -> CardId, fallback: nat, used: set<CardKey>, built: Table, p: Plant, env: Env)
    requires MixedInv(name, fallback, used, built, p) && IsOrdinaryTable(built)
    requires p.sys.lessee == Idle && env.name == name && env.maxRetries == fallback
    requires ReconcileInvariant.Covers(used, PassOps(env, Listing(BoardOf(p))))
    ensures MixedInv(name, fallback, used, built, PlantAfter(p, Pass(env, BoardOf(p))))
    ensures KeepsDone(built, p.sys.table, Pass(env, BoardOf(p)).cards)
  {
    hide Inv;
    hide PassOps;
    hide StaysBuilt;
    hide IsOrdinaryTable;
    PassKeepsInv(env, p, used);
    RetryBudget.PassKeepsBudget(env, BoardOf(p), used);
    forall id | id in built
      ensures StaysBuilt(built, Pass(env, BoardOf(p)).cards, id)
      ensures IsDone(p.sys.table, id) ==> IsDone(Pass(env, BoardOf(p)).cards, id)
    {
      PassStaysBuilt(env, BoardOf(p), used, built, id);
    }
  }

  // ---------------------------------------------------------------- further cards

  lemma AddedKeepsInv(s: Sys, spec: CardSpec, id: CardId)
    requires Inv(s) && s.lessee == Idle && id !in s.table && spec.status in {Todo, Ready}
    ensures Inv(s.(table := s.table[id := NewCard(spec, id)]))
  {
  }

  lemma AddedStaysBuilt(built: Table, table: Table, id: CardId, card: Card)
    requires AllStayBuilt(built, table) && id !in table
    ensures AllStayBuilt(built, table[id := card]) && KeepsDone(built, table, table[id := card])
  {
    forall x | x in built ensures StaysBuilt(built, table[id := card], x) {
      assert StaysBuilt(built, table, x);
    }
  }

  lemma NothingAdded(p: Plant, built: Table)
    ensures PlantAfter(p, BoardOf(p)) == p && KeepsDone(built, p.sys.table, p.sys.table)
  {
  }

  lemma EnqueueStepKeeps(name: CardKey -> CardId, fallback: nat, used: set<CardKey>, built: Table, p: Plant,
                         spec: CardSpec)
    requires MixedInv(name, fallback, used, built, p) && p.sys.lessee == Idle
    requires RetryBudget.IsPlainSpec(spec) && spec.key in used && spec.status in {Todo, Ready}
    ensures var b := CardBoard.Create(BoardOf(p), spec, name(spec.key));
            MixedInv(name, fallback, used, built, PlantAfter(p, b)) && KeepsDone(built, p.sys.table, b.cards)
  {
    hide RetryBudget.Bounded;
    hide RetryBudget.IsPlainSpec;
    hide Inv;
    hide AllStayBuilt;
    hide KeepsDone;
    hide NewCard;
    RetryBudget.EnqueueKeepsBounded(BoardOf(p), spec, name, fallback, used);
    NothingAdded(p, built);
    if spec.key !in p.keys {
      var id := name(spec.key);
      NewIdIsFresh(BoardOf(p), name, fallback, used, spec.key);
      AddedKeepsInv(p.sys, spec, id);
      AddedStaysBuilt(built, p.sys.table, id, NewCard(spec, id));
    }
  }

  lemma NewIdIsFresh(b: Board, name: CardKey -> CardId, fallback: nat, used: set<CardKey>, key: CardKey)
    requires RetryBudget.Bounded(b, name, fallback, used) && key in used && key !in b.keys
    ensures name(key) !in b.cards
  {
    FreshId(b, name, used, key);
  }

  // ---------------------------------------------------------------- whole runs

  lemma MixedStepKeeps(name: CardKey -> CardId, fallback: nat, used: set<CardKey>, built: Table, lease: nat,
                       p: Plant, e: MixedEvent, p': Plant)
    requires MixedInv(name, fallback, used, built, p) && IsOrdinaryTable(built)
    requires MixedStep(name, fallback, used, lease, p, e, p')
    ensures MixedInv(name, fallback, used, built, p') && KeepsDone(built, p.sys.table, p'.sys.table)
  {
    hide MixedInv;
    hide IsOrdinaryTable;
    match e
    case StoreStep(event) => StoreStepKeeps(name, fallback, used, built, lease, p, event);
    case PassStep(env) => PassStepKeeps(name, fallback, used, built, p, env);
    case EnqueueStep(spec) => EnqueueStepKeeps(name, fallback, used, built, p, spec);
  }

  lemma {:induction false} RunKeepsMixedInv(job: Job, sel: Selection, name: CardKey -> CardId, used: set<CardKey>,
                                            lease: nat, plants: seq<Plant>, events: seq<MixedEvent>, m: nat, n: nat)
    requires MixedRun(job, sel, name, used, lease, plants, events) && m <= n < |plants|
    requires IsOrdinaryTable(plants[0].sys.table)
    requires MixedInv(name, job.maxRetries, used, plants[0].sys.table, plants[m])
    ensures MixedInv(name, job.maxRetries, used, plants[0].sys.table, plants[n])
    ensures KeepsDone(plants[0].sys.table, plants[m].sys.table, plants[n].sys.table)
    decreases n
  {
    hide MixedInv;
    hide IsOrdinaryTable;
    hide MixedStep;
    if m < n {
      RunKeepsMixedInv(job, sel, name, used, lease, plants, events, m, n - 1);
      MixedStepKeeps(name, job.maxRetries, used, plants[0].sys.table, lease, plants[n - 1], events[n - 1], plants[n]);
    }
  }

  lemma LaunchedIsOrdinary(b: Board, root: CardKey, limit: nat)
    requires Launched(b, root, limit) && limit >= 1
    requires forall j :: 0 <= j < |b.order| ==> IsUnlabelled(Listing(b)[j])
    ensures IsOrdinaryTable(b.cards) && AllStayBuilt(b.cards, b.cards)
  {
    forall id | id in b.cards
      ensures IsOrdinary(b.cards[id]) && forall p :: p in b.cards[id].metadata.parents ==> p in b.cards
    {
      assert id in b.order;
      var i :| 0 <= i < |b.order| && b.order[i] == id;
      ListingAt(b, i);
      assert OrderedAt(b.order, b.cards, i);
      forall p | p in b.cards[id].metadata.parents ensures p in b.cards {
        assert p in b.order[..i];
        assert p in b.order;
      }
      var card := b.cards[id];
      assert IsUntouched(card.(status := Todo), limit);
    }
    forall id | id in b.cards ensures StaysBuilt(b.cards, b.cards, id) {
      assert IsUntouched(b.cards[id].(status := Todo), limit);
    }
  }

  lemma RunStartsSound(job: Job, sel: Selection, name: CardKey -> CardId, used: set<CardKey>, lease: nat,
                       plants: seq<Plant>, events: seq<MixedEvent>)
    requires MixedRun(job, sel, name, used, lease, plants, events) && job.maxRetries >= 1
    ensures FreshNames(job, sel, name) && IsOrdinaryTable(plants[0].sys.table)
    ensures MixedInv(name, job.maxRetries, used, plants[0].sys.table, plants[0])
  {
    hide BuildWorkflow;
    hide BuiltBoard;
    hide PrefixFree;
    hide RetryBudget.Bounded;
    hide Launched;
    hide Sound;
    var b := BuiltBoard(job, sel, name);
    NamesAreFresh(job, sel, name, used);
    BuiltIsLaunched(job, sel, name);
    LaunchedIsGated(b, KeyOf(job, "root"), job.maxRetries, plants[0].sys.now);
    BuiltIsSound(job, sel, name, used);
    SoundIsValid(b, name, used);
    RetryBudget.FreshBoardIsBounded(b, name, job.maxRetries, used);
    LaunchedIsOrdinary(b, KeyOf(job, "root"), job.maxRetries);
    assert BoardOf(plants[0]) == b;
  }

  // ---------------------------------------------------------------- the merge gate

  /** The table of the built cards only. */
  ghost function Restricted(built: Table, table: Table): Table {
    map id | id in built && id in table :: table[id]
  }

  lemma RestrictedIsGated(built: Table, table: Table)
    requires IsOrdinaryTable(built) && AllStayBuilt(built, table)
    ensures Gated(Restricted(built, table)) && Keeps(built, Restricted(built, table))
  {
    var t := Restricted(built, table);
    forall id | id in t ensures GatedAt(t, id) && KeptAt(built, t, id) {
      assert StaysBuilt(built, table, id);
    }
    forall id | id in built ensures id in t {
      assert StaysBuilt(built, table, id);
    }
  }

  /** A merge card that has left TODO has all its gates DONE. */
  ghost predicate IsGuardedMerge(job: Job, sel: Selection, b: Board, table: Table) {
    var merge := StageCard(b, job, "merge");
    merge in table && (table[merge].status != Todo ==> GatesDone(job, sel, b, table))
  }

  lemma BuiltMergeIsGuarded(job: Job, sel: Selection, name: CardKey -> CardId, table: Table)
    requires FreshNames(job, sel, name) && job.kind != IssueAction && job.policy == AutoMerge
    requires IsOrdinaryTable(BuiltBoard(job, sel, name).cards) && AllStayBuilt(BuiltBoard(job, sel, name).cards, table)
    ensures IsGuardedMerge(job, sel, BuiltBoard(job, sel, name), table)
  {
    hide BuiltBoard;
    hide FreshNames;
    hide Gated;
    hide Keeps;
    var b := BuiltBoard(job, sel, name);
    var t := Restricted(b.cards, table);
    RestrictedIsGated(b.cards, table);
    MergeNeedsGates(job, sel, name, t);
    assert forall id :: IsDone(t, id) ==> IsDone(table, id);
  }

  /** With at least one retry the merge gate survives every mixture of worker steps, promotions, further
      cards and reconcile passes, and what it rests on stays DONE. */
  lemma MergeGateSurvivesPasses(job: Job, sel: Selection, name: CardKey -> CardId, used: set<CardKey>, lease: nat,
                                plants: seq<Plant>, events: seq<MixedEvent>, n: nat, later: nat)
    requires MixedRun(job, sel, name, used, lease, plants, events) && n <= later < |plants|
    requires job.kind != IssueAction && job.policy == AutoMerge && job.maxRetries >= 1
    ensures var b := BuiltBoard(job, sel, name);
            && IsGuardedMerge(job, sel, b, plants[n].sys.table)
            && KeepsDone(b.cards, plants[n].sys.table, plants[later].sys.table)
  {
    hide MixedStep;
    hide BuiltBoard;
    hide FreshNames;
    hide IsOrdinaryTable;
    hide AllStayBuilt;
    hide IsGuardedMerge;
    RunStartsSound(job, sel, name, used, lease, plants, events);
    RunKeepsMixedInv(job, sel, name, used, lease, plants, events, 0, n);
    RunKeepsMixedInv(job, sel, name, used, lease, plants, events, n, later);
    assert BoardOf(plants[0]).cards == plants[0].sys.table;
    BuiltMergeIsGuarded(job, sel, name, plants[n].sys.table);
  }

  /** The merge gate holds in every reachable state of every mixed run. */
  ghost predicate MergeGateHolds(job: Job, sel: Selection, name: CardKey -> CardId, used: set<CardKey>, lease: nat) {
    forall plants: seq<Plant>, events, n: nat ::
      MixedRun(job, sel, name, used, lease, plants, events) && n < |plants| ==>
        IsGuardedMerge(job, sel, BuiltBoard(job, sel, name), plants[n].sys.table)
  }

  lemma OnePassRun(job: Job, sel: Selection, env: Env, used: set<CardKey>, lease: nat)
    returns (plants: seq<Plant>, events: seq<MixedEvent>)
    requires IsFirstPass(job, sel, env, used) && env.maxRetries == job.maxRetries
    ensures MixedRun(job, sel, env.name, used, lease, plants, events) && |plants| == 2
    ensures plants[1].sys.table == Pass(env, BuiltBoard(job, sel, env.name)).cards
  {
    hide BuiltBoard;
    hide BuildWorkflow;
    hide PassOps;
    hide Pass;
    var b := BuiltBoard(job, sel, env.name);
    var p := Plant(Sys(b.cards, 0, {}, Idle), b.order, b.keys);
    assert BoardOf(p) == b;
    plants, events := [p, PlantAfter(p, Pass(env, b))], [PassStep(env)];
    assert MixedStep(env.name, job.maxRetries, used, lease, plants[0], events[0], plants[1]);
  }

  /** The merge gate holds over all mixed runs of an auto-merge workflow exactly when its retry limit is at
      least one. */
  lemma MergeGateHoldsIff(job: Job, sel: Selection, env: Env, used: set<CardKey>, lease: nat)
    requires IsFirstPass(job, sel, env, used) && env.maxRetries == job.maxRetries
    requires job.kind != IssueAction && job.policy == AutoMerge
    ensures MergeGateHolds(job, sel, env.name, used, lease) <==> job.maxRetries >= 1
  {
    hide MixedRun;
    hide BuiltBoard;
    hide IsFirstPass;
    if job.maxRetries >= 1 {
      forall plants: seq<Plant>, events, n: nat | MixedRun(job, sel, env.name, used, lease, plants, events)
        && n < |plants|
        ensures IsGuardedMerge(job, sel, BuiltBoard(job, sel, env.name), plants[n].sys.table)
      {
        MergeGateSurvivesPasses(job, sel, env.name, used, lease, plants, events, n, n);
      }
    } else {
      var plants, events := OnePassRun(job, sel, env, used, lease);
      OpenedGate(job, sel, env, used);
      assert !IsGuardedMerge(job, sel, BuiltBoard(job, sel, env.name), plants[1].sys.table);
    }
  }

  /** Without retries the first pass releases the merge card, and its final review is not DONE. */
  lemma OpenedGate(job: Job, sel: Selection, env: Env, used: set<CardKey>)
    requires IsFirstPass(job, sel, env, used) && job.kind != IssueAction && job.policy == AutoMerge
    requires job.maxRetries == 0
    ensures Valid(BuiltBoard(job, sel, env.name))
    ensures !IsGuardedMerge(job, sel, BuiltBoard(job, sel, env.name), Pass(env, BuiltBoard(job, sel, env.name)).cards)
  {
    hide BuiltBoard;
    hide Pass;
    ZeroRetriesOpenTheMergeGate(job, sel, env, used);
  }
}
