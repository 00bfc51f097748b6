/**
 One turn of a card in a reconcile pass: whose proof it consults, and what it may do to the board.
 */
module Turns {
  import opened Wrappers
  import opened Cards
  import opened ProofErrors
  import opened CardBoard
  import opened RetryChain
  import opened Reconcile
  import opened ReconcileOps
  import opened BoardFold
  import opened Inspections

  // ---------------------------------------------------------------- whose proof a turn consults

  /** Naming the final reviews in the notes of a merge retry. */
  function FreshRetryConsults(card: Card, cards: seq<Card>): seq<Card> {
    if ActiveRetry(cards, card.id, 0).None? && CardStage(card) == Some(Merge) then
      MergeConsults(card, cards, |cards|)
    else []
  }

  function GuardedConsults(env: Env, card: Card, cards: seq<Card>): seq<Card> {
    if ActiveRetry(cards, card.id, 0).Some? || RetryExhausted(env, card, cards) then []
    else FreshRetryConsults(card, cards)
  }

  function UnprovenConsults(env: Env, card: Card, cards: seq<Card>): seq<Card> {
    if FirstProven(env, cards, card.id, 0).Some? then [] else GuardedConsults(env, card, cards)
  }

  predicate IsStaleFinal(card: Card) {
    CardStage(card) == Some(FinalReview) && IsStaleGateBlock(BlockReason(card))
  }

  function BlockedGateConsults(env: Env, card: Card, cards: seq<Card>): seq<Card> {
    (if IsStaleFinal(card) then PredecessorConsults(env, card, cards, 0) else [])
    + (if IsStaleFinal(card) && HasValidPredecessors(env, card, cards) then FreshRetryConsults(card, cards)
       else
         RepairConsults(env, RepairsOf(cards, card.id), 0)
         + (if HasFinishedRepair(env, RepairsOf(cards, card.id)) then GuardedConsults(env, card, cards) else []))
  }

  function BlockedConsults(env: Env, card: Card, cards: seq<Card>): seq<Card> {
    if IsOwnerBlocked(card) || IsCancelled(card) || FirstProven(env, cards, card.id, 0).Some? then []
    else if CardStage(card) == Some(Merge) then
      MergeConsults(card, cards, |cards|)
      + (if HasValidMergePredecessor(env, card, cards) then FreshRetryConsults(card, cards) else [])
    else if IsGate(CardStage(card)) then BlockedGateConsults(env, card, cards)
    else []
  }

  /** After the early exits: the retries of every card, and its own completion where that matters. */
  function StatusConsults(env: Env, card: Card, cards: seq<Card>): seq<Card> {
    DescendantConsults(env, cards, card.id, 0)
    + (if (card.status == InReview || card.status == Done) && CardStage(card).Some? then
         [card] + (if HasValidCompletion(env, card) then [] else UnprovenConsults(env, card, cards))
       else if card.status == Blocked then BlockedConsults(env, card, cards)
       else [])
  }

  /** A merge card that failed, and is no retry itself. */
  predicate IsFailedOriginal(card: Card) {
    CardStage(card) == Some(Merge) && HasFailureEvidence(card) && RetryFor(card).None?
  }

  function MergeTurnConsults(env: Env, card: Card, cards: seq<Card>): seq<Card> {
    (if IsFailedOriginal(card) then MergeConsults(card, cards, |cards|) else [])
    + (if IsFailedOriginal(card) && HasValidMergePredecessor(env, card, cards) then FreshRetryConsults(card, cards)
       else if IsWaiting(card) && FailureCount(card) > RetryLimit(card, env.maxRetries) then []
       else StatusConsults(env, card, cards))
  }

  function MainConsults(env: Env, card: Card, cards: seq<Card>): seq<Card> {
    if card.metadata.archived then []
    else
      (if CardStage(card) == Some(Repair) then RepairTargetConsults(env, card, cards) else [])
      + (if CardStage(card) == Some(Repair) && RepairIsObsolete(env, card, cards) then []
         else MergeTurnConsults(env, card, cards))
  }

  /** The cards consulted in the turn of a card in one of the four loops. */
  function TurnConsults(env: Env, phase: nat, card: Card, cards: seq<Card>): seq<Card> {
    if phase == 0 then
      if IsWaiting(card) && RetryFor(card).Some? then AncestorConsults(env.policy, cards, TagOf(card), {}) else []
    else if phase == 1 then
      if IsWaiting(card) && CardStage(card) == Some(ControlPlaneAction) then RecoveryConsults(env, card, cards) else []
    else if phase == 2 then
      if IsWaiting(card) && CardStage(card) == Some(Repair) then RepairTargetConsults(env, card, cards) else []
    else MainConsults(env, card, cards)
  }

  /** Some card that the turn consults makes the proof check raise. */
  predicate TurnRaises(env: Env, phase: nat, card: Card, cards: seq<Card>) {
    AnyRaises(env.policy, TurnConsults(env, phase, card, cards))
  }

  /** Some card that some turn of the pass consults does. */
  ghost predicate PassRaises(env: Env, cards: seq<Card>) {
    exists phase: nat, i :: phase < 4 && 0 <= i < |cards| && TurnRaises(env, phase, cards[i], cards)
  }

  // ---------------------------------------------------------------- the first turn that raises

  /** The loop of a phase stops at the first turn that raises. */
  ghost predicate IsStop(env: Env, phase: nat, cards: seq<Card>, done: nat) {
    && done <= |cards|
    && (forall i :: 0 <= i < done ==> !TurnRaises(env, phase, cards[i], cards))
    && (done < |cards| ==> TurnRaises(env, phase, cards[done], cards))
  }

  ghost predicate NoRaiseBefore(env: Env, cards: seq<Card>, phase: nat) {
    forall earlier: nat, i :: earlier < phase && 0 <= i < |cards| ==> !TurnRaises(env, earlier, cards[i], cards)
  }

  ghost predicate IsFirstRaise(env: Env, cards: seq<Card>, phase: nat, done: nat) {
    phase < 4 && done < |cards| && NoRaiseBefore(env, cards, phase) && IsStop(env, phase, cards, done)
  }

  /** The operations of the loops before a phase, and of its first `n` turns. */
  function OpsBefore(env: Env, cards: seq<Card>, phase: nat, n: nat): seq<Op>
    requires n <= |cards|
    decreases phase
  {
    (if phase == 0 then [] else OpsBefore(env, cards, phase - 1, |cards|)) + PhaseOps(env, phase, cards, n)
  }

  lemma OpsAfter(env: Env, cards: seq<Card>, phase: nat, done: nat)
    requires phase < 4 && done <= |cards|
    ensures OpsBefore(env, cards, phase, 0) + PhaseOps(env, phase, cards, done) == OpsBefore(env, cards, phase, done)
    ensures OpsBefore(env, cards, phase, |cards|) == OpsBefore(env, cards, phase + 1, 0)
    ensures OpsBefore(env, cards, 3, |cards|) == PassOps(env, cards)
  {
    hide StepOps;
    var n := |cards|;
    assert PhaseOps(env, phase, cards, 0) == [] && PhaseOps(env, phase + 1, cards, 0) == [];
    assert OpsBefore(env, cards, 0, n) == PhaseOps(env, 0, cards, n);
    assert OpsBefore(env, cards, 1, n) == OpsBefore(env, cards, 0, n) + PhaseOps(env, 1, cards, n);
    assert OpsBefore(env, cards, 2, n) == OpsBefore(env, cards, 1, n) + PhaseOps(env, 2, cards, n);
    assert OpsBefore(env, cards, 3, n) == OpsBefore(env, cards, 2, n) + PhaseOps(env, 3, cards, n);
  }

  lemma RaiseIsFirst(env: Env, cards: seq<Card>, phase: nat, done: nat)
    requires phase < 4 && NoRaiseBefore(env, cards, phase) && IsStop(env, phase, cards, done) && done < |cards|
    ensures IsFirstRaise(env, cards, phase, done) && PassRaises(env, cards)
  {
    hide TurnRaises;
  }

  // ---------------------------------------------------------------- what a turn may do

  /** The rows that the turn of a card may change: its own and those of its repairs. */
  ghost predicate MayChange(card: Card, cards: seq<Card>, id: CardId) {
    id == card.id || exists r :: r in cards && r.id == id && IsRepairFor(r, card.id)
  }

  /** The keys that the turn of a card may create, one of them at most: its next retry, unless one is open or
      the budget is used up; its repair, unless it has one; the next recovery of the card, of its open retry
      or of its last repair, unless one is open. */
  ghost predicate MayCreate(env: Env, card: Card, cards: seq<Card>, key: CardKey) {
    match key
    case WorkKey(_, _) => false
    case RetryKey(source, attempt) =>
      && source == card.id && attempt == |RetriesOf(cards, card.id)| + 1 && CardStage(card).Some?
      && (forall c :: c in cards && IsOpen(c) ==> !IsRetryFor(c, card.id))
      && (RetryExhausted(env, card, cards) ==> IsUnguarded(env, card, cards))
    case RepairKey(gate, failures) =>
      && gate == card.id && failures == FailureCount(card) && card.status == Blocked && IsGate(CardStage(card))
      && (forall c :: c in cards ==> !IsRepairFor(c, card.id))
    case RecoveryKey(failed, attempt) =>
      && attempt == |RecoveriesOf(cards, failed)| + 1
      && (forall c :: c in cards && IsOpen(c) ==> !IsRecoveryFor(c, failed))
      && (failed == card.id
          || exists c :: c in cards && c.id == failed && IsDelegate(c, card.id))
  }

  /** An open retry of the card, or one of its repairs. */
  predicate IsDelegate(c: Card, id: CardId) {
    (IsOpen(c) && IsRetryFor(c, id)) || IsRepairFor(c, id)
  }

  ghost predicate Allowed(env: Env, card: Card, cards: seq<Card>, op: Op) {
    if IsCreate(op) then MayCreate(env, card, cards, op.spec.key) else MayChange(card, cards, op.id)
  }

  function CountCreates(ops: seq<Op>): nat {
    if ops == [] then 0 else CountCreates(ops[..|ops| - 1]) + (if IsCreate(ops[|ops| - 1]) then 1 else 0)
  }

  ghost predicate IsTurn(env: Env, card: Card, cards: seq<Card>, ops: seq<Op>) {
    CountCreates(ops) <= 1 && forall k :: 0 <= k < |ops| ==> Allowed(env, card, cards, ops[k])
  }

  lemma OneIsTurn(env: Env, card: Card, cards: seq<Card>, op: Op)
    requires Allowed(env, card, cards, op)
    ensures IsTurn(env, card, cards, [op])
  {
    assert [op][..0] == [];
  }

  lemma RecoveryIsTurn(env: Env, card: Card, cards: seq<Card>, failed: Card)
    requires failed.id == card.id || (failed in cards && IsDelegate(failed, card.id))
    ensures IsTurn(env, card, cards, RecoveryOps(env, failed, cards))
  {
    hide IsRecoveryFor;
    hide IsOpen;
    hide IsDelegate;
    if !HasOpenRecovery(cards, failed.id) {
      OneIsTurn(env, card, cards, CreateReadyOp(RecoverySpec(env, failed, cards)));
    }
  }

  lemma FreshRetryIsTurn(env: Env, card: Card, cards: seq<Card>)
    requires CardStage(card).Some? && (RetryExhausted(env, card, cards) ==> IsUnguarded(env, card, cards))
    ensures IsTurn(env, card, cards, FreshRetryOps(env, card, cards))
  {
    hide RetryExhausted;
    hide IsUnguarded;
    hide IsRetryFor;
    hide IsOpen;
    if ActiveRetry(cards, card.id, 0).None? {
      OneIsTurn(env, card, cards, CreateReadyOp(RetrySpec(env, card, cards)));
    }
  }

  lemma GuardedIsTurn(env: Env, card: Card, cards: seq<Card>)
    requires CardStage(card).Some?
    ensures IsTurn(env, card, cards, GuardedRetryOps(env, card, cards))
  {
    hide RetryExhausted;
    hide IsTurn;
    hide RecoveryOps;
    hide FreshRetryOps;
    NothingIsTurn(env, card, cards);
    match ActiveRetry(cards, card.id, 0)
    case Some(i) => RecoveryIsTurn(env, card, cards, cards[i]);
    case None =>
      RecoveryIsTurn(env, card, cards, card);
      if !RetryExhausted(env, card, cards) {
        FreshRetryIsTurn(env, card, cards);
      }
  }

  lemma NothingIsTurn(env: Env, card: Card, cards: seq<Card>)
    ensures IsTurn(env, card, cards, [])
  {
  }

  lemma {:induction false} CancelIsTurn(env: Env, card: Card, cards: seq<Card>, repairs: seq<Card>)
    requires forall r :: r in repairs ==> r in cards && IsRepairFor(r, card.id)
    ensures CountCreates(CancelOps(repairs)) == 0 && IsTurn(env, card, cards, CancelOps(repairs))
  {
    hide IsRepairFor;
    if repairs != [] {
      var earlier, repair := CancelOps(repairs[..|repairs| - 1]), repairs[|repairs| - 1];
      CancelIsTurn(env, card, cards, repairs[..|repairs| - 1]);
      assert repair in repairs;
      assert (earlier + [ReclaimOp(repair.id, Blocked)])[..|earlier|] == earlier;
    }
  }

  lemma {:induction false} CountConcat(xs: seq<Op>, ys: seq<Op>)
    ensures CountCreates(xs + ys) == CountCreates(xs) + CountCreates(ys)
  {
    if ys == [] {
      assert xs + ys == xs;
    } else {
      assert (xs + ys)[..|xs + ys| - 1] == xs + ys[..|ys| - 1];
      CountConcat(xs, ys[..|ys| - 1]);
    }
  }

  lemma ConcatIsTurn(env: Env, card: Card, cards: seq<Card>, xs: seq<Op>, ys: seq<Op>)
    requires IsTurn(env, card, cards, xs) && CountCreates(xs) == 0 && IsTurn(env, card, cards, ys)
    ensures IsTurn(env, card, cards, xs + ys)
  {
    hide Allowed;
    CountConcat(xs, ys);
  }

  lemma RecoverCardIsTurn(env: Env, card: Card, cards: seq<Card>, target: Card)
    requires target.id == card.id || (target in cards && IsRepairFor(target, card.id))
    ensures IsTurn(env, card, cards, RecoverCardOps(env, target))
  {
    hide IsRepairFor;
    OneIsTurn(env, card, cards, ReclaimOp(target.id, Ready));
    OneIsTurn(env, card, cards, ReassignOp(target.id, env.captain));
  }

  lemma RepairIsTurn(env: Env, card: Card, cards: seq<Card>)
    requires card.status == Blocked && IsGate(CardStage(card)) && RepairsOf(cards, card.id) == []
    ensures IsTurn(env, card, cards, [CreateOp(RepairSpec(env, card))])
  {
    hide IsRepairFor;
    NoRepairs(cards, card.id);
    OneIsTurn(env, card, cards, CreateOp(RepairSpec(env, card)));
  }

  lemma {:induction false} NoRepairs(cards: seq<Card>, gate: CardId)
    requires RepairsOf(cards, gate) == []
    ensures forall c :: c in cards ==> !IsRepairFor(c, gate)
  {
    hide IsRepairFor;
    if cards != [] {
      NoRepairs(cards[..|cards| - 1], gate);
    }
  }

  lemma BlockedGateIsTurn(env: Env, card: Card, cards: seq<Card>)
    requires card.status == Blocked && IsGate(CardStage(card))
    ensures IsTurn(env, card, cards, BlockedGateOps(env, card, cards))
  {
    hide IsTurn;
    hide IsRepairFor;
    hide HasValidCompletion;
    hide HasValidPredecessors;
    hide IsStaleGateBlock;
    hide FreshRetryOps;
    hide GuardedRetryOps;
    hide CancelOps;
    hide FailureCount;
    hide RecoverCardOps;
    hide RecoveryOps;
    var repairs := RepairsOf(cards, card.id);
    RepairsAreCards(cards, card.id);
    if && CardStage(card) == Some(FinalReview) && IsStaleGateBlock(BlockReason(card))
       && HasValidPredecessors(env, card, cards) {
      CancelIsTurn(env, card, cards, repairs);
      FreshRetryIsTurn(env, card, cards);
      ConcatIsTurn(env, card, cards, CancelOps(repairs), FreshRetryOps(env, card, cards));
    } else if exists r | r in repairs :: r.status == Done && HasValidCompletion(env, r) {
      GuardedIsTurn(env, card, cards);
    } else if repairs != [] {
      var repair := repairs[|repairs| - 1];
      assert repair in repairs;
      RecoveryIsTurn(env, card, cards, repair);
      RecoverCardIsTurn(env, card, cards, repair);
    } else {
      RepairIsTurn(env, card, cards);
    }
  }

  lemma BlockedIsTurn(env: Env, card: Card, cards: seq<Card>)
    requires card.status == Blocked
    ensures IsTurn(env, card, cards, BlockedOps(env, card, cards))
  {
    hide IsTurn;
    hide HasValidMergePredecessor;
    hide BlockedGateOps;
    hide FreshRetryOps;
    hide FailureCount;
    hide RecoverCardOps;
    hide RecoveryOps;
    NothingIsTurn(env, card, cards);
    if !IsOwnerBlocked(card) && !IsCancelled(card) {
      if i :| FirstProven(env, cards, card.id, 0) == Some(i) {
        OneIsTurn(env, card, cards, CompleteOp(card.id, PassedProof(cards[i])));
      } else if CardStage(card) == Some(Merge) && HasValidMergePredecessor(env, card, cards) {
        FreshRetryIsTurn(env, card, cards);
      } else if IsGate(CardStage(card)) {
        BlockedGateIsTurn(env, card, cards);
      } else {
        RecoveryIsTurn(env, card, cards, card);
        RecoverCardIsTurn(env, card, cards, card);
      }
    }
  }

  lemma UnprovenIsTurn(env: Env, card: Card, cards: seq<Card>)
    requires CardStage(card).Some?
    ensures IsTurn(env, card, cards, UnprovenOps(env, card, cards))
  {
    hide IsTurn;
    hide GuardedRetryOps;
    if i :| FirstProven(env, cards, card.id, 0) == Some(i) {
      OneIsTurn(env, card, cards, CompleteOp(card.id, PassedProof(cards[i])));
    } else {
      GuardedIsTurn(env, card, cards);
    }
  }

  lemma MainIsTurn(env: Env, card: Card, cards: seq<Card>)
    ensures IsTurn(env, card, cards, MainOps(env, card, cards))
  {
    hide IsTurn;
    hide BlockedOps;
    hide UnprovenOps;
    hide HasValidMergePredecessor;
    hide HasValidCompletion;
    hide FreshRetryOps;
    hide RepairIsObsolete;
    hide FailureCount;
    hide RecoverCardOps;
    NothingIsTurn(env, card, cards);
    RecoverCardIsTurn(env, card, cards, card);
    OneIsTurn(env, card, cards, CompleteOp(card.id, PassedProof(card)));
    if CardStage(card) == Some(Merge) && HasValidMergePredecessor(env, card, cards) {
      FreshRetryIsTurn(env, card, cards);
    }
    if CardStage(card).Some? {
      UnprovenIsTurn(env, card, cards);
    }
    if card.status == Blocked {
      BlockedIsTurn(env, card, cards);
    }
  }

  // ---------------------------------------------------------------- what a turn does to the board

  /** The row is stored under a key that the turn may create. */
  ghost predicate IsUnderKey(env: Env, card: Card, cards: seq<Card>, b: Board, id: CardId) {
    exists key :: key in b.keys && b.keys[key] == id && MayCreate(env, card, cards, key)
  }

  ghost predicate RowStays(env: Env, card: Card, cards: seq<Card>, b: Board, b': Board, id: CardId)
    requires id in b.cards
  {
    && id in b'.cards
    && b'.cards[id].labels == b.cards[id].labels
    && b'.cards[id].metadata.parents == b.cards[id].metadata.parents
    && (b'.cards[id] == b.cards[id] || MayChange(card, cards, id) || IsUnderKey(env, card, cards, b, id))
  }

  ghost predicate KeyStays(env: Env, card: Card, cards: seq<Card>, b: Board, b': Board, key: CardKey) {
    && (key in b.keys ==> key in b'.keys && b'.keys[key] == b.keys[key])
    && (key in b'.keys ==> key in b.keys || MayCreate(env, card, cards, key))
  }

  /** The rows stay in place; at most `n` are added, under keys that the turn may create; and no row changes
      but those that the turn may change. */
  ghost predicate StaysWithin(env: Env, card: Card, cards: seq<Card>, b: Board, b': Board, n: nat) {
    && b.order <= b'.order && |b'.order| <= |b.order| + n
    && (forall key :: KeyStays(env, card, cards, b, b', key))
    && (forall id :: id in b.cards ==> RowStays(env, card, cards, b, b', id))
  }

  lemma ApplyKeepsNamed(b: Board, op: Op, name: CardKey -> CardId, used: set<CardKey>)
    requires Named(b, name, used) && (IsCreate(op) ==> op.spec.key in used)
    ensures Named(Apply(b, op, name), name, used)
  {
    if IsCreate(op) {
      CreatedIsNamed(b, op.spec, name, used);
      var m := CardBoard.Create(b, op.spec, name(op.spec.key));
      var id := m.keys[op.spec.key];
      PutKeepsNamed(m, name, used, Reclaimed(m.cards[id], Ready));
    } else if op.id in b.cards {
      PutKeepsNamed(b, name, used, Effect(b.cards[op.id], op));
    }
  }

  lemma CreatedIsNamed(b: Board, spec: CardSpec, name: CardKey -> CardId, used: set<CardKey>)
    requires Named(b, name, used) && spec.key in used
    ensures var m := CardBoard.Create(b, spec, name(spec.key));
            Named(m, name, used) && spec.key in m.keys && m.keys[spec.key] in m.cards
  {
    if spec.key !in b.keys {
      CreateKeepsNamed(b, name, used, spec);
    }
  }

  lemma AppliedKey(env: Env, card: Card, cards: seq<Card>, b: Board, m: Board, op: Op, key: CardKey)
    requires Allowed(env, card, cards, op) && KeyStays(env, card, cards, b, m, key)
    ensures KeyStays(env, card, cards, b, Apply(m, op, env.name), key)
  {
    hide MayCreate;
    hide MayChange;
  }

  lemma AppliedRow(env: Env, card: Card, cards: seq<Card>, b: Board, m: Board, op: Op, used: set<CardKey>, id: CardId)
    requires Named(m, env.name, used) && !IsCreate(op) && MayChange(card, cards, op.id)
    requires id in b.cards && RowStays(env, card, cards, b, m, id)
    ensures RowStays(env, card, cards, b, Apply(m, op, env.name), id)
  {
    hide MayCreate;
    hide MayChange;
    hide IsUnderKey;
  }

  lemma AppliedOrder(m: Board, op: Op, name: CardKey -> CardId)
    ensures m.order <= Apply(m, op, name).order
    ensures |Apply(m, op, name).order| <= |m.order| + (if IsCreate(op) then 1 else 0)
  {
  }

  /** What one allowed operation does to a board that has stayed within the turn so far. */
  lemma ApplyStays(env: Env, card: Card, cards: seq<Card>, b: Board, m: Board, op: Op, used: set<CardKey>, n: nat)
    requires Named(b, env.name, used) && Named(m, env.name, used) && (IsCreate(op) ==> op.spec.key in used)
    requires Allowed(env, card, cards, op) && StaysWithin(env, card, cards, b, m, n)
    ensures StaysWithin(env, card, cards, b, Apply(m, op, env.name), n + (if IsCreate(op) then 1 else 0))
  {
    hide MayCreate;
    hide MayChange;
    hide Apply;
    hide Named;
    hide KeyStays;
    hide RowStays;
    var after := Apply(m, op, env.name);
    AppliedOrder(m, op, env.name);
    forall key ensures KeyStays(env, card, cards, b, after, key) {
      AppliedKey(env, card, cards, b, m, op, key);
    }
    forall id | id in b.cards ensures RowStays(env, card, cards, b, after, id) {
      if IsCreate(op) {
        CreatedRow(env, card, cards, b, m, op, used, id);
      } else {
        AppliedRow(env, card, cards, b, m, op, used, id);
      }
    }
  }

  lemma CreatedRow(env: Env, card: Card, cards: seq<Card>, b: Board, m: Board, op: Op, used: set<CardKey>, id: CardId)
    requires Named(b, env.name, used) && Named(m, env.name, used) && IsCreate(op) && op.spec.key in used
    requires MayCreate(env, card, cards, op.spec.key) && id in b.cards && RowStays(env, card, cards, b, m, id)
    requires KeyStays(env, card, cards, b, m, op.spec.key)
    ensures RowStays(env, card, cards, b, Apply(m, op, env.name), id)
  {
    hide MayCreate;
    hide MayChange;
    var key := op.spec.key;
    if key !in b.keys {
      FreshId(b, env.name, used, key);
    }
    if key !in m.keys {
      FreshId(m, env.name, used, key);
    }
  }

  lemma {:induction false} ApplyAllStays(env: Env, card: Card, cards: seq<Card>, b: Board, ops: seq<Op>,
                                         used: set<CardKey>)
    requires Named(b, env.name, used) && forall k :: 0 <= k < |ops| && IsCreate(ops[k]) ==> ops[k].spec.key in used
    requires forall k :: 0 <= k < |ops| ==> Allowed(env, card, cards, ops[k])
    ensures Named(ApplyAll(b, ops, env.name), env.name, used)
    ensures StaysWithin(env, card, cards, b, ApplyAll(b, ops, env.name), CountCreates(ops))
  {
    hide Named;
    hide Allowed;
    if ops == [] {
      StaysAsItIs(env, card, cards, b);
    } else {
      var earlier, op := ops[..|ops| - 1], ops[|ops| - 1];
      ApplyAllStays(env, card, cards, b, earlier, used);
      ApplyKeepsNamed(ApplyAll(b, earlier, env.name), op, env.name, used);
      ApplyStays(env, card, cards, b, ApplyAll(b, earlier, env.name), op, used, CountCreates(earlier));
    }
  }

  lemma StaysAsItIs(env: Env, card: Card, cards: seq<Card>, b: Board)
    ensures StaysWithin(env, card, cards, b, b, 0)
  {
  }

  /** The turn of a card adds at most one row, under a key of its own that its budget and the open cards allow,
      and changes no row but its own and those of its repairs. */
  lemma TurnStaysWithin(env: Env, card: Card, cards: seq<Card>, b: Board, used: set<CardKey>)
    requires Named(b, env.name, used)
    requires forall op :: op in MainOps(env, card, cards) && IsCreate(op) ==> op.spec.key in used
    ensures StaysWithin(env, card, cards, b, ApplyAll(b, MainOps(env, card, cards), env.name), 1)
  {
    hide MainOps;
    hide Named;
    hide KeyStays;
    hide Listing;
    var ops := MainOps(env, card, cards);
    MainIsTurn(env, card, cards);
    assert forall k :: 0 <= k < |ops| ==> ops[k] in ops;
    ApplyAllStays(env, card, cards, b, ops, used);
  }
}
