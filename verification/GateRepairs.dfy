/** What the turn of a blocked gate does to its repair cards, and what a pass makes of a repair. */
module GateRepairs {
  import opened Wrappers
  import opened Cards
  import opened CardBoard
  import opened RetryChain
  import opened Reconcile
  import opened ReconcileOps
  import opened BoardFold
  import opened ReconcileInvariant
  import opened ReconcileSafety
  import opened PassOutcomes
  import opened PassCreations

  /** What the turn of `gate` makes of the row `c` of the repair `r`. */
  ghost function RepairAfterTurn(env: Env, cards: seq<Card>, gate: Card, r: Card, c: Card): Card {
    if !(IsOpenCase(env, cards, gate) && IsBlockedGate(gate) && IsRepairFor(r, gate.id)) then c
    else if IsEarlyReview(env, gate, cards) then
      if r.status in {Ready, Todo, Blocked} then Cancelled(c) else c
    else if !IsRepaired(env, cards, gate.id) && IsLastRepair(cards, gate.id, r) && IsWithinBudget(env, r) then
      HandedOut(c)
    else c
  }

  predicate CancelsRow(repairs: seq<Card>, id: CardId) {
    exists r | r in repairs :: r.id == id && r.status in {Ready, Todo, Blocked}
  }

  lemma CancelsNext(repairs: seq<Card>, id: CardId)
    requires repairs != []
    ensures var n := |repairs| - 1;
            CancelsRow(repairs, id)
            <==> CancelsRow(repairs[..n], id) || (repairs[n].id == id && repairs[n].status in {Ready, Todo, Blocked})
  {
    assert forall r :: r in repairs <==> r in repairs[..|repairs| - 1] || r == repairs[|repairs| - 1];
  }

  lemma {:induction false} CancelledRepair(repairs: seq<Card>, c: Card)
    ensures EffectAll(c, CancelOps(repairs)) == if CancelsRow(repairs, c.id) then Cancelled(c) else c
  {
    hide CancelsRow;
    if repairs == [] {
      CancelsNothing(c.id);
    } else {
      var n := |repairs| - 1;
      CancelledRepair(repairs[..n], c);
      CancelsNext(repairs, c.id);
      EffectConcat(c, CancelOps(repairs[..n]), [ReclaimOp(repairs[n].id, Blocked)]);
      OneEffect(EffectAll(c, CancelOps(repairs[..n])), ReclaimOp(repairs[n].id, Blocked));
    }
  }

  lemma CancelsNothing(id: CardId)
    ensures !CancelsRow([], id)
  {
  }

  lemma EarlyReviewTurn(env: Env, cards: seq<Card>, gate: Card, j: nat, c: Card)
    requires DistinctIds(cards) && j < |cards| && c.id == cards[j].id && CardStage(gate).Some?
    ensures EffectAll(c, CancelOps(RepairsOf(cards, gate.id)) + FreshRetryOps(env, gate, cards))
         == if IsRepairFor(cards[j], gate.id) && cards[j].status in {Ready, Todo, Blocked} then Cancelled(c) else c
  {
    hide IsRepairFor;
    hide FreshRetryOps;
    var repairs := RepairsOf(cards, gate.id);
    CancelledRepair(repairs, c);
    EffectConcat(c, CancelOps(repairs), FreshRetryOps(env, gate, cards));
    GuardedCreates(env, gate, cards);
    CreatesKeepRow(EffectAll(c, CancelOps(repairs)), FreshRetryOps(env, gate, cards));
    RepairsIff(cards, gate.id, cards[j]);
    RepairsAreCards(cards, gate.id);
  }

  lemma RepairGateTurn(env: Env, cards: seq<Card>, gate: Card, j: nat, c: Card)
    requires DistinctIds(cards) && j < |cards| && c.id == cards[j].id
    ensures EffectAll(c, RepairGateOps(env, gate, cards))
         == if IsLastRepair(cards, gate.id, cards[j]) && IsWithinBudget(env, cards[j]) then HandedOut(c) else c
  {
    hide IsRepairFor;
    hide RepairSpec;
    hide RecoveryOps;
    hide FailureCount;
    hide IsLastRepair;
    var repairs := RepairsOf(cards, gate.id);
    LastRepairIs(cards, gate.id);
    CreatesKeepRow(c, [CreateOp(RepairSpec(env, gate))]);
    if repairs == [] {
      if IsLastRepair(cards, gate.id, cards[j]) {
        LastIsOne(cards, gate.id, cards[j], cards[j]);
      }
    } else {
      var last := repairs[|repairs| - 1];
      RecoveryKeepsRow(env, last, cards, c);
      OneEffect(c, ReclaimOp(last.id, Ready));
      assert last in repairs;
      RepairsAreCards(cards, gate.id);
      if IsLastRepair(cards, gate.id, cards[j]) {
        LastIsOne(cards, gate.id, cards[j], last);
      }
    }
  }

  lemma RecoveryKeepsRow(env: Env, f: Card, cards: seq<Card>, c: Card)
    ensures EffectAll(c, RecoveryOps(env, f, cards)) == c
  {
    hide RecoverySpec;
    hide HasOpenRecovery;
    CreatesKeepRow(c, RecoveryOps(env, f, cards));
  }

  lemma BlockedGateTurn(env: Env, cards: seq<Card>, gate: Card, j: nat, c: Card)
    requires DistinctIds(cards) && j < |cards| && c.id == cards[j].id && IsBlockedGate(gate)
    ensures EffectAll(c, BlockedGateOps(env, gate, cards))
         == if IsEarlyReview(env, gate, cards) then
              if IsRepairFor(cards[j], gate.id) && cards[j].status in {Ready, Todo, Blocked} then Cancelled(c) else c
            else if !IsRepaired(env, cards, gate.id) && IsLastRepair(cards, gate.id, cards[j])
                    && IsWithinBudget(env, cards[j]) then HandedOut(c)
            else c
  {
    hide IsRepairFor;
    hide FreshRetryOps;
    hide GuardedRetryOps;
    hide RepairGateOps;
    hide CancelOps;
    hide HasValidCompletion;
    hide HasValidPredecessors;
    hide IsStaleGateBlock;
    hide BlockReason;
    hide ClassifyBlocker;
    hide IsLastRepair;
    hide IsWithinBudget;
    hide IsRepaired;
    hide RepairsOf;
    EarlyReviewTurn(env, cards, gate, j, c);
    RepairGateTurn(env, cards, gate, j, c);
    RepairedIff(env, cards, gate.id);
    GuardedCreates(env, gate, cards);
    CreatesKeepRow(c, GuardedRetryOps(env, gate, cards));
  }

  /** Operations that name another card, or create one, leave a row as it is. */
  lemma OtherRow(c: Card, ops: seq<Op>, id: CardId)
    requires id != c.id && forall k :: 0 <= k < |ops| ==> IsCreate(ops[k]) || ops[k].id == id
    ensures EffectAll(c, ops) == c
  {
    NoEffect(c, ops);
  }

  lemma UnprovenOther(env: Env, cards: seq<Card>, gate: Card, c: Card)
    requires CardStage(gate).Some? && c.id != gate.id
    ensures EffectAll(c, UnprovenOps(env, gate, cards)) == c
  {
    hide GuardedRetryOps;
    hide FirstProven;
    hide PassedProof;
    GuardedCreates(env, gate, cards);
    OtherRow(c, UnprovenOps(env, gate, cards), gate.id);
  }

  lemma BlockedOther(env: Env, cards: seq<Card>, gate: Card, j: nat, c: Card)
    requires DistinctIds(cards) && j < |cards| && c.id == cards[j].id && c.id != gate.id && gate.status == Blocked
    ensures EffectAll(c, BlockedOps(env, gate, cards))
         == if IsBlockedGate(gate) && !HasProvenRetry(env, cards, gate.id) then
              EffectAll(c, BlockedGateOps(env, gate, cards))
            else c
  {
    hide *;
    FirstProvenProves(env, cards, gate.id);
    BlockedBranches(env, gate, cards);
    GateIsTechnical(gate);
    OtherSites(env, cards, gate, c);
    if HasProvenRetry(env, cards, gate.id) {
      PromotionOther(env, cards, gate, c);
    }
  }

  lemma GateIsTechnical(gate: Card)
    ensures IsBlockedGate(gate) ==>
      IsTechnicallyBlocked(gate) && CardStage(gate).Some? && CardStage(gate) != Some(Merge)
  {
  }

  lemma PromotionOther(env: Env, cards: seq<Card>, gate: Card, c: Card)
    requires FirstProven(env, cards, gate.id, 0).Some? && c.id != gate.id
    ensures EffectAll(c, BlockedOps(env, gate, cards)) == c
  {
    hide FirstProven;
    hide PassedProof;
    hide ClassifyBlocker;
    hide BlockedGateOps;
    hide FreshRetryOps;
    OtherRow(c, BlockedOps(env, gate, cards), gate.id);
  }

  lemma OtherSites(env: Env, cards: seq<Card>, gate: Card, c: Card)
    requires c.id != gate.id
    ensures EffectAll(c, []) == c && EffectAll(c, RecoveryOps(env, gate, cards)) == c
    ensures EffectAll(c, RecoverCardOps(env, gate)) == c
    ensures EffectAll(c, [ReassignOp(gate.id, env.captain)]) == c
    ensures EffectAll(c, [CompleteOp(gate.id, PassedProof(gate))]) == c
    ensures CardStage(gate).Some? ==> EffectAll(c, FreshRetryOps(env, gate, cards)) == c
  {
    hide FreshRetryOps;
    hide FailureCount;
    hide PassedProof;
    CreatesKeepRow(c, []);
    RecoveryKeepsRow(env, gate, cards, c);
    OtherRow(c, RecoverCardOps(env, gate), gate.id);
    OtherRow(c, [ReassignOp(gate.id, env.captain)], gate.id);
    OtherRow(c, [CompleteOp(gate.id, PassedProof(gate))], gate.id);
    if CardStage(gate).Some? {
      GuardedCreates(env, gate, cards);
      CreatesKeepRow(c, FreshRetryOps(env, gate, cards));
    }
  }

  lemma StatusOther(env: Env, cards: seq<Card>, gate: Card, j: nat, c: Card)
    requires DistinctIds(cards) && j < |cards| && c.id == cards[j].id && c.id != gate.id
    ensures EffectAll(c, StatusOps(env, gate, cards))
         == if IsBlockedGate(gate) && !HasProvenRetry(env, cards, gate.id) then
              EffectAll(c, BlockedGateOps(env, gate, cards))
            else c
  {
    hide BlockedOps;
    hide UnprovenOps;
    hide BlockedGateOps;
    hide HasValidCompletion;
    hide HasProvenRetry;
    hide PassedProof;
    hide EffectAll;
    OtherSites(env, cards, gate, c);
    if gate.status == Blocked {
      BlockedOther(env, cards, gate, j, c);
    } else if CardStage(gate).Some? {
      UnprovenOther(env, cards, gate, c);
    }
  }

  /** The turn of another card changes a row exactly if that card is a blocked gate and the row one of its repairs:
      the repairs of a review that was asked too early are cancelled, and otherwise the last repair is handed out
      again within its budget, whatever its status is. */
  lemma TurnOnOtherRow(env: Env, cards: seq<Card>, i: nat, j: nat, c: Card)
    requires DistinctIds(cards) && i < |cards| && j < |cards| && i != j && c.id == cards[j].id
    ensures EffectAll(c, MainOps(env, cards[i], cards)) == RepairAfterTurn(env, cards, cards[i], cards[j], c)
  {
    var gate := cards[i];
    hide *;
    assert c.id != gate.id by {
      IdsDiffer(cards, i, j);
    }
    BranchesOfMain(env, gate, cards);
    MootRepairIff(env, cards, gate);
    OtherSites(env, cards, gate, c);
    StatusOther(env, cards, gate, j, c);
    GateIsTechnical(gate);
    if IsBlockedGate(gate) {
      BlockedGateTurn(env, cards, gate, j, c);
    }
    GateCase(env, cards, gate, cards[j], c);
    WaitingIsNoGate(gate);
  }

  lemma WaitingIsNoGate(gate: Card)
    ensures IsWaiting(gate) ==> !IsBlockedGate(gate)
  {
  }

  lemma GateCase(env: Env, cards: seq<Card>, gate: Card, r: Card, c: Card)
    ensures RepairAfterTurn(env, cards, gate, r, c)
         == if gate.metadata.archived || IsMootRepair(env, cards, gate) || IsRetriableMerge(env, gate, cards)
               || HasProvenRetry(env, cards, gate.id) || !IsBlockedGate(gate) then c
            else if IsEarlyReview(env, gate, cards) then
              if IsRepairFor(r, gate.id) && r.status in {Ready, Todo, Blocked} then Cancelled(c) else c
            else if !IsRepaired(env, cards, gate.id) && IsLastRepair(cards, gate.id, r) && IsWithinBudget(env, r) then
              HandedOut(c)
            else c
  {
    hide IsRepairFor;
    hide IsMootRepair;
    hide IsRetriableMerge;
    hide HasProvenRetry;
    hide IsBlockedGate;
    hide IsEarlyReview;
    hide IsRepaired;
    hide IsWithinBudget;
  }

  lemma IdsDiffer(cards: seq<Card>, i: nat, j: nat)
    requires DistinctIds(cards) && i < |cards| && j < |cards| && i != j
    ensures cards[i].id != cards[j].id
  {
  }

  // ---------------------------------------------------------------- a pass on any row

  /** The row of card `j`, after the first `n` turns of the main loop: its own turn, and those of its gates. */
  ghost function AfterTurns(env: Env, cards: seq<Card>, j: nat, n: nat, c: Card): Card
    requires j < |cards| && n <= |cards|
  {
    if n == 0 then c
    else
      var earlier := AfterTurns(env, cards, j, n - 1, c);
      if n - 1 == j then EffectAll(earlier, MainOps(env, cards[j], cards))
      else RepairAfterTurn(env, cards, cards[n - 1], cards[j], earlier)
  }

  lemma {:induction false} AfterTurnsIs(env: Env, cards: seq<Card>, j: nat, n: nat, c: Card)
    requires DistinctIds(cards) && j < |cards| && n <= |cards| && c.id == cards[j].id
    ensures EffectAll(c, PhaseOps(env, 3, cards, n)) == AfterTurns(env, cards, j, n, c)
  {
    hide MainOps;
    hide RepairAfterTurn;
    if n > 0 {
      var earlier := EffectAll(c, PhaseOps(env, 3, cards, n - 1));
      AfterTurnsIs(env, cards, j, n - 1, c);
      EffectConcat(c, PhaseOps(env, 3, cards, n - 1), StepOps(env, 3, cards[n - 1], cards));
      if n - 1 != j {
        TurnOnOtherRow(env, cards, n - 1, j, earlier);
      }
    }
  }

  lemma {:induction false} LoopOnRow(env: Env, phase: nat, cards: seq<Card>, n: nat, j: nat, c: Card)
    requires DistinctIds(cards) && n <= |cards| && j < |cards| && c.id == cards[j].id && phase < 3
    ensures EffectAll(c, PhaseOps(env, phase, cards, n))
         == if j < n then EffectAll(c, StepOps(env, phase, cards[j], cards)) else c
    decreases n
  {
    hide StepOps;
    if n > 0 {
      LoopOnRow(env, phase, cards, n - 1, j, c);
      EffectConcat(c, PhaseOps(env, phase, cards, n - 1), StepOps(env, phase, cards[n - 1], cards));
      if n - 1 != j {
        CancelOther(env, phase, cards, n - 1, j, EffectAll(c, PhaseOps(env, phase, cards, n - 1)));
      }
    }
  }

  lemma CancelOther(env: Env, phase: nat, cards: seq<Card>, k: nat, j: nat, c: Card)
    requires DistinctIds(cards) && k < |cards| && j < |cards| && k != j && c.id == cards[j].id && phase < 3
    ensures EffectAll(c, StepOps(env, phase, cards[k], cards)) == c
  {
    hide IsSuperseded;
    IdsDiffer(cards, k, j);
    OtherRow(c, StepOps(env, phase, cards[k], cards), cards[k].id);
  }

  /** A pass changes any card by cancelling it if it is pointless, and then by the turns in the order of the table. */
  lemma PassOnRow(env: Env, b: Board, used: set<CardKey>, j: nat)
    requires Sound(b, env.name, used) && Covers(used, PassOps(env, Listing(b))) && j < |b.order|
    ensures Valid(Pass(env, b)) && j < |Pass(env, b).order|
    ensures var cards := Listing(b);
            Listing(Pass(env, b))[j]
            == AfterTurns(env, cards, j, |cards|,
                          if IsPointless(env, cards, cards[j]) then Cancelled(cards[j]) else cards[j])
  {
    hide PhaseOps;
    hide StepOps;
    hide EffectAll;
    hide Pass;
    hide IsPointless;
    hide AfterTurns;
    var cards := Listing(b);
    var n := |cards|;
    var card := cards[j];
    ListingIdsDistinct(b);
    PassOldRow(env, b, used, j);
    var c0 := EffectAll(card, PhaseOps(env, 0, cards, n));
    var c1 := EffectAll(c0, PhaseOps(env, 1, cards, n));
    var c2 := EffectAll(c1, PhaseOps(env, 2, cards, n));
    LoopOnRow(env, 0, cards, n, j, card);
    LoopOnRow(env, 1, cards, n, j, c0);
    LoopOnRow(env, 2, cards, n, j, c1);
    LoopsCancelIff(env, cards, j);
    AfterTurnsIs(env, cards, j, n, c2);
    EffectConcat(card, PhaseOps(env, 0, cards, n), PhaseOps(env, 1, cards, n));
    EffectConcat(card, PhaseOps(env, 0, cards, n) + PhaseOps(env, 1, cards, n), PhaseOps(env, 2, cards, n));
    EffectConcat(card, PhaseOps(env, 0, cards, n) + PhaseOps(env, 1, cards, n) + PhaseOps(env, 2, cards, n),
                 PhaseOps(env, 3, cards, n));
  }

  // ---------------------------------------------------------------- a repair blocked for the owner

  lemma OwnerBlockedTurn(env: Env, cards: seq<Card>, r: Card, c: Card)
    requires IsOwnerBlocked(r) && CardStage(r) == Some(Repair)
    ensures EffectAll(c, MainOps(env, r, cards)) == c
  {
    hide ClassifyBlocker;
    hide RepairIsObsolete;
    hide EffectAll;
    BranchesOfMain(env, r, cards);
    HeldRow(env, r, cards);
    CreatesKeepRow(c, []);
  }

  /** Only one card, `i`, is a gate of the repair. */
  ghost predicate IsSoleGate(cards: seq<Card>, i: nat, r: Card) {
    i < |cards| && forall k :: 0 <= k < |cards| && IsRepairFor(r, cards[k].id) ==> k == i
  }

  lemma NoGateTurn(env: Env, cards: seq<Card>, gate: Card, r: Card, c: Card)
    requires !IsRepairFor(r, gate.id)
    ensures RepairAfterTurn(env, cards, gate, r, c) == c
  {
    hide IsOpenCase;
    hide IsBlockedGate;
  }

  lemma {:induction false} SoleGateTurns(env: Env, cards: seq<Card>, i: nat, j: nat, n: nat)
    requires j < |cards| && n <= |cards| && i != j && IsSoleGate(cards, i, cards[j])
    requires IsOwnerBlocked(cards[j]) && CardStage(cards[j]) == Some(Repair)
    ensures AfterTurns(env, cards, j, n, cards[j])
         == if i < n then RepairAfterTurn(env, cards, cards[i], cards[j], cards[j]) else cards[j]
  {
    hide MainOps;
    hide IsOwnerBlocked;
    hide EffectAll;
    hide StageOfLabels;
    hide RepairAfterTurn;
    if n > 0 {
      if n - 1 != i && n - 1 != j {
        NoGateTurn(env, cards, cards[n - 1], cards[j], AfterTurns(env, cards, j, n - 1, cards[j]));
      }
      SoleGateTurns(env, cards, i, j, n - 1);
      if n - 1 == j {
        OwnerBlockedTurn(env, cards, cards[j], AfterTurns(env, cards, j, n - 1, cards[j]));
      }
    }
  }

  /** A repair that its worker has blocked for the owner is left alone, as other cards are, unless its gate takes it
      for its last repair: then the pass hands it out again within its budget. */
  lemma OwnerBlockedRepairIff(env: Env, b: Board, used: set<CardKey>, i: nat, j: nat)
    requires Sound(b, env.name, used) && Covers(used, PassOps(env, Listing(b)))
    requires i < |b.order| && j < |b.order| && i != j && IsSoleGate(Listing(b), i, Listing(b)[j])
    requires IsOwnerBlocked(Listing(b)[j]) && CardStage(Listing(b)[j]) == Some(Repair)
    ensures Valid(Pass(env, b)) && j < |Pass(env, b).order|
    ensures var cards, gate, r := Listing(b), Listing(b)[i], Listing(b)[j];
            Listing(Pass(env, b))[j].status == Ready
            <==> && NeedsRepair(env, cards, gate) && IsLastRepair(cards, gate.id, r)
                 && FailureCount(r) <= RetryLimit(r, env.maxRetries)
  {
    hide PassOps;
    hide Pass;
    hide IsPointless;
    hide NeedsRepair;
    hide IsLastRepair;
    hide IsOwnerBlocked;
    hide FailureCount;
    hide RepairAfterTurn;
    var cards := Listing(b);
    PassOnRow(env, b, used, j);
    OwnerBlockedIsHeld(env, cards, cards[j]);
    SoleGateTurns(env, cards, i, j, |cards|);
    GateHandsOutIff(env, cards, cards[i], cards[j]);
  }

  lemma OwnerBlockedIsHeld(env: Env, cards: seq<Card>, r: Card)
    requires IsOwnerBlocked(r)
    ensures r.status == Blocked && !IsPointless(env, cards, r)
  {
  }

  lemma GateHandsOutIff(env: Env, cards: seq<Card>, gate: Card, r: Card)
    requires r.status == Blocked
    ensures RepairAfterTurn(env, cards, gate, r, r).status == Ready
       <==> && NeedsRepair(env, cards, gate) && IsLastRepair(cards, gate.id, r)
            && FailureCount(r) <= RetryLimit(r, env.maxRetries)
  {
    hide IsOpenCase;
    hide IsBlockedGate;
    hide IsEarlyReview;
    hide IsRepaired;
    hide IsRepairFor;
    hide FailureCount;
  }
}
