/** Why each operation of a reconcile pass is issued. */
module ReconcileOps {
  import opened Wrappers
  import opened Cards
  import opened CardBoard
  import opened RetryChain
  import opened Reconcile

  // ---------------------------------------------------------------- which operations occur

  predicate IsSettled(env: Env, card: Card) {
    card.status == Done && HasValidCompletion(env, card)
  }

  /** The card may be moved by this pass: it is neither settled nor left to the owner. */
  predicate IsMovable(env: Env, card: Card) {
    !IsSettled(env, card) && (IsOwnerBlocked(card) ==> RepairToken(card).Some?)
  }

  ghost predicate MovesCard(env: Env, cards: seq<Card>, id: CardId) {
    exists i :: 0 <= i < |cards| && cards[i].id == id && IsMovable(env, cards[i])
  }

  /** The evidence a completion rests on: the card's own, or that of a proven descendant. */
  ghost predicate HasSource(env: Env, cards: seq<Card>, card: Card, proof: seq<ProofItem>) {
    || (HasValidCompletion(env, card) && proof == PassedProof(card))
    || exists j :: 0 <= j < |cards| && IsProvenDescendant(env, cards, cards[j], card.id)
                   && proof == PassedProof(cards[j])
  }

  /** The three sites that create a retry without consulting the retry budget. */
  predicate IsUnguarded(env: Env, card: Card, cards: seq<Card>) {
    || (CardStage(card) == Some(Merge) && HasValidMergePredecessor(env, card, cards))
    || (&& CardStage(card) == Some(FinalReview)
        && card.status == Blocked
        && IsStaleGateBlock(BlockReason(card))
        && HasValidPredecessors(env, card, cards))
  }

  /** A card that a worker has left behind: its completion can be checked or replaced. */
  predicate IsLeft(card: Card) {
    card.status == InReview || card.status == Done || card.status == Blocked
  }

  ghost predicate Justified(env: Env, cards: seq<Card>, op: Op) {
    match op
    case CompleteOp(id, proof) =>
      exists i :: 0 <= i < |cards| && cards[i].id == id && IsMovable(env, cards[i])
                  && IsLeft(cards[i]) && !IsOwnerBlocked(cards[i]) && HasSource(env, cards, cards[i], proof)
    case ReclaimOp(id, status) => (status == Ready || status == Blocked) && MovesCard(env, cards, id)
    case ReassignOp(id, agent) => MovesCard(env, cards, id)
    case CreateOp(spec) =>
      exists i :: 0 <= i < |cards| && RepairsOf(cards, cards[i].id) == [] && spec == RepairSpec(env, cards[i])
    case CreateReadyOp(spec) =>
      || (exists i :: 0 <= i < |cards| && spec == RecoverySpec(env, cards[i], cards))
      || (exists i :: 0 <= i < |cards| && CardStage(cards[i]).Some? && spec == RetrySpec(env, cards[i], cards)
                      && (RetryExhausted(env, cards[i], cards) ==> IsUnguarded(env, cards[i], cards)))
  }

  ghost predicate AllJustified(env: Env, cards: seq<Card>, ops: seq<Op>) {
    forall k :: 0 <= k < |ops| ==> Justified(env, cards, ops[k])
  }

  lemma {:induction false} RepairsAreCards(cards: seq<Card>, gate: CardId)
    ensures forall r :: r in RepairsOf(cards, gate) ==> r in cards && IsRepairFor(r, gate)
  {
    if cards != [] {
      RepairsAreCards(cards[..|cards| - 1], gate);
    }
  }

  lemma RecoveryIsJustified(env: Env, card: Card, cards: seq<Card>)
    requires card in cards
    ensures AllJustified(env, cards, RecoveryOps(env, card, cards))
  {
  }

  lemma RecoverCardIsJustified(env: Env, card: Card, cards: seq<Card>)
    requires card in cards && IsMovable(env, card)
    ensures AllJustified(env, cards, RecoverCardOps(env, card))
  {
  }

  lemma FreshRetryIsJustified(env: Env, card: Card, cards: seq<Card>)
    requires card in cards && CardStage(card).Some?
    requires RetryExhausted(env, card, cards) ==> IsUnguarded(env, card, cards)
    ensures AllJustified(env, cards, FreshRetryOps(env, card, cards))
  {
  }

  lemma GuardedRetryIsJustified(env: Env, card: Card, cards: seq<Card>)
    requires card in cards && CardStage(card).Some?
    ensures AllJustified(env, cards, GuardedRetryOps(env, card, cards))
  {
    match ActiveRetry(cards, card.id, 0)
    case Some(i) =>
      RecoveryIsJustified(env, cards[i], cards);
    case None =>
      RecoveryIsJustified(env, card, cards);
      if !RetryExhausted(env, card, cards) {
        FreshRetryIsJustified(env, card, cards);
      }
  }

  lemma {:induction false} CancelIsJustified(env: Env, cards: seq<Card>, gate: CardId, repairs: seq<Card>)
    requires forall r :: r in repairs ==> r in cards && IsRepairFor(r, gate)
    ensures AllJustified(env, cards, CancelOps(repairs))
  {
    if repairs != [] {
      CancelIsJustified(env, cards, gate, repairs[..|repairs| - 1]);
      var repair := repairs[|repairs| - 1];
      assert repair in cards;
      if IsWaiting(repair) || repair.status == Blocked {
        assert MovesCard(env, cards, repair.id);
      }
    }
  }

  lemma BlockedGateIsJustified(env: Env, card: Card, cards: seq<Card>)
    requires card in cards && card.status == Blocked && CardStage(card).Some?
    ensures AllJustified(env, cards, BlockedGateOps(env, card, cards))
  {
    var repairs := RepairsOf(cards, card.id);
    RepairsAreCards(cards, card.id);
    if && CardStage(card) == Some(FinalReview)
       && IsStaleGateBlock(BlockReason(card))
       && HasValidPredecessors(env, card, cards)
    {
      CancelIsJustified(env, cards, card.id, repairs);
      FreshRetryIsJustified(env, card, cards);
    } else if exists r | r in repairs :: r.status == Done && HasValidCompletion(env, r) {
      GuardedRetryIsJustified(env, card, cards);
    } else if repairs != [] {
      var repair := repairs[|repairs| - 1];
      assert repair in repairs;
      RecoveryIsJustified(env, repair, cards);
      RecoverCardIsJustified(env, repair, cards);
    }
  }

  lemma UnprovenIsJustified(env: Env, card: Card, cards: seq<Card>)
    requires card in cards && CardStage(card).Some? && IsMovable(env, card) && !IsOwnerBlocked(card)
    requires IsLeft(card)
    ensures AllJustified(env, cards, UnprovenOps(env, card, cards))
  {
    GuardedRetryIsJustified(env, card, cards);
  }

  lemma PromotionIsJustified(env: Env, card: Card, cards: seq<Card>, i: nat)
    requires card in cards && card.status == Blocked && !IsOwnerBlocked(card)
    requires i < |cards| && IsProvenDescendant(env, cards, cards[i], card.id)
    ensures AllJustified(env, cards, [CompleteOp(card.id, PassedProof(cards[i]))])
  {
  }

  lemma BlockedIsJustified(env: Env, card: Card, cards: seq<Card>)
    requires card in cards && card.status == Blocked
    ensures AllJustified(env, cards, BlockedOps(env, card, cards))
  {
    hide Justified;
    hide HasValidMergePredecessor;
    if !IsOwnerBlocked(card) && !IsCancelled(card) {
      if i :| FirstProven(env, cards, card.id, 0) == Some(i) {
        PromotionIsJustified(env, card, cards, i);
      } else if CardStage(card) == Some(Merge) && HasValidMergePredecessor(env, card, cards) {
        FreshRetryIsJustified(env, card, cards);
      } else if IsGate(CardStage(card)) {
        BlockedGateIsJustified(env, card, cards);
      } else {
        RecoveryIsJustified(env, card, cards);
        RecoverCardIsJustified(env, card, cards);
      }
    }
  }

  lemma MainIsJustified(env: Env, card: Card, cards: seq<Card>)
    requires card in cards
    ensures AllJustified(env, cards, MainOps(env, card, cards))
  {
    var stage := CardStage(card);
    if card.metadata.archived || (stage == Some(Repair) && RepairIsObsolete(env, card, cards)) {
    } else if && stage == Some(Merge) && HasFailureEvidence(card) && RetryFor(card).None?
              && HasValidMergePredecessor(env, card, cards) {
      FreshRetryIsJustified(env, card, cards);
    } else if IsWaiting(card) && FailureCount(card) > RetryLimit(card, env.maxRetries) {
      RecoverCardIsJustified(env, card, cards);
    } else if card.status == InReview && stage.Some? {
      UnprovenIsJustified(env, card, cards);
    } else if card.status == Done && stage.Some? && !HasValidCompletion(env, card) {
      UnprovenIsJustified(env, card, cards);
    } else if card.status == Blocked {
      BlockedIsJustified(env, card, cards);
    }
  }

  lemma {:induction false} PhaseIsJustified(env: Env, phase: nat, cards: seq<Card>, n: nat)
    requires n <= |cards|
    ensures AllJustified(env, cards, PhaseOps(env, phase, cards, n))
  {
    if n > 0 {
      PhaseIsJustified(env, phase, cards, n - 1);
      MainIsJustified(env, cards[n - 1], cards);
      assert AllJustified(env, cards, StepOps(env, phase, cards[n - 1], cards)) by {
        if phase < 3 && IsSuperseded(env, phase, cards[n - 1], cards) {
          assert IsMovable(env, cards[n - 1]);
          assert MovesCard(env, cards, cards[n - 1].id);
        }
      }
    }
  }

  lemma PassIsJustified(env: Env, cards: seq<Card>)
    ensures AllJustified(env, cards, PassOps(env, cards))
  {
    PhaseIsJustified(env, 0, cards, |cards|);
    PhaseIsJustified(env, 1, cards, |cards|);
    PhaseIsJustified(env, 2, cards, |cards|);
    PhaseIsJustified(env, 3, cards, |cards|);
  }
}
