/**
 The workflow orchestrator as the object it is: `enqueue` and `reconcile` loop over plans and cards
 and issue adapter calls one by one.  Both are proved against the specification functions.
 */
module Orchestration {
  import opened Wrappers
  import opened Cards
  import opened ProofErrors
  import opened CardBoard
  import opened RetryChain
  import opened Reconcile
  import opened ReconcileOps
  import opened BoardFold
  import opened Inspections
  import opened Turns
  import opened Qa
  import opened Workflow
  import opened Enqueue
  import opened DirectStore

  // ---------------------------------------------------------------- operation lists

  lemma {:induction false} ApplyConcat(b: Board, xs: seq<Op>, ys: seq<Op>, name: CardKey -> CardId)
    ensures ApplyAll(b, xs + ys, name) == ApplyAll(ApplyAll(b, xs, name), ys, name)
  {
    if ys == [] {
      assert xs + ys == xs;
    } else {
      assert (xs + ys)[..|xs + ys| - 1] == xs + ys[..|ys| - 1];
      ApplyConcat(b, xs, ys[..|ys| - 1], name);
    }
  }

  lemma ApplyOne(b: Board, op: Op, name: CardKey -> CardId)
    ensures ApplyAll(b, [op], name) == Apply(b, op, name) && ApplyAll(b, [], name) == b
  {
    assert [op][..0] == [];
  }

  ghost predicate KeyCovered(used: set<CardKey>, op: Op) {
    IsCreate(op) ==> op.spec.key in used
  }

  /** Every key that the operations create has an id in the name space. */
  ghost predicate AllCovered(used: set<CardKey>, ops: seq<Op>) {
    forall k :: 0 <= k < |ops| ==> KeyCovered(used, ops[k])
  }

  lemma CoveredParts(used: set<CardKey>, xs: seq<Op>, ys: seq<Op>)
    requires AllCovered(used, xs + ys)
    ensures AllCovered(used, xs) && AllCovered(used, ys)
  {
    forall k | 0 <= k < |xs| ensures KeyCovered(used, xs[k]) {
      assert KeyCovered(used, (xs + ys)[k]);
    }
    forall k | 0 <= k < |ys| ensures KeyCovered(used, ys[k]) {
      assert KeyCovered(used, (xs + ys)[|xs| + k]);
    }
  }

  // ---------------------------------------------------------------- the keys enqueued so far

  /** `known` holds the ids of the first `n` plans. */
  ghost predicate Remembers(b: Board, known: map<CardKey, CardId>, plans: seq<Plan>, n: nat)
    requires n <= |plans|
  {
    && (forall k :: 0 <= k < n ==> plans[k].spec.key in known)
    && (forall key :: key in known ==> key in b.keys && known[key] == b.keys[key])
  }

  lemma RemembersNext(b: Board, known: map<CardKey, CardId>, plans: seq<Plan>, i: nat, name: CardKey -> CardId)
    requires i < |plans| && Remembers(b, known, plans, i)
    ensures var key, b' := plans[i].spec.key, CreatePlanned(b, plans[i], name);
            key in b'.keys && Remembers(b', known[key := b'.keys[key]], plans, i + 1)
  {
  }

  class WorkflowOrchestrator {
    const adapter: DirectOrchestrator
    const env: Env

    constructor (adapter: DirectOrchestrator, env: Env)
      ensures this.adapter == adapter && this.env == env
    {
      this.adapter := adapter;
      this.env := env;
    }

    /** Every row was created under a key of `used`, with the id that the key determines. */
    ghost predicate Tracks(used: set<CardKey>)
      reads adapter
    {
      Named(adapter.View(), env.name, used)
    }

    // -------------------------------------------------------------- adapter calls

    method Complete(card: Card, source: Card, ghost used: set<CardKey>)
      requires Tracks(used)
      modifies adapter
      ensures Tracks(used)
      ensures adapter.View() == ApplyAll(old(adapter.View()), [CompleteOp(card.id, PassedProof(source))], env.name)
    {
      ghost var b := adapter.View();
      ApplyOne(b, CompleteOp(card.id, PassedProof(source)), env.name);
      var r := adapter.CompleteCard(card.id, PassedProof(source));
      if r.Ok? {
        PutKeepsNamed(b, env.name, used, r.value);
      }
    }

    method Reclaim(id: CardId, status: QueueStatus, ghost used: set<CardKey>)
      requires Tracks(used)
      modifies adapter
      ensures Tracks(used)
      ensures adapter.View() == ApplyAll(old(adapter.View()), [ReclaimOp(id, status)], env.name)
    {
      ghost var b := adapter.View();
      ApplyOne(b, ReclaimOp(id, status), env.name);
      var r := adapter.ReclaimCard(id, status);
      if r.Ok? {
        PutKeepsNamed(b, env.name, used, r.value);
      }
    }

    /** `_recover_card`. */
    method RecoverCard(card: Card, ghost used: set<CardKey>)
      requires Tracks(used)
      modifies adapter
      ensures Tracks(used)
      ensures adapter.View() == ApplyAll(old(adapter.View()), RecoverCardOps(env, card), env.name)
    {
      hide FailureCount;
      hide RetryLimit;
      if FailureCount(card) <= RetryLimit(card, env.maxRetries) {
        Reclaim(card.id, Ready, used);
        return;
      }
      ghost var b := adapter.View();
      ApplyOne(b, ReassignOp(card.id, env.captain), env.name);
      var r := adapter.ReassignCard(card.id, env.captain, Ready, true);
      if r.Ok? {
        PutKeepsNamed(b, env.name, used, r.value);
      }
    }

    method Create(spec: CardSpec, ghost used: set<CardKey>) returns (card: Card)
      requires Tracks(used) && spec.key in used
      modifies adapter
      ensures Tracks(used)
      ensures adapter.View() == CardBoard.Create(old(adapter.View()), spec, env.name(spec.key))
      ensures spec.key in adapter.keys && adapter.keys[spec.key] in adapter.cards
              && card == adapter.cards[adapter.keys[spec.key]]
    {
      if spec.key !in adapter.keys {
        FreshId(adapter.View(), env.name, used, spec.key);
        CreateKeepsNamed(adapter.View(), env.name, used, spec);
      }
      card := adapter.CreateCard(spec, env.name(spec.key));
    }

    /** Create a card that must come back READY. */
    method CreateReady(spec: CardSpec, ghost used: set<CardKey>)
      requires Tracks(used) && spec.key in used
      modifies adapter
      ensures Tracks(used)
      ensures adapter.View() == ApplyAll(old(adapter.View()), [CreateReadyOp(spec)], env.name)
    {
      ApplyOne(adapter.View(), CreateReadyOp(spec), env.name);
      var card := Create(spec, used);
      if card.status != Ready {
        ghost var b := adapter.View();
        var r := adapter.ReclaimCard(card.id, Ready);
        PutKeepsNamed(b, env.name, used, r.value);
      }
    }

    /** `_create_fresh_retry`, which checks final reviews before it creates a merge retry. */
    method CreateFreshRetry(card: Card, cards: seq<Card>, ghost used: set<CardKey>) returns (raised: bool)
      requires Tracks(used) && CardStage(card).Some? && AllCovered(used, FreshRetryOps(env, card, cards))
      modifies adapter
      ensures Tracks(used) && raised == AnyRaises(env.policy, FreshRetryConsults(card, cards))
      ensures adapter.View()
           == ApplyAll(old(adapter.View()), if raised then [] else FreshRetryOps(env, card, cards), env.name)
    {
      hide HasValidMergePredecessor;
      hide ProofRaises;
      if ActiveRetry(cards, card.id, 0).Some? {
        return false;
      }
      if CardStage(card) == Some(Merge) {
        var reviews := CheckMergePredecessor(env, card, cards);
        if reviews.Err? {
          return true;
        }
      }
      assert KeyCovered(used, FreshRetryOps(env, card, cards)[0]);
      CreateReady(RetrySpec(env, card, cards), used);
      raised := false;
    }

    /** `_create_control_plane_recovery`. */
    method CreateRecovery(failed: Card, cards: seq<Card>, ghost used: set<CardKey>)
      requires Tracks(used) && AllCovered(used, RecoveryOps(env, failed, cards))
      modifies adapter
      ensures Tracks(used)
      ensures adapter.View() == ApplyAll(old(adapter.View()), RecoveryOps(env, failed, cards), env.name)
    {
      if HasOpenRecovery(cards, failed.id) {
        return;
      }
      assert KeyCovered(used, RecoveryOps(env, failed, cards)[0]);
      CreateReady(RecoverySpec(env, failed, cards), used);
    }

    // -------------------------------------------------------------- decisions

    method RetryWithinBudget(card: Card, cards: seq<Card>, ghost used: set<CardKey>) returns (raised: bool)
      requires Tracks(used) && CardStage(card).Some? && AllCovered(used, GuardedRetryOps(env, card, cards))
      modifies adapter
      ensures Tracks(used) && raised == AnyRaises(env.policy, GuardedConsults(env, card, cards))
      ensures adapter.View()
           == ApplyAll(old(adapter.View()), if raised then [] else GuardedRetryOps(env, card, cards), env.name)
    {
      hide FreshRetryConsults;
      hide ProofRaises;
      raised := false;
      var retry := ActiveRetry(cards, card.id, 0);
      if retry.Some? {
        if RetryExhausted(env, cards[retry.value], cards) {
          CreateRecovery(cards[retry.value], cards, used);
        }
      } else if RetryExhausted(env, card, cards) {
        CreateRecovery(card, cards, used);
      } else {
        raised := CreateFreshRetry(card, cards, used);
      }
    }

    /** A card without valid completion; `proven` is the retry whose proof can be promoted. */
    method HandleUnproven(card: Card, cards: seq<Card>, proven: Option<nat>, ghost used: set<CardKey>)
      returns (raised: bool)
      requires Tracks(used) && CardStage(card).Some? && AllCovered(used, UnprovenOps(env, card, cards))
      requires proven == FirstProven(env, cards, card.id, 0)
      modifies adapter
      ensures Tracks(used) && raised == AnyRaises(env.policy, UnprovenConsults(env, card, cards))
      ensures adapter.View()
           == ApplyAll(old(adapter.View()), if raised then [] else UnprovenOps(env, card, cards), env.name)
    {
      hide GuardedConsults;
      hide GuardedRetryOps;
      hide ProofRaises;
      if proven.Some? {
        Complete(card, cards[proven.value], used);
        raised := false;
      } else {
        raised := RetryWithinBudget(card, cards, used);
      }
    }

    method CancelRepairs(repairs: seq<Card>, ghost used: set<CardKey>)
      requires Tracks(used)
      modifies adapter
      ensures Tracks(used)
      ensures adapter.View() == ApplyAll(old(adapter.View()), CancelOps(repairs), env.name)
    {
      for i := 0 to |repairs|
        invariant Tracks(used)
        invariant adapter.View() == ApplyAll(old(adapter.View()), CancelOps(repairs[..i]), env.name)
      {
        assert repairs[..i + 1][..i] == repairs[..i];
        var repair := repairs[i];
        if repair.status == Ready || repair.status == Todo || repair.status == Blocked {
          ApplyConcat(old(adapter.View()), CancelOps(repairs[..i]), [ReclaimOp(repair.id, Blocked)], env.name);
          Reclaim(repair.id, Blocked, used);
        }
      }
      assert repairs[..|repairs|] == repairs;
    }

    /** A stale final review whose predecessors are complete: cancel its repairs and ask the reviewer again. */
    method RetryStaleReview(card: Card, cards: seq<Card>, ghost used: set<CardKey>)
      requires Tracks(used) && CardStage(card) == Some(FinalReview)
      requires AllCovered(used, CancelOps(RepairsOf(cards, card.id)) + FreshRetryOps(env, card, cards))
      modifies adapter
      ensures Tracks(used)
      ensures adapter.View() == ApplyAll(old(adapter.View()),
                                         CancelOps(RepairsOf(cards, card.id)) + FreshRetryOps(env, card, cards),
                                         env.name)
    {
      var repairs := RepairsOf(cards, card.id);
      CoveredParts(used, CancelOps(repairs), FreshRetryOps(env, card, cards));
      ApplyConcat(adapter.View(), CancelOps(repairs), FreshRetryOps(env, card, cards), env.name);
      CancelRepairs(repairs, used);
      var raised := CreateFreshRetry(card, cards, used);
    }

    /** The last repair of a gate, or a first one. */
    method RepairGate(card: Card, cards: seq<Card>, ghost used: set<CardKey>)
      requires Tracks(used) && AllCovered(used, RepairGateOps(env, card, cards))
      modifies adapter
      ensures Tracks(used)
      ensures adapter.View() == ApplyAll(old(adapter.View()), RepairGateOps(env, card, cards), env.name)
    {
      hide FailureCount;
      hide RetryLimit;
      var repairs := RepairsOf(cards, card.id);
      if repairs != [] {
        var repair := repairs[|repairs| - 1];
        if FailureCount(repair) > RetryLimit(repair, env.maxRetries) {
          CreateRecovery(repair, cards, used);
        } else {
          RecoverCard(repair, used);
        }
      } else {
        assert KeyCovered(used, RepairGateOps(env, card, cards)[0]);
        ApplyOne(adapter.View(), CreateOp(RepairSpec(env, card)), env.name);
        var _ := Create(RepairSpec(env, card), used);
      }
    }

    method HandleBlockedGate(card: Card, cards: seq<Card>, ghost used: set<CardKey>) returns (raised: bool)
      requires Tracks(used) && CardStage(card).Some? && AllCovered(used, BlockedGateOps(env, card, cards))
      modifies adapter
      ensures Tracks(used) && raised == AnyRaises(env.policy, BlockedGateConsults(env, card, cards))
      ensures adapter.View()
           == ApplyAll(old(adapter.View()), if raised then [] else BlockedGateOps(env, card, cards), env.name)
    {
      hide IsStaleGateBlock;
      hide HasValidPredecessors;
      hide BlockReason;
      hide RepairsOf;
      hide HasValidCompletion;
      hide ProofRaises;
      hide GuardedRetryOps;
      hide GuardedConsults;
      hide CancelOps;
      hide FreshRetryOps;
      hide RepairGateOps;
      var repairs := RepairsOf(cards, card.id);
      GateConsultsSplit(card, cards);
      if IsStaleFinal(card) {
        var current := CheckPredecessors(env, card, cards);
        if current.Err? {
          return true;
        }
        if current.value {
          RetryStaleReview(card, cards, used);
          return false;
        }
      }
      var finished := CheckRepairs(env, repairs);
      if finished.Err? {
        return true;
      }
      if finished.value {
        raised := RetryWithinBudget(card, cards, used);
        return;
      }
      RepairGate(card, cards, used);
      raised := false;
    }

    lemma GateConsultsSplit(card: Card, cards: seq<Card>)
      requires CardStage(card).Some?
      ensures var stale := IsStaleFinal(card) && AnyRaises(env.policy, PredecessorConsults(env, card, cards, 0));
              var repairs := AnyRaises(env.policy, RepairConsults(env, RepairsOf(cards, card.id), 0));
              AnyRaises(env.policy, BlockedGateConsults(env, card, cards))
              <==> stale || (!(IsStaleFinal(card) && HasValidPredecessors(env, card, cards))
                             && (repairs || (HasFinishedRepair(env, RepairsOf(cards, card.id))
                                             && AnyRaises(env.policy, GuardedConsults(env, card, cards)))))
    {
      hide HasValidPredecessors;
      hide HasFinishedRepair;
      hide GuardedConsults;
      hide PredecessorConsults;
      hide RepairConsults;
      var first := if IsStaleFinal(card) then PredecessorConsults(env, card, cards, 0) else [];
      var last := if HasFinishedRepair(env, RepairsOf(cards, card.id)) then GuardedConsults(env, card, cards) else [];
      var middle := RepairConsults(env, RepairsOf(cards, card.id), 0);
      AnyRaisesConcat(env.policy, middle, last);
      if IsStaleFinal(card) && HasValidPredecessors(env, card, cards) {
        AnyRaisesConcat(env.policy, first, FreshRetryConsults(card, cards));
      } else {
        AnyRaisesConcat(env.policy, first, middle + last);
      }
    }

    method HandleBlocked(card: Card, cards: seq<Card>, proven: Option<nat>, ghost used: set<CardKey>)
      returns (raised: bool)
      requires Tracks(used) && AllCovered(used, BlockedOps(env, card, cards)) && card.status == Blocked
      requires proven == FirstProven(env, cards, card.id, 0)
      modifies adapter
      ensures Tracks(used) && raised == AnyRaises(env.policy, BlockedConsults(env, card, cards))
      ensures adapter.View()
           == ApplyAll(old(adapter.View()), if raised then [] else BlockedOps(env, card, cards), env.name)
    {
      hide HasValidMergePredecessor;
      hide ProofRaises;
      hide BlockedGateOps;
      hide BlockedGateConsults;
      hide FreshRetryOps;
      hide FreshRetryConsults;
      hide ClassifyBlocker;
      hide FailureCount;
      hide RetryLimit;
      hide RecoveryOps;
      hide RecoverCardOps;
      raised := false;
      if ClassifyBlocker(BlockReason(card)) != Technical {
        return;
      }
      if IsCancelled(card) {
        return;
      }
      if proven.Some? {
        Complete(card, cards[proven.value], used);
        return;
      }
      if CardStage(card) == Some(Merge) {
        AnyRaisesConcat(env.policy, MergeConsults(card, cards, |cards|), FreshRetryConsults(card, cards));
        AnyRaisesConcat(env.policy, MergeConsults(card, cards, |cards|), []);
        var found := CheckMergePredecessor(env, card, cards);
        if found.Err? {
          return true;
        }
        if found.value {
          raised := CreateFreshRetry(card, cards, used);
          return;
        }
      }
      if IsGate(CardStage(card)) {
        raised := HandleBlockedGate(card, cards, used);
      } else if FailureCount(card) > RetryLimit(card, env.maxRetries) {
        CreateRecovery(card, cards, used);
      } else {
        RecoverCard(card, used);
      }
    }

    /** The rest of the main loop's body, after its early exits. */
    method ReconcileStatus(card: Card, cards: seq<Card>, ghost used: set<CardKey>) returns (raised: bool)
      requires Tracks(used) && AllCovered(used, StatusOps(env, card, cards))
      modifies adapter
      ensures Tracks(used) && raised == AnyRaises(env.policy, StatusConsults(env, card, cards))
      ensures adapter.View()
           == ApplyAll(old(adapter.View()), if raised then [] else StatusOps(env, card, cards), env.name)
    {
      hide HasValidCompletion;
      hide ProofRaises;
      hide UnprovenOps;
      hide UnprovenConsults;
      hide BlockedOps;
      hide BlockedConsults;
      StatusConsultsSplit(card, cards);
      var proven := FindProven(env, cards, card.id);
      if proven.Err? {
        return true;
      }
      if (card.status == InReview || card.status == Done) && CardStage(card).Some? {
        var complete := CheckCompletion(env, card);
        if complete.Err? {
          return true;
        }
        if !complete.value {
          raised := HandleUnproven(card, cards, proven.value, used);
          return;
        }
        if card.status == InReview {
          Complete(card, card, used);
        }
        return false;
      }
      if card.status != Blocked {
        return false;
      }
      raised := HandleBlocked(card, cards, proven.value, used);
    }

    lemma StatusConsultsSplit(card: Card, cards: seq<Card>)
      ensures AnyRaises(env.policy, StatusConsults(env, card, cards))
         <==> || AnyRaises(env.policy, DescendantConsults(env, cards, card.id, 0))
              || (if (card.status == InReview || card.status == Done) && CardStage(card).Some? then
                    || AnyRaises(env.policy, [card])
                    || (!HasValidCompletion(env, card) && AnyRaises(env.policy, UnprovenConsults(env, card, cards)))
                  else card.status == Blocked && AnyRaises(env.policy, BlockedConsults(env, card, cards)))
    {
      hide HasValidCompletion;
      hide UnprovenConsults;
      hide BlockedConsults;
      hide DescendantConsults;
      var first := DescendantConsults(env, cards, card.id, 0);
      var last := if HasValidCompletion(env, card) then [] else UnprovenConsults(env, card, cards);
      AnyRaisesConcat(env.policy, [card], last);
      AnyRaisesConcat(env.policy, first, [card] + last);
      AnyRaisesConcat(env.policy, first, BlockedConsults(env, card, cards));
      AnyRaisesConcat(env.policy, first, []);
    }

    /** A merge card that failed is retried at once; a waiting card over its budget goes to the captain. */
    method ReconcileUnlessExit(card: Card, cards: seq<Card>, ghost used: set<CardKey>) returns (raised: bool)
      requires Tracks(used) && AllCovered(used, MergeTurnOps(env, card, cards))
      modifies adapter
      ensures Tracks(used) && raised == AnyRaises(env.policy, MergeTurnConsults(env, card, cards))
      ensures adapter.View()
           == ApplyAll(old(adapter.View()), if raised then [] else MergeTurnOps(env, card, cards), env.name)
    {
      hide HasValidMergePredecessor;
      hide HasFailureEvidence;
      hide ProofRaises;
      hide StatusOps;
      hide StatusConsults;
      hide FreshRetryOps;
      hide FreshRetryConsults;
      hide FailureCount;
      hide RetryLimit;
      hide RecoverCardOps;
      var first := MergeConsults(card, cards, |cards|);
      AnyRaisesConcat(env.policy, first, FreshRetryConsults(card, cards));
      AnyRaisesConcat(env.policy, first, StatusConsults(env, card, cards));
      AnyRaisesConcat(env.policy, first, []);
      AnyRaisesConcat(env.policy, [], FreshRetryConsults(card, cards));
      AnyRaisesConcat(env.policy, [], StatusConsults(env, card, cards));
      if IsFailedOriginal(card) {
        var found := CheckMergePredecessor(env, card, cards);
        if found.Err? {
          return true;
        }
        if found.value {
          raised := CreateFreshRetry(card, cards, used);
          return;
        }
      }
      if (card.status == Ready || card.status == Todo) && FailureCount(card) > RetryLimit(card, env.maxRetries) {
        RecoverCard(card, used);
        return false;
      }
      raised := ReconcileStatus(card, cards, used);
    }

    /** The body of the main loop.  It raises exactly when a card whose proof it consults does, and then it
        has done nothing; otherwise it has the specified effect, which stays within the card's turn. */
    method ReconcileCard(card: Card, cards: seq<Card>, ghost used: set<CardKey>) returns (raised: bool)
      requires Tracks(used) && AllCovered(used, MainOps(env, card, cards))
      modifies adapter
      ensures Tracks(used) && raised == TurnRaises(env, 3, card, cards)
      ensures adapter.View()
           == ApplyAll(old(adapter.View()), if raised then [] else MainOps(env, card, cards), env.name)
      ensures StaysWithin(env, card, cards, old(adapter.View()), adapter.View(), 1)
    {
      hide RepairIsObsolete;
      hide ProofRaises;
      hide MergeTurnOps;
      hide MergeTurnConsults;
      hide RepairTargetConsults;
      StaysAsItIs(env, card, cards, adapter.View());
      MainStays(card, cards, adapter.View(), used);
      AnyRaisesConcat(env.policy, RepairTargetConsults(env, card, cards), MergeTurnConsults(env, card, cards));
      AnyRaisesConcat(env.policy, RepairTargetConsults(env, card, cards), []);
      AnyRaisesConcat(env.policy, [], MergeTurnConsults(env, card, cards));
      if card.metadata.archived {
        return false;
      }
      if CardStage(card) == Some(Repair) {
        var obsolete := CheckRepairObsolete(env, card, cards);
        if obsolete.Err? {
          return true;
        }
        if obsolete.value {
          return false;
        }
      }
      raised := ReconcileUnlessExit(card, cards, used);
    }

    // -------------------------------------------------------------- the pass

    method CheckSuperseded(phase: nat, card: Card, cards: seq<Card>) returns (r: Result<bool, ProofError>)
      requires phase < 3
      ensures r == Verdict(env.policy, TurnConsults(env, phase, card, cards), IsSuperseded(env, phase, card, cards))
    {
      hide ProofRaises;
      hide RecoveryIsObsolete;
      hide RepairIsObsolete;
      if card.status != Ready && card.status != Todo {
        return Ok(false);
      }
      if phase == 0 {
        if RetryFor(card).None? {
          return Ok(false);
        }
        r := HasValidRetryAncestor(env.policy, card, cards);
      } else if phase == 1 {
        if CardStage(card) != Some(ControlPlaneAction) {
          return Ok(false);
        }
        r := CheckRecoveryObsolete(env, card, cards);
      } else {
        if CardStage(card) != Some(Repair) {
          return Ok(false);
        }
        r := CheckRepairObsolete(env, card, cards);
      }
    }

    /** The body of the three loops that cancel superseded cards. */
    method CancelIfSuperseded(phase: nat, card: Card, cards: seq<Card>, ghost used: set<CardKey>)
      returns (raised: bool)
      requires Tracks(used) && phase < 3
      modifies adapter
      ensures Tracks(used) && raised == TurnRaises(env, phase, card, cards)
      ensures adapter.View()
           == ApplyAll(old(adapter.View()), if raised then [] else StepOps(env, phase, card, cards), env.name)
    {
      hide IsSuperseded;
      hide TurnConsults;
      hide ProofRaises;
      ApplyOne(adapter.View(), ReclaimOp(card.id, Blocked), env.name);
      var superseded := CheckSuperseded(phase, card, cards);
      if superseded.Err? {
        return true;
      }
      if superseded.value {
        Reclaim(card.id, Blocked, used);
      }
      raised := false;
    }

    /** One of the three loops that cancel superseded cards; `done` counts the turns before one raises. */
    method CancelSuperseded(phase: nat, cards: seq<Card>, ghost used: set<CardKey>) returns (done: nat)
      requires Tracks(used) && phase < 3
      modifies adapter
      ensures Tracks(used) && IsStop(env, phase, cards, done)
      ensures adapter.View() == ApplyAll(old(adapter.View()), PhaseOps(env, phase, cards, done), env.name)
    {
      hide StepOps;
      hide PhaseOps;
      hide ApplyAll;
      hide TurnRaises;
      hide Named;
      done := 0;
      LoopStarts(adapter.View(), phase, cards);
      while done < |cards|
        invariant done <= |cards| && Tracks(used)
        invariant forall i :: 0 <= i < done ==> !TurnRaises(env, phase, cards[i], cards)
        invariant adapter.View() == ApplyAll(old(adapter.View()), PhaseOps(env, phase, cards, done), env.name)
      {
        NextTurn(old(adapter.View()), phase, cards, done);
        LoopStarts(adapter.View(), phase, cards);
        var raised := CancelIfSuperseded(phase, cards[done], cards, used);
        if raised {
          return;
        }
        done := done + 1;
      }
    }

    /** One more turn of a loop. */
    lemma NextTurn(b: Board, phase: nat, cards: seq<Card>, n: nat)
      requires n < |cards|
      ensures ApplyAll(b, PhaseOps(env, phase, cards, n + 1), env.name)
           == ApplyAll(ApplyAll(b, PhaseOps(env, phase, cards, n), env.name),
                       StepOps(env, phase, cards[n], cards), env.name)
    {
      hide StepOps;
      ApplyConcat(b, PhaseOps(env, phase, cards, n), StepOps(env, phase, cards[n], cards), env.name);
    }

    method ReconcileCards(cards: seq<Card>, ghost used: set<CardKey>) returns (done: nat)
      requires Tracks(used) && AllCovered(used, PhaseOps(env, 3, cards, |cards|))
      modifies adapter
      ensures Tracks(used) && IsStop(env, 3, cards, done)
      ensures adapter.View() == ApplyAll(old(adapter.View()), PhaseOps(env, 3, cards, done), env.name)
    {
      hide MainOps;
      hide PhaseOps;
      hide ApplyAll;
      hide TurnRaises;
      hide StaysWithin;
      hide AllCovered;
      hide Named;
      done := 0;
      LoopStarts(adapter.View(), 3, cards);
      while done < |cards|
        invariant done <= |cards| && Tracks(used)
        invariant forall i :: 0 <= i < done ==> !TurnRaises(env, 3, cards[i], cards)
        invariant adapter.View() == ApplyAll(old(adapter.View()), PhaseOps(env, 3, cards, done), env.name)
      {
        NextTurn(old(adapter.View()), 3, cards, done);
        LoopStarts(adapter.View(), 3, cards);
        CoveredStep(used, cards, done);
        var raised := ReconcileCard(cards[done], cards, used);
        if raised {
          return;
        }
        done := done + 1;
      }
    }

    lemma LoopStarts(b: Board, phase: nat, cards: seq<Card>)
      ensures ApplyAll(b, PhaseOps(env, phase, cards, 0), env.name) == b && ApplyAll(b, [], env.name) == b
    {
    }

    lemma MainStays(card: Card, cards: seq<Card>, b: Board, used: set<CardKey>)
      requires Named(b, env.name, used) && AllCovered(used, MainOps(env, card, cards))
      ensures StaysWithin(env, card, cards, b, ApplyAll(b, MainOps(env, card, cards), env.name), 1)
    {
      hide MainOps;
      hide Named;
      var ops := MainOps(env, card, cards);
      forall op | op in ops && IsCreate(op) ensures op.spec.key in used {
        var k :| 0 <= k < |ops| && ops[k] == op;
        assert KeyCovered(used, ops[k]);
      }
      TurnStaysWithin(env, card, cards, b, used);
    }

    lemma PhaseNext(cards: seq<Card>, n: nat)
      requires 0 < n <= |cards|
      ensures PhaseOps(env, 3, cards, n) == PhaseOps(env, 3, cards, n - 1) + MainOps(env, cards[n - 1], cards)
    {
      hide MainOps;
    }

    lemma CoveredStep(used: set<CardKey>, cards: seq<Card>, i: nat)
      requires i < |cards| && AllCovered(used, PhaseOps(env, 3, cards, |cards|))
      ensures AllCovered(used, MainOps(env, cards[i], cards))
    {
      hide MainOps;
      hide AllCovered;
      hide PhaseOps;
      CoveredPrefix(used, cards, i + 1, |cards|);
      PhaseNext(cards, i + 1);
      CoveredParts(used, PhaseOps(env, 3, cards, i), MainOps(env, cards[i], cards));
    }

    lemma {:induction false} CoveredPrefix(used: set<CardKey>, cards: seq<Card>, i: nat, n: nat)
      requires i <= n <= |cards| && AllCovered(used, PhaseOps(env, 3, cards, n))
      ensures AllCovered(used, PhaseOps(env, 3, cards, i))
      decreases n
    {
      hide MainOps;
      hide AllCovered;
      hide PhaseOps;
      if i < n {
        PhaseNext(cards, n);
        CoveredParts(used, PhaseOps(env, 3, cards, n - 1), MainOps(env, cards[n - 1], cards));
        CoveredPrefix(used, cards, i, n - 1);
      }
    }

    /** One of the four loops, after the loops before it. */
    method RunPhase(phase: nat, cards: seq<Card>, ghost b: Board, ghost used: set<CardKey>) returns (done: nat)
      requires Tracks(used) && phase < 4 && NoRaiseBefore(env, cards, phase)
      requires AllCovered(used, PhaseOps(env, 3, cards, |cards|))
      requires adapter.View() == ApplyAll(b, OpsBefore(env, cards, phase, 0), env.name)
      modifies adapter
      ensures Tracks(used) && done <= |cards|
      ensures adapter.View() == ApplyAll(b, OpsBefore(env, cards, phase, done), env.name)
      ensures done < |cards| ==> IsFirstRaise(env, cards, phase, done) && PassRaises(env, cards)
      ensures done == |cards| ==> NoRaiseBefore(env, cards, phase + 1)
    {
      hide TurnRaises;
      hide AllCovered;
      hide PhaseOps;
      hide OpsBefore;
      if phase < 3 {
        done := CancelSuperseded(phase, cards, used);
      } else {
        done := ReconcileCards(cards, used);
      }
      ApplyConcat(b, OpsBefore(env, cards, phase, 0), PhaseOps(env, phase, cards, done), env.name);
      OpsAfter(env, cards, phase, done);
      if done < |cards| {
        RaiseIsFirst(env, cards, phase, done);
      }
    }

    /** `reconcile` without dispatch.  It raises exactly when some card whose proof some turn consults does;
        otherwise the board becomes what the specified pass makes of it, and if it raises the board is left
        as the turns before make it. */
    method Reconcile(ghost used: set<CardKey>) returns (raised: bool, phase: nat, done: nat)
      requires Tracks(used) && AllCovered(used, PassOps(env, Listing(adapter.View())))
      modifies adapter
      ensures Tracks(used) && raised == PassRaises(env, Listing(old(adapter.View())))
      ensures !raised ==> adapter.View() == Pass(env, old(adapter.View()))
      ensures raised ==> IsFirstRaise(env, Listing(old(adapter.View())), phase, done)
      ensures raised ==>
        adapter.View()
        == ApplyAll(old(adapter.View()), OpsBefore(env, Listing(old(adapter.View())), phase, done), env.name)
    {
      hide TurnRaises;
      hide PassOps;
      hide OpsBefore;
      hide AllCovered;
      ghost var b := adapter.View();
      var cards := adapter.ListCards();
      MainLoopIsCovered(cards, used);
      NothingBefore(cards, b);
      phase, done := 0, |cards|;
      while phase < 4
        invariant phase <= 4 && Tracks(used) && NoRaiseBefore(env, cards, phase) && done == |cards|
        invariant adapter.View() == ApplyAll(b, OpsBefore(env, cards, phase, 0), env.name)
      {
        done := RunPhase(phase, cards, b, used);
        if done < |cards| {
          return true, phase, done;
        }
        OpsAfter(env, cards, phase, done);
        phase := phase + 1;
      }
      OpsAfter(env, cards, 3, done);
      raised := false;
    }

    lemma NothingBefore(cards: seq<Card>, b: Board)
      ensures ApplyAll(b, OpsBefore(env, cards, 0, 0), env.name) == b && NoRaiseBefore(env, cards, 0)
    {
      assert OpsBefore(env, cards, 0, 0) == [];
    }

    lemma MainLoopIsCovered(cards: seq<Card>, used: set<CardKey>)
      requires AllCovered(used, PassOps(env, cards))
      ensures AllCovered(used, PhaseOps(env, 3, cards, |cards|))
    {
      hide AllCovered;
      hide PhaseOps;
      CoveredParts(used, PhaseOps(env, 0, cards, |cards|) + PhaseOps(env, 1, cards, |cards|)
                         + PhaseOps(env, 2, cards, |cards|), PhaseOps(env, 3, cards, |cards|));
    }

    // -------------------------------------------------------------- enqueue

    /** Create the card of one plan and remember its id under the key. */
    method CreateNext(plans: seq<Plan>, i: nat, known: map<CardKey, CardId>) returns (known': map<CardKey, CardId>)
      requires i < |plans| && CreatableAt(plans, i) && Remembers(adapter.View(), known, plans, i)
      requires adapter.Valid() && CanAppend(adapter.View(), plans[i], env.name)
      modifies adapter
      ensures adapter.Valid() && adapter.View() == CreatePlanned(old(adapter.View()), plans[i], env.name)
      ensures Remembers(adapter.View(), known', plans, i + 1)
    {
      var parents := ResolveByKey(known, plans, i);
      RemembersNext(adapter.View(), known, plans, i, env.name);
      var card := adapter.CreateCard(plans[i].spec.(parents := parents), env.name(plans[i].spec.key));
      known' := known[plans[i].spec.key := card.id];
    }

    /** Create the cards in plan order, with parents looked up by key, then complete the root. */
    method EnqueuePlans(plans: seq<Plan>)
      requires plans != [] && Creatable(plans) && Tabled(adapter.View()) && FreshFor(env.name, adapter.View(), plans)
      modifies adapter
      ensures adapter.Valid() && adapter.View() == EnqueueAll(old(adapter.View()), plans, env.name)
    {
      ghost var b := adapter.View();
      var cardsByKey: map<CardKey, CardId> := map[];
      for i := 0 to |plans|
        invariant adapter.Valid() && adapter.View() == CreateFirst(b, plans, i, env.name)
        invariant Remembers(adapter.View(), cardsByKey, plans, i)
      {
        NextIsReady(b, plans, i, env.name);
        assert CreatableAt(plans, i);
        cardsByKey := CreateNext(plans, i, cardsByKey);
      }
      var _ := adapter.CompleteCard(cardsByKey[plans[0].spec.key], MATERIALIZED);
    }

    /** `enqueue`: the plans of `build_workflow`. */
    method Enqueue(job: Job, sel: Selection)
      requires Tabled(adapter.View()) && FreshFor(env.name, adapter.View(), BuildWorkflow(job, sel))
      modifies adapter
      ensures adapter.Valid()
      ensures adapter.View() == EnqueueAll(old(adapter.View()), BuildWorkflow(job, sel), env.name)
    {
      WorkflowIsCreatable(job, sel);
      EnqueuePlans(BuildWorkflow(job, sel));
    }

    method ResolveByKey(known: map<CardKey, CardId>, plans: seq<Plan>, i: nat) returns (parents: seq<CardId>)
      requires i < |plans| && CreatableAt(plans, i) && Remembers(adapter.View(), known, plans, i)
      ensures parents == ResolveParents(adapter.View(), plans[i].parents)
    {
      parents := [];
      for n := 0 to |plans[i].parents|
        invariant parents == ResolveParents(adapter.View(), plans[i].parents)[..n]
      {
        assert plans[i].parents[n] in plans[i].parents;
        parents := parents + [known[plans[i].parents[n]]];
      }
    }
  }
}
