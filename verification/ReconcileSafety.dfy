/** What a reconcile pass never touches, and what it guarantees about the cards it completes. */
module ReconcileSafety {
  import opened Wrappers
  import opened Cards
  import opened CardBoard
  import opened RetryChain
  import opened Reconcile
  import opened ReconcileOps
  import opened BoardFold
  import opened ReconcileInvariant

  ghost predicate DistinctIds(cards: seq<Card>) {
    forall i, j :: 0 <= i < |cards| && 0 <= j < |cards| && cards[i].id == cards[j].id ==> i == j
  }

  lemma ListingIdsDistinct(b: Board)
    requires Valid(b)
    ensures DistinctIds(Listing(b))
  {
    forall i, j | 0 <= i < |b.order| && 0 <= j < |b.order| && Listing(b)[i].id == Listing(b)[j].id
      ensures i == j
    {
      ListingAt(b, i);
      ListingAt(b, j);
    }
  }

  /** The old rows of the board after a pass. */
  lemma PassOldRow(env: Env, b: Board, used: set<CardKey>, i: nat)
    requires Sound(b, env.name, used) && Covers(used, PassOps(env, Listing(b))) && i < |b.order|
    ensures Valid(Pass(env, b)) && i < |Pass(env, b).order|
    ensures Listing(Pass(env, b))[i] == EffectAll(Listing(b)[i], PassOps(env, Listing(b)))
  {
    PassIsFold(env, b, used);
    OldRow(b, Pass(env, b), PassOps(env, Listing(b)), env.name, used, i);
  }

  // ---------------------------------------------------------------- cards a pass leaves alone

  lemma {:induction false} NoEffect(card: Card, ops: seq<Op>)
    requires forall k :: 0 <= k < |ops| ==> IsCreate(ops[k]) || ops[k].id != card.id
    ensures EffectAll(card, ops) == card
  {
    if ops != [] {
      NoEffect(card, ops[..|ops| - 1]);
    }
  }

  /** A pass never changes a card that is DONE with a valid completion, nor an owner-blocked card
      of a stage other than repair, or of that stage without a repair label. */
  lemma PassLeavesAlone(env: Env, b: Board, used: set<CardKey>, i: nat)
    requires Sound(b, env.name, used) && Covers(used, PassOps(env, Listing(b))) && i < |b.order|
    requires var card := Listing(b)[i];
             || (card.status == Done && HasValidCompletion(env, card))
             || (IsOwnerBlocked(card) && (CardStage(card) != Some(Repair) || RepairToken(card).None?))
    ensures Valid(Pass(env, b)) && i < |Pass(env, b).order| && Listing(Pass(env, b))[i] == Listing(b)[i]
  {
    var cards := Listing(b);
    var ops := PassOps(env, cards);
    PassIsJustified(env, cards);
    ListingIdsDistinct(b);
    assert !IsMovable(env, cards[i]);
    forall k | 0 <= k < |ops| ensures IsCreate(ops[k]) || ops[k].id != cards[i].id {
      MovedIsMovable(env, cards, ops[k], i);
    }
    NoEffect(cards[i], ops);
    PassOldRow(env, b, used, i);
  }

  lemma MovedIsMovable(env: Env, cards: seq<Card>, op: Op, i: nat)
    requires DistinctIds(cards) && i < |cards| && Justified(env, cards, op)
    ensures IsCreate(op) || op.id != cards[i].id || IsMovable(env, cards[i])
  {
  }

  // ---------------------------------------------------------------- completions carry proof

  lemma {:induction false} ChainStages(cards: seq<Card>, j: nat, seen: set<CardId>)
    requires Distinguishable(TagsOf(cards)) && Anchored(TagsOf(cards)) && StageAnchored(cards)
    requires j < |cards|
    ensures forall c :: c in Chain(TagsOf(cards), TagsOf(cards)[j], seen) ==>
      exists m :: 0 <= m < |cards| && c == TagOf(cards[m]) && CardStage(cards[m]) == CardStage(cards[j])
    decreases j
  {
    var tags := TagsOf(cards);
    ParentIsExact(tags, j, j);
    if tags[j].id !in seen && tags[j].token.Some? {
      var p := Parent(tags, tags[j]).value;
      ParentHasStage(cards, j, p);
      ChainStages(cards, p, seen + {tags[j].id});
      assert tags[p] in tags;
      assert Chain(tags, tags[j], seen) == [tags[j]] + Chain(tags, tags[p], seen + {tags[j].id});
    }
  }

  lemma ParentHasStage(cards: seq<Card>, j: nat, p: nat)
    requires Distinguishable(TagsOf(cards)) && Anchored(TagsOf(cards)) && StageAnchored(cards)
    requires j < |cards| && p < |cards| && Parent(TagsOf(cards), TagsOf(cards)[j]) == Some(p)
    ensures CardStage(cards[p]) == CardStage(cards[j])
  {
    var tags := TagsOf(cards);
    assert StageAnchoredAt(cards, j);
    var i :| 0 <= i < j && RetryFor(cards[j]).value == LabelId(cards[i].id)
             && CardStage(cards[j]) == CardStage(cards[i]);
    assert tags[i].id == cards[i].id;
    ParentIsExact(tags, j, i);
  }

  /** On a sound board a retry descendant works on the stage of its ancestor. */
  lemma DescendantHasStage(cards: seq<Card>, j: nat, i: nat)
    requires Distinguishable(TagsOf(cards)) && Anchored(TagsOf(cards)) && StageAnchored(cards)
    requires j < |cards| && i < |cards| && Descends(TagsOf(cards), TagOf(cards[j]), cards[i].id)
    ensures CardStage(cards[j]) == CardStage(cards[i])
  {
    var tags := TagsOf(cards);
    ChainStages(cards, j, {});
    var c :| c in Chain(tags, tags[j], {}) && TokenNames(c.token, cards[i].id);
    var m :| 0 <= m < |cards| && c == TagOf(cards[m]) && CardStage(cards[m]) == CardStage(cards[j]);
    ParentIsExact(tags, m, i);
    ParentHasStage(cards, m, i);
  }

  /** Validity of proof only depends on the labels and the newest passed record. */
  lemma PromotedProofIsValid(policy: CompletionPolicy, source: Card, target: Card)
    requires HasValidProof(policy, source) && CardStage(source) == CardStage(target)
    ensures HasValidProof(policy, Completed(target, PassedProof(source)))
  {
    assert LatestPassed(PassedProof(source)) == LatestProof(source);
  }

  lemma JustifiedCompletionIsValid(env: Env, cards: seq<Card>, op: Op, i: nat, card: Card)
    requires Distinguishable(TagsOf(cards)) && Anchored(TagsOf(cards)) && StageAnchored(cards)
    requires DistinctIds(cards) && i < |cards| && card.id == cards[i].id && card.labels == cards[i].labels
    requires op.CompleteOp? && op.id == card.id && Justified(env, cards, op)
    ensures HasValidProof(env.policy, Effect(card, op))
    ensures HasSource(env, cards, cards[i], op.proof)
  {
    var n :| 0 <= n < |cards| && cards[n].id == op.id && HasSource(env, cards, cards[n], op.proof);
    if HasValidCompletion(env, cards[i]) && op.proof == PassedProof(cards[i]) {
      PromotedProofIsValid(env.policy, cards[i], card);
    } else {
      var j :| 0 <= j < |cards| && IsProvenDescendant(env, cards, cards[j], cards[i].id)
               && op.proof == PassedProof(cards[j]);
      DescendantHasStage(cards, j, i);
      PromotedProofIsValid(env.policy, cards[j], card);
    }
  }

  /** Either the evidence is the old one and the card was not made DONE, or it is valid evidence
      of the card itself or of one of its retries. */
  ghost predicate Evidenced(env: Env, cards: seq<Card>, before: Card, after: Card) {
    || (after.metadata.proof == before.metadata.proof && (after.status == Done ==> before.status == Done))
    || (HasValidProof(env.policy, after)
        && exists proof :: after.metadata.proof == Some(proof) && HasSource(env, cards, before, proof))
  }

  lemma {:induction false} EffectsAreEvidenced(env: Env, cards: seq<Card>, i: nat, ops: seq<Op>)
    requires Distinguishable(TagsOf(cards)) && Anchored(TagsOf(cards)) && StageAnchored(cards)
    requires DistinctIds(cards) && i < |cards| && AllJustified(env, cards, ops)
    ensures Evidenced(env, cards, cards[i], EffectAll(cards[i], ops))
  {
    if ops != [] {
      var op := ops[|ops| - 1];
      assert Justified(env, cards, op);
      EffectsAreEvidenced(env, cards, i, ops[..|ops| - 1]);
      var card := EffectAll(cards[i], ops[..|ops| - 1]);
      if op.CompleteOp? && op.id == card.id {
        JustifiedCompletionIsValid(env, cards, op, i, card);
        assert Effect(card, op).metadata.proof == Some(op.proof);
      } else {
        EvidenceSurvives(env, cards, cards[i], card, op);
      }
    }
  }

  lemma EvidenceSurvives(env: Env, cards: seq<Card>, before: Card, card: Card, op: Op)
    requires Evidenced(env, cards, before, card)
    requires !(op.CompleteOp? && op.id == card.id) && (op.ReclaimOp? ==> op.status != Done)
    ensures Evidenced(env, cards, before, Effect(card, op))
  {
    var after := Effect(card, op);
    assert after.labels == card.labels && after.metadata.proof == card.metadata.proof;
    assert HasValidProof(env.policy, after) == HasValidProof(env.policy, card);
  }

  /** Whenever a pass makes a card DONE or replaces its proof, the card afterwards satisfies the
      proof check of its stage, on evidence of its own or of one of its retries. */
  lemma PassCompletesWithProof(env: Env, b: Board, used: set<CardKey>, i: nat)
    requires Sound(b, env.name, used) && Covers(used, PassOps(env, Listing(b))) && i < |b.order|
    ensures Valid(Pass(env, b)) && i < |Pass(env, b).order|
    ensures var before, after := Listing(b)[i], Listing(Pass(env, b))[i];
            (after.status == Done && before.status != Done) || after.metadata.proof != before.metadata.proof ==>
              && HasValidProof(env.policy, after)
              && exists proof :: after.metadata.proof == Some(proof) && HasSource(env, Listing(b), before, proof)
  {
    SoundTags(b, env.name, used);
    ListingIdsDistinct(b);
    PassIsJustified(env, Listing(b));
    EffectsAreEvidenced(env, Listing(b), i, PassOps(env, Listing(b)));
    PassOldRow(env, b, used, i);
  }

  // ---------------------------------------------------------------- cards decide for themselves

  /** An operation of one card's step names that card, or one of its repair cards. */
  ghost predicate OwnOrRepair(cards: seq<Card>, card: Card, op: Op) {
    IsCreate(op) || op.id == card.id || exists r :: r in cards && r.id == op.id && RepairToken(r).Some?
  }

  lemma {:induction false} CancelTargets(cards: seq<Card>, card: Card, repairs: seq<Card>)
    requires forall r :: r in repairs ==> r in cards && IsRepairFor(r, card.id)
    ensures forall op :: op in CancelOps(repairs) ==> OwnOrRepair(cards, card, op)
  {
    if repairs != [] {
      assert repairs[|repairs| - 1] in cards;
      CancelTargets(cards, card, repairs[..|repairs| - 1]);
    }
  }

  lemma BlockedGateTargets(env: Env, card: Card, cards: seq<Card>)
    requires CardStage(card).Some?
    ensures forall op :: op in BlockedGateOps(env, card, cards) ==> OwnOrRepair(cards, card, op)
  {
    var repairs := RepairsOf(cards, card.id);
    RepairsAreCards(cards, card.id);
    CancelTargets(cards, card, repairs);
    if repairs != [] {
      assert repairs[|repairs| - 1] in repairs;
    }
  }

  lemma UnprovenTargets(env: Env, card: Card, cards: seq<Card>)
    requires CardStage(card).Some?
    ensures forall op :: op in UnprovenOps(env, card, cards) ==> OwnOrRepair(cards, card, op)
  {
  }

  lemma BlockedTargets(env: Env, card: Card, cards: seq<Card>)
    ensures forall op :: op in BlockedOps(env, card, cards) ==> OwnOrRepair(cards, card, op)
  {
    if CardStage(card).Some? && IsGate(CardStage(card)) {
      BlockedGateTargets(env, card, cards);
    }
  }

  lemma StepTargets(env: Env, phase: nat, card: Card, cards: seq<Card>)
    ensures forall op :: op in StepOps(env, phase, card, cards) ==> OwnOrRepair(cards, card, op)
  {
    BlockedTargets(env, card, cards);
    if CardStage(card).Some? {
      UnprovenTargets(env, card, cards);
    }
  }

  lemma {:induction false} EffectConcat(card: Card, xs: seq<Op>, ys: seq<Op>)
    ensures EffectAll(card, xs + ys) == EffectAll(EffectAll(card, xs), ys)
    decreases |ys|
  {
    if ys == [] {
      assert xs + ys == xs;
    } else {
      EffectConcat(card, xs, ys[..|ys| - 1]);
      assert (xs + ys)[..|xs + ys| - 1] == xs + ys[..|ys| - 1];
    }
  }

  lemma StepOfOther(env: Env, phase: nat, cards: seq<Card>, i: nat, k: nat, card: Card)
    requires DistinctIds(cards) && i < |cards| && k < |cards| && k != i
    requires RepairToken(cards[i]).None? && card.id == cards[i].id
    ensures EffectAll(card, StepOps(env, phase, cards[k], cards)) == card
  {
    var ops := StepOps(env, phase, cards[k], cards);
    StepTargets(env, phase, cards[k], cards);
    forall n | 0 <= n < |ops| ensures IsCreate(ops[n]) || ops[n].id != card.id {
      assert ops[n] in ops;
      assert OwnOrRepair(cards, cards[k], ops[n]);
    }
    NoEffect(card, ops);
  }

  lemma {:induction false} PhaseOnCard(env: Env, phase: nat, cards: seq<Card>, n: nat, i: nat, card: Card)
    requires DistinctIds(cards) && n <= |cards| && i < |cards|
    requires RepairToken(cards[i]).None? && card.id == cards[i].id
    ensures EffectAll(card, PhaseOps(env, phase, cards, n))
         == if i < n then EffectAll(card, StepOps(env, phase, cards[i], cards)) else card
    decreases n
  {
    hide StepOps;
    if n > 0 {
      PhaseOnCard(env, phase, cards, n - 1, i, card);
      EffectConcat(card, PhaseOps(env, phase, cards, n - 1), StepOps(env, phase, cards[n - 1], cards));
      if n - 1 != i {
        StepOfOther(env, phase, cards, i, n - 1, EffectAll(card, PhaseOps(env, phase, cards, n - 1)));
      }
    }
  }

  /** The effect of a card's own four steps. */
  function OwnSteps(env: Env, card: Card, cards: seq<Card>): Card {
    var c0 := EffectAll(card, StepOps(env, 0, card, cards));
    var c1 := EffectAll(c0, StepOps(env, 1, card, cards));
    var c2 := EffectAll(c1, StepOps(env, 2, card, cards));
    EffectAll(c2, StepOps(env, 3, card, cards))
  }

  /** A pass changes a card that carries no repair label only by that card's own steps. */
  lemma PassIsLocal(env: Env, b: Board, used: set<CardKey>, i: nat)
    requires Sound(b, env.name, used) && Covers(used, PassOps(env, Listing(b))) && i < |b.order|
    requires RepairToken(Listing(b)[i]).None?
    ensures Valid(Pass(env, b)) && i < |Pass(env, b).order|
    ensures Listing(Pass(env, b))[i] == OwnSteps(env, Listing(b)[i], Listing(b))
  {
    var cards := Listing(b);
    var card := cards[i];
    var n := |cards|;
    ListingIdsDistinct(b);
    PassOldRow(env, b, used, i);
    var c0 := EffectAll(card, PhaseOps(env, 0, cards, n));
    var c1 := EffectAll(c0, PhaseOps(env, 1, cards, n));
    var c2 := EffectAll(c1, PhaseOps(env, 2, cards, n));
    PhaseOnCard(env, 0, cards, n, i, card);
    PhaseOnCard(env, 1, cards, n, i, c0);
    PhaseOnCard(env, 2, cards, n, i, c1);
    PhaseOnCard(env, 3, cards, n, i, c2);
    EffectConcat(card, PhaseOps(env, 0, cards, n), PhaseOps(env, 1, cards, n));
    EffectConcat(card, PhaseOps(env, 0, cards, n) + PhaseOps(env, 1, cards, n), PhaseOps(env, 2, cards, n));
    EffectConcat(card, PhaseOps(env, 0, cards, n) + PhaseOps(env, 1, cards, n) + PhaseOps(env, 2, cards, n),
                 PhaseOps(env, 3, cards, n));
  }

  // ---------------------------------------------------------------- waiting cards and dependencies

  /** The guard under which the main loop hands a waiting card to the captain as READY. */
  predicate IsOverBudget(env: Env, card: Card, cards: seq<Card>) {
    && !card.metadata.archived
    && FailureCount(card) > RetryLimit(card, env.maxRetries)
    && !(CardStage(card) == Some(Merge) && HasFailureEvidence(card) && RetryFor(card).None?
         && HasValidMergePredecessor(env, card, cards))
  }

  lemma {:induction false} OneEffect(card: Card, op: Op)
    ensures EffectAll(card, [op]) == Effect(card, op)
  {
    assert [op][..0] == [];
  }

  /** A TODO card, whose parents need not be DONE, is made READY by a pass exactly when it is over
      its failure budget; otherwise it stays TODO or is cancelled. */
  lemma TodoIsReleasedIff(env: Env, b: Board, used: set<CardKey>, i: nat)
    requires Sound(b, env.name, used) && Covers(used, PassOps(env, Listing(b))) && i < |b.order|
    requires Listing(b)[i].status == Todo && RepairToken(Listing(b)[i]).None?
    ensures Valid(Pass(env, b)) && i < |Pass(env, b).order|
    ensures Listing(Pass(env, b))[i].status == Ready <==> IsOverBudget(env, Listing(b)[i], Listing(b))
    ensures Listing(Pass(env, b))[i].status in {Todo, Ready, Blocked}
  {
    var cards := Listing(b);
    var card := cards[i];
    PassIsLocal(env, b, used, i);
    OneEffect(card, ReclaimOp(card.id, Blocked));
    var c0 := EffectAll(card, StepOps(env, 0, card, cards));
    OneEffect(c0, ReclaimOp(card.id, Blocked));
    var c1 := EffectAll(c0, StepOps(env, 1, card, cards));
    OneEffect(c1, ReclaimOp(card.id, Blocked));
    var c2 := EffectAll(c1, StepOps(env, 2, card, cards));
    assert c2.id == card.id && c2.status in {Todo, Blocked};
    TodoMain(env, card, cards, c2);
  }

  lemma TodoMain(env: Env, card: Card, cards: seq<Card>, c: Card)
    requires card.status == Todo && RepairToken(card).None?
    requires c.id == card.id && c.status in {Todo, Blocked}
    ensures var r := EffectAll(c, MainOps(env, card, cards));
            (r.status == Ready <==> IsOverBudget(env, card, cards)) && r.status in {Todo, Ready, Blocked}
  {
    OneEffect(c, ReassignOp(card.id, env.captain));
    if CardStage(card).Some? && FreshRetryOps(env, card, cards) != [] {
      OneEffect(c, CreateReadyOp(RetrySpec(env, card, cards)));
    }
  }
}
