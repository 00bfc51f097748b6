/**
 What a reconcile pass makes of each card, told by the snapshot alone: who is handed out again, who is completed
 and on whose evidence, who is cancelled, and who stays as it was.
 */
module PassOutcomes {
  import opened Wrappers
  import opened Text
  import opened Cards
  import opened CardBoard
  import opened RetryChain
  import opened Reconcile
  import opened ReconcileOps
  import opened BoardFold
  import opened RetryLabels
  import opened ReconcileInvariant
  import opened ReconcileSafety

  // ---------------------------------------------------------------- what the snapshot says

  /** Blocked for a reason that is not the owner's, and not cancelled in a comment. */
  predicate IsTechnicallyBlocked(card: Card) {
    card.status == Blocked && ClassifyBlocker(BlockReason(card)) == Technical && !IsCancelled(card)
  }

  ghost predicate HasProvenRetry(env: Env, cards: seq<Card>, id: CardId) {
    exists j :: 0 <= j < |cards| && IsProvenDescendant(env, cards, cards[j], id)
  }

  /** The first retry descendant with a valid proof. */
  ghost predicate IsFirstProven(env: Env, cards: seq<Card>, id: CardId, j: nat) {
    && j < |cards| && IsProvenDescendant(env, cards, cards[j], id)
    && forall i :: 0 <= i < j ==> !IsProvenDescendant(env, cards, cards[i], id)
  }

  predicate IsWithinBudget(env: Env, card: Card) {
    FailureCount(card) <= RetryLimit(card, env.maxRetries)
  }

  /** A merge card that failed, is no retry itself and has its final review. */
  predicate IsRetriableMerge(env: Env, card: Card, cards: seq<Card>) {
    && CardStage(card) == Some(Merge) && HasFailureEvidence(card) && RetryFor(card).None?
    && HasValidMergePredecessor(env, card, cards)
  }

  /** A card of a stage that is retried as it is: no gate, and no merge whose final review is there. */
  predicate IsReworked(env: Env, card: Card, cards: seq<Card>) {
    && CardStage(card) !in {Some(Review), Some(Test), Some(UxReview), Some(FinalReview)}
    && !(CardStage(card) == Some(Merge) && HasValidMergePredecessor(env, card, cards))
  }

  predicate IsBlockedGate(card: Card) {
    IsTechnicallyBlocked(card) && CardStage(card) in {Some(Review), Some(Test), Some(UxReview), Some(FinalReview)}
  }

  lemma FirstProvenIs(env: Env, cards: seq<Card>, id: CardId)
    ensures var r := FirstProven(env, cards, id, 0);
            if r.Some? then IsFirstProven(env, cards, id, r.value) else !HasProvenRetry(env, cards, id)
  {
    FirstProvenFrom(env, cards, id, 0);
  }

  lemma {:induction false} FirstProvenFrom(env: Env, cards: seq<Card>, id: CardId, from: nat)
    requires from <= |cards|
    ensures var r := FirstProven(env, cards, id, from);
            r.Some? ==>
              from <= r.value && forall i :: from <= i < r.value ==> !IsProvenDescendant(env, cards, cards[i], id)
    decreases |cards| - from
  {
    hide IsProvenDescendant;
    if from < |cards| && !IsProvenDescendant(env, cards, cards[from], id) {
      FirstProvenFrom(env, cards, id, from + 1);
    }
  }

  // ---------------------------------------------------------------- a card's own row

  /** Only waiting cards are touched before the main loop. */
  lemma OnlyMainStep(env: Env, b: Board, used: set<CardKey>, i: nat)
    requires Sound(b, env.name, used) && Covers(used, PassOps(env, Listing(b))) && i < |b.order|
    requires RepairToken(Listing(b)[i]).None? && !IsWaiting(Listing(b)[i])
    ensures Valid(Pass(env, b)) && i < |Pass(env, b).order|
    ensures Listing(Pass(env, b))[i] == EffectAll(Listing(b)[i], MainOps(env, Listing(b)[i], Listing(b)))
  {
    PassIsLocal(env, b, used, i);
    hide PassOps;
    hide MainOps;
    hide Sound;
    assert forall card :: EffectAll(card, []) == card;
  }

  function HandedOut(card: Card): Card {
    card.(status := Ready, metadata := card.metadata.(claim := None))
  }

  function Proved(card: Card, item: ProofItem): Card {
    card.(status := Done, metadata := card.metadata.(completed := true, proof := Some([item])))
  }

  predicate OnlyCreates(ops: seq<Op>) {
    forall k :: 0 <= k < |ops| ==> IsCreate(ops[k])
  }

  lemma CreatesKeepRow(card: Card, ops: seq<Op>)
    requires OnlyCreates(ops)
    ensures EffectAll(card, ops) == card
  {
    NoEffect(card, ops);
  }

  lemma GuardedCreates(env: Env, card: Card, cards: seq<Card>)
    requires CardStage(card).Some?
    ensures OnlyCreates(GuardedRetryOps(env, card, cards)) && OnlyCreates(FreshRetryOps(env, card, cards))
  {
    hide RetryExhausted;
    hide RetrySpec;
    hide RecoverySpec;
    hide HasOpenRecovery;
  }

  /** An operation of a gate's turn creates a card or names one of its repairs. */
  predicate IsForRepair(cards: seq<Card>, gate: CardId, op: Op) {
    IsCreate(op) || exists r | r in cards :: r.id == op.id && IsRepairFor(r, gate)
  }

  lemma {:induction false} CancelsForRepairs(cards: seq<Card>, gate: CardId, repairs: seq<Card>)
    requires forall r :: r in repairs ==> r in cards && IsRepairFor(r, gate)
    ensures forall op :: op in CancelOps(repairs) ==> IsForRepair(cards, gate, op)
  {
    hide IsRepairFor;
    if repairs != [] {
      assert repairs[|repairs| - 1] in repairs;
      CancelsForRepairs(cards, gate, repairs[..|repairs| - 1]);
    }
  }

  lemma GateForRepairs(env: Env, card: Card, cards: seq<Card>)
    requires CardStage(card).Some?
    ensures forall op :: op in BlockedGateOps(env, card, cards) ==> IsForRepair(cards, card.id, op)
  {
    hide IsRepairFor;
    hide GuardedRetryOps;
    hide FreshRetryOps;
    hide HasValidCompletion;
    hide HasValidPredecessors;
    hide IsStaleGateBlock;
    hide FailureCount;
    hide RepairSpec;
    hide RecoverySpec;
    var repairs := RepairsOf(cards, card.id);
    RepairsAreCards(cards, card.id);
    CancelsForRepairs(cards, card.id, repairs);
    GuardedCreates(env, card, cards);
    if repairs != [] {
      assert repairs[|repairs| - 1] in repairs;
    }
  }

  /** The turn of a blocked gate leaves the gate's own row as it is. */
  lemma GateKeepsRow(env: Env, cards: seq<Card>, i: nat)
    requires DistinctIds(cards) && i < |cards| && CardStage(cards[i]).Some? && RepairToken(cards[i]).None?
    ensures EffectAll(cards[i], BlockedGateOps(env, cards[i], cards)) == cards[i]
  {
    var card := cards[i];
    var ops := BlockedGateOps(env, card, cards);
    hide BlockedGateOps;
    hide RepairToken;
    GateForRepairs(env, card, cards);
    forall k | 0 <= k < |ops| ensures IsCreate(ops[k]) || ops[k].id != card.id {
      assert ops[k] in ops;
      if !IsCreate(ops[k]) {
        var r :| r in cards && r.id == ops[k].id && IsRepairFor(r, card.id);
        assert RepairToken(r).Some?;
      }
    }
    NoEffect(card, ops);
  }

  ghost predicate IsPromoted(env: Env, cards: seq<Card>, card: Card, after: Card) {
    exists j: nat, item :: IsFirstProven(env, cards, card.id, j) && LatestProof(cards[j]) == Some(item)
                           && after == Proved(card, item)
  }

  lemma PromotionIs(env: Env, cards: seq<Card>, card: Card, j: nat)
    requires IsFirstProven(env, cards, card.id, j)
    ensures IsPromoted(env, cards, card, EffectAll(card, [CompleteOp(card.id, PassedProof(cards[j]))]))
  {
    var item := LatestProof(cards[j]).value;
    hide *;
    CompletionIs(card, cards[j], item);
    assert IsPromoted(env, cards, card, Proved(card, item)) by {
    }
  }

  lemma CompletionIs(card: Card, source: Card, item: ProofItem)
    requires LatestProof(source) == Some(item)
    ensures EffectAll(card, [CompleteOp(card.id, PassedProof(source))]) == Proved(card, item)
  {
    hide LatestProof;
    OneEffect(card, CompleteOp(card.id, PassedProof(source)));
  }

  lemma FirstProvenProves(env: Env, cards: seq<Card>, id: CardId)
    ensures FirstProven(env, cards, id, 0).Some? <==> HasProvenRetry(env, cards, id)
  {
    hide IsProvenDescendant;
    FirstProvenIs(env, cards, id);
  }

  lemma BlockedBranches(env: Env, card: Card, cards: seq<Card>)
    requires card.status == Blocked
    ensures !IsTechnicallyBlocked(card) ==> BlockedOps(env, card, cards) == []
    ensures FirstProven(env, cards, card.id, 0).None? ==>
      BlockedOps(env, card, cards) ==
      if !IsTechnicallyBlocked(card) then []
      else if CardStage(card) == Some(Merge) && HasValidMergePredecessor(env, card, cards) then
        FreshRetryOps(env, card, cards)
      else if IsBlockedGate(card) then BlockedGateOps(env, card, cards)
      else if !IsWithinBudget(env, card) then RecoveryOps(env, card, cards)
      else RecoverCardOps(env, card)
  {
    hide FreshRetryOps;
    hide BlockedGateOps;
    hide RecoveryOps;
    hide RecoverCardOps;
    hide HasValidMergePredecessor;
    hide FirstProven;
    hide BlockReason;
    hide ClassifyBlocker;
    hide FailureCount;
    hide IsProvenDescendant;
    hide StageOfLabels;
    hide IsCancelled;
  }

  /** A technically blocked card in its own turn. */
  lemma BlockedRow(env: Env, cards: seq<Card>, i: nat)
    requires DistinctIds(cards) && i < |cards| && IsTechnicallyBlocked(cards[i]) && RepairToken(cards[i]).None?
    ensures var card, after := cards[i], EffectAll(cards[i], BlockedOps(env, cards[i], cards));
            if HasProvenRetry(env, cards, card.id) then IsPromoted(env, cards, card, after)
            else if IsReworked(env, card, cards) && IsWithinBudget(env, card) then after == HandedOut(card)
            else after == card
  {
    hide BlockedOps;
    hide IsPromoted;
    hide HasProvenRetry;
    hide FirstProven;
    FirstProvenProves(env, cards, cards[i].id);
    if HasProvenRetry(env, cards, cards[i].id) {
      PromotedRow(env, cards, cards[i]);
    } else {
      UnprovenBlockedRow(env, cards, i);
    }
  }

  lemma PromotedRow(env: Env, cards: seq<Card>, card: Card)
    requires IsTechnicallyBlocked(card) && HasProvenRetry(env, cards, card.id)
    ensures IsPromoted(env, cards, card, EffectAll(card, BlockedOps(env, card, cards)))
  {
    hide IsFirstProven;
    hide BlockedGateOps;
    hide FreshRetryOps;
    hide ClassifyBlocker;
    FirstProvenProves(env, cards, card.id);
    FirstProvenIs(env, cards, card.id);
    PromotionIs(env, cards, card, FirstProven(env, cards, card.id, 0).value);
  }

  lemma UnprovenBlockedRow(env: Env, cards: seq<Card>, i: nat)
    requires DistinctIds(cards) && i < |cards| && IsTechnicallyBlocked(cards[i]) && RepairToken(cards[i]).None?
    requires FirstProven(env, cards, cards[i].id, 0).None?
    ensures EffectAll(cards[i], BlockedOps(env, cards[i], cards))
         == if IsReworked(env, cards[i], cards) && IsWithinBudget(env, cards[i]) then HandedOut(cards[i]) else cards[i]
  {
    var card := cards[i];
    assert card.status == Blocked;
    hide *;
    BlockedBranches(env, card, cards);
    SitesKeepRow(env, cards, i);
    if IsWithinBudget(env, card) {
      RecoverCardRow(env, card);
    }
    ReworkedIff(env, card, cards);
  }

  lemma ReworkedIff(env: Env, card: Card, cards: seq<Card>)
    requires IsTechnicallyBlocked(card)
    ensures IsReworked(env, card, cards)
       <==> !IsBlockedGate(card) && !(CardStage(card) == Some(Merge) && HasValidMergePredecessor(env, card, cards))
  {
    hide StageOfLabels;
    hide HasValidMergePredecessor;
  }

  lemma RecoverCardRow(env: Env, card: Card)
    requires IsWithinBudget(env, card)
    ensures EffectAll(card, RecoverCardOps(env, card)) == HandedOut(card)
  {
    hide FailureCount;
    OneEffect(card, ReclaimOp(card.id, Ready));
  }

  lemma SitesKeepRow(env: Env, cards: seq<Card>, i: nat)
    requires DistinctIds(cards) && i < |cards| && RepairToken(cards[i]).None?
    ensures EffectAll(cards[i], []) == cards[i] && EffectAll(cards[i], RecoveryOps(env, cards[i], cards)) == cards[i]
    ensures CardStage(cards[i]).Some? ==>
              && EffectAll(cards[i], FreshRetryOps(env, cards[i], cards)) == cards[i]
              && EffectAll(cards[i], BlockedGateOps(env, cards[i], cards)) == cards[i]
  {
    hide BlockedGateOps;
    hide FreshRetryOps;
    hide RecoverySpec;
    hide HasOpenRecovery;
    hide RepairToken;
    CreatesKeepRow(cards[i], []);
    CreatesKeepRow(cards[i], RecoveryOps(env, cards[i], cards));
    if CardStage(cards[i]).Some? {
      GateKeepsRow(env, cards, i);
      GuardedCreates(env, cards[i], cards);
      CreatesKeepRow(cards[i], FreshRetryOps(env, cards[i], cards));
    }
  }

  lemma FirstIsProven(env: Env, cards: seq<Card>, id: CardId, j: nat)
    requires IsFirstProven(env, cards, id, j)
    ensures HasProvenRetry(env, cards, id)
  {
  }

  /** The branches of the main loop that an unlabelled card can take. */
  lemma MainBranches(env: Env, card: Card, cards: seq<Card>)
    requires RepairToken(card).None?
    ensures MainOps(env, card, cards)
         == if card.metadata.archived then []
            else if IsRetriableMerge(env, card, cards) then FreshRetryOps(env, card, cards)
            else if IsWaiting(card) && !IsWithinBudget(env, card) then [ReassignOp(card.id, env.captain)]
            else StatusOps(env, card, cards)
  {
    hide StatusOps;
    hide FreshRetryOps;
    hide HasValidMergePredecessor;
    hide HasFailureEvidence;
  }

  /** What a pass makes of a blocked card: a technically blocked one is completed on the evidence of a retry, or is
      handed out again to the same worker exactly when no gate or merge is waited for and the budget allows it. */
  lemma BlockedOutcome(env: Env, b: Board, used: set<CardKey>, i: nat)
    requires Sound(b, env.name, used) && Covers(used, PassOps(env, Listing(b))) && i < |b.order|
    requires Listing(b)[i].status == Blocked && RepairToken(Listing(b)[i]).None?
    ensures Valid(Pass(env, b)) && i < |Pass(env, b).order|
    ensures var cards, card, after := Listing(b), Listing(b)[i], Listing(Pass(env, b))[i];
            if card.metadata.archived || !IsTechnicallyBlocked(card) || IsRetriableMerge(env, card, cards) then
              after == card
            else if HasProvenRetry(env, cards, card.id) then IsPromoted(env, cards, card, after)
            else if IsReworked(env, card, cards) && IsWithinBudget(env, card) then after == HandedOut(card)
            else after == card
  {
    var cards := Listing(b);
    var card := cards[i];
    OnlyMainStep(env, b, used, i);
    ListingIdsDistinct(b);
    MainBranches(env, card, cards);
    HeldRow(env, card, cards);
    if CardStage(card).Some? {
      GuardedCreates(env, card, cards);
      CreatesKeepRow(card, FreshRetryOps(env, card, cards));
    }
    if IsTechnicallyBlocked(card) {
      BlockedRow(env, cards, i);
    }
    hide *;
    assert EffectAll(card, []) == card by {
      CreatesKeepRow(card, []);
    }
  }

  lemma HeldRow(env: Env, card: Card, cards: seq<Card>)
    requires card.status == Blocked
    ensures StatusOps(env, card, cards) == BlockedOps(env, card, cards)
    ensures !IsTechnicallyBlocked(card) ==> BlockedOps(env, card, cards) == []
  {
    hide ClassifyBlocker;
    hide FirstProven;
    hide HasValidMergePredecessor;
    hide BlockedGateOps;
  }

  lemma UnprovenRow(env: Env, cards: seq<Card>, card: Card)
    requires CardStage(card).Some?
    ensures var after := EffectAll(card, UnprovenOps(env, card, cards));
            if HasProvenRetry(env, cards, card.id) then IsPromoted(env, cards, card, after) else after == card
  {
    hide IsPromoted;
    hide HasProvenRetry;
    hide IsFirstProven;
    hide GuardedRetryOps;
    FirstProvenIs(env, cards, card.id);
    if j :| FirstProven(env, cards, card.id, 0) == Some(j) {
      PromotionIs(env, cards, card, j);
      FirstIsProven(env, cards, card.id, j);
    } else {
      GuardedCreates(env, card, cards);
      CreatesKeepRow(card, GuardedRetryOps(env, card, cards));
    }
  }

  lemma OwnProofRow(env: Env, card: Card)
    requires HasValidCompletion(env, card)
    ensures LatestProof(card).Some?
    ensures EffectAll(card, [CompleteOp(card.id, PassedProof(card))]) == Proved(card, LatestProof(card).value)
  {
    CompletionIs(card, card, LatestProof(card).value);
  }

  /** What a pass makes of a card that its worker has left for review, or that is DONE already. */
  ghost predicate IsSettledAs(env: Env, cards: seq<Card>, card: Card, after: Card) {
    if card.metadata.archived || CardStage(card).None? || IsRetriableMerge(env, card, cards) then after == card
    else if HasValidCompletion(env, card) then
      LatestProof(card).Some?
      && after == if card.status == InReview then Proved(card, LatestProof(card).value) else card
    else if HasProvenRetry(env, cards, card.id) then IsPromoted(env, cards, card, after)
    else after == card
  }

  /** A card under review becomes DONE exactly on its own valid completion, or on that of its first proven retry; and
      a DONE card whose completion is not valid takes over the evidence of that retry. */
  lemma FinishedOutcome(env: Env, b: Board, used: set<CardKey>, i: nat)
    requires Sound(b, env.name, used) && Covers(used, PassOps(env, Listing(b))) && i < |b.order|
    requires Listing(b)[i].status in {InReview, Done} && RepairToken(Listing(b)[i]).None?
    ensures Valid(Pass(env, b)) && i < |Pass(env, b).order|
    ensures IsSettledAs(env, Listing(b), Listing(b)[i], Listing(Pass(env, b))[i])
  {
    var cards := Listing(b);
    var card := cards[i];
    OnlyMainStep(env, b, used, i);
    MainBranches(env, card, cards);
    CreatesKeepRow(card, []);
    if CardStage(card).Some? {
      GuardedCreates(env, card, cards);
      CreatesKeepRow(card, FreshRetryOps(env, card, cards));
      UnprovenRow(env, cards, card);
    }
    if HasValidCompletion(env, card) {
      OwnProofRow(env, card);
    }
    FinishedBranches(env, card, cards);
    hide Sound;
    hide PassOps;
    hide Pass;
    hide MainOps;
    hide StatusOps;
    hide FreshRetryOps;
    hide UnprovenOps;
    hide EffectAll;
    hide HasValidCompletion;
    hide IsPromoted;
    hide HasProvenRetry;
    hide IsRetriableMerge;
    hide LatestProof;
  }

  lemma FinishedBranches(env: Env, card: Card, cards: seq<Card>)
    requires card.status in {InReview, Done}
    ensures StatusOps(env, card, cards)
         == if CardStage(card).None? then []
            else if !HasValidCompletion(env, card) then UnprovenOps(env, card, cards)
            else if card.status == InReview then [CompleteOp(card.id, PassedProof(card))]
            else []
  {
    hide UnprovenOps;
    hide HasValidCompletion;
  }

  /** Cards that nobody has left, and that do not wait, stay as they are. */
  lemma IdleOutcome(env: Env, b: Board, used: set<CardKey>, i: nat)
    requires Sound(b, env.name, used) && Covers(used, PassOps(env, Listing(b))) && i < |b.order|
    requires Listing(b)[i].status in {Triage, Backlog, Scheduled, Running} && RepairToken(Listing(b)[i]).None?
    ensures Valid(Pass(env, b)) && i < |Pass(env, b).order|
    ensures Listing(Pass(env, b))[i] == Listing(b)[i]
  {
    var cards := Listing(b);
    var card := cards[i];
    OnlyMainStep(env, b, used, i);
    MainBranches(env, card, cards);
    CreatesKeepRow(card, []);
    if CardStage(card).Some? {
      GuardedCreates(env, card, cards);
      CreatesKeepRow(card, FreshRetryOps(env, card, cards));
    }
    assert StatusOps(env, card, cards) == [] by {
      IdleBranch(env, card, cards);
    }
    hide *;
  }

  lemma IdleBranch(env: Env, card: Card, cards: seq<Card>)
    requires card.status !in {InReview, Done, Blocked}
    ensures StatusOps(env, card, cards) == []
  {
    hide BlockedOps;
    hide UnprovenOps;
    hide HasValidCompletion;
  }

  // ---------------------------------------------------------------- waiting cards

  /** Some ancestor that the retry labels lead to has a valid proof. */
  ghost predicate IsRetryOfProven(env: Env, cards: seq<Card>, card: Card) {
    && RetryFor(card).Some?
    && exists c :: Reaches(TagsOf(cards), TagOf(card), c) && Parent(TagsOf(cards), c).Some?
                   && HasValidProof(env.policy, cards[Parent(TagsOf(cards), c).value])
  }

  /** The card that a label names: the first whose id starts with the text. */
  ghost predicate Names(cards: seq<Card>, token: Option<string>, t: nat) {
    && token.Some? && token.value != "" && t < |cards| && token.value <= cards[t].id
    && forall k :: 0 <= k < t ==> !(token.value <= cards[k].id)
  }

  /** DONE with proof, its own or that of a retry; or cancelled. */
  ghost predicate IsOver(env: Env, cards: seq<Card>, target: Card) {
    || (target.status == Done && (HasValidProof(env.policy, target) || HasProvenRetry(env, cards, target.id)))
    || (target.status == Blocked && IsCancelled(target))
  }

  /** A recovery is moot when its card is over, or for a merge card when the final review is there. */
  ghost predicate IsMootRecovery(env: Env, cards: seq<Card>, card: Card) {
    && CardStage(card) == Some(ControlPlaneAction)
    && exists t: nat :: Names(cards, RecoveryToken(card), t)
         && if CardStage(cards[t]) == Some(Merge) then HasValidMergePredecessor(env, cards[t], cards)
            else IsOver(env, cards, cards[t])
  }

  /** A repair whose gate is over. */
  ghost predicate IsMootRepair(env: Env, cards: seq<Card>, card: Card) {
    && CardStage(card) == Some(Repair)
    && exists t: nat :: Names(cards, RepairToken(card), t) && IsOver(env, cards, cards[t])
  }

  lemma {:induction false} FirstNamedFrom(cards: seq<Card>, token: string, from: nat)
    requires from <= |cards|
    ensures var r := FirstNamed(cards, token, from);
            if r.Some? then
              from <= r.value < |cards| && token <= cards[r.value].id
              && forall k :: from <= k < r.value ==> !(token <= cards[k].id)
            else forall k :: from <= k < |cards| ==> !(token <= cards[k].id)
    decreases |cards| - from
  {
    if from < |cards| && !(token <= cards[from].id) {
      FirstNamedFrom(cards, token, from + 1);
    }
  }

  lemma NamedIs(cards: seq<Card>, token: Option<string>)
    ensures var r := NamedCard(cards, token);
            if r.Some? then exists t: nat :: Names(cards, token, t) && r.value == cards[t]
            else forall t: nat :: !Names(cards, token, t)
  {
    if token.Some? {
      FirstNamedFrom(cards, token.value, 0);
    }
  }

  lemma NamesOne(cards: seq<Card>, token: Option<string>, t: nat, t': nat)
    requires Names(cards, token, t) && Names(cards, token, t')
    ensures t == t'
  {
  }

  lemma OverIff(env: Env, cards: seq<Card>, target: Card)
    ensures TargetIsSettled(env, target, cards) <==> IsOver(env, cards, target)
  {
    hide HasValidProof;
    hide IsProvenDescendant;
    hide IsCancelled;
    FirstProvenIs(env, cards, target.id);
  }

  lemma MootRecoveryIff(env: Env, cards: seq<Card>, card: Card)
    ensures CardStage(card) == Some(ControlPlaneAction) && RecoveryIsObsolete(env, card, cards)
       <==> IsMootRecovery(env, cards, card)
  {
    hide HasValidMergePredecessor;
    hide IsOver;
    hide TargetIsSettled;
    hide StageOfLabels;
    hide FirstValueOf;
    hide NamedCard;
    NamedIs(cards, RecoveryToken(card));
    if t: nat :| Names(cards, RecoveryToken(card), t) {
      forall t': nat | Names(cards, RecoveryToken(card), t') ensures t' == t {
        NamesOne(cards, RecoveryToken(card), t, t');
      }
      OverIff(env, cards, cards[t]);
    }
  }

  lemma MootRepairIff(env: Env, cards: seq<Card>, card: Card)
    ensures CardStage(card) == Some(Repair) && RepairIsObsolete(env, card, cards) <==> IsMootRepair(env, cards, card)
  {
    hide IsOver;
    hide TargetIsSettled;
    hide StageOfLabels;
    hide FirstValueOf;
    hide NamedCard;
    NamedIs(cards, RepairToken(card));
    if t: nat :| Names(cards, RepairToken(card), t) {
      forall t': nat | Names(cards, RepairToken(card), t') ensures t' == t {
        NamesOne(cards, RepairToken(card), t, t');
      }
      OverIff(env, cards, cards[t]);
    }
  }

  lemma RetryOfProvenIff(env: Env, cards: seq<Card>, i: nat)
    requires DistinctIds(cards) && i < |cards|
    ensures RetryFor(cards[i]).Some?
            && AncestorIn(TagsOf(cards), TagOf(cards[i]), {}, Proven(env.policy, cards))
       <==> IsRetryOfProven(env, cards, cards[i])
  {
    hide HasValidProof;
    AncestorIsReachability(TagsOf(cards), TagOf(cards[i]), Proven(env.policy, cards));
  }

  function Cancelled(card: Card): Card {
    card.(status := Blocked, metadata := card.metadata.(claim := None))
  }

  /** The three cancelling loops: a retry of proven work, a recovery or a repair whose card is over. */
  lemma CancellingSteps(env: Env, cards: seq<Card>, i: nat, phase: nat, card: Card)
    requires DistinctIds(cards) && i < |cards| && phase < 3 && (card == cards[i] || card == Cancelled(cards[i]))
    ensures EffectAll(card, StepOps(env, phase, cards[i], cards))
         == if && cards[i].status in {Todo, Ready}
               && (|| (phase == 0 && IsRetryOfProven(env, cards, cards[i]))
                   || (phase == 1 && IsMootRecovery(env, cards, cards[i]))
                   || (phase == 2 && IsMootRepair(env, cards, cards[i]))) then Cancelled(cards[i])
            else card
  {
    hide IsRetryOfProven;
    hide IsMootRecovery;
    hide IsMootRepair;
    hide RecoveryIsObsolete;
    hide RepairIsObsolete;
    hide AncestorIn;
    RetryOfProvenIff(env, cards, i);
    MootRecoveryIff(env, cards, cards[i]);
    MootRepairIff(env, cards, cards[i]);
    OneEffect(card, ReclaimOp(cards[i].id, Blocked));
    CreatesKeepRow(card, []);
  }

  /** Waiting, and made pointless by evidence elsewhere. */
  ghost predicate IsPointless(env: Env, cards: seq<Card>, card: Card) {
    card.status in {Todo, Ready}
    && (IsRetryOfProven(env, cards, card) || IsMootRecovery(env, cards, card) || IsMootRepair(env, cards, card))
  }

  /** What the three loops make of a card. */
  function AfterLoops(env: Env, card: Card, cards: seq<Card>): Card {
    var c0 := EffectAll(card, StepOps(env, 0, card, cards));
    var c1 := EffectAll(c0, StepOps(env, 1, card, cards));
    EffectAll(c1, StepOps(env, 2, card, cards))
  }

  lemma LoopsCancelIff(env: Env, cards: seq<Card>, i: nat)
    requires DistinctIds(cards) && i < |cards|
    ensures AfterLoops(env, cards[i], cards)
         == if IsPointless(env, cards, cards[i]) then Cancelled(cards[i]) else cards[i]
  {
    hide StepOps;
    hide EffectAll;
    hide IsRetryOfProven;
    hide IsMootRecovery;
    hide IsMootRepair;
    var card := cards[i];
    var c0 := EffectAll(card, StepOps(env, 0, card, cards));
    CancellingSteps(env, cards, i, 0, card);
    var c1 := EffectAll(c0, StepOps(env, 1, card, cards));
    CancellingSteps(env, cards, i, 1, c0);
    CancellingSteps(env, cards, i, 2, c1);
  }

  lemma WaitingMain(env: Env, cards: seq<Card>, card: Card, c: Card)
    requires IsWaiting(card) && RepairToken(card).None? && (c == card || c == Cancelled(card))
    ensures EffectAll(c, MainOps(env, card, cards))
         == if IsOverBudget(env, card, cards) then
              card.(status := Ready, agent := Some(env.captain),
                    metadata := card.metadata.(claim := None, failures := 0))
            else c
  {
    hide HasValidMergePredecessor;
    hide HasFailureEvidence;
    hide FreshRetryOps;
    hide MainOps;
    MainBranches(env, card, cards);
    assert StatusOps(env, card, cards) == [];
    OneEffect(c, ReassignOp(card.id, env.captain));
    CreatesKeepRow(c, []);
    if CardStage(card).Some? {
      GuardedCreates(env, card, cards);
      CreatesKeepRow(c, FreshRetryOps(env, card, cards));
    }
  }

  /** What a pass makes of a waiting card: over its failure budget it goes to the captain with a clean record,
      whatever it waits for; otherwise it is blocked exactly when it has become pointless, and else it stays. */
  lemma WaitingOutcome(env: Env, b: Board, used: set<CardKey>, i: nat)
    requires Sound(b, env.name, used) && Covers(used, PassOps(env, Listing(b))) && i < |b.order|
    requires Listing(b)[i].status in {Todo, Ready} && RepairToken(Listing(b)[i]).None?
    ensures Valid(Pass(env, b)) && i < |Pass(env, b).order|
    ensures var cards, card, after := Listing(b), Listing(b)[i], Listing(Pass(env, b))[i];
            if IsOverBudget(env, card, cards) then
              after == card.(status := Ready, agent := Some(env.captain),
                             metadata := card.metadata.(claim := None, failures := 0))
            else if IsPointless(env, cards, card) then
              after == card.(status := Blocked, metadata := card.metadata.(claim := None))
            else after == card
  {
    var cards := Listing(b);
    var card := cards[i];
    hide PassOps;
    hide MainOps;
    hide StepOps;
    hide EffectAll;
    hide IsPointless;
    hide IsOverBudget;
    PassIsLocal(env, b, used, i);
    ListingIdsDistinct(b);
    LoopsCancelIff(env, cards, i);
    WaitingMain(env, cards, card, AfterLoops(env, card, cards));
    assert OwnSteps(env, card, cards) == EffectAll(AfterLoops(env, card, cards), MainOps(env, card, cards)) by {
      OwnStepsAre(env, card, cards);
    }
  }

  lemma OwnStepsAre(env: Env, card: Card, cards: seq<Card>)
    ensures OwnSteps(env, card, cards) == EffectAll(AfterLoops(env, card, cards), MainOps(env, card, cards))
  {
    hide MainOps;
    hide IsSuperseded;
    hide EffectAll;
  }
}
