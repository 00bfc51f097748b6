/**
 Which cards a reconcile pass adds: exactly the retries, repairs and recoveries that the snapshot makes due, each
 READY and labelled for the card that it serves.
 */
module PassCreations {
  import opened Wrappers
  import opened Text
  import opened Cards
  import opened CardBoard
  import opened RetryChain
  import opened Reconcile
  import opened ReconcileOps
  import opened BoardFold
  import opened RetryLabels
  import opened ReconcileInvariant
  import opened ReconcileSafety
  import opened RetryTree
  import opened PassOutcomes

  // ---------------------------------------------------------------- what is due

  ghost predicate HasOpenRetry(cards: seq<Card>, id: CardId) {
    exists c :: c in cards && IsOpen(c) && IsRetryFor(c, id)
  }

  ghost predicate IsFirstOpenRetry(cards: seq<Card>, id: CardId, f: Card) {
    exists i :: 0 <= i < |cards| && cards[i] == f && IsOpen(f) && IsRetryFor(f, id)
                && forall k :: 0 <= k < i ==> !(IsOpen(cards[k]) && IsRetryFor(cards[k], id))
  }

  ghost predicate HasRepair(cards: seq<Card>, id: CardId) {
    exists c :: c in cards && IsRepairFor(c, id)
  }

  ghost predicate IsLastRepair(cards: seq<Card>, id: CardId, f: Card) {
    exists i :: 0 <= i < |cards| && cards[i] == f && IsRepairFor(f, id)
                && forall k :: i < k < |cards| ==> !IsRepairFor(cards[k], id)
  }

  ghost predicate IsRepaired(env: Env, cards: seq<Card>, id: CardId) {
    exists c :: c in cards && IsRepairFor(c, id) && c.status == Done && HasValidCompletion(env, c)
  }

  /** A final review that was asked too early, and whose predecessors are complete now. */
  predicate IsEarlyReview(env: Env, card: Card, cards: seq<Card>) {
    && CardStage(card) == Some(FinalReview) && IsStaleGateBlock(BlockReason(card))
    && HasValidPredecessors(env, card, cards)
  }

  /** The pass looks at the card, and no evidence of a retry settles it. */
  ghost predicate IsOpenCase(env: Env, cards: seq<Card>, card: Card) {
    && !card.metadata.archived && !IsMootRepair(env, cards, card) && !IsRetriableMerge(env, card, cards)
    && !HasProvenRetry(env, cards, card.id)
  }

  predicate LacksCompletion(env: Env, card: Card) {
    card.status in {InReview, Done} && CardStage(card).Some? && !HasValidCompletion(env, card)
  }

  /** The retry budget decides: work left without completion, or a gate whose findings are repaired. */
  ghost predicate IsBudgeted(env: Env, cards: seq<Card>, card: Card) {
    && IsOpenCase(env, cards, card)
    && (|| LacksCompletion(env, card)
        || (&& IsBlockedGate(card) && !IsEarlyReview(env, card, cards) && IsRepaired(env, cards, card.id)))
  }

  ghost predicate NeedsRepair(env: Env, cards: seq<Card>, card: Card) {
    && IsOpenCase(env, cards, card) && IsBlockedGate(card) && !IsEarlyReview(env, card, cards)
    && !IsRepaired(env, cards, card.id)
  }

  ghost predicate IsRetriedAtOnce(env: Env, cards: seq<Card>, card: Card) {
    || (!card.metadata.archived && !IsMootRepair(env, cards, card) && IsRetriableMerge(env, card, cards))
    || (&& IsOpenCase(env, cards, card) && IsTechnicallyBlocked(card)
        && (|| (CardStage(card) == Some(Merge) && HasValidMergePredecessor(env, card, cards))
            || IsEarlyReview(env, card, cards)))
  }

  /** A new retry of the card is due. */
  ghost predicate RetryIsDue(env: Env, cards: seq<Card>, card: Card) {
    && !HasOpenRetry(cards, card.id)
    && (|| IsRetriedAtOnce(env, cards, card)
        || (IsBudgeted(env, cards, card) && !RetryExhausted(env, card, cards)))
  }

  /** In the turn of `card`, a new recovery of `f` is due. */
  ghost predicate RecoveryIsDue(env: Env, cards: seq<Card>, card: Card, f: Card) {
    && !HasOpenRecovery(cards, f.id)
    && (|| (&& IsBudgeted(env, cards, card) && RetryExhausted(env, f, cards)
            && (IsFirstOpenRetry(cards, card.id, f) || (!HasOpenRetry(cards, card.id) && f == card)))
        || (&& IsOpenCase(env, cards, card) && IsTechnicallyBlocked(card) && IsReworked(env, card, cards)
            && f == card && !IsWithinBudget(env, f))
        || (NeedsRepair(env, cards, card) && IsLastRepair(cards, card.id, f) && !IsWithinBudget(env, f)))
  }

  /** The turn of `card` creates a card under this key, unless the key is taken. */
  ghost predicate KeyIsDue(env: Env, cards: seq<Card>, card: Card, key: CardKey) {
    match key
    case WorkKey(_, _) => false
    case RetryKey(source, attempt) =>
      source == card.id && attempt == |RetriesOf(cards, card.id)| + 1 && RetryIsDue(env, cards, card)
    case RepairKey(gate, failures) =>
      && gate == card.id && failures == FailureCount(card)
      && NeedsRepair(env, cards, card) && !HasRepair(cards, card.id)
    case RecoveryKey(failed, attempt) =>
      attempt == |RecoveriesOf(cards, failed)| + 1
      && exists f :: f in cards && f.id == failed && RecoveryIsDue(env, cards, card, f)
  }

  // ---------------------------------------------------------------- the keys of a turn

  predicate CreatesKey(ops: seq<Op>, key: CardKey) {
    exists op | op in ops :: IsCreate(op) && op.spec.key == key
  }

  predicate IsRecoveryKey(cards: seq<Card>, f: Card, key: CardKey) {
    key == RecoveryKey(f.id, |RecoveriesOf(cards, f.id)| + 1)
  }

  predicate IsRetryKey(cards: seq<Card>, card: Card, key: CardKey) {
    key == RetryKey(card.id, |RetriesOf(cards, card.id)| + 1)
  }

  lemma OneKey(op: Op, key: CardKey)
    ensures CreatesKey([op], key) <==> IsCreate(op) && op.spec.key == key
    ensures !CreatesKey([], key)
  {
    assert op in [op];
  }

  lemma OpenRetryIs(cards: seq<Card>, id: CardId)
    ensures var r := ActiveRetry(cards, id, 0);
            if r.Some? then HasOpenRetry(cards, id) && IsFirstOpenRetry(cards, id, cards[r.value])
            else !HasOpenRetry(cards, id)
  {
    hide IsOpen;
    hide IsRetryFor;
    OpenRetryFrom(cards, id, 0);
    var r := ActiveRetry(cards, id, 0);
    if r.Some? {
      assert cards[r.value] in cards;
    }
  }

  lemma {:induction false} OpenRetryFrom(cards: seq<Card>, id: CardId, from: nat)
    requires from <= |cards|
    ensures var r := ActiveRetry(cards, id, from);
            r.Some? ==>
              from <= r.value && forall k :: from <= k < r.value ==> !(IsOpen(cards[k]) && IsRetryFor(cards[k], id))
    decreases |cards| - from
  {
    hide IsOpen;
    hide IsRetryFor;
    if from < |cards| && !(IsOpen(cards[from]) && IsRetryFor(cards[from], id)) {
      OpenRetryFrom(cards, id, from + 1);
    }
  }

  lemma FirstIsOpen(cards: seq<Card>, id: CardId, f: Card)
    requires IsFirstOpenRetry(cards, id, f)
    ensures HasOpenRetry(cards, id)
  {
    hide IsOpen;
    hide IsRetryFor;
    assert f in cards;
  }

  lemma FirstIsOne(cards: seq<Card>, id: CardId, f: Card, g: Card)
    requires IsFirstOpenRetry(cards, id, f) && IsFirstOpenRetry(cards, id, g)
    ensures f == g
  {
    hide IsOpen;
    hide IsRetryFor;
  }

  lemma FreshKeys(env: Env, card: Card, cards: seq<Card>, key: CardKey)
    requires CardStage(card).Some?
    ensures CreatesKey(FreshRetryOps(env, card, cards), key)
       <==> !HasOpenRetry(cards, card.id) && IsRetryKey(cards, card, key)
  {
    hide HasOpenRetry;
    hide ActiveRetry;
    hide CreatesKey;
    OpenRetryIs(cards, card.id);
    OneKey(CreateReadyOp(RetrySpec(env, card, cards)), key);
  }

  lemma RecoveryKeys(env: Env, f: Card, cards: seq<Card>, key: CardKey)
    ensures CreatesKey(RecoveryOps(env, f, cards), key)
       <==> !HasOpenRecovery(cards, f.id) && IsRecoveryKey(cards, f, key)
  {
    hide HasOpenRecovery;
    hide CreatesKey;
    OneKey(CreateReadyOp(RecoverySpec(env, f, cards)), key);
  }

  lemma RecoverCardKeys(env: Env, card: Card, key: CardKey)
    ensures !CreatesKey(RecoverCardOps(env, card), key)
  {
    hide CreatesKey;
    OneKey(ReclaimOp(card.id, Ready), key);
    OneKey(ReassignOp(card.id, env.captain), key);
  }

  ghost predicate IsGuardedKey(env: Env, card: Card, cards: seq<Card>, key: CardKey) {
    || (!HasOpenRetry(cards, card.id) && !RetryExhausted(env, card, cards) && IsRetryKey(cards, card, key))
    || exists f :: (IsFirstOpenRetry(cards, card.id, f) || (!HasOpenRetry(cards, card.id) && f == card))
                   && RetryExhausted(env, f, cards) && !HasOpenRecovery(cards, f.id) && IsRecoveryKey(cards, f, key)
  }

  ghost predicate IsGateKey(env: Env, card: Card, cards: seq<Card>, key: CardKey) {
    || (!HasRepair(cards, card.id) && key == RepairKey(card.id, FailureCount(card)))
    || exists f :: IsLastRepair(cards, card.id, f) && !IsWithinBudget(env, f)
                   && !HasOpenRecovery(cards, f.id) && IsRecoveryKey(cards, f, key)
  }

  ghost predicate IsOwnRecovery(cards: seq<Card>, card: Card, key: CardKey) {
    !HasOpenRecovery(cards, card.id) && IsRecoveryKey(cards, card, key)
  }

  ghost predicate IsOwnRetry(cards: seq<Card>, card: Card, key: CardKey) {
    !HasOpenRetry(cards, card.id) && IsRetryKey(cards, card, key)
  }

  lemma GuardedKeys(env: Env, card: Card, cards: seq<Card>, key: CardKey)
    requires CardStage(card).Some?
    ensures CreatesKey(GuardedRetryOps(env, card, cards), key)
       <==> IsGuardedKey(env, card, cards, key)
  {
    hide CreatesKey;
    hide FreshRetryOps;
    hide RecoveryOps;
    hide IsFirstOpenRetry;
    hide HasOpenRetry;
    hide HasOpenRecovery;
    hide IsRetryKey;
    hide IsRecoveryKey;
    hide RetryExhausted;
    hide ActiveRetry;
    OpenRetryIs(cards, card.id);
    FreshKeys(env, card, cards, key);
    RecoveryKeys(env, card, cards, key);
    var r := ActiveRetry(cards, card.id, 0);
    if r.Some? {
      RecoveryKeys(env, cards[r.value], cards, key);
      OneKey(ReclaimOp(card.id, Ready), key);
      forall f | IsFirstOpenRetry(cards, card.id, f) ensures f == cards[r.value] {
        FirstIsOne(cards, card.id, f, cards[r.value]);
      }
    }
    forall f | IsFirstOpenRetry(cards, card.id, f) ensures HasOpenRetry(cards, card.id) {
      FirstIsOpen(cards, card.id, f);
    }
  }

  lemma {:induction false} CancelsCreate(repairs: seq<Card>, key: CardKey)
    ensures !CreatesKey(CancelOps(repairs), key)
  {
    if repairs != [] {
      CancelsCreate(repairs[..|repairs| - 1], key);
    }
  }

  lemma KeysConcat(xs: seq<Op>, ys: seq<Op>, key: CardKey)
    ensures CreatesKey(xs + ys, key) <==> CreatesKey(xs, key) || CreatesKey(ys, key)
  {
  }

  lemma {:induction false} RepairsIff(cards: seq<Card>, gate: CardId, c: Card)
    ensures c in RepairsOf(cards, gate) <==> c in cards && IsRepairFor(c, gate)
  {
    hide IsRepairFor;
    if cards != [] {
      RepairsIff(cards[..|cards| - 1], gate, c);
    }
  }

  lemma {:induction false} LastRepairIs(cards: seq<Card>, gate: CardId)
    ensures var repairs := RepairsOf(cards, gate);
            if repairs == [] then !HasRepair(cards, gate)
            else HasRepair(cards, gate) && IsLastRepair(cards, gate, repairs[|repairs| - 1])
  {
    hide IsRepairFor;
    if cards != [] {
      var n := |cards| - 1;
      LastRepairIs(cards[..n], gate);
      if IsRepairFor(cards[n], gate) {
        assert cards[n] in cards;
      } else {
        LastRepairExtends(cards, gate);
      }
    }
  }

  lemma LastRepairExtends(cards: seq<Card>, gate: CardId)
    requires cards != [] && !IsRepairFor(cards[|cards| - 1], gate)
    ensures HasRepair(cards, gate) <==> HasRepair(cards[..|cards| - 1], gate)
    ensures forall f :: IsLastRepair(cards[..|cards| - 1], gate, f) ==> IsLastRepair(cards, gate, f)
  {
    hide IsRepairFor;
    var n := |cards| - 1;
    assert forall c :: c in cards <==> c in cards[..n] || c == cards[n];
    forall f | IsLastRepair(cards[..n], gate, f) ensures IsLastRepair(cards, gate, f) {
      var i :| 0 <= i < n && cards[..n][i] == f && IsRepairFor(f, gate)
               && forall k :: i < k < n ==> !IsRepairFor(cards[..n][k], gate);
      forall k | i < k < |cards| ensures !IsRepairFor(cards[k], gate) {
        if k < n {
          assert cards[..n][k] == cards[k];
        }
      }
      assert cards[i] == f;
    }
  }

  lemma LastIsOne(cards: seq<Card>, gate: CardId, f: Card, g: Card)
    requires IsLastRepair(cards, gate, f) && IsLastRepair(cards, gate, g)
    ensures f == g && HasRepair(cards, gate)
  {
    hide IsRepairFor;
  }

  lemma RepairedIff(env: Env, cards: seq<Card>, gate: CardId)
    ensures IsRepaired(env, cards, gate)
       <==> exists r :: r in RepairsOf(cards, gate) && r.status == Done && HasValidCompletion(env, r)
  {
    hide IsRepairFor;
    hide HasValidCompletion;
    forall c ensures c in RepairsOf(cards, gate) <==> c in cards && IsRepairFor(c, gate) {
      RepairsIff(cards, gate, c);
    }
  }

  /** The keys of a gate without a finished repair. */
  lemma RepairGateKeys(env: Env, card: Card, cards: seq<Card>, key: CardKey)
    ensures CreatesKey(RepairGateOps(env, card, cards), key)
       <==> IsGateKey(env, card, cards, key)
  {
    hide CreatesKey;
    hide RecoveryOps;
    hide RecoverCardOps;
    hide IsLastRepair;
    hide HasRepair;
    hide HasOpenRecovery;
    hide IsRecoveryKey;
    hide FailureCount;
    hide RepairsOf;
    var repairs := RepairsOf(cards, card.id);
    LastRepairIs(cards, card.id);
    OneKey(CreateOp(RepairSpec(env, card)), key);
    if repairs != [] {
      var last := repairs[|repairs| - 1];
      RecoveryKeys(env, last, cards, key);
      RecoverCardKeys(env, last, key);
      forall f | IsLastRepair(cards, card.id, f) ensures f == last {
        LastIsOne(cards, card.id, f, last);
      }
    } else {
      forall f ensures !IsLastRepair(cards, card.id, f) {
        if IsLastRepair(cards, card.id, f) {
          LastIsOne(cards, card.id, f, f);
        }
      }
    }
    assert RepairSpec(env, card).key == RepairKey(card.id, FailureCount(card));
  }

  // ---------------------------------------------------------------- the turn of a card

  /** The keys by site; the sites are those of `RetryIsDue`, `NeedsRepair` and `RecoveryIsDue`. */
  ghost predicate IsSiteKey(env: Env, cards: seq<Card>, card: Card, key: CardKey) {
    || (IsRetriedAtOnce(env, cards, card) && IsOwnRetry(cards, card, key))
    || (IsBudgeted(env, cards, card) && IsGuardedKey(env, card, cards, key))
    || (NeedsRepair(env, cards, card) && IsGateKey(env, card, cards, key))
    || (IsOpenCase(env, cards, card) && IsTechnicallyBlocked(card) && IsReworked(env, card, cards)
        && !IsWithinBudget(env, card) && IsOwnRecovery(cards, card, key))
  }

  lemma FirstIsCard(cards: seq<Card>, id: CardId, f: Card)
    ensures IsFirstOpenRetry(cards, id, f) ==> f in cards
    ensures IsLastRepair(cards, id, f) ==> f in cards
  {
  }

  lemma SiteKeys(env: Env, cards: seq<Card>, card: Card, key: CardKey)
    requires card in cards
    ensures IsSiteKey(env, cards, card, key) <==> KeyIsDue(env, cards, card, key)
  {
    hide IsFirstOpenRetry;
    hide IsLastRepair;
    hide HasOpenRetry;
    hide HasRepair;
    hide IsRetriedAtOnce;
    hide IsBudgeted;
    hide NeedsRepair;
    hide IsOpenCase;
    hide IsReworked;
    hide IsTechnicallyBlocked;
    hide IsWithinBudget;
    hide HasOpenRecovery;
    hide RetryExhausted;
    hide FailureCount;
    hide RetriesOf;
    hide RecoveriesOf;
    forall f ensures (IsFirstOpenRetry(cards, card.id, f) || IsLastRepair(cards, card.id, f)) ==> f in cards {
      FirstIsCard(cards, card.id, f);
    }
  }

  lemma BlockedGateKeys(env: Env, cards: seq<Card>, card: Card, key: CardKey)
    requires IsBlockedGate(card)
    ensures CreatesKey(BlockedGateOps(env, card, cards), key)
       <==> if IsEarlyReview(env, card, cards) then IsOwnRetry(cards, card, key)
            else if IsRepaired(env, cards, card.id) then IsGuardedKey(env, card, cards, key)
            else IsGateKey(env, card, cards, key)
  {
    hide CreatesKey;
    hide FreshRetryOps;
    hide GuardedRetryOps;
    hide RepairGateOps;
    hide CancelOps;
    hide IsGateKey;
    hide IsGuardedKey;
    hide IsRepaired;
    hide IsRetryKey;
    hide HasOpenRetry;
    hide HasValidCompletion;
    hide HasValidPredecessors;
    hide IsStaleGateBlock;
    hide BlockReason;
    hide RepairsOf;
    var repairs := RepairsOf(cards, card.id);
    CancelsCreate(repairs, key);
    KeysConcat(CancelOps(repairs), FreshRetryOps(env, card, cards), key);
    FreshKeys(env, card, cards, key);
    GuardedKeys(env, card, cards, key);
    RepairGateKeys(env, card, cards, key);
    RepairedIff(env, cards, card.id);
  }

  lemma PromotionCreatesNothing(env: Env, card: Card, cards: seq<Card>, key: CardKey)
    requires card.status == Blocked && HasProvenRetry(env, cards, card.id)
    ensures !CreatesKey(BlockedOps(env, card, cards), key)
  {
    hide CreatesKey;
    hide ClassifyBlocker;
    hide FirstProven;
    hide IsProvenDescendant;
    hide IsCancelled;
    hide BlockReason;
    hide BlockedGateOps;
    hide FreshRetryOps;
    FirstProvenIs(env, cards, card.id);
    var j := FirstProven(env, cards, card.id, 0).value;
    OneKey(CompleteOp(card.id, PassedProof(cards[j])), key);
  }

  /** The keys of a technically blocked card that no retry has proof for. */
  ghost predicate IsBlockedKey(env: Env, cards: seq<Card>, card: Card, key: CardKey) {
    if CardStage(card) == Some(Merge) && HasValidMergePredecessor(env, card, cards) then IsOwnRetry(cards, card, key)
    else if !IsBlockedGate(card) then !IsWithinBudget(env, card) && IsOwnRecovery(cards, card, key)
    else if IsEarlyReview(env, card, cards) then IsOwnRetry(cards, card, key)
    else if IsRepaired(env, cards, card.id) then IsGuardedKey(env, card, cards, key)
    else IsGateKey(env, card, cards, key)
  }

  lemma BlockedKeys(env: Env, cards: seq<Card>, card: Card, key: CardKey)
    requires card.status == Blocked
    ensures CreatesKey(BlockedOps(env, card, cards), key)
       <==> IsTechnicallyBlocked(card) && !HasProvenRetry(env, cards, card.id) && IsBlockedKey(env, cards, card, key)
  {
    hide *;
    OneKey(ReclaimOp(card.id, Ready), key);
    BlockedBranches(env, card, cards);
    if HasProvenRetry(env, cards, card.id) {
      PromotionCreatesNothing(env, card, cards, key);
    } else if IsTechnicallyBlocked(card) {
      UnprovenBlockedKeys(env, cards, card, key);
    }
  }

  lemma UnprovenBlockedKeys(env: Env, cards: seq<Card>, card: Card, key: CardKey)
    requires card.status == Blocked && !HasProvenRetry(env, cards, card.id) && IsTechnicallyBlocked(card)
    ensures CreatesKey(BlockedOps(env, card, cards), key) <==> IsBlockedKey(env, cards, card, key)
  {
    hide CreatesKey;
    hide FreshRetryOps;
    hide BlockedGateOps;
    hide BlockedOps;
    hide RecoveryOps;
    hide RecoverCardOps;
    hide HasValidMergePredecessor;
    hide IsTechnicallyBlocked;
    hide IsBlockedGate;
    hide IsEarlyReview;
    hide IsRepaired;
    hide IsGuardedKey;
    hide IsGateKey;
    hide HasOpenRetry;
    hide HasOpenRecovery;
    hide IsRetryKey;
    hide IsRecoveryKey;
    hide IsWithinBudget;
    hide FirstProven;
    hide IsFirstProven;
    hide HasProvenRetry;
    hide StageOfLabels;
    FirstProvenProves(env, cards, card.id);
    BlockedBranches(env, card, cards);
    if CardStage(card).Some? {
      FreshKeys(env, card, cards, key);
    }
    if IsBlockedGate(card) {
      BlockedGateKeys(env, cards, card, key);
    }
    RecoveryKeys(env, card, cards, key);
    RecoverCardKeys(env, card, key);
  }

  lemma UnprovenKeys(env: Env, cards: seq<Card>, card: Card, key: CardKey)
    requires CardStage(card).Some?
    ensures CreatesKey(UnprovenOps(env, card, cards), key)
       <==> !HasProvenRetry(env, cards, card.id) && IsGuardedKey(env, card, cards, key)
  {
    hide CreatesKey;
    hide GuardedRetryOps;
    hide IsGuardedKey;
    hide HasProvenRetry;
    hide IsFirstProven;
    hide PassedProof;
    FirstProvenProves(env, cards, card.id);
    GuardedKeys(env, card, cards, key);
    if j :| FirstProven(env, cards, card.id, 0) == Some(j) {
      OneKey(CompleteOp(card.id, PassedProof(cards[j])), key);
    }
  }

  lemma StatusKeys(env: Env, cards: seq<Card>, card: Card, key: CardKey)
    ensures CreatesKey(StatusOps(env, card, cards), key)
       <==> && !HasProvenRetry(env, cards, card.id)
            && (|| (LacksCompletion(env, card) && IsGuardedKey(env, card, cards, key))
                || (IsTechnicallyBlocked(card) && IsBlockedKey(env, cards, card, key)))
  {
    hide CreatesKey;
    hide UnprovenOps;
    hide BlockedOps;
    hide IsGuardedKey;
    hide IsBlockedKey;
    hide HasProvenRetry;
    hide HasValidCompletion;
    hide PassedProof;
    hide StageOfLabels;
    hide ClassifyBlocker;
    hide BlockReason;
    hide IsCancelled;
    OneKey(CompleteOp(card.id, PassedProof(card)), key);
    if CardStage(card).Some? {
      UnprovenKeys(env, cards, card, key);
    }
    if card.status == Blocked {
      BlockedKeys(env, cards, card, key);
    }
  }

  lemma BranchesOfMain(env: Env, card: Card, cards: seq<Card>)
    ensures MainOps(env, card, cards)
         == if card.metadata.archived || (CardStage(card) == Some(Repair) && RepairIsObsolete(env, card, cards)) then []
            else if IsRetriableMerge(env, card, cards) then FreshRetryOps(env, card, cards)
            else if IsWaiting(card) && !IsWithinBudget(env, card) then [ReassignOp(card.id, env.captain)]
            else StatusOps(env, card, cards)
  {
    hide StatusOps;
    hide FreshRetryOps;
    hide HasValidMergePredecessor;
    hide HasFailureEvidence;
    hide RepairIsObsolete;
    hide FailureCount;
  }

  /** The keys of the main loop's turn, by branch. */
  lemma TurnKeys(env: Env, cards: seq<Card>, card: Card, key: CardKey)
    ensures CreatesKey(MainOps(env, card, cards), key)
       <==> && !card.metadata.archived && !IsMootRepair(env, cards, card)
            && if IsRetriableMerge(env, card, cards) then IsOwnRetry(cards, card, key)
               else
                 && !HasProvenRetry(env, cards, card.id)
                 && (|| (LacksCompletion(env, card) && IsGuardedKey(env, card, cards, key))
                     || (IsTechnicallyBlocked(card) && IsBlockedKey(env, cards, card, key)))
  {
    hide *;
    MootRepairIff(env, cards, card);
    BranchesOfMain(env, card, cards);
    StatusKeys(env, cards, card, key);
    UpdatesCreateNothing(card.id, env.captain, key);
    MergeKeys(env, cards, card, key);
    WaitingHasNoCase(env, card);
  }

  lemma UpdatesCreateNothing(id: CardId, agent: string, key: CardKey)
    ensures !CreatesKey([ReassignOp(id, agent)], key) && !CreatesKey([], key)
  {
    OneKey(ReassignOp(id, agent), key);
  }

  lemma WaitingHasNoCase(env: Env, card: Card)
    ensures IsWaiting(card) ==> !LacksCompletion(env, card) && !IsTechnicallyBlocked(card)
  {
  }

  lemma MergeKeys(env: Env, cards: seq<Card>, card: Card, key: CardKey)
    ensures IsRetriableMerge(env, card, cards) ==>
      CardStage(card).Some?
      && (CreatesKey(FreshRetryOps(env, card, cards), key) <==> IsOwnRetry(cards, card, key))
  {
    hide HasValidMergePredecessor;
    hide HasFailureEvidence;
    hide FreshRetryOps;
    hide CreatesKey;
    hide HasOpenRetry;
    hide IsRetryKey;
    if IsRetriableMerge(env, card, cards) {
      FreshKeys(env, card, cards, key);
    }
  }

  /** The branches are the sites. */
  lemma BranchesAreSites(env: Env, cards: seq<Card>, card: Card, key: CardKey)
    ensures IsSiteKey(env, cards, card, key)
       <==> && !card.metadata.archived && !IsMootRepair(env, cards, card)
            && if IsRetriableMerge(env, card, cards) then IsOwnRetry(cards, card, key)
               else
                 && !HasProvenRetry(env, cards, card.id)
                 && (|| (LacksCompletion(env, card) && IsGuardedKey(env, card, cards, key))
                     || (IsTechnicallyBlocked(card) && IsBlockedKey(env, cards, card, key)))
  {
    hide IsMootRepair;
    hide HasProvenRetry;
    hide IsRetriableMerge;
    hide IsOwnRetry;
    hide IsOwnRecovery;
    hide IsGuardedKey;
    hide IsGateKey;
    hide HasValidMergePredecessor;
    hide HasValidPredecessors;
    hide IsStaleGateBlock;
    hide IsRepaired;
    hide HasValidCompletion;
    hide BlockReason;
    hide ClassifyBlocker;
    hide IsCancelled;
    hide FailureCount;
    hide StageOfLabels;
    if IsRetriableMerge(env, card, cards) {
      assert IsSiteKey(env, cards, card, key)
        <==> !card.metadata.archived && !IsMootRepair(env, cards, card) && IsOwnRetry(cards, card, key);
    } else if card.metadata.archived || IsMootRepair(env, cards, card) || HasProvenRetry(env, cards, card.id) {
      assert !IsSiteKey(env, cards, card, key);
    } else if IsTechnicallyBlocked(card) {
      assert IsSiteKey(env, cards, card, key) <==> IsBlockedKey(env, cards, card, key);
    } else {
      assert IsSiteKey(env, cards, card, key) <==> LacksCompletion(env, card) && IsGuardedKey(env, card, cards, key);
    }
  }

  /** The turn of a card creates a card under a key exactly when the key is due. */
  lemma TurnCreatesIff(env: Env, cards: seq<Card>, card: Card, key: CardKey)
    requires card in cards
    ensures CreatesKey(MainOps(env, card, cards), key) <==> KeyIsDue(env, cards, card, key)
  {
    hide *;
    SiteKeys(env, cards, card, key);
    BranchesAreSites(env, cards, card, key);
    TurnKeys(env, cards, card, key);
  }

  // ---------------------------------------------------------------- the pass

  lemma {:induction false} SpecKeysIff(ops: seq<Op>, known: set<CardKey>, key: CardKey)
    ensures key in SpecKeys(NewSpecs(ops, known)) <==> key !in known && CreatesKey(ops, key)
  {
    if ops != [] {
      var earlier, op := ops[..|ops| - 1], ops[|ops| - 1];
      SpecKeysIff(earlier, known, key);
      OneKey(op, key);
      KeysConcat(earlier, [op], key);
      assert ops == earlier + [op];
      if IsCreate(op) {
        var specs := NewSpecs(earlier, known);
        assert SpecKeys(specs + [op.spec]) == SpecKeys(specs) + {op.spec.key} by {
          assert forall s :: s in specs + [op.spec] <==> s in specs || s == op.spec;
        }
      }
    }
  }

  lemma PassCreatesKeyIff(env: Env, cards: seq<Card>, key: CardKey)
    ensures CreatesKey(PassOps(env, cards), key)
       <==> exists k :: 0 <= k < |cards| && CreatesKey(MainOps(env, cards[k], cards), key)
  {
    hide MainOps;
    hide IsSuperseded;
    var n := |cards|;
    PhaseCreatesKey(env, 0, cards, n, key);
    PhaseCreatesKey(env, 1, cards, n, key);
    PhaseCreatesKey(env, 2, cards, n, key);
    PhaseCreatesKey(env, 3, cards, n, key);
    var p0, p1, p2, p3 := PhaseOps(env, 0, cards, n), PhaseOps(env, 1, cards, n), PhaseOps(env, 2, cards, n),
                          PhaseOps(env, 3, cards, n);
    KeysConcat(p0, p1, key);
    KeysConcat(p0 + p1, p2, key);
    KeysConcat(p0 + p1 + p2, p3, key);
  }

  lemma {:induction false} PhaseCreatesKey(env: Env, phase: nat, cards: seq<Card>, n: nat, key: CardKey)
    requires n <= |cards|
    ensures CreatesKey(PhaseOps(env, phase, cards, n), key)
       <==> phase >= 3 && exists k :: 0 <= k < n && CreatesKey(MainOps(env, cards[k], cards), key)
  {
    hide MainOps;
    hide IsSuperseded;
    hide CreatesKey;
    if n == 0 {
      OneKey(ReclaimOp("", Blocked), key);
    } else {
      PhaseCreatesKey(env, phase, cards, n - 1, key);
      KeysConcat(PhaseOps(env, phase, cards, n - 1), StepOps(env, phase, cards[n - 1], cards), key);
      OneKey(ReclaimOp(cards[n - 1].id, Blocked), key);
    }
  }

  lemma PassKeysAre(env: Env, b: Board, used: set<CardKey>, key: CardKey)
    requires Sound(b, env.name, used) && Covers(used, PassOps(env, Listing(b)))
    ensures key in Pass(env, b).keys <==> key in b.keys || CreatesKey(PassOps(env, Listing(b)), key)
  {
    hide CreatesKey;
    hide PassOps;
    hide FromPass;
    hide NewSpecs;
    PassIsFold(env, b, used);
    SpecKeysIff(PassOps(env, Listing(b)), b.keys.Keys, key);
  }

  lemma PassCreatesIff(env: Env, cards: seq<Card>, key: CardKey)
    ensures CreatesKey(PassOps(env, cards), key)
       <==> exists k :: 0 <= k < |cards| && KeyIsDue(env, cards, cards[k], key)
  {
    hide *;
    PassCreatesKeyIff(env, cards, key);
    forall k | 0 <= k < |cards|
      ensures CreatesKey(MainOps(env, cards[k], cards), key) <==> KeyIsDue(env, cards, cards[k], key)
    {
      TurnCreatesIff(env, cards, cards[k], key);
    }
  }

  /** After a pass a key is taken exactly if it was taken before, or is due in the turn of some card. */
  lemma KeysAfterPassIff(env: Env, b: Board, used: set<CardKey>, key: CardKey)
    requires Sound(b, env.name, used) && Covers(used, PassOps(env, Listing(b)))
    ensures key in Pass(env, b).keys
       <==> key in b.keys || exists k :: 0 <= k < |b.order| && KeyIsDue(env, Listing(b), Listing(b)[k], key)
  {
    PassKeysAre(env, b, used, key);
    PassCreatesIff(env, Listing(b), key);
    hide *;
  }
}
