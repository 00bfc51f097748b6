/** The size of a stage's retry tree, from the budget of each of its cards. */
module RetryTree {
  import opened Wrappers
  import opened Cards
  import opened CardBoard
  import opened RetryChain
  import opened Reconcile
  import opened ReconcileOps
  import opened ReconcileInvariant
  import opened ReconcileSafety
  import opened RetryBudget
  import opened BoardFold
  import opened Turns

  /** The parent of each card, by position. */
  type Parents = seq<Option<nat>>

  ghost function ParentsOf(tags: seq<Tag>): Parents {
    seq(|tags|, j requires 0 <= j < |tags| => Parent(tags, tags[j]))
  }

  ghost function ChildrenOf(parents: Parents, above: set<nat>): set<nat> {
    set j: nat | j < |parents| && parents[j].Some? && parents[j].value in above
  }

  /** The cards exactly `k` retries below card `r`. */
  ghost function AtDepth(parents: Parents, r: nat, k: nat): set<nat> {
    if k == 0 then {r} else ChildrenOf(parents, AtDepth(parents, r, k - 1))
  }

  /** L (L-1) ... (L-k+1). */
  ghost function Falling(limit: nat, k: nat): nat {
    if k == 0 then 1 else Falling(limit, k - 1) * Room(limit, k - 1)
  }

  ghost function Factorial(n: nat): nat {
    if n == 0 then 1 else n * Factorial(n - 1)
  }

  /** The retries of a stage over all depths up to `n`. */
  ghost function FallingSum(limit: nat, n: nat): nat {
    if n == 0 then 0 else FallingSum(limit, n - 1) + Falling(limit, n)
  }

  lemma {:induction false} FallingIsFactorial(limit: nat, k: nat)
    requires k <= limit
    ensures Falling(limit, k) * Factorial(limit - k) == Factorial(limit)
  {
    if k > 0 {
      FallingIsFactorial(limit, k - 1);
      calc {
        Falling(limit, k) * Factorial(limit - k);
        Falling(limit, k - 1) * (limit - k + 1) * Factorial(limit - k);
        { Associates(Falling(limit, k - 1), limit - k + 1, Factorial(limit - k)); }
        Falling(limit, k - 1) * ((limit - k + 1) * Factorial(limit - k));
        Falling(limit, k - 1) * Factorial(limit - (k - 1));
      }
    }
  }

  lemma Associates(a: nat, b: nat, c: nat)
    ensures a * b * c == a * (b * c)
  {
  }

  lemma {:induction false} FallingVanishes(limit: nat, k: nat)
    requires k > limit
    ensures Falling(limit, k) == 0
  {
    if k > limit + 1 {
      FallingVanishes(limit, k - 1);
    }
  }

  // ---------------------------------------------------------------- counting children

  lemma {:induction false} RetriesAreIndices(cards: seq<Card>, source: CardId, indices: set<nat>)
    requires forall j :: j in indices <==> 0 <= j < |cards| && IsRetryFor(cards[j], source)
    ensures |indices| == |RetriesOf(cards, source)|
  {
    if cards == [] {
      assert indices == {};
    } else {
      var n := |cards| - 1;
      var rest := indices - {n};
      forall j ensures j in rest <==> 0 <= j < n && IsRetryFor(cards[..n][j], source) {
      }
      RetriesAreIndices(cards[..n], source, rest);
      if n in indices {
        assert indices == rest + {n};
      } else {
        assert indices == rest;
      }
    }
  }

  lemma ChildCount(cards: seq<Card>, i: nat)
    requires Distinguishable(TagsOf(cards)) && Anchored(TagsOf(cards)) && i < |cards|
    ensures |ChildrenOf(ParentsOf(TagsOf(cards)), {i})| == |RetriesOf(cards, cards[i].id)|
  {
    var tags := TagsOf(cards);
    var children := ChildrenOf(ParentsOf(tags), {i});
    forall j ensures j in children <==> 0 <= j < |cards| && IsRetryFor(cards[j], cards[i].id) {
      if 0 <= j < |cards| {
        ParentIsExact(tags, j, i);
      }
    }
    RetriesAreIndices(cards, cards[i].id, children);
  }

  /** If each of some cards has at most `m` children, together they have at most that many times `m`. */
  lemma {:induction false} ChildrenBound(parents: Parents, above: set<nat>, m: nat)
    requires forall i :: i in above ==> |ChildrenOf(parents, {i})| <= m
    ensures |ChildrenOf(parents, above)| <= |above| * m
    decreases |above|
  {
    if above == {} {
      assert ChildrenOf(parents, above) == {};
    } else {
      var i :| i in above;
      var rest := above - {i};
      ChildrenBound(parents, rest, m);
      assert ChildrenOf(parents, above) == ChildrenOf(parents, rest) + ChildrenOf(parents, {i});
      UnionBound(ChildrenOf(parents, rest), ChildrenOf(parents, {i}));
      Distributes(|rest|, m);
      assert |above| == |rest| + 1;
    }
  }

  lemma Distributes(a: nat, m: nat)
    ensures (a + 1) * m == a * m + m
  {
  }

  lemma {:induction false} UnionBound(a: set<nat>, b: set<nat>)
    ensures |a + b| <= |a| + |b|
  {
    assert a + b == a + (b - a);
    assert |b - a| <= |b| by {
      assert (b - a) + (b * a) == b;
      assert |(b - a) + (b * a)| == |b - a| + |b * a|;
    }
    assert |a + (b - a)| == |a| + |b - a|;
  }

  // ---------------------------------------------------------------- trees with bounded branching

  /** A card at depth `k` has at most `limit - k` children. */
  ghost predicate Tapers(parents: Parents, r: nat, limit: nat) {
    forall k: nat, i :: i in AtDepth(parents, r, k) ==> |ChildrenOf(parents, {i})| <= Room(limit, k)
  }

  lemma {:induction false} DepthBound(parents: Parents, r: nat, limit: nat, k: nat)
    requires Tapers(parents, r, limit)
    ensures |AtDepth(parents, r, k)| <= Falling(limit, k)
    decreases k
  {
    if k > 0 {
      var above := AtDepth(parents, r, k - 1);
      DepthBound(parents, r, limit, k - 1);
      ChildrenBound(parents, above, Room(limit, k - 1));
      Monotone(|above|, Falling(limit, k - 1), Room(limit, k - 1));
    }
  }

  lemma Monotone(a: nat, b: nat, c: nat)
    requires a <= b
    ensures a * c <= b * c
  {
  }

  ghost function UpToDepth(parents: Parents, r: nat, n: nat): set<nat> {
    if n == 0 then {} else UpToDepth(parents, r, n - 1) + AtDepth(parents, r, n)
  }

  lemma {:induction false} InUpTo(parents: Parents, r: nat, k: nat, n: nat, j: nat)
    requires 1 <= k <= n && j in AtDepth(parents, r, k)
    ensures j in UpToDepth(parents, r, n)
    decreases n
  {
    if k < n {
      InUpTo(parents, r, k, n - 1, j);
    }
  }

  lemma {:induction false} UpToBound(parents: Parents, r: nat, limit: nat, n: nat)
    requires Tapers(parents, r, limit)
    ensures |UpToDepth(parents, r, n)| <= FallingSum(limit, n)
    decreases n
  {
    if n > 0 {
      UpToBound(parents, r, limit, n - 1);
      DepthBound(parents, r, limit, n);
      UnionBound(UpToDepth(parents, r, n - 1), AtDepth(parents, r, n));
    }
  }

  lemma DepthWithinLimit(parents: Parents, r: nat, limit: nat, k: nat, j: nat)
    requires Tapers(parents, r, limit) && j in AtDepth(parents, r, k)
    ensures k <= limit
  {
    DepthBound(parents, r, limit, k);
    if k > limit {
      FallingVanishes(limit, k);
    }
  }

  lemma {:induction false} SubsetSize(a: set<nat>, b: set<nat>)
    requires a <= b
    ensures |a| <= |b|
  {
    assert b == a + (b - a);
    assert |a + (b - a)| == |a| + |b - a|;
  }

  // ---------------------------------------------------------------- the retry tree of one stage

  /** What is known of the cards at one depth of the tree below `r`. */
  ghost predicate SitsAt(cards: seq<Card>, r: nat, k: nat, j: nat)
    requires Distinguishable(TagsOf(cards)) && Anchored(TagsOf(cards)) && r < |cards|
  {
    j < |cards| && Level(TagsOf(cards), j) == k && CardStage(cards[j]) == CardStage(cards[r])
  }

  lemma {:induction false} DepthFacts(cards: seq<Card>, r: nat, k: nat, j: nat)
    requires Distinguishable(TagsOf(cards)) && Anchored(TagsOf(cards)) && StageAnchored(cards)
    requires r < |cards| && RetryFor(cards[r]).None? && j in AtDepth(ParentsOf(TagsOf(cards)), r, k)
    ensures SitsAt(cards, r, k, j)
    decreases k
  {
    hide Parent;
    hide StageAnchored;
    hide Distinguishable;
    hide Anchored;
    hide StageOfLabels;
    hide RetryToken;
    if k == 0 {
      assert TagsOf(cards)[r].token.None?;
    } else {
      var p := ParentsOf(TagsOf(cards))[j].value;
      DepthFacts(cards, r, k - 1, p);
      SitsBelow(cards, r, k - 1, p, j);
    }
  }

  lemma SitsBelow(cards: seq<Card>, r: nat, k: nat, p: nat, j: nat)
    requires Distinguishable(TagsOf(cards)) && Anchored(TagsOf(cards)) && StageAnchored(cards)
    requires r < |cards| && SitsAt(cards, r, k, p) && j < |cards|
    requires Parent(TagsOf(cards), TagsOf(cards)[j]) == Some(p)
    ensures SitsAt(cards, r, k + 1, j)
  {
    ParentHasStage(cards, j, p);
    LevelStep(TagsOf(cards), j, p);
  }

  lemma LevelStep(tags: seq<Tag>, j: nat, p: nat)
    requires Distinguishable(tags) && Anchored(tags) && j < |tags| && p < |tags|
    requires Parent(tags, tags[j]) == Some(p)
    ensures Level(tags, j) == Level(tags, p) + 1
  {
    ParentIsExact(tags, j, p);
  }

  /** The retry tree of a guarded stage tapers. */
  lemma StageTapers(cards: seq<Card>, fallback: nat, limit: nat, r: nat)
    requires Distinguishable(TagsOf(cards)) && Anchored(TagsOf(cards)) && StageAnchored(cards)
    requires WithinBudget(cards, fallback)
    requires forall j :: 0 <= j < |cards| ==> RetryLimit(cards[j], fallback) <= limit
    requires r < |cards| && RetryFor(cards[r]).None? && IsGuarded(cards[r])
    ensures Tapers(ParentsOf(TagsOf(cards)), r, limit)
  {
    var parents := ParentsOf(TagsOf(cards));
    forall k: nat, i | i in AtDepth(parents, r, k) ensures |ChildrenOf(parents, {i})| <= Room(limit, k) {
      DepthFacts(cards, r, k, i);
      assert SitsAt(cards, r, k, i);
      assert HasBudget(cards, fallback, i);
      ChildCount(cards, i);
    }
  }

  lemma ChainTail(tags: seq<Tag>, j: nat, seen: set<CardId>, c: Tag)
    requires j < |tags| && c in Chain(tags, tags[j], seen) && c != tags[j]
    ensures var p := Parent(tags, tags[j]);
            p.Some? && c in Chain(tags, tags[p.value], seen + {tags[j].id})
  {
  }

  lemma ChainTailIf(tags: seq<Tag>, j: nat, seen: set<CardId>, c: Tag)
    requires j < |tags| && c in Chain(tags, tags[j], seen)
    ensures c != tags[j] ==>
      var p := Parent(tags, tags[j]);
      p.Some? && c in Chain(tags, tags[p.value], seen + {tags[j].id})
  {
    if c != tags[j] {
      ChainTail(tags, j, seen, c);
    }
  }

  lemma RootDepth(parents: Parents, r: nat)
    ensures r in AtDepth(parents, r, 0)
  {
  }

  lemma OneDeeper(parents: Parents, r: nat, k: nat, p: nat, j: nat)
    requires p in AtDepth(parents, r, k) && j < |parents| && parents[j] == Some(p)
    ensures j in AtDepth(parents, r, k + 1)
  {
  }

  /** A retry descendant of `r` lies at some depth below it. */
  lemma {:induction false} DescendantDepth(tags: seq<Tag>, j: nat, r: nat, seen: set<CardId>, c: Tag) returns (k: nat)
    requires Distinguishable(tags) && Anchored(tags) && j < |tags| && r < |tags|
    requires c in Chain(tags, tags[j], seen) && TokenNames(c.token, tags[r].id)
    ensures k >= 1 && j in AtDepth(ParentsOf(tags), r, k)
    decreases j
  {
    hide AtDepth;
    hide Chain;
    ChainTailIf(tags, j, seen, c);
    if c == tags[j] {
      ParentIsExact(tags, j, r);
      RootDepth(ParentsOf(tags), r);
      OneDeeper(ParentsOf(tags), r, 0, r, j);
      k := 1;
    } else {
      ParentIsExact(tags, j, r);
      var p := Parent(tags, tags[j]).value;
      k := DescendantDepth(tags, p, r, seen + {tags[j].id}, c);
      OneDeeper(ParentsOf(tags), r, k, p, j);
      k := k + 1;
    }
  }

  /** All retries, at any depth, of card `r`. */
  ghost function RetryFamily(tags: seq<Tag>, r: nat): set<nat>
    requires r < |tags|
  {
    set j: nat | j < |tags| && Descends(tags, tags[j], tags[r].id)
  }

  /** The retry family of a guarded stage lies within depth L and is bounded by L alone. */
  lemma FamilyBound(tags: seq<Tag>, limit: nat, r: nat)
    requires Distinguishable(tags) && Anchored(tags) && r < |tags| && Tapers(ParentsOf(tags), r, limit)
    ensures |RetryFamily(tags, r)| <= FallingSum(limit, limit)
  {
    var parents := ParentsOf(tags);
    forall j | j in RetryFamily(tags, r) ensures j in UpToDepth(parents, r, limit) {
      var c :| c in Chain(tags, tags[j], {}) && TokenNames(c.token, tags[r].id);
      var k := DescendantDepth(tags, j, r, {}, c);
      DepthWithinLimit(parents, r, limit, k, j);
      InUpTo(parents, r, k, limit, j);
    }
    UpToBound(parents, r, limit, limit);
    SubsetSize(RetryFamily(tags, r), UpToDepth(parents, r, limit));
  }

  /** Card `r` is the original card of a guarded stage, on a board whose limits are at most `limit`. */
  ghost predicate IsStageRoot(cards: seq<Card>, fallback: nat, limit: nat, r: nat) {
    && r < |cards| && RetryFor(cards[r]).None? && IsGuarded(cards[r])
    && forall j :: 0 <= j < |cards| ==> RetryLimit(cards[j], fallback) <= limit
  }

  /** At most L!/(L-k)! retries at depth `k`, none below L, and a total that depends on L only. */
  ghost predicate RetriesBounded(tags: seq<Tag>, limit: nat, r: nat, k: nat)
    requires r < |tags|
  {
    && (k <= limit ==> |AtDepth(ParentsOf(tags), r, k)| * Factorial(limit - k) <= Factorial(limit))
    && (k > limit ==> AtDepth(ParentsOf(tags), r, k) == {})
    && |RetryFamily(tags, r)| <= FallingSum(limit, limit)
  }

  /** Over every run from a board without retries, a stage other than merge and final review gets
      at most L!/(L-k)! retries at depth k, and a total bounded by L. */
  lemma RetriesAreBoundedOverRuns(name: CardKey -> CardId, fallback: nat, used: set<CardKey>,
                                  boards: seq<Board>, events: seq<Event>, n: nat, r: nat, k: nat, limit: nat)
    requires Run(name, fallback, used, boards, events) && n < |boards|
    requires Sound(boards[0], name, used)
    requires forall j :: 0 <= j < |boards[0].order| ==> RetryFor(Listing(boards[0])[j]).None?
    ensures Valid(boards[n])
    ensures IsStageRoot(Listing(boards[n]), fallback, limit, r) ==>
      RetriesBounded(TagsOf(Listing(boards[n])), limit, r, k)
  {
    FreshBoardIsBounded(boards[0], name, fallback, used);
    RunStaysBounded(name, fallback, used, boards, events, n);
    var cards := Listing(boards[n]);
    if IsStageRoot(cards, fallback, limit, r) {
      StageTapers(cards, fallback, limit, r);
      TaperedIsBounded(TagsOf(cards), limit, r, k);
    }
  }

  lemma TaperedIsBounded(tags: seq<Tag>, limit: nat, r: nat, k: nat)
    requires Distinguishable(tags) && Anchored(tags) && r < |tags| && Tapers(ParentsOf(tags), r, limit)
    ensures RetriesBounded(tags, limit, r, k)
  {
    DepthBound(ParentsOf(tags), r, limit, k);
    FamilyBound(tags, limit, r);
    if k <= limit {
      FallingIsFactorial(limit, k);
      Monotone(|AtDepth(ParentsOf(tags), r, k)|, Falling(limit, k), Factorial(limit - k));
    } else {
      FallingVanishes(limit, k);
    }
  }

  // ---------------------------------------------------------------- the unguarded sites

  /** When the budget is used up, a pass still creates a fresh retry exactly at the unguarded sites:
      a failed original merge card, a blocked merge card, and a blocked final review whose
      predecessors are complete. */
  lemma ExhaustedRetryIff(env: Env, card: Card, cards: seq<Card>)
    requires card in cards && CardStage(card).Some? && RetryExhausted(env, card, cards)
    ensures CreateReadyOp(RetrySpec(env, card, cards)) in MainOps(env, card, cards)
      <==> ActiveRetry(cards, card.id, 0).None? && !card.metadata.archived
           && (IsFailedMerge(env, card, cards) || IsUnguardedBlock(env, card, cards))
  {
    if IsFailedMerge(env, card, cards) {
      FreshRetryIff(env, card, cards);
    } else if card.status == Blocked {
      BlockedMain(env, card, cards);
    } else {
      OthersCreateNothing(env, card, cards);
    }
  }

  lemma {:induction false} InPhase(env: Env, phase: nat, cards: seq<Card>, n: nat, op: Op)
    requires n <= |cards|
    ensures op in PhaseOps(env, phase, cards, n)
      <==> exists k :: 0 <= k < n && op in StepOps(env, phase, cards[k], cards)
  {
    hide StepOps;
    if n > 0 {
      InPhase(env, phase, cards, n - 1, op);
    }
  }

  /** A retry of a card is only created in that card's own turn. */
  lemma OwnTurnRetries(env: Env, cards: seq<Card>, i: nat, k: nat)
    requires DistinctIds(cards) && i < |cards| && k < |cards| && CardStage(cards[i]).Some?
    requires CreateReadyOp(RetrySpec(env, cards[i], cards)) in MainOps(env, cards[k], cards)
    ensures k == i
  {
    hide MainOps;
    var op, ops := CreateReadyOp(RetrySpec(env, cards[i], cards)), MainOps(env, cards[k], cards);
    MainIsTurn(env, cards[k], cards);
    var n :| 0 <= n < |ops| && ops[n] == op;
    assert Allowed(env, cards[k], cards, ops[n]);
  }

  /** When the budget of a card is used up, a pass still creates a fresh retry of it exactly at the unguarded
      sites. */
  lemma {:induction false} PassRetriesExhaustedIff(env: Env, cards: seq<Card>, i: nat)
    requires DistinctIds(cards) && i < |cards| && CardStage(cards[i]).Some? && RetryExhausted(env, cards[i], cards)
    ensures CreateReadyOp(RetrySpec(env, cards[i], cards)) in PassOps(env, cards)
      <==> ActiveRetry(cards, cards[i].id, 0).None? && !cards[i].metadata.archived
           && (IsFailedMerge(env, cards[i], cards) || IsUnguardedBlock(env, cards[i], cards))
  {
    hide MainOps;
    hide RetrySpec;
    hide RetryExhausted;
    hide IsFailedMerge;
    hide IsUnguardedBlock;
    hide IsSuperseded;
    var op := CreateReadyOp(RetrySpec(env, cards[i], cards));
    InPhase(env, 0, cards, |cards|, op);
    InPhase(env, 1, cards, |cards|, op);
    InPhase(env, 2, cards, |cards|, op);
    InPhase(env, 3, cards, |cards|, op);
    ExhaustedRetryIff(env, cards[i], cards);
    forall k | 0 <= k < |cards| && op in MainOps(env, cards[k], cards) ensures k == i {
      OwnTurnRetries(env, cards, i, k);
    }
    assert forall k :: 0 <= k < |cards| ==> StepOps(env, 3, cards[k], cards) == MainOps(env, cards[k], cards);
  }

  lemma BlockedMain(env: Env, card: Card, cards: seq<Card>)
    requires CardStage(card).Some? && RetryExhausted(env, card, cards)
    requires !IsFailedMerge(env, card, cards) && card.status == Blocked
    ensures CreateReadyOp(RetrySpec(env, card, cards)) in MainOps(env, card, cards)
      <==> ActiveRetry(cards, card.id, 0).None? && !card.metadata.archived && IsUnguardedBlock(env, card, cards)
  {
    hide RetrySpec;
    hide RetryExhausted;
    hide BlockedOps;
    BlockedCreatesIff(env, card, cards);
  }

  lemma OthersCreateNothing(env: Env, card: Card, cards: seq<Card>)
    requires CardStage(card).Some? && RetryExhausted(env, card, cards)
    requires !IsFailedMerge(env, card, cards) && card.status != Blocked
    ensures CreateReadyOp(RetrySpec(env, card, cards)) !in MainOps(env, card, cards)
  {
    hide RetrySpec;
    hide RetryExhausted;
    hide HasValidProof;
    GuardedCreatesNothing(env, card, cards);
    assert CreateReadyOp(RetrySpec(env, card, cards)) !in UnprovenOps(env, card, cards);
    assert CreateReadyOp(RetrySpec(env, card, cards)) !in RecoverCardOps(env, card);
  }

  /** The site that retries a failed original merge card at once. */
  predicate IsFailedMerge(env: Env, card: Card, cards: seq<Card>) {
    && CardStage(card) == Some(Merge) && HasFailureEvidence(card) && RetryFor(card).None?
    && HasValidMergePredecessor(env, card, cards)
  }

  /** The sites that retry a blocked merge card or a stale final review. */
  predicate IsUnguardedBlock(env: Env, card: Card, cards: seq<Card>) {
    && card.status == Blocked && !IsOwnerBlocked(card) && !IsCancelled(card)
    && FirstProven(env, cards, card.id, 0).None?
    && IsUnguarded(env, card, cards)
  }

  lemma FreshRetryIff(env: Env, card: Card, cards: seq<Card>)
    requires CardStage(card).Some?
    ensures CreateReadyOp(RetrySpec(env, card, cards)) in FreshRetryOps(env, card, cards)
      <==> ActiveRetry(cards, card.id, 0).None?
  {
  }

  lemma GuardedCreatesNothing(env: Env, card: Card, cards: seq<Card>)
    requires CardStage(card).Some? && RetryExhausted(env, card, cards)
    ensures CreateReadyOp(RetrySpec(env, card, cards)) !in GuardedRetryOps(env, card, cards)
  {
    RecoveriesAreNotRetries(env, card, cards);
  }

  lemma GateCreatesIff(env: Env, card: Card, cards: seq<Card>)
    requires CardStage(card).Some? && RetryExhausted(env, card, cards)
    requires card.status == Blocked && IsGate(CardStage(card))
    ensures CreateReadyOp(RetrySpec(env, card, cards)) in BlockedGateOps(env, card, cards)
      <==> ActiveRetry(cards, card.id, 0).None? && IsUnguarded(env, card, cards)
  {
    var op := CreateReadyOp(RetrySpec(env, card, cards));
    RecoveriesAreNotRetries(env, card, cards);
    FreshRetryIff(env, card, cards);
    GuardedCreatesNothing(env, card, cards);
    CancelsCreateNothing(RepairsOf(cards, card.id), op);
    if IsUnguarded(env, card, cards) {
      assert BlockedGateOps(env, card, cards)
          == CancelOps(RepairsOf(cards, card.id)) + FreshRetryOps(env, card, cards);
    }
  }

  lemma BlockedCreatesIff(env: Env, card: Card, cards: seq<Card>)
    requires CardStage(card).Some? && RetryExhausted(env, card, cards)
    ensures card.status == Blocked ==>
      (&& CreateReadyOp(RetrySpec(env, card, cards)) in BlockedOps(env, card, cards)
       <==> ActiveRetry(cards, card.id, 0).None? && IsUnguardedBlock(env, card, cards))
  {
    if card.status == Blocked {
      RecoveriesAreNotRetries(env, card, cards);
      FreshRetryIff(env, card, cards);
      if IsGate(CardStage(card)) {
        GateCreatesIff(env, card, cards);
      }
    }
  }

  lemma RecoveriesAreNotRetries(env: Env, card: Card, cards: seq<Card>)
    requires CardStage(card).Some?
    ensures forall failed :: CreateReadyOp(RetrySpec(env, card, cards)) !in RecoveryOps(env, failed, cards)
    ensures forall c :: CreateReadyOp(RetrySpec(env, card, cards)) !in RecoverCardOps(env, c)
  {
  }

  lemma {:induction false} CancelsCreateNothing(repairs: seq<Card>, op: Op)
    requires IsCreate(op)
    ensures op !in CancelOps(repairs)
  {
    if repairs != [] {
      CancelsCreateNothing(repairs[..|repairs| - 1], op);
    }
  }
}
