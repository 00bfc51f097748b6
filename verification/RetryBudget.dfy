/**
 Proofless retries cannot become an unattended loop.

 Over every run of worker activity, enqueued cards and reconcile passes, a card of any stage other than
 merge and final review has at most `limit - depth` direct retries.  The retries of one stage therefore form
 a tree with at most L!/(L-k)! cards at depth k, and nothing below depth L.
 */
module RetryBudget {
  import opened Wrappers
  import opened Cards
  import opened CardBoard
  import opened RetryChain
  import opened Reconcile
  import opened ReconcileOps
  import opened BoardFold
  import opened ReconcileInvariant
  import opened ReconcileSafety

  /** Stages whose every retry is created behind `_protocol_retry_exhausted`. */
  predicate IsGuarded(card: Card) {
    CardStage(card).Some? && CardStage(card) != Some(Merge) && CardStage(card) != Some(FinalReview)
  }

  function Room(limit: nat, depth: nat): nat {
    if depth <= limit then limit - depth else 0
  }

  ghost predicate HasBudget(cards: seq<Card>, fallback: nat, j: nat)
    requires Distinguishable(TagsOf(cards)) && Anchored(TagsOf(cards)) && j < |cards|
  {
    IsGuarded(cards[j]) ==>
      |RetriesOf(cards, cards[j].id)| <= Room(RetryLimit(cards[j], fallback), Level(TagsOf(cards), j))
  }

  ghost predicate WithinBudget(cards: seq<Card>, fallback: nat)
    requires Distinguishable(TagsOf(cards)) && Anchored(TagsOf(cards))
  {
    forall j :: 0 <= j < |cards| ==> HasBudget(cards, fallback, j)
  }

  // ---------------------------------------------------------------- one pass

  lemma {:induction false} LevelOfPrefix(tags: seq<Tag>, more: seq<Tag>, j: nat)
    requires Distinguishable(tags) && Anchored(tags)
    requires Distinguishable(tags + more) && Anchored(tags + more)
    requires j < |tags|
    ensures Level(tags + more, j) == Level(tags, j)
    decreases j
  {
    ParentIsExact(tags, j, j);
    ParentIsExact(tags + more, j, j);
    if tags[j].token.Some? {
      var p := Parent(tags, tags[j]).value;
      ParentIsExact(tags + more, j, p);
      LevelOfPrefix(tags, more, p);
    }
  }

  lemma TagsAfter(cards: seq<Card>, ops: seq<Op>, news: seq<Card>)
    ensures TagsOf(Effects(cards, ops) + news) == TagsOf(cards) + TagsOf(news)
  {
  }

  /** A list in which at most one card is a retry of `source`. */
  lemma {:induction false} AtMostOneRetry(cards: seq<Card>, source: CardId)
    requires forall m, n :: 0 <= m < n < |cards| ==>
      !(IsRetryFor(cards[m], source) && IsRetryFor(cards[n], source))
    ensures |RetriesOf(cards, source)| <= 1
    ensures |RetriesOf(cards, source)| == 1 ==> exists n :: 0 <= n < |cards| && IsRetryFor(cards[n], source)
  {
    if cards != [] {
      var init := cards[..|cards| - 1];
      AtMostOneRetry(init, source);
      if |RetriesOf(init, source)| == 1 {
        var n :| 0 <= n < |init| && IsRetryFor(init[n], source);
        assert IsRetryFor(cards[n], source);
      }
      if IsRetryFor(cards[|cards| - 1], source) {
        NoRetries(init, source);
      }
    }
  }

  lemma {:induction false} NoRetries(cards: seq<Card>, source: CardId)
    requires forall n :: 0 <= n < |cards| ==> !IsRetryFor(cards[n], source)
    ensures RetriesOf(cards, source) == []
  {
    if cards != [] {
      NoRetries(cards[..|cards| - 1], source);
    }
  }

  /** A new row that reads as a retry of an old card was created as its retry. */
  lemma NewRetryIsOfSource(env: Env, cards: seq<Card>, spec: CardSpec, id: CardId, j: nat)
    requires Distinguishable(TagsOf(cards)) && j < |cards| && FromPass(env, cards, spec)
    requires IsRetryFor(NewCard(spec, id), cards[j].id)
    ensures CardStage(cards[j]).Some? && spec == RetrySpec(env, cards[j], cards)
  {
    NewRowReads(env, cards, spec, id);
    var i :| 0 <= i < |cards| && CardStage(cards[i]).Some?
             && spec == RetrySpec(env, cards[i], cards) && IsRetryRow(NewCard(spec, id), cards[i]);
    var tags := TagsOf(cards);
    assert tags[i].id == cards[i].id && tags[j].id == cards[j].id;
  }

  lemma NewRetriesOfOld(env: Env, cards: seq<Card>, specs: seq<CardSpec>, j: nat)
    requires Distinguishable(TagsOf(cards)) && j < |cards|
    requires forall s :: s in specs ==> FromPass(env, cards, s)
    requires forall m, n :: 0 <= m < n < |specs| ==> specs[m].key != specs[n].key
    ensures |RetriesOf(NewCards(specs, env.name), cards[j].id)| <= 1
    ensures |RetriesOf(NewCards(specs, env.name), cards[j].id)| == 1 ==>
      CardStage(cards[j]).Some? && RetrySpec(env, cards[j], cards) in specs
  {
    var news := NewCards(specs, env.name);
    forall n | 0 <= n < |news| && IsRetryFor(news[n], cards[j].id)
      ensures CardStage(cards[j]).Some? && specs[n] == RetrySpec(env, cards[j], cards)
    {
      assert specs[n] in specs;
      NewRetryIsOfSource(env, cards, specs[n], env.name(specs[n].key), j);
    }
    AtMostOneRetry(news, cards[j].id);
  }

  /** A retry of a guarded card is only created while the budget is not used up. */
  lemma CreatedRetryHasRoom(env: Env, cards: seq<Card>, ops: seq<Op>, known: set<CardKey>, j: nat)
    requires DistinctIds(cards) && AllJustified(env, cards, ops) && j < |cards| && IsGuarded(cards[j])
    requires RetrySpec(env, cards[j], cards) in NewSpecs(ops, known)
    ensures !RetryExhausted(env, cards[j], cards)
  {
    SpecsFromOps(ops, known);
    var k :| 0 <= k < |ops| && IsCreate(ops[k]) && ops[k].spec == RetrySpec(env, cards[j], cards);
    assert Justified(env, cards, ops[k]);
    var i :| 0 <= i < |cards| && CardStage(cards[i]).Some? && ops[k].spec == RetrySpec(env, cards[i], cards)
             && (RetryExhausted(env, cards[i], cards) ==> IsUnguarded(env, cards[i], cards));
    assert i == j;
  }

  /** A retry label names one card, and an earlier one. */
  lemma NamesOneEarlier(tags: seq<Tag>, m: nat, i: nat, j: nat)
    requires Distinguishable(tags) && Anchored(tags) && m < |tags| && i < |tags| && j < |tags|
    requires TokenNames(tags[m].token, tags[j].id)
    ensures j < m
    ensures TokenNames(tags[m].token, tags[i].id) ==> i == j
  {
    ParentIsExact(tags, m, j);
    ParentIsExact(tags, m, i);
  }

  lemma RetryRowNamesSource(card: Card, source: Card)
    requires IsRetryRow(card, source)
    ensures IsRetryFor(card, source.id)
  {
  }

  lemma NewRowNamesOld(env: Env, cards: seq<Card>, spec: CardSpec, id: CardId) returns (i: nat)
    requires FromPass(env, cards, spec) && RetryFor(NewCard(spec, id)).Some?
    ensures i < |cards| && IsRetryFor(NewCard(spec, id), cards[i].id)
  {
    NewRowReads(env, cards, spec, id);
    var card := NewCard(spec, id);
    i :| 0 <= i < |cards| && CardStage(cards[i]).Some?
         && spec == RetrySpec(env, cards[i], cards) && IsRetryRow(card, cards[i]);
    RetryRowNamesSource(card, cards[i]);
  }

  /** No row reads as a retry of a new card. */
  lemma NotRetryOfNew(env: Env, cards: seq<Card>, ops: seq<Op>, specs: seq<CardSpec>, rows: seq<Card>, m: nat, j: nat)
    requires rows == Effects(cards, ops) + NewCards(specs, env.name)
    requires forall s :: s in specs ==> FromPass(env, cards, s)
    requires Distinguishable(TagsOf(rows)) && Anchored(TagsOf(rows))
    requires |cards| <= j < |rows| && m < |rows|
    ensures !IsRetryFor(rows[m], rows[j].id)
  {
    hide FromPass;
    hide NewCard;
    hide RetryToken;
    hide Effect;
    hide Distinguishable;
    hide Anchored;
    var tags := TagsOf(rows);
    assert forall n :: 0 <= n < |tags| ==> tags[n].id == rows[n].id && tags[n].token == RetryFor(rows[n]);
    if IsRetryFor(rows[m], rows[j].id) {
      NamesOneEarlier(tags, m, j, j);
      var n := m - |cards|;
      assert specs[n] in specs && rows[m] == NewCard(specs[n], env.name(specs[n].key));
      var i := NewRowNamesOld(env, cards, specs[n], env.name(specs[n].key));
      assert rows[i].id == cards[i].id;
      NamesOneEarlier(tags, m, i, j);
    }
  }

  /** A new card has no retries yet. */
  lemma NewCardHasBudget(env: Env, cards: seq<Card>, ops: seq<Op>, specs: seq<CardSpec>, rows: seq<Card>, j: nat)
    requires rows == Effects(cards, ops) + NewCards(specs, env.name)
    requires forall s :: s in specs ==> FromPass(env, cards, s)
    requires Distinguishable(TagsOf(rows)) && Anchored(TagsOf(rows))
    requires |cards| <= j < |rows|
    ensures HasBudget(rows, env.maxRetries, j)
  {
    forall m | 0 <= m < |rows| ensures !IsRetryFor(rows[m], rows[j].id) {
      NotRetryOfNew(env, cards, ops, specs, rows, m, j);
    }
    NoRetries(rows, rows[j].id);
  }

  lemma OldCardStaysWithinBudget(env: Env, b: Board, used: set<CardKey>, j: nat)
    requires Sound(b, env.name, used) && Covers(used, PassOps(env, Listing(b))) && j < |b.order|
    requires Distinguishable(TagsOf(Listing(b))) && Anchored(TagsOf(Listing(b)))
    requires IsGuarded(Listing(b)[j]) && HasBudget(Listing(b), env.maxRetries, j)
    ensures Valid(Pass(env, b))
    ensures |RetriesOf(Listing(Pass(env, b)), Listing(b)[j].id)|
         <= Room(RetryLimit(Listing(b)[j], env.maxRetries), Level(TagsOf(Listing(b)), j))
  {
    var cards := Listing(b);
    var ops := PassOps(env, cards);
    var specs := NewSpecs(ops, b.keys.Keys);
    PassIsFold(env, b, used);
    PassIsJustified(env, cards);
    ListingIdsDistinct(b);
    SpecsFromOps(ops, b.keys.Keys);
    NewRetriesOfOld(env, cards, specs, j);
    CountAfter(cards, ops, NewCards(specs, env.name), cards[j].id);
    if |RetriesOf(NewCards(specs, env.name), cards[j].id)| == 1 {
      CreatedRetryHasRoom(env, cards, ops, b.keys.Keys, j);
      DepthIsLevel(TagsOf(cards), j);
    }
  }

  lemma OldCardHasBudget(env: Env, b: Board, used: set<CardKey>, rows: seq<Card>, j: nat)
    requires Sound(b, env.name, used) && Covers(used, PassOps(env, Listing(b))) && j < |b.order|
    requires Distinguishable(TagsOf(Listing(b))) && Anchored(TagsOf(Listing(b)))
    requires HasBudget(Listing(b), env.maxRetries, j)
    requires Valid(Pass(env, b)) && rows == Listing(Pass(env, b))
    requires rows == Effects(Listing(b), PassOps(env, Listing(b)))
                     + NewCards(NewSpecs(PassOps(env, Listing(b)), b.keys.Keys), env.name)
    requires Distinguishable(TagsOf(rows)) && Anchored(TagsOf(rows))
    ensures HasBudget(rows, env.maxRetries, j)
  {
    var cards := Listing(b);
    var ops := PassOps(env, cards);
    var news := NewCards(NewSpecs(ops, b.keys.Keys), env.name);
    TagsAfter(cards, ops, news);
    assert rows[j] == EffectAll(cards[j], ops);
    LevelOfPrefix(TagsOf(cards), TagsOf(news), j);
    if IsGuarded(rows[j]) {
      OldCardStaysWithinBudget(env, b, used, j);
    }
  }

  /** One pass keeps every guarded card within its retry budget. */
  lemma PassKeepsBudget(env: Env, b: Board, used: set<CardKey>)
    requires Bounded(b, env.name, env.maxRetries, used) && Covers(used, PassOps(env, Listing(b)))
    ensures Bounded(Pass(env, b), env.name, env.maxRetries, used)
  {
    PassKeepsSound(env, b, used);
    SoundTags(Pass(env, b), env.name, used);
    PassIsFold(env, b, used);
    var rows := Listing(Pass(env, b));
    forall j | 0 <= j < |rows| ensures HasBudget(rows, env.maxRetries, j) {
      if j < |b.order| {
        OldCardHasBudget(env, b, used, rows, j);
      } else {
        NewCardHasBudget(env, Listing(b), PassOps(env, Listing(b)),
                         NewSpecs(PassOps(env, Listing(b)), b.keys.Keys), rows, j);
      }
    }
  }

  // ---------------------------------------------------------------- whole runs

  /** What workers, operators and the clock may do between passes: anything but relabel cards. */
  ghost predicate WorkerChange(b: Board, b': Board) {
    && b'.order == b.order && b'.keys == b.keys && b'.cards.Keys == b.cards.Keys
    && forall id :: id in b.cards ==>
         && b'.cards[id].id == b.cards[id].id
         && b'.cards[id].labels == b.cards[id].labels
         && b'.cards[id].metadata.maxRetries == b.cards[id].metadata.maxRetries
  }

  /** A card of a workflow plan or a discovered QA card: neither a retry nor a repair. */
  predicate IsPlainSpec(spec: CardSpec) {
    spec.key.WorkKey? && RetryToken(spec.labels).None? && FirstValueOf(spec.labels, "repair-for:", "repair:").None?
  }

  datatype Event = Worked(after: Board) | Reconciled(env: Env) | Enqueued(spec: CardSpec)

  ghost predicate Step(name: CardKey -> CardId, fallback: nat, used: set<CardKey>, b: Board, e: Event, b': Board) {
    match e
    case Worked(after) => WorkerChange(b, after) && b' == after
    case Reconciled(env) =>
      && env.name == name && env.maxRetries == fallback && Valid(b)
      && Covers(used, PassOps(env, Listing(b))) && b' == Pass(env, b)
    case Enqueued(spec) => IsPlainSpec(spec) && spec.key in used && b' == Create(b, spec, name(spec.key))
  }

  ghost predicate Run(name: CardKey -> CardId, fallback: nat, used: set<CardKey>,
                      boards: seq<Board>, events: seq<Event>)
  {
    && |boards| == |events| + 1
    && forall i :: 0 <= i < |events| ==> Step(name, fallback, used, boards[i], events[i], boards[i + 1])
  }

  /** The invariant of a run. */
  ghost predicate Bounded(b: Board, name: CardKey -> CardId, fallback: nat, used: set<CardKey>) {
    && Sound(b, name, used)
    && Distinguishable(TagsOf(Listing(b))) && Anchored(TagsOf(Listing(b)))
    && WithinBudget(Listing(b), fallback)
  }

  lemma SameLabels(b: Board, b': Board)
    requires Valid(b) && WorkerChange(b, b')
    ensures Valid(b') && |Listing(b')| == |Listing(b)|
    ensures forall i :: 0 <= i < |b.order| ==>
      && Listing(b')[i].id == Listing(b)[i].id && Listing(b')[i].labels == Listing(b)[i].labels
      && Listing(b')[i].metadata.maxRetries == Listing(b)[i].metadata.maxRetries
    ensures TagsOf(Listing(b')) == TagsOf(Listing(b))
  {
    forall i | 0 <= i < |b.order| ensures b.order[i] in b.cards {
      ListingAt(b, i);
      assert b.order[i] in b.order;
    }
  }

  lemma SameLabelsSameStructure(xs: seq<Card>, ys: seq<Card>)
    requires |xs| == |ys|
    requires forall i :: 0 <= i < |xs| ==> ys[i].id == xs[i].id && ys[i].labels == xs[i].labels
    requires StageAnchored(xs) && RepairsLabelled(xs)
    ensures StageAnchored(ys) && RepairsLabelled(ys)
  {
    forall j | 0 <= j < |ys| ensures StageAnchoredAt(ys, j) {
      assert StageAnchoredAt(xs, j);
      if RetryFor(xs[j]).Some? {
        var i :| 0 <= i < j && RetryFor(xs[j]).value == LabelId(xs[i].id) && CardStage(xs[j]) == CardStage(xs[i]);
        assert ys[i].labels == xs[i].labels;
      }
    }
  }

  lemma SameCounts(b: Board, b': Board, id: CardId)
    requires Valid(b) && WorkerChange(b, b')
    ensures Valid(b') && |RetriesOf(Listing(b'), id)| == |RetriesOf(Listing(b), id)|
    ensures |RecoveriesOf(Listing(b'), id)| == |RecoveriesOf(Listing(b), id)|
  {
    SameLabels(b, b');
    CountsByLabels(Listing(b), Listing(b'), id);
  }

  lemma CountsUnchanged(b: Board, b': Board)
    requires Valid(b) && WorkerChange(b, b') && KeysCounted(b)
    ensures Valid(b') && KeysCounted(b')
  {
    SameLabels(b, b');
    forall source, n: nat | RetryKey(source, n) in b'.keys ensures n <= |RetriesOf(Listing(b'), source)| {
      SameCounts(b, b', source);
    }
    forall failed, n: nat | RecoveryKey(failed, n) in b'.keys ensures n <= |RecoveriesOf(Listing(b'), failed)| {
      SameCounts(b, b', failed);
    }
  }

  lemma SameBudget(xs: seq<Card>, ys: seq<Card>, fallback: nat, j: nat)
    requires Distinguishable(TagsOf(xs)) && Anchored(TagsOf(xs)) && TagsOf(ys) == TagsOf(xs) && j < |xs|
    requires ys[j].id == xs[j].id && ys[j].labels == xs[j].labels
    requires ys[j].metadata.maxRetries == xs[j].metadata.maxRetries
    requires |RetriesOf(ys, xs[j].id)| == |RetriesOf(xs, xs[j].id)| && HasBudget(xs, fallback, j)
    ensures HasBudget(ys, fallback, j)
  {
  }

  lemma WorkKeepsHasBudget(b: Board, b': Board, fallback: nat, j: nat)
    requires Valid(b) && Valid(b') && WorkerChange(b, b') && j < |b.order|
    requires Distinguishable(TagsOf(Listing(b))) && Anchored(TagsOf(Listing(b)))
    requires TagsOf(Listing(b')) == TagsOf(Listing(b)) && HasBudget(Listing(b), fallback, j)
    ensures HasBudget(Listing(b'), fallback, j)
  {
    hide HasBudget;
    hide Distinguishable;
    hide Anchored;
    SameLabels(b, b');
    SameCounts(b, b', Listing(b)[j].id);
    SameBudget(Listing(b), Listing(b'), fallback, j);
  }

  lemma WorkKeepsNamed(b: Board, b': Board, name: CardKey -> CardId, used: set<CardKey>)
    requires Named(b, name, used) && WorkerChange(b, b')
    ensures Named(b', name, used)
  {
    SameLabels(b, b');
    forall id | id in b'.cards ensures exists k :: k in b'.keys && b'.keys[k] == id {
      assert id in b.cards;
    }
  }

  lemma WorkKeepsBounded(b: Board, b': Board, name: CardKey -> CardId, fallback: nat, used: set<CardKey>)
    requires Bounded(b, name, fallback, used) && WorkerChange(b, b')
    ensures Bounded(b', name, fallback, used)
  {
    SameLabels(b, b');
    SameLabelsSameStructure(Listing(b), Listing(b'));
    CountsUnchanged(b, b');
    WorkKeepsNamed(b, b', name, used);
    forall j: nat | j < |b'.order| ensures HasBudget(Listing(b'), fallback, j) {
      assert HasBudget(Listing(b), fallback, j);
      WorkKeepsHasBudget(b, b', fallback, j);
    }
  }

  lemma PlainCardReads(spec: CardSpec, id: CardId)
    requires IsPlainSpec(spec)
    ensures RetryFor(NewCard(spec, id)).None? && RepairToken(NewCard(spec, id)).None?
  {
  }

  /** A plain card leaves all counts as they are. */
  lemma PlainCounts(cards: seq<Card>, card: Card, id: CardId)
    requires RetryFor(card).None?
    ensures |RetriesOf(cards + [card], id)| == |RetriesOf(cards, id)|
    ensures |RecoveriesOf(cards + [card], id)| >= |RecoveriesOf(cards, id)|
  {
    assert (cards + [card])[..|cards|] == cards;
  }

  lemma PlainKeysCounted(b: Board, b': Board, spec: CardSpec, id: CardId)
    requires Valid(b) && KeysCounted(b) && IsPlainSpec(spec)
    requires Valid(b') && b'.keys.Keys == b.keys.Keys + {spec.key} && Listing(b') == Listing(b) + [NewCard(spec, id)]
    ensures KeysCounted(b')
  {
    PlainCardReads(spec, id);
    forall source, n: nat | RetryKey(source, n) in b'.keys ensures n <= |RetriesOf(Listing(b'), source)| {
      PlainCounts(Listing(b), NewCard(spec, id), source);
    }
    forall failed, n: nat | RecoveryKey(failed, n) in b'.keys ensures n <= |RecoveriesOf(Listing(b'), failed)| {
      PlainCounts(Listing(b), NewCard(spec, id), failed);
    }
  }

  lemma PlainStructure(cards: seq<Card>, card: Card)
    requires StageAnchored(cards) && RepairsLabelled(cards) && RetryFor(card).None? && RepairToken(card).None?
    ensures StageAnchored(cards + [card]) && RepairsLabelled(cards + [card])
  {
    var rows := cards + [card];
    forall j | 0 <= j < |rows| ensures StageAnchoredAt(rows, j) {
      if j < |cards| {
        assert StageAnchoredAt(cards, j);
        if RetryFor(cards[j]).Some? {
          var i :| 0 <= i < j && RetryFor(cards[j]).value == LabelId(cards[i].id)
                   && CardStage(cards[j]) == CardStage(cards[i]);
          assert rows[i] == cards[i];
        }
      }
    }
  }

  lemma EnqueueKeepsSound(b: Board, spec: CardSpec, name: CardKey -> CardId, used: set<CardKey>)
    requires Sound(b, name, used) && IsPlainSpec(spec) && spec.key in used && spec.key !in b.keys
    ensures Sound(Create(b, spec, name(spec.key)), name, used)
    ensures Listing(Create(b, spec, name(spec.key))) == Listing(b) + [NewCard(spec, name(spec.key))]
  {
    hide IsPlainSpec;
    hide NewCard;
    hide Listing;
    CreateKeepsNamed(b, name, used, spec);
    PlainCardReads(spec, name(spec.key));
    PlainStructure(Listing(b), NewCard(spec, name(spec.key)));
    PlainKeysCounted(b, Create(b, spec, name(spec.key)), spec, name(spec.key));
  }

  lemma PlainHasBudget(cards: seq<Card>, card: Card, fallback: nat, j: nat)
    requires Distinguishable(TagsOf(cards)) && Anchored(TagsOf(cards)) && WithinBudget(cards, fallback)
    requires Distinguishable(TagsOf(cards + [card])) && Anchored(TagsOf(cards + [card]))
    requires RetryFor(card).None? && j <= |cards|
    ensures HasBudget(cards + [card], fallback, j)
  {
    var rows := cards + [card];
    assert TagsOf(rows) == TagsOf(cards) + [TagOf(card)];
    if j < |cards| {
      assert HasBudget(cards, fallback, j);
      PlainCounts(cards, card, cards[j].id);
      LevelOfPrefix(TagsOf(cards), [TagOf(card)], j);
    } else {
      var tags := TagsOf(rows);
      assert forall n :: 0 <= n < |tags| ==> tags[n].id == rows[n].id && tags[n].token == RetryFor(rows[n]);
      forall m | 0 <= m < |rows| ensures !IsRetryFor(rows[m], rows[j].id) {
        if IsRetryFor(rows[m], rows[j].id) {
          NamesOneEarlier(tags, m, j, j);
        }
      }
      NoRetries(rows, rows[j].id);
    }
  }

  /** Enqueuing a card of a further workflow, or a discovered QA card, keeps every budget. */
  lemma EnqueueKeepsBounded(b: Board, spec: CardSpec, name: CardKey -> CardId, fallback: nat, used: set<CardKey>)
    requires Bounded(b, name, fallback, used) && IsPlainSpec(spec) && spec.key in used
    ensures Bounded(Create(b, spec, name(spec.key)), name, fallback, used)
  {
    hide IsPlainSpec;
    hide NewCard;
    hide HasBudget;
    var b' := Create(b, spec, name(spec.key));
    if spec.key !in b.keys {
      EnqueueKeepsSound(b, spec, name, used);
      SoundTags(b', name, used);
      PlainCardReads(spec, name(spec.key));
      forall j | 0 <= j < |Listing(b')| ensures HasBudget(Listing(b'), fallback, j) {
        PlainHasBudget(Listing(b), NewCard(spec, name(spec.key)), fallback, j);
      }
    }
  }

  /** Over every run, every guarded card stays within its budget. */
  lemma {:induction false} RunStaysBounded(name: CardKey -> CardId, fallback: nat, used: set<CardKey>,
                                           boards: seq<Board>, events: seq<Event>, n: nat)
    requires Run(name, fallback, used, boards, events) && Bounded(boards[0], name, fallback, used)
    requires n < |boards|
    ensures Bounded(boards[n], name, fallback, used)
  {
    if n > 0 {
      RunStaysBounded(name, fallback, used, boards, events, n - 1);
      assert Step(name, fallback, used, boards[n - 1], events[n - 1], boards[n]);
      match events[n - 1]
      case Worked(after) => WorkKeepsBounded(boards[n - 1], boards[n], name, fallback, used);
      case Reconciled(env) => PassKeepsBudget(env, boards[n - 1], used);
      case Enqueued(spec) => EnqueueKeepsBounded(boards[n - 1], spec, name, fallback, used);
    }
  }

  /** A sound board without retries is within every budget. */
  lemma FreshBoardIsBounded(b: Board, name: CardKey -> CardId, fallback: nat, used: set<CardKey>)
    requires Sound(b, name, used) && forall j :: 0 <= j < |b.order| ==> RetryFor(Listing(b)[j]).None?
    ensures Bounded(b, name, fallback, used)
  {
    SoundTags(b, name, used);
    forall j | 0 <= j < |b.order| ensures HasBudget(Listing(b), fallback, j) {
      NoRetries(Listing(b), Listing(b)[j].id);
    }
  }
}
