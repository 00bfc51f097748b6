/** The board invariant that every reconcile pass keeps. */
module ReconcileInvariant {
  import opened Wrappers
  import opened Cards
  import opened CardBoard
  import opened RetryChain
  import opened Reconcile
  import opened ReconcileOps
  import opened BoardFold
  import opened RetryLabels

  ghost predicate StageAnchoredAt(cards: seq<Card>, j: nat)
    requires j < |cards|
  {
    RetryFor(cards[j]).Some? ==>
      exists i :: 0 <= i < j && RetryFor(cards[j]).value == LabelId(cards[i].id)
                  && CardStage(cards[j]) == CardStage(cards[i])
  }

  /** Every retry label was written for an earlier card of the same stage. */
  ghost predicate StageAnchored(cards: seq<Card>) {
    forall j :: 0 <= j < |cards| ==> StageAnchoredAt(cards, j)
  }

  /** Only repair cards carry a repair label. */
  ghost predicate RepairsLabelled(cards: seq<Card>) {
    forall j :: 0 <= j < |cards| && RepairToken(cards[j]).Some? ==> CardStage(cards[j]) == Some(Repair)
  }

  /** Attempt numbers in keys never run ahead of the cards that the reconciler counts. */
  ghost predicate KeysCounted(b: Board)
    requires Valid(b)
  {
    && (forall source, n: nat :: RetryKey(source, n) in b.keys ==> n <= |RetriesOf(Listing(b), source)|)
    && (forall failed, n: nat :: RecoveryKey(failed, n) in b.keys ==> n <= |RecoveriesOf(Listing(b), failed)|)
  }

  ghost predicate Sound(b: Board, name: CardKey -> CardId, used: set<CardKey>) {
    && PrefixFree(name, used)
    && Named(b, name, used)
    && StageAnchored(Listing(b))
    && RepairsLabelled(Listing(b))
    && KeysCounted(b)
  }

  /** `used` covers the keys that the pass creates. */
  ghost predicate Covers(used: set<CardKey>, ops: seq<Op>) {
    forall k :: 0 <= k < |ops| && IsCreate(ops[k]) ==> ops[k].spec.key in used
  }

  // ---------------------------------------------------------------- counting

  lemma {:induction false} RetriesConcat(xs: seq<Card>, ys: seq<Card>, source: CardId)
    ensures RetriesOf(xs + ys, source) == RetriesOf(xs, source) + RetriesOf(ys, source)
    decreases |ys|
  {
    if ys == [] {
      assert xs + ys == xs;
    } else {
      RetriesConcat(xs, ys[..|ys| - 1], source);
      assert (xs + ys)[..|xs + ys| - 1] == xs + ys[..|ys| - 1];
    }
  }

  lemma {:induction false} RecoveriesConcat(xs: seq<Card>, ys: seq<Card>, failed: CardId)
    ensures RecoveriesOf(xs + ys, failed) == RecoveriesOf(xs, failed) + RecoveriesOf(ys, failed)
    decreases |ys|
  {
    if ys == [] {
      assert xs + ys == xs;
    } else {
      RecoveriesConcat(xs, ys[..|ys| - 1], failed);
      assert (xs + ys)[..|xs + ys| - 1] == xs + ys[..|ys| - 1];
    }
  }

  /** Counts only depend on labels. */
  lemma {:induction false} CountsByLabels(xs: seq<Card>, ys: seq<Card>, id: CardId)
    requires |xs| == |ys| && forall i :: 0 <= i < |xs| ==> xs[i].labels == ys[i].labels
    ensures |RetriesOf(xs, id)| == |RetriesOf(ys, id)|
    ensures |RecoveriesOf(xs, id)| == |RecoveriesOf(ys, id)|
  {
    if xs != [] {
      CountsByLabels(xs[..|xs| - 1], ys[..|ys| - 1], id);
    }
  }

  lemma {:induction false} RetryCounts(cards: seq<Card>, j: nat, source: CardId)
    requires j < |cards| && IsRetryFor(cards[j], source)
    ensures |RetriesOf(cards, source)| >= 1
  {
    if j < |cards| - 1 {
      RetryCounts(cards[..|cards| - 1], j, source);
    }
  }

  lemma {:induction false} RecoveryCounts(cards: seq<Card>, j: nat, failed: CardId)
    requires j < |cards| && IsRecoveryFor(cards[j], failed)
    ensures |RecoveriesOf(cards, failed)| >= 1
  {
    if j < |cards| - 1 {
      RecoveryCounts(cards[..|cards| - 1], j, failed);
    }
  }

  // ---------------------------------------------------------------- a pass from a sound board

  /** Where a new row comes from. */
  ghost predicate FromPass(env: Env, cards: seq<Card>, spec: CardSpec) {
    || (exists i :: 0 <= i < |cards| && spec == RecoverySpec(env, cards[i], cards))
    || (exists i :: 0 <= i < |cards| && CardStage(cards[i]).Some? && spec == RetrySpec(env, cards[i], cards))
    || (exists i :: 0 <= i < |cards| && spec == RepairSpec(env, cards[i]))
  }

  lemma {:induction false} SpecsFromOps(ops: seq<Op>, known: set<CardKey>)
    ensures forall s :: s in NewSpecs(ops, known) ==>
      exists k :: 0 <= k < |ops| && IsCreate(ops[k]) && ops[k].spec == s
    ensures forall i, j :: 0 <= i < j < |NewSpecs(ops, known)| ==>
      NewSpecs(ops, known)[i].key != NewSpecs(ops, known)[j].key
  {
    if ops != [] {
      var earlier, op := ops[..|ops| - 1], ops[|ops| - 1];
      SpecsFromOps(earlier, known);
      forall s | s in NewSpecs(ops, known)
        ensures exists k :: 0 <= k < |ops| && IsCreate(ops[k]) && ops[k].spec == s
      {
        if s in NewSpecs(earlier, known) {
          var k :| 0 <= k < |earlier| && IsCreate(earlier[k]) && earlier[k].spec == s;
          assert ops[k] == earlier[k];
        } else {
          assert ops[|ops| - 1] == op;
        }
      }
    }
  }

  lemma NewKeysAreFresh(env: Env, b: Board, used: set<CardKey>, spec: CardSpec)
    requires Sound(b, env.name, used)
    requires (exists i :: 0 <= i < |b.order| && spec == RecoverySpec(env, Listing(b)[i], Listing(b)))
      || exists i :: 0 <= i < |b.order| && CardStage(Listing(b)[i]).Some?
                     && spec == RetrySpec(env, Listing(b)[i], Listing(b))
    ensures spec.key !in b.keys && spec.status == Ready
  {
  }

  /** An operation of a pass names a row of the board, or creates a READY card of a new kind. */
  ghost predicate Fits(env: Env, b: Board, op: Op)
    requires Valid(b)
  {
    if IsCreate(op) then
      && op.spec.status == Ready
      && FromPass(env, Listing(b), op.spec)
      && (op.CreateReadyOp? ==> op.spec.key !in b.keys)
    else op.id in b.cards
  }

  lemma JustifiedFits(env: Env, b: Board, used: set<CardKey>, op: Op)
    requires Sound(b, env.name, used) && Justified(env, Listing(b), op)
    ensures Fits(env, b, op)
  {
    if op.CreateReadyOp? {
      NewKeysAreFresh(env, b, used, op.spec);
    } else if !op.CreateOp? {
      var i :| 0 <= i < |b.order| && Listing(b)[i].id == op.id;
      ListingAt(b, i);
      assert b.order[i] in b.order;
    }
  }

  lemma PassIsApplicable(env: Env, b: Board, used: set<CardKey>)
    requires Sound(b, env.name, used) && Covers(used, PassOps(env, Listing(b)))
    ensures Applicable(b, PassOps(env, Listing(b)), used)
    ensures forall k :: 0 <= k < |PassOps(env, Listing(b))| ==> Fits(env, b, PassOps(env, Listing(b))[k])
  {
    var ops := PassOps(env, Listing(b));
    PassIsJustified(env, Listing(b));
    AllFit(env, b, used, ops);
  }

  lemma AllFit(env: Env, b: Board, used: set<CardKey>, ops: seq<Op>)
    requires Sound(b, env.name, used) && Covers(used, ops) && AllJustified(env, Listing(b), ops)
    ensures Applicable(b, ops, used)
    ensures forall k :: 0 <= k < |ops| ==> Fits(env, b, ops[k])
  {
    forall k | 0 <= k < |ops| ensures Fits(env, b, ops[k]) {
      JustifiedFits(env, b, used, ops[k]);
    }
    FitIsApplicable(env, b, used, ops);
  }

  lemma FitIsApplicable(env: Env, b: Board, used: set<CardKey>, ops: seq<Op>)
    requires Valid(b) && Covers(used, ops) && forall k :: 0 <= k < |ops| ==> Fits(env, b, ops[k])
    ensures Applicable(b, ops, used)
  {
  }

  /** The board after a pass: old rows with the effects of the pass, then the new rows. */
  lemma PassIsFold(env: Env, b: Board, used: set<CardKey>)
    requires Sound(b, env.name, used) && Covers(used, PassOps(env, Listing(b)))
    ensures Folded(b, Pass(env, b), PassOps(env, Listing(b)), env.name, used)
    ensures forall s :: s in NewSpecs(PassOps(env, Listing(b)), b.keys.Keys) ==> FromPass(env, Listing(b), s)
  {
    PassIsApplicable(env, b, used);
    FoldIsPointwise(b, PassOps(env, Listing(b)), env.name, used);
    SpecsFromOps(PassOps(env, Listing(b)), b.keys.Keys);
  }

  /** The labels of `card` are those of a retry of `source`. */
  ghost predicate IsRetryRow(card: Card, source: Card) {
    && RetryFor(card) == Some(LabelId(source.id))
    && CardStage(card) == CardStage(source)
    && (RepairToken(card).Some? ==> RepairToken(source).Some?)
  }

  /** What the labels of a new row say. */
  lemma NewRowReads(env: Env, cards: seq<Card>, spec: CardSpec, id: CardId)
    requires FromPass(env, cards, spec)
    ensures var card := NewCard(spec, id);
            && (RetryFor(card).Some? ==>
                  exists i :: 0 <= i < |cards| && CardStage(cards[i]).Some?
                              && spec == RetrySpec(env, cards[i], cards) && IsRetryRow(card, cards[i]))
            && (RetryFor(card).None? && RepairToken(card).Some? ==> CardStage(card) == Some(Repair))
            && (spec.key.RetryKey? ==> IsRetryFor(card, spec.key.source))
            && (spec.key.RecoveryKey? ==> IsRecoveryFor(card, spec.key.failed))
  {
    var card := NewCard(spec, id);
    if i :| 0 <= i < |cards| && CardStage(cards[i]).Some? && spec == RetrySpec(env, cards[i], cards) {
      RetryTokenOfRetry(cards[i].labels, cards[i].id);
      RepairTokenOfRetry(cards[i].labels, cards[i].id);
      StageSurvives(cards[i].labels, RetryLabel(cards[i].id));
      assert IsRetryRow(card, cards[i]);
    } else if i :| 0 <= i < |cards| && spec == RecoverySpec(env, cards[i], cards) {
      RecoveryLabelsRead(env, cards[i], cards);
    } else {
      var i :| 0 <= i < |cards| && spec == RepairSpec(env, cards[i]);
      RepairLabelsRead(env, cards[i]);
    }
  }

  /** Old rows keep their labels, and new rows point at old ones of the same stage. */
  lemma AnchoredAfter(env: Env, cards: seq<Card>, ops: seq<Op>, specs: seq<CardSpec>)
    requires StageAnchored(cards) && RepairsLabelled(cards)
    requires forall s :: s in specs ==> FromPass(env, cards, s)
    ensures StageAnchored(Effects(cards, ops) + NewCards(specs, env.name))
    ensures RepairsLabelled(Effects(cards, ops) + NewCards(specs, env.name))
  {
    var rows := Effects(cards, ops) + NewCards(specs, env.name);
    forall j | 0 <= j < |rows|
      ensures StageAnchoredAt(rows, j)
      ensures RepairToken(rows[j]).Some? ==> CardStage(rows[j]) == Some(Repair)
    {
      if j < |cards| {
        OldRowAnchored(env, cards, ops, specs, j);
      } else {
        NewRowAnchored(env, cards, ops, specs, j - |cards|);
      }
    }
  }

  lemma OldRowAnchored(env: Env, cards: seq<Card>, ops: seq<Op>, specs: seq<CardSpec>, j: nat)
    requires StageAnchored(cards) && RepairsLabelled(cards) && j < |cards|
    ensures var rows := Effects(cards, ops) + NewCards(specs, env.name);
            && StageAnchoredAt(rows, j)
            && (RepairToken(rows[j]).Some? ==> CardStage(rows[j]) == Some(Repair))
  {
    var rows := Effects(cards, ops) + NewCards(specs, env.name);
    assert rows[j].labels == cards[j].labels;
    assert StageAnchoredAt(cards, j);
    if RetryFor(cards[j]).Some? {
      var i :| 0 <= i < j && RetryFor(cards[j]).value == LabelId(cards[i].id)
               && CardStage(cards[j]) == CardStage(cards[i]);
      assert rows[i].labels == cards[i].labels && rows[i].id == cards[i].id;
    }
  }

  lemma NewRowAnchored(env: Env, cards: seq<Card>, ops: seq<Op>, specs: seq<CardSpec>, n: nat)
    requires RepairsLabelled(cards) && n < |specs| && FromPass(env, cards, specs[n])
    ensures var rows := Effects(cards, ops) + NewCards(specs, env.name);
            var j := |cards| + n;
            && StageAnchoredAt(rows, j)
            && (RepairToken(rows[j]).Some? ==> CardStage(rows[j]) == Some(Repair))
  {
    hide RetrySpec;
    hide StageOfLabels;
    hide RetryToken;
    hide FirstValueOf;
    var rows := Effects(cards, ops) + NewCards(specs, env.name);
    var j := |cards| + n;
    assert rows[j] == NewCard(specs[n], env.name(specs[n].key));
    NewRowReads(env, cards, specs[n], env.name(specs[n].key));
    if RetryFor(rows[j]).Some? {
      var i :| 0 <= i < |cards| && CardStage(cards[i]).Some?
               && specs[n] == RetrySpec(env, cards[i], cards) && IsRetryRow(rows[j], cards[i]);
      assert rows[i].labels == cards[i].labels && rows[i].id == cards[i].id;
    }
  }

  /** Counting retries of one card after a pass. */
  lemma CountAfter(cards: seq<Card>, ops: seq<Op>, news: seq<Card>, id: CardId)
    ensures |RetriesOf(Effects(cards, ops) + news, id)| == |RetriesOf(cards, id)| + |RetriesOf(news, id)|
    ensures |RecoveriesOf(Effects(cards, ops) + news, id)| == |RecoveriesOf(cards, id)| + |RecoveriesOf(news, id)|
  {
    RetriesConcat(Effects(cards, ops), news, id);
    RecoveriesConcat(Effects(cards, ops), news, id);
    CountsByLabels(Effects(cards, ops), cards, id);
  }

  lemma NewKeyCounted(env: Env, cards: seq<Card>, ops: seq<Op>, specs: seq<CardSpec>, n: nat)
    requires n < |specs| && FromPass(env, cards, specs[n])
    ensures var rows := Effects(cards, ops) + NewCards(specs, env.name);
            match specs[n].key
            case RetryKey(source, k) => k <= |RetriesOf(rows, source)|
            case RecoveryKey(failed, k) => k <= |RecoveriesOf(rows, failed)|
            case _ => true
  {
    var news := NewCards(specs, env.name);
    assert news[n] == NewCard(specs[n], env.name(specs[n].key));
    NewRowReads(env, cards, specs[n], env.name(specs[n].key));
    match specs[n].key
    case RetryKey(source, k) =>
      CountAfter(cards, ops, news, source);
      RetryCounts(news, n, source);
    case RecoveryKey(failed, k) =>
      CountAfter(cards, ops, news, failed);
      RecoveryCounts(news, n, failed);
    case _ =>
  }

  lemma OldKeyCounted(env: Env, b: Board, ops: seq<Op>, specs: seq<CardSpec>, key: CardKey)
    requires Valid(b) && KeysCounted(b) && key in b.keys
    ensures var rows := Effects(Listing(b), ops) + NewCards(specs, env.name);
            match key
            case RetryKey(source, k) => k <= |RetriesOf(rows, source)|
            case RecoveryKey(failed, k) => k <= |RecoveriesOf(rows, failed)|
            case _ => true
  {
    match key
    case RetryKey(source, k) => CountAfter(Listing(b), ops, NewCards(specs, env.name), source);
    case RecoveryKey(failed, k) => CountAfter(Listing(b), ops, NewCards(specs, env.name), failed);
    case _ =>
  }

  lemma KeysCountedAfter(env: Env, b: Board, b': Board, ops: seq<Op>, used: set<CardKey>)
    requires Valid(b) && KeysCounted(b) && Folded(b, b', ops, env.name, used)
    requires forall s :: s in NewSpecs(ops, b.keys.Keys) ==> FromPass(env, Listing(b), s)
    ensures KeysCounted(b')
  {
    hide RetriesOf;
    hide RecoveriesOf;
    hide FromPass;
    hide EffectAll;
    hide NewCard;
    var specs := NewSpecs(ops, b.keys.Keys);
    forall key | key in b'.keys
      ensures match key
              case RetryKey(source, k) => k <= |RetriesOf(Listing(b'), source)|
              case RecoveryKey(failed, k) => k <= |RecoveriesOf(Listing(b'), failed)|
              case _ => true
    {
      if key in b.keys {
        OldKeyCounted(env, b, ops, specs, key);
      } else {
        assert key in SpecKeys(specs);
        var n :| 0 <= n < |specs| && specs[n].key == key;
        assert specs[n] in specs;
        NewKeyCounted(env, Listing(b), ops, specs, n);
      }
    }
  }

  /** Every reconcile pass keeps the board invariant. */
  lemma PassKeepsSound(env: Env, b: Board, used: set<CardKey>)
    requires Sound(b, env.name, used) && Covers(used, PassOps(env, Listing(b)))
    ensures Sound(Pass(env, b), env.name, used)
  {
    var ops := PassOps(env, Listing(b));
    PassIsFold(env, b, used);
    KeysCountedAfter(env, b, Pass(env, b), ops, used);
    AnchoredAfter(env, Listing(b), ops, NewSpecs(ops, b.keys.Keys));
  }

  /** The retry structure of a sound board: labels name exactly one, earlier, card. */
  lemma SoundTags(b: Board, name: CardKey -> CardId, used: set<CardKey>)
    requires Sound(b, name, used)
    ensures Distinguishable(TagsOf(Listing(b))) && Anchored(TagsOf(Listing(b)))
  {
    var cards := Listing(b);
    var tags := TagsOf(cards);
    forall i, j | 0 <= i < |tags| && 0 <= j < |tags| && i != j
      ensures !(LabelId(tags[i].id) <= tags[j].id)
    {
      ListingAt(b, i);
      ListingAt(b, j);
      assert b.order[i] in b.order && b.order[j] in b.order;
      var k :| k in b.keys && b.keys[k] == b.order[i];
      var k' :| k' in b.keys && b.keys[k'] == b.order[j];
    }
    forall j | 0 <= j < |tags| ensures AnchoredAt(tags, j) {
      assert StageAnchoredAt(cards, j);
      if RetryFor(cards[j]).Some? {
        var i :| 0 <= i < j && RetryFor(cards[j]).value == LabelId(cards[i].id)
                 && CardStage(cards[j]) == CardStage(cards[i]);
        assert tags[i].id == cards[i].id;
      }
    }
  }

  // ---------------------------------------------------------------- fresh retries are recognised

  lemma {:induction false} WalkExtends(tags: seq<Tag>, more: seq<Tag>, t: Tag, n: nat)
    requires Walk(tags, t, n).Some?
    ensures Walk(tags + more, t, n) == Walk(tags, t, n)
    decreases n
  {
    if n > 0 {
      var p := Parent(tags, t).value;
      assert (tags + more)[p] == tags[p];
      assert forall k :: 0 <= k < p ==> (tags + more)[k] == tags[k];
      assert Parent(tags + more, t) == Some(p);
      WalkExtends(tags, more, tags[p], n - 1);
    }
  }

  /** The card that `_create_fresh_retry` appends for card `i`, for ids of any length, is recognised
      as its retry.  It resolves to its source exactly when no earlier id starts with the text kept
      in its label, and then it is a descendant of every ancestor of its source. */
  lemma FreshRetryIsRecognised(env: Env, cards: seq<Card>, i: nat, id: CardId)
    requires i < |cards| && CardStage(cards[i]).Some? && id !in Ids(TagsOf(cards))
    requires Consistent(TagsOf(cards), TagOf(cards[i]))
    ensures var retry := NewCard(RetrySpec(env, cards[i], cards), id);
            var tags := TagsOf(cards) + [TagOf(retry)];
            && IsRetryFor(retry, cards[i].id)
            && Descends(tags, TagOf(retry), cards[i].id)
            && (Parent(tags, TagOf(retry)) == Some(i)
                <==> forall k :: 0 <= k < i ==> !(LabelId(cards[i].id) <= cards[k].id))
            && (Parent(tags, TagOf(retry)) == Some(i) ==>
                  forall a :: Descends(TagsOf(cards), TagOf(cards[i]), a) ==> Descends(tags, TagOf(retry), a))
  {
    var retry := NewCard(RetrySpec(env, cards[i], cards), id);
    var before := TagsOf(cards);
    var t := TagOf(retry);
    var tags := before + [t];
    RetryTokenOfRetry(cards[i].labels, cards[i].id);
    assert t.token == Some(LabelId(cards[i].id));
    assert t in Chain(tags, t, {});
    assert forall k :: 0 <= k < |cards| ==> tags[k].id == cards[k].id;
    assert LabelId(cards[i].id) <= tags[i].id;
    if Parent(tags, t) == Some(i) {
      assert Consistent(tags, t) by {
        assert forall k :: 0 <= k < |before| ==> before[k] in before && before[k].id in Ids(before);
      }
      forall a | Descends(before, TagOf(cards[i]), a) ensures Descends(tags, t, a) {
        DescendsIsReachability(before, TagOf(cards[i]), a);
        var c :| Reaches(before, TagOf(cards[i]), c) && TokenNames(c.token, a);
        var n: nat :| Walk(before, TagOf(cards[i]), n) == Some(c);
        WalkExtends(before, [t], TagOf(cards[i]), n);
        assert tags[i] == TagOf(cards[i]);
        assert Walk(tags, t, n + 1) == Some(c);
        DescendsIsReachability(tags, t, a);
      }
    }
  }
}
