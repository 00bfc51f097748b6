/**
 Folding a pass over the board: existing rows only change by the operations that name them, and
 the new rows are exactly the cards of the new keys, in the order of their creation.
 */
module BoardFold {
  import opened Wrappers
  import opened Cards
  import opened CardBoard
  import opened RetryChain
  import opened Reconcile

  function Effect(card: Card, op: Op): (r: Card)
    ensures r.id == card.id && r.labels == card.labels
    ensures r.metadata.maxRetries == card.metadata.maxRetries
  {
    match op
    case CompleteOp(id, proof) => if id == card.id then Completed(card, proof) else card
    case ReclaimOp(id, status) => if id == card.id then Reclaimed(card, status) else card
    case ReassignOp(id, agent) => if id == card.id then Reassigned(card, agent, Ready, true) else card
    case CreateOp(_) => card
    case CreateReadyOp(_) => card
  }

  function EffectAll(card: Card, ops: seq<Op>): (r: Card)
    ensures r.id == card.id && r.labels == card.labels
    ensures r.metadata.maxRetries == card.metadata.maxRetries
  {
    if ops == [] then card else Effect(EffectAll(card, ops[..|ops| - 1]), ops[|ops| - 1])
  }

  function Effects(cards: seq<Card>, ops: seq<Op>): seq<Card> {
    seq(|cards|, i requires 0 <= i < |cards| => EffectAll(cards[i], ops))
  }

  predicate IsCreate(op: Op) {
    op.CreateOp? || op.CreateReadyOp?
  }

  function SpecKeys(specs: seq<CardSpec>): set<CardKey> {
    set s | s in specs :: s.key
  }

  /** The specifications that become rows: the first of each key that is not known. */
  function NewSpecs(ops: seq<Op>, known: set<CardKey>): seq<CardSpec> {
    if ops == [] then []
    else
      var earlier := NewSpecs(ops[..|ops| - 1], known);
      var op := ops[|ops| - 1];
      if IsCreate(op) && op.spec.key !in known + SpecKeys(earlier) then earlier + [op.spec] else earlier
  }

  function NewCards(specs: seq<CardSpec>, name: CardKey -> CardId): seq<Card> {
    seq(|specs|, i requires 0 <= i < |specs| => NewCard(specs[i], name(specs[i].key)))
  }

  /** No id chosen for a key in `used` can be mistaken for another, even truncated in a label. */
  ghost predicate PrefixFree(name: CardKey -> CardId, used: set<CardKey>) {
    forall k, k' :: k in used && k' in used && k != k' ==> !(LabelId(name(k)) <= name(k'))
  }

  ghost predicate Injective(name: CardKey -> CardId, used: set<CardKey>) {
    forall k, k' :: k in used && k' in used && name(k) == name(k') ==> k == k'
  }

  lemma PrefixFreeIsInjective(name: CardKey -> CardId, used: set<CardKey>)
    requires PrefixFree(name, used)
    ensures Injective(name, used)
  {
    forall k, k' | k in used && k' in used && name(k) == name(k') ensures k == k' {
      assert LabelId(name(k)) <= name(k');
    }
  }

  /** Every row was created under a key of `used`, with the id chosen for that key. */
  ghost predicate Named(b: Board, name: CardKey -> CardId, used: set<CardKey>) {
    && Valid(b)
    && Injective(name, used)
    && (forall k :: k in b.keys ==> k in used && b.keys[k] == name(k))
    && (forall id :: id in b.cards ==> exists k :: k in b.keys && b.keys[k] == id)
  }

  /** The operations only touch rows of `b`, and READY creations only use new keys. */
  ghost predicate Applicable(b: Board, ops: seq<Op>, used: set<CardKey>) {
    forall k :: 0 <= k < |ops| ==>
      match ops[k]
      case CompleteOp(id, _) => id in b.cards
      case ReclaimOp(id, _) => id in b.cards
      case ReassignOp(id, _) => id in b.cards
      case CreateOp(spec) => spec.key in used
      case CreateReadyOp(spec) => spec.key in used && spec.key !in b.keys && spec.status == Ready
  }

  /** The board after the fold, row by row. */
  ghost predicate Folded(b: Board, b': Board, ops: seq<Op>, name: CardKey -> CardId, used: set<CardKey>)
    requires Valid(b)
  {
    var specs := NewSpecs(ops, b.keys.Keys);
    && Named(b', name, used)
    && b'.keys.Keys == b.keys.Keys + SpecKeys(specs)
    && Listing(b') == Effects(Listing(b), ops) + NewCards(specs, name)
  }

  lemma FreshId(b: Board, name: CardKey -> CardId, used: set<CardKey>, key: CardKey)
    requires Named(b, name, used) && key in used && key !in b.keys
    ensures name(key) !in b.cards
  {
  }

  lemma CreateKeepsNamed(b: Board, name: CardKey -> CardId, used: set<CardKey>, spec: CardSpec)
    requires Named(b, name, used) && spec.key in used && spec.key !in b.keys
    ensures var b' := Create(b, spec, name(spec.key));
            Named(b', name, used) && Listing(b') == Listing(b) + [NewCard(spec, name(spec.key))]
  {
    hide NewCard;
    hide Listing;
    FreshId(b, name, used, spec.key);
    CreateKeepsValid(b, spec, name(spec.key));
    var b' := Create(b, spec, name(spec.key));
    forall id | id in b'.cards ensures exists k :: k in b'.keys && b'.keys[k] == id {
      if id == name(spec.key) {
        assert b'.keys[spec.key] == id;
      } else {
        var k :| k in b.keys && b.keys[k] == id;
        assert k in b'.keys && b'.keys[k] == id;
      }
    }
  }

  lemma PutKeepsNamed(b: Board, name: CardKey -> CardId, used: set<CardKey>, card: Card)
    requires Named(b, name, used) && card.id in b.cards
    ensures Named(Put(b, card), name, used)
  {
    PutKeepsValid(b, card);
  }

  lemma EffectsNext(cards: seq<Card>, ops: seq<Op>, op: Op)
    ensures Effects(cards, ops + [op])
         == seq(|cards|, i requires 0 <= i < |cards| => Effect(EffectAll(cards[i], ops), op))
  {
    assert (ops + [op])[..|ops|] == ops;
  }

  lemma SpecsNext(ops: seq<Op>, op: Op, known: set<CardKey>)
    ensures NewSpecs(ops + [op], known)
         == if IsCreate(op) && op.spec.key !in known + SpecKeys(NewSpecs(ops, known))
            then NewSpecs(ops, known) + [op.spec] else NewSpecs(ops, known)
  {
    assert (ops + [op])[..|ops|] == ops;
  }

  lemma {:induction false} SpecsAreNew(ops: seq<Op>, known: set<CardKey>)
    ensures forall s :: s in NewSpecs(ops, known) ==> s.key !in known
  {
    if ops != [] {
      SpecsAreNew(ops[..|ops| - 1], known);
    }
  }

  /** An old row of a folded board. */
  lemma OldRow(b: Board, m: Board, ops: seq<Op>, name: CardKey -> CardId, used: set<CardKey>, i: nat)
    requires Named(b, name, used) && Folded(b, m, ops, name, used) && i < |b.order|
    ensures i < |m.order| && m.order[i] == b.order[i]
    ensures Listing(m)[i] == EffectAll(Listing(b)[i], ops)
  {
    var specs := NewSpecs(ops, b.keys.Keys);
    assert Listing(m)[i] == (Effects(Listing(b), ops) + NewCards(specs, name))[i];
    ListingAt(m, i);
    ListingAt(b, i);
  }

  /** A new row of a folded board. */
  lemma NewRow(b: Board, m: Board, ops: seq<Op>, name: CardKey -> CardId, used: set<CardKey>, j: nat)
    requires Named(b, name, used) && Folded(b, m, ops, name, used) && j < |NewSpecs(ops, b.keys.Keys)|
    ensures var spec := NewSpecs(ops, b.keys.Keys)[j];
            && |b.order| + j < |m.order|
            && Listing(m)[|b.order| + j] == NewCard(spec, name(spec.key))
            && m.order[|b.order| + j] == name(spec.key)
            && spec.key in m.keys && name(spec.key) !in b.cards
  {
    var specs := NewSpecs(ops, b.keys.Keys);
    SpecsAreNew(ops, b.keys.Keys);
    assert specs[j] in specs;
    assert specs[j].key in SpecKeys(specs);
    FreshId(b, name, used, specs[j].key);
    assert Listing(m)[|b.order| + j] == (Effects(Listing(b), ops) + NewCards(specs, name))[|b.order| + j];
    ListingAt(m, |b.order| + j);
  }

  /** An update of an existing row, folded onto the rows known so far. */
  lemma UpdateFolds(b: Board, m: Board, ops: seq<Op>, op: Op, name: CardKey -> CardId, used: set<CardKey>)
    requires Named(b, name, used) && Folded(b, m, ops, name, used)
    requires !IsCreate(op) && op.id in b.cards && op.id in m.cards
    ensures Folded(b, Apply(m, op, name), ops + [op], name, used)
  {
    var changed := Effect(m.cards[op.id], op);
    assert Apply(m, op, name) == Put(m, changed);
    PutKeepsNamed(m, name, used, changed);
    SpecsNext(ops, op, b.keys.Keys);
    UpdateRows(b, m, ops, op, changed, name, used);
  }

  lemma UpdateRows(b: Board, m: Board, ops: seq<Op>, op: Op, changed: Card, name: CardKey -> CardId,
                   used: set<CardKey>)
    requires Named(b, name, used) && Folded(b, m, ops, name, used)
    requires !IsCreate(op) && op.id in b.cards && op.id in m.cards
    requires changed == Effect(m.cards[op.id], op)
    ensures Listing(Put(m, changed))
         == Effects(Listing(b), ops + [op]) + NewCards(NewSpecs(ops, b.keys.Keys), name)
  {
    hide Effect;
    hide NewCard;
    hide NewSpecs;
    var rows := Listing(Put(m, changed));
    var before, after := Effects(Listing(b), ops + [op]), NewCards(NewSpecs(ops, b.keys.Keys), name);
    assert |rows| == |before| + |after|;
    forall i | 0 <= i < |before| ensures rows[i] == before[i] {
      UpdateOldRow(b, m, ops, op, changed, name, used, i);
    }
    forall j | 0 <= j < |after| ensures rows[|before| + j] == after[j] {
      UpdateNewRow(b, m, ops, op, changed, name, used, j);
    }
    SplitRows(rows, before, after);
  }

  lemma SplitRows(rows: seq<Card>, xs: seq<Card>, ys: seq<Card>)
    requires |rows| == |xs| + |ys|
    requires forall i :: 0 <= i < |xs| ==> rows[i] == xs[i]
    requires forall j :: 0 <= j < |ys| ==> rows[|xs| + j] == ys[j]
    ensures rows == xs + ys
  {
    forall i | 0 <= i < |rows| ensures rows[i] == (xs + ys)[i] {
      if i >= |xs| {
        assert rows[|xs| + (i - |xs|)] == ys[i - |xs|];
      }
    }
  }

  lemma UpdateOldRow(b: Board, m: Board, ops: seq<Op>, op: Op, changed: Card, name: CardKey -> CardId,
                     used: set<CardKey>, i: nat)
    requires Named(b, name, used) && Folded(b, m, ops, name, used)
    requires !IsCreate(op) && op.id in m.cards && i < |b.order|
    requires changed == Effect(m.cards[op.id], op)
    ensures i < |m.order| && Listing(Put(m, changed))[i] == Effects(Listing(b), ops + [op])[i]
  {
    OldRow(b, m, ops, name, used, i);
    ListingAt(m, i);
    ListingAt(b, i);
    EffectsNext(Listing(b), ops, op);
  }

  lemma UpdateNewRow(b: Board, m: Board, ops: seq<Op>, op: Op, changed: Card, name: CardKey -> CardId,
                     used: set<CardKey>, j: nat)
    requires Named(b, name, used) && Folded(b, m, ops, name, used)
    requires !IsCreate(op) && op.id in b.cards && op.id in m.cards && j < |NewSpecs(ops, b.keys.Keys)|
    requires changed == Effect(m.cards[op.id], op)
    ensures |b.order| + j < |m.order|
    ensures Listing(Put(m, changed))[|b.order| + j] == NewCards(NewSpecs(ops, b.keys.Keys), name)[j]
  {
    NewRow(b, m, ops, name, used, j);
    ListingAt(m, |b.order| + j);
  }

  /** Creating under a key that the pass has created already changes nothing. */
  lemma CreateKnownFolds(b: Board, m: Board, ops: seq<Op>, op: Op, name: CardKey -> CardId, used: set<CardKey>)
    requires Named(b, name, used) && Folded(b, m, ops, name, used)
    requires IsCreate(op) && op.spec.key in m.keys
    requires op.CreateReadyOp? ==> m.cards[m.keys[op.spec.key]].status == Ready
    ensures Folded(b, Apply(m, op, name), ops + [op], name, used)
  {
    assert Apply(m, op, name) == m;
    SpecsNext(ops, op, b.keys.Keys);
    EffectsNext(Listing(b), ops, op);
    assert Effects(Listing(b), ops + [op]) == Effects(Listing(b), ops);
  }

  lemma CreateNewFolds(b: Board, m: Board, ops: seq<Op>, op: Op, name: CardKey -> CardId, used: set<CardKey>)
    requires Named(b, name, used) && Folded(b, m, ops, name, used)
    requires IsCreate(op) && op.spec.key in used && op.spec.key !in m.keys
    requires op.CreateReadyOp? ==> op.spec.status == Ready
    ensures Folded(b, Apply(m, op, name), ops + [op], name, used)
  {
    hide NewSpecs;
    hide Effects;
    hide SpecKeys;
    CreateKeepsNamed(m, name, used, op.spec);
    CreateRows(Listing(b), Listing(m), ops, op, b.keys.Keys, name);
    SpecsNext(ops, op, b.keys.Keys);
    assert Apply(m, op, name) == Create(m, op.spec, name(op.spec.key));
  }

  lemma CreateRows(before: seq<Card>, rows: seq<Card>, ops: seq<Op>, op: Op, known: set<CardKey>,
                   name: CardKey -> CardId)
    requires IsCreate(op) && rows == Effects(before, ops) + NewCards(NewSpecs(ops, known), name)
    ensures var specs := NewSpecs(ops, known) + [op.spec];
            && rows + [NewCard(op.spec, name(op.spec.key))] == Effects(before, ops + [op]) + NewCards(specs, name)
            && SpecKeys(specs) == SpecKeys(NewSpecs(ops, known)) + {op.spec.key}
  {
    EffectsNext(before, ops, op);
    assert Effects(before, ops + [op]) == Effects(before, ops);
    var specs := NewSpecs(ops, known);
    assert NewCards(specs + [op.spec], name) == NewCards(specs, name) + [NewCard(op.spec, name(op.spec.key))];
  }

  /** Specifications of READY creations start READY, and stay so during the pass. */
  lemma KnownCreationIsReady(b: Board, m: Board, ops: seq<Op>, key: CardKey, name: CardKey -> CardId,
                             used: set<CardKey>)
    requires Named(b, name, used) && Folded(b, m, ops, name, used)
    requires key !in b.keys && key in m.keys
    requires forall s :: s in NewSpecs(ops, b.keys.Keys) ==> s.status == Ready
    ensures m.cards[m.keys[key]].status == Ready
  {
    var specs := NewSpecs(ops, b.keys.Keys);
    assert key in SpecKeys(specs);
    var j :| 0 <= j < |specs| && specs[j].key == key;
    NewRow(b, m, ops, name, used, j);
    ListingAt(m, |b.order| + j);
  }

  lemma {:induction false} SpecsAreReady(ops: seq<Op>, known: set<CardKey>)
    requires forall k :: 0 <= k < |ops| && IsCreate(ops[k]) ==> ops[k].spec.status == Ready
    ensures forall s :: s in NewSpecs(ops, known) ==> s.status == Ready
  {
    if ops != [] {
      SpecsAreReady(ops[..|ops| - 1], known);
    }
  }

  lemma NothingFolds(b: Board, name: CardKey -> CardId, used: set<CardKey>)
    requires Named(b, name, used)
    ensures Folded(b, ApplyAll(b, [], name), [], name, used)
  {
    assert Effects(Listing(b), []) == Listing(b);
  }

  /** A pass folds row by row: every old row is the effect of the operations that name it, and the new
      rows are the cards of the new keys. */
  lemma {:induction false} FoldIsPointwise(b: Board, ops: seq<Op>, name: CardKey -> CardId, used: set<CardKey>)
    requires Named(b, name, used) && Applicable(b, ops, used)
    requires forall k :: 0 <= k < |ops| && IsCreate(ops[k]) ==> ops[k].spec.status == Ready
    ensures Folded(b, ApplyAll(b, ops, name), ops, name, used)
  {
    hide Folded;
    hide Named;
    if ops == [] {
      NothingFolds(b, name, used);
    } else {
      var earlier, op := ops[..|ops| - 1], ops[|ops| - 1];
      FoldIsPointwise(b, earlier, name, used);
      var m := ApplyAll(b, earlier, name);
      assert earlier + [op] == ops;
      if IsCreate(op) {
        SpecsAreReady(earlier, b.keys.Keys);
        if op.CreateReadyOp? && op.spec.key in m.keys {
          KnownCreationIsReady(b, m, earlier, op.spec.key, name, used);
        }
        if op.spec.key in m.keys {
          CreateKnownFolds(b, m, earlier, op, name, used);
        } else {
          CreateNewFolds(b, m, earlier, op, name, used);
        }
      } else {
        RowStays(b, m, earlier, name, used, op.id);
        UpdateFolds(b, m, earlier, op, name, used);
      }
    }
  }

  lemma RowStays(b: Board, m: Board, ops: seq<Op>, name: CardKey -> CardId, used: set<CardKey>, id: CardId)
    requires Named(b, name, used) && Folded(b, m, ops, name, used) && id in b.cards
    ensures id in m.cards
  {
    var k :| k in b.keys && b.keys[k] == id;
    assert k in m.keys && m.keys[k] == name(k) == id;
  }
}
