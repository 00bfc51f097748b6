/**
 The card table of one board, and what each adapter operation does to it.

 `order` is the row order, `keys` the unique index on the idempotency key.
 */
module CardBoard {
  import opened Wrappers
  import opened Cards

  datatype Board = Board(order: seq<CardId>, cards: map<CardId, Card>, keys: map<CardKey, CardId>)

  ghost predicate Valid(b: Board) {
    && (forall i, j :: 0 <= i < j < |b.order| ==> b.order[i] != b.order[j])
    && (forall id :: id in b.order <==> id in b.cards)
    && (forall id :: id in b.cards ==> b.cards[id].id == id)
    && (forall k :: k in b.keys ==> b.keys[k] in b.cards)
    && (forall k, k' :: k in b.keys && k' in b.keys && b.keys[k] == b.keys[k'] ==> k == k')
  }

  const EMPTY := Board([], map[], map[])

  /** `list_cards`: the rows in creation order. */
  function Listing(b: Board): (cards: seq<Card>)
    requires forall id :: id in b.order ==> id in b.cards
    ensures |cards| == |b.order|
  {
    seq(|b.order|, i requires 0 <= i < |b.order| && b.order[i] in b.cards => b.cards[b.order[i]])
  }

  const NO_METADATA := Metadata(
    [], [], None, 0, None, None, [], None, None, "", false, None, [], false, "")

  function NewCard(spec: CardSpec, id: CardId): Card {
    Card(id, spec.status, spec.labels, spec.agent,
         NO_METADATA.(parents := spec.parents, maxRetries := Some(spec.maxRetries), qaProfile := spec.qaProfile))
  }

  /** `create_card`: a known key gives back the existing row, a new key appends one. */
  function Create(b: Board, spec: CardSpec, id: CardId): Board {
    if spec.key in b.keys then b
    else Board(b.order + [id], b.cards[id := NewCard(spec, id)], b.keys[spec.key := id])
  }

  function Put(b: Board, card: Card): Board {
    b.(cards := b.cards[card.id := card])
  }

  /** `complete_card`, which leaves a claim in place. */
  function Completed(card: Card, proof: seq<ProofItem>): Card {
    card.(status := Done, metadata := card.metadata.(completed := true, proof := Some(proof)))
  }

  function Unblocked(card: Card): Card {
    card.(status := Todo, metadata := card.metadata.(claim := None, protocolDetail := ""))
  }

  function Reclaimed(card: Card, status: QueueStatus): Card {
    card.(status := status, metadata := card.metadata.(claim := None))
  }

  function Reassigned(card: Card, agent: string, status: QueueStatus, resetFailures: bool): Card {
    card.(status := status, agent := Some(agent), metadata := card.metadata.(
      claim := None, failures := if resetFailures then 0 else card.metadata.failures))
  }

  lemma ListingAt(b: Board, i: nat)
    requires Valid(b) && i < |b.order|
    ensures Listing(b)[i] == b.cards[b.order[i]] && Listing(b)[i].id == b.order[i]
  {
    assert b.order[i] in b.order;
  }

  lemma PutKeepsValid(b: Board, card: Card)
    requires Valid(b) && card.id in b.cards
    ensures Valid(Put(b, card))
    ensures forall i :: 0 <= i < |b.order| ==>
      Listing(Put(b, card))[i] == if b.order[i] == card.id then card else Listing(b)[i]
  {
    var b' := Put(b, card);
    forall i | 0 <= i < |b.order| {
      ListingAt(b, i);
    }
  }

  lemma CreatedOrder(b: Board, spec: CardSpec, id: CardId)
    requires Valid(b) && spec.key !in b.keys && id !in b.cards
    ensures var b' := Create(b, spec, id);
            && (forall i, j :: 0 <= i < j < |b'.order| ==> b'.order[i] != b'.order[j])
            && (forall x :: x in b'.order <==> x in b'.cards)
  {
    hide NewCard;
    var b' := Create(b, spec, id);
    forall i, j | 0 <= i < j < |b'.order| ensures b'.order[i] != b'.order[j] {
      if j == |b.order| {
        assert b.order[i] in b.order;
      }
    }
    assert forall x :: x in b'.order <==> x in b.order || x == id;
  }

  lemma CreateKeepsValid(b: Board, spec: CardSpec, id: CardId)
    requires Valid(b) && spec.key !in b.keys && id !in b.cards
    ensures Valid(Create(b, spec, id))
    ensures Listing(Create(b, spec, id)) == Listing(b) + [NewCard(spec, id)]
  {
    CreatedOrder(b, spec, id);
    assert NewCard(spec, id).id == id;
    hide NewCard;
    var b' := Create(b, spec, id);
    assert forall i :: 0 <= i < |b.order| ==> b.order[i] in b.order;
  }
}
