/**
 The retry-parent relation of a card list, and the walks over it.

 A card's last retry label carries the id of the card it retries, truncated when the id is
 long; the parent is the first card whose id starts with that text.  Labels may name missing
 cards, may be ambiguous and may form cycles, so every walk keeps the set of ids it has seen.
 */
module RetryChain {
  import opened Wrappers
  import opened Cards
  import opened Text
  import opened ProofErrors

  /** All that the retry structure depends on: a card's id and its retry token. */
  datatype Tag = Tag(id: CardId, token: Option<string>)

  function TagOf(card: Card): Tag {
    Tag(card.id, RetryFor(card))
  }

  function TagsOf(cards: seq<Card>): (tags: seq<Tag>)
    ensures |tags| == |cards|
  {
    seq(|cards|, i requires 0 <= i < |cards| => TagOf(cards[i]))
  }

  function Ids(tags: seq<Tag>): set<CardId> {
    set t | t in tags :: t.id
  }

  function ResolveFrom(tags: seq<Tag>, token: string, from: nat): (r: Option<nat>)
    requires from <= |tags|
    ensures r.Some? ==> from <= r.value < |tags| && token <= tags[r.value].id
    ensures r.Some? ==> forall i :: from <= i < r.value ==> !(token <= tags[i].id)
    ensures r.None? ==> forall i :: from <= i < |tags| ==> !(token <= tags[i].id)
    decreases |tags| - from
  {
    if from == |tags| then None
    else if token <= tags[from].id then Some(from)
    else ResolveFrom(tags, token, from + 1)
  }

  /** The position of the parent: the first card whose id starts with the token. */
  function Parent(tags: seq<Tag>, t: Tag): (r: Option<nat>)
    ensures r.Some? ==> r.value < |tags| && t.token.Some? && t.token.value <= tags[r.value].id
    ensures r.Some? ==> forall i :: 0 <= i < r.value ==> !(t.token.value <= tags[i].id)
    ensures r.None? && t.token.Some? ==> forall i :: 0 <= i < |tags| ==> !(t.token.value <= tags[i].id)
  {
    if t.token.None? then None else ResolveFrom(tags, t.token.value, 0)
  }

  /** The card reached after `n` parent steps, if there are that many. */
  function Walk(tags: seq<Tag>, t: Tag, n: nat): Option<Tag>
    decreases n
  {
    if n == 0 then Some(t)
    else
      match Parent(tags, t)
      case None => None
      case Some(i) => Walk(tags, tags[i], n - 1)
  }

  /** The cards a walk visits: it stops at a missing parent, or on meeting an id again. */
  function Chain(tags: seq<Tag>, t: Tag, seen: set<CardId>): (r: seq<Tag>)
    ensures r == [] <==> t.id in seen
    ensures r != [] ==> r[0] == t
    ensures forall i :: 0 <= i < |r| - 1 ==> r[i].token.Some?
    decreases (Ids(tags) + {t.id}) - seen
  {
    if t.id in seen then []
    else
      match Parent(tags, t)
      case None => [t]
      case Some(i) =>
        assert tags[i] in tags;
        [t] + Chain(tags, tags[i], seen + {t.id})
  }

  /** `_retry_depth`: the visited cards that carry a retry label. */
  function Depth(tags: seq<Tag>, t: Tag): nat {
    var chain := Chain(tags, t, {});
    if chain[|chain| - 1].token.Some? then |chain| else |chain| - 1
  }

  /** `_is_retry_descendant`: some visited card is labelled as a retry of `ancestor`. */
  predicate Descends(tags: seq<Tag>, t: Tag, ancestor: CardId) {
    exists c | c in Chain(tags, t, {}) :: TokenNames(c.token, ancestor)
  }

  /** `_has_valid_retry_ancestor`: a proper ancestor lies at a position in `proven`. */
  predicate AncestorIn(tags: seq<Tag>, t: Tag, seen: set<CardId>, proven: set<nat>)
    decreases (Ids(tags) + {t.id}) - seen
  {
    if t.id in seen then false
    else
      match Parent(tags, t)
      case None => false
      case Some(i) =>
        assert tags[i] in tags;
        i in proven || AncestorIn(tags, tags[i], seen + {t.id}, proven)
  }

  // ---------------------------------------------------------------- the walking loops

  method RetryDepth(card: Card, cards: seq<Card>) returns (depth: nat)
    ensures depth == Depth(TagsOf(cards), TagOf(card))
  {
    var tags := TagsOf(cards);
    depth := 0;
    var current := TagOf(card);
    var seen: set<CardId> := {};
    ghost var chain := Chain(tags, current, {});
    while true
      invariant depth <= |chain| && chain[depth..] == Chain(tags, current, seen)
      invariant depth == 0 ==> current.id !in seen
      invariant depth > 0 ==> chain[depth - 1].token.Some?
      decreases (Ids(tags) + {current.id}) - seen
    {
      if current.token.None? || current.id in seen {
        assert current.id !in seen ==> Chain(tags, current, seen) == [current];
        return;
      }
      assert chain[depth] == chain[depth..][0] == current;
      assert chain[depth + 1..] == chain[depth..][1..];
      depth := depth + 1;
      seen := seen + {current.id};
      var parent := Parent(tags, current);
      if parent.None? {
        assert chain[depth..] == [];
        return;
      }
      assert tags[parent.value] in tags;
      current := tags[parent.value];
    }
  }

  method IsRetryDescendant(card: Card, ancestor: CardId, cards: seq<Card>) returns (found: bool)
    ensures found == Descends(TagsOf(cards), TagOf(card), ancestor)
  {
    var tags := TagsOf(cards);
    var current := TagOf(card);
    var seen: set<CardId> := {};
    ghost var visited: seq<Tag> := [];
    while true
      invariant visited + Chain(tags, current, seen) == Chain(tags, TagOf(card), {})
      invariant forall c :: c in visited ==> !TokenNames(c.token, ancestor)
      decreases (Ids(tags) + {current.id}) - seen
    {
      if current.token.None? || current.id in seen {
        return false;
      }
      if current.token.value <= ancestor {
        assert current in Chain(tags, TagOf(card), {});
        return true;
      }
      visited := visited + [current];
      seen := seen + {current.id};
      var parent := Parent(tags, current);
      if parent.None? {
        return false;
      }
      assert tags[parent.value] in tags;
      current := tags[parent.value];
    }
  }

  /** The ancestors whose proof is checked: up to the first valid one. */
  function AncestorConsults(policy: CompletionPolicy, cards: seq<Card>, t: Tag, seen: set<CardId>): seq<Card>
    decreases (Ids(TagsOf(cards)) + {t.id}) - seen
  {
    if t.id in seen then []
    else
      match Parent(TagsOf(cards), t)
      case None => []
      case Some(i) =>
        assert TagsOf(cards)[i] in TagsOf(cards);
        [cards[i]] + (if HasValidProof(policy, cards[i]) then []
                      else AncestorConsults(policy, cards, TagsOf(cards)[i], seen + {t.id}))
  }

  /** `_has_valid_retry_ancestor`, which raises when an ancestor that it consults does. */
  method HasValidRetryAncestor(policy: CompletionPolicy, card: Card, cards: seq<Card>)
    returns (r: Result<bool, ProofError>)
    ensures r == Verdict(policy, AncestorConsults(policy, cards, TagOf(card), {}),
                         AncestorIn(TagsOf(cards), TagOf(card), {}, Proven(policy, cards)))
  {
    hide HasValidProof;
    hide ProofRaises;
    var tags := TagsOf(cards);
    var current := TagOf(card);
    var seen: set<CardId> := {};
    while true
      invariant AncestorIn(tags, current, seen, Proven(policy, cards))
        == AncestorIn(tags, TagOf(card), {}, Proven(policy, cards))
      invariant AnyRaises(policy, AncestorConsults(policy, cards, current, seen))
        == AnyRaises(policy, AncestorConsults(policy, cards, TagOf(card), {}))
      decreases (Ids(tags) + {current.id}) - seen
    {
      if current.token.None? || current.id in seen {
        return Ok(false);
      }
      var parent := Parent(tags, current);
      if parent.None? {
        return Ok(false);
      }
      var valid := CheckProof(policy, cards[parent.value]);
      ghost var rest := if HasValidProof(policy, cards[parent.value]) then []
                        else AncestorConsults(policy, cards, tags[parent.value], seen + {current.id});
      AnyRaisesConcat(policy, [cards[parent.value]], rest);
      if valid.Err? {
        return Err(valid.error);
      }
      if valid.value {
        return Ok(true);
      }
      seen := seen + {current.id};
      assert tags[parent.value] in tags;
      current := tags[parent.value];
    }
  }

  function Proven(policy: CompletionPolicy, cards: seq<Card>): set<nat> {
    set i: nat | i < |cards| && HasValidProof(policy, cards[i])
  }

  // ---------------------------------------------------------------- walks compute reachability

  /** Cards with the id of `t` are `t`: card ids are primary keys. */
  ghost predicate Consistent(tags: seq<Tag>, t: Tag) {
    forall i :: 0 <= i < |tags| && tags[i].id == t.id ==> tags[i] == t
  }

  ghost predicate Reaches(tags: seq<Tag>, t: Tag, c: Tag) {
    exists n :: Walk(tags, t, n) == Some(c)
  }

  lemma {:induction false} WalkSplit(tags: seq<Tag>, t: Tag, m: nat, n: nat)
    requires Walk(tags, t, m).Some?
    ensures Walk(tags, t, m + n) == Walk(tags, Walk(tags, t, m).value, n)
    decreases m
  {
    if m > 0 {
      WalkSplit(tags, tags[Parent(tags, t).value], m - 1, n);
    }
  }

  lemma {:induction false} WalkShorter(tags: seq<Tag>, t: Tag, m: nat, n: nat)
    requires m <= n && Walk(tags, t, n).Some?
    ensures Walk(tags, t, m).Some?
    decreases m
  {
    if m > 0 {
      WalkShorter(tags, tags[Parent(tags, t).value], m - 1, n - 1);
    }
  }

  lemma {:induction false} ChainIsWalk(tags: seq<Tag>, t: Tag, seen: set<CardId>, k: nat)
    requires k < |Chain(tags, t, seen)|
    ensures Walk(tags, t, k) == Some(Chain(tags, t, seen)[k])
    decreases k
  {
    if k > 0 {
      ChainIsWalk(tags, tags[Parent(tags, t).value], seen + {t.id}, k - 1);
    }
  }

  /** A chain ends at a missing parent or just before an id it has met. */
  lemma {:induction false} ChainEnds(tags: seq<Tag>, t: Tag, seen: set<CardId>)
    requires t.id !in seen
    ensures var chain := Chain(tags, t, seen);
            var next := Parent(tags, chain[|chain| - 1]);
            next.None? || tags[next.value].id in seen
            || exists j :: 0 <= j < |chain| && chain[j].id == tags[next.value].id
    decreases (Ids(tags) + {t.id}) - seen
  {
    var chain := Chain(tags, t, seen);
    var p := Parent(tags, t);
    if p.Some? {
      var u := tags[p.value];
      assert u in tags;
      var rest := Chain(tags, u, seen + {t.id});
      assert chain == [t] + rest;
      if rest == [] {
        assert chain[|chain| - 1] == t;
        assert u.id == t.id ==> chain[0].id == u.id;
      } else {
        ChainEnds(tags, u, seen + {t.id});
        assert chain[|chain| - 1] == rest[|rest| - 1];
        var next := Parent(tags, rest[|rest| - 1]);
        if next.Some? && tags[next.value].id !in seen {
          if tags[next.value].id == t.id {
            assert chain[0].id == tags[next.value].id;
          } else {
            var j :| 0 <= j < |rest| && rest[j].id == tags[next.value].id;
            assert chain[j + 1].id == tags[next.value].id;
          }
        }
      }
    }
  }

  /** Two cards met on a walk that share an id are the same card. */
  lemma {:induction false} ChainIdsAreCards(tags: seq<Tag>, t: Tag, j: nat, c: Tag)
    requires Consistent(tags, t)
    requires j < |Chain(tags, t, {})| && Parent(tags, c).Some?
    requires Chain(tags, t, {})[j].id == tags[Parent(tags, c).value].id
    ensures Chain(tags, t, {})[j] == tags[Parent(tags, c).value]
  {
    var chain := Chain(tags, t, {});
    if j > 0 {
      ChainIsWalk(tags, t, {}, j - 1);
      ChainIsWalk(tags, t, {}, j);
      WalkSplit(tags, t, j - 1, 1);
      var r, r' := Parent(tags, chain[j - 1]).value, Parent(tags, c).value;
      assert Walk(tags, chain[j - 1], 1) == Walk(tags, tags[r], 0) == Some(tags[r]);
      assert r == r';
    }
  }

  /** A walk that goes on after the chain has ended is back at a card of the chain. */
  lemma ChainLoops(tags: seq<Tag>, t: Tag, n: nat) returns (j: nat)
    requires Consistent(tags, t) && Walk(tags, t, n).Some? && n >= |Chain(tags, t, {})|
    ensures j < |Chain(tags, t, {})|
    ensures Walk(tags, t, |Chain(tags, t, {})|) == Some(Chain(tags, t, {})[j])
  {
    hide Consistent;
    hide Chain;
    var chain := Chain(tags, t, {});
    var m := |chain|;
    ChainIsWalk(tags, t, {}, m - 1);
    WalkShorter(tags, t, m, n);
    WalkSplit(tags, t, m - 1, 1);
    ChainEnds(tags, t, {});
    var next := tags[Parent(tags, chain[m - 1]).value];
    assert Walk(tags, chain[m - 1], 1) == Walk(tags, next, 0) == Some(next);
    j :| 0 <= j < m && chain[j].id == next.id;
    ChainIdsAreCards(tags, t, j, chain[m - 1]);
  }

  lemma {:induction false} WalkInChain(tags: seq<Tag>, t: Tag, n: nat)
    requires Consistent(tags, t) && Walk(tags, t, n).Some?
    ensures Walk(tags, t, n).value in Chain(tags, t, {})
    decreases n
  {
    hide Consistent;
    hide Chain;
    hide Walk;
    var m := |Chain(tags, t, {})|;
    if n < m {
      ChainIsWalk(tags, t, {}, n);
    } else {
      var j := ChainLoops(tags, t, n);
      ChainIsWalk(tags, t, {}, j);
      WalkSplit(tags, t, m, n - m);
      WalkSplit(tags, t, j, n - m);
      WalkInChain(tags, t, j + (n - m));
    }
  }

  /** A walk visits exactly the cards reachable through parent labels, on any card list. */
  lemma {:induction false} ChainIsReachability(tags: seq<Tag>, t: Tag, c: Tag)
    requires Consistent(tags, t)
    ensures c in Chain(tags, t, {}) <==> Reaches(tags, t, c)
  {
    var chain := Chain(tags, t, {});
    if c in chain {
      var k :| 0 <= k < |chain| && chain[k] == c;
      ChainIsWalk(tags, t, {}, k);
    }
    if Reaches(tags, t, c) {
      var n :| Walk(tags, t, n) == Some(c);
      WalkInChain(tags, t, n);
    }
  }

  /** `_is_retry_descendant` holds exactly when a reachable card is labelled as a retry of `ancestor`. */
  lemma DescendsIsReachability(tags: seq<Tag>, t: Tag, ancestor: CardId)
    requires Consistent(tags, t)
    ensures Descends(tags, t, ancestor)
        <==> exists c :: Reaches(tags, t, c) && TokenNames(c.token, ancestor)
  {
    forall c ensures c in Chain(tags, t, {}) <==> Reaches(tags, t, c) {
      ChainIsReachability(tags, t, c);
    }
  }

  lemma {:induction false} AncestorInChain(tags: seq<Tag>, t: Tag, seen: set<CardId>, proven: set<nat>)
    ensures AncestorIn(tags, t, seen, proven)
        <==> exists c :: c in Chain(tags, t, seen) && Parent(tags, c).Some? && Parent(tags, c).value in proven
    decreases (Ids(tags) + {t.id}) - seen
  {
    if t.id !in seen && Parent(tags, t).Some? {
      var i := Parent(tags, t).value;
      assert tags[i] in tags;
      var rest := Chain(tags, tags[i], seen + {t.id});
      AncestorInChain(tags, tags[i], seen + {t.id}, proven);
      forall c ensures c in Chain(tags, t, seen) <==> c == t || c in rest {
        assert Chain(tags, t, seen) == [t] + rest;
      }
    }
  }

  /** `_has_valid_retry_ancestor` holds exactly when the parent of a reachable card is proven. */
  lemma AncestorIsReachability(tags: seq<Tag>, t: Tag, proven: set<nat>)
    requires Consistent(tags, t)
    ensures AncestorIn(tags, t, {}, proven)
        <==> exists c :: Reaches(tags, t, c) && Parent(tags, c).Some? && Parent(tags, c).value in proven
  {
    AncestorInChain(tags, t, {}, proven);
    forall c ensures c in Chain(tags, t, {}) <==> Reaches(tags, t, c) {
      ChainIsReachability(tags, t, c);
    }
  }

  lemma {:induction false} ChainIdsDistinct(tags: seq<Tag>, t: Tag, seen: set<CardId>)
    ensures forall i :: 0 <= i < |Chain(tags, t, seen)| ==> Chain(tags, t, seen)[i].id !in seen
    ensures forall i, j :: 0 <= i < j < |Chain(tags, t, seen)| ==>
      Chain(tags, t, seen)[i].id != Chain(tags, t, seen)[j].id
    decreases (Ids(tags) + {t.id}) - seen
  {
    if t.id !in seen && Parent(tags, t).Some? {
      assert tags[Parent(tags, t).value] in tags;
      ChainIdsDistinct(tags, tags[Parent(tags, t).value], seen + {t.id});
    }
  }

  lemma {:induction false} SizeOfDistinct(s: seq<Tag>, elements: set<Tag>)
    requires forall i, j :: 0 <= i < j < |s| ==> s[i] != s[j]
    requires forall x :: x in elements <==> x in s
    ensures |elements| == |s|
  {
    if s == [] {
      assert elements == {};
    } else {
      var last := s[|s| - 1];
      forall x ensures x in elements - {last} <==> x in s[..|s| - 1] {
        if x in s[..|s| - 1] {
          assert x in s;
        }
      }
      SizeOfDistinct(s[..|s| - 1], elements - {last});
    }
  }

  /** `_retry_depth` counts the reachable cards, itself included, that carry a retry label. */
  lemma {:induction false} DepthCountsRetries(tags: seq<Tag>, t: Tag, labelled: set<Tag>)
    requires Consistent(tags, t)
    requires forall c :: c in labelled <==> Reaches(tags, t, c) && c.token.Some?
    ensures Depth(tags, t) == |labelled|
  {
    var chain := Chain(tags, t, {});
    ChainIdsDistinct(tags, t, {});
    forall c ensures c in chain <==> Reaches(tags, t, c) {
      ChainIsReachability(tags, t, c);
    }
    var last := chain[|chain| - 1];
    var prefix := if last.token.Some? then chain else chain[..|chain| - 1];
    forall c ensures c in labelled <==> c in prefix {
      if c in chain && c.token.Some? {
        var k :| 0 <= k < |chain| && chain[k] == c;
        assert prefix[k] == c;
      }
    }
    SizeOfDistinct(prefix, labelled);
  }

  // ---------------------------------------------------------------- boards with sound labels

  /** What a retry label keeps of an id. */
  function LabelId(id: CardId): (r: string)
    ensures r <= id
  {
    if |"retry-for:" + id| <= LABEL_LIMIT then id else Take(id, 32)
  }

  /** No id can be mistaken for another one through a truncated retry label. */
  ghost predicate Distinguishable(tags: seq<Tag>) {
    forall i, j :: 0 <= i < |tags| && 0 <= j < |tags| && i != j ==> !(LabelId(tags[i].id) <= tags[j].id)
  }

  ghost predicate AnchoredAt(tags: seq<Tag>, j: nat)
    requires j < |tags|
  {
    tags[j].token.Some? ==> exists i :: 0 <= i < j && tags[j].token.value == LabelId(tags[i].id)
  }

  /** Every retry label was written for an earlier card. */
  ghost predicate Anchored(tags: seq<Tag>) {
    forall j :: 0 <= j < |tags| ==> AnchoredAt(tags, j)
  }

  /** On such a board a label names one card: the parent, which is earlier. */
  lemma ParentIsExact(tags: seq<Tag>, j: nat, k: nat)
    requires Distinguishable(tags) && Anchored(tags)
    requires j < |tags| && k < |tags|
    ensures TokenNames(tags[j].token, tags[k].id) <==> Parent(tags, tags[j]) == Some(k)
    ensures tags[j].token.Some? ==> Parent(tags, tags[j]).Some? && Parent(tags, tags[j]).value < j
  {
    assert AnchoredAt(tags, j);
    if tags[j].token.Some? {
      var i :| 0 <= i < j && tags[j].token.value == LabelId(tags[i].id);
      var p := Parent(tags, tags[j]).value;
      assert p == i;
    }
  }

  /** The number of retry steps above card `j`. */
  ghost function Level(tags: seq<Tag>, j: nat): nat
    requires Distinguishable(tags) && Anchored(tags) && j < |tags|
    decreases j
  {
    ParentIsExact(tags, j, j);
    if tags[j].token.None? then 0 else 1 + Level(tags, Parent(tags, tags[j]).value)
  }

  lemma {:induction false} AnchoredChain(tags: seq<Tag>, j: nat, seen: set<CardId>)
    requires Distinguishable(tags) && Anchored(tags) && j < |tags|
    requires forall i :: 0 <= i <= j ==> tags[i].id !in seen
    ensures var chain := Chain(tags, tags[j], seen);
            |chain| == Level(tags, j) + 1 && chain[|chain| - 1].token.None?
    decreases j
  {
    ParentIsExact(tags, j, j);
    if tags[j].token.Some? {
      var p := Parent(tags, tags[j]).value;
      forall i | 0 <= i <= p ensures tags[i].id !in seen + {tags[j].id} {
        assert LabelId(tags[i].id) <= tags[i].id;
      }
      AnchoredChain(tags, p, seen + {tags[j].id});
      assert tags[p] in tags;
      assert Chain(tags, tags[j], seen) == [tags[j]] + Chain(tags, tags[p], seen + {tags[j].id});
    }
  }

  /** On a sound board `_retry_depth` is the level in the retry tree. */
  lemma DepthIsLevel(tags: seq<Tag>, j: nat)
    requires Distinguishable(tags) && Anchored(tags) && j < |tags|
    ensures Depth(tags, tags[j]) == Level(tags, j)
  {
    AnchoredChain(tags, j, {});
  }
}
