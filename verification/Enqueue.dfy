/**
 Materialising a workflow on a board, card by card, and what happens when that is interrupted and
 run again.
 */
module Enqueue {
  import opened Wrappers
  import opened Cards
  import opened CardBoard
  import opened Workflow

  /** Parent keys become card ids; `CanCreate` holds wherever this is used, so no key is missing. */
  function ResolveParents(b: Board, parents: seq<CardKey>): seq<CardId> {
    seq(|parents|, i requires 0 <= i < |parents| => if parents[i] in b.keys then b.keys[parents[i]] else "")
  }

  predicate CanCreate(b: Board, plan: Plan) {
    forall i :: 0 <= i < |plan.parents| ==> plan.parents[i] in b.keys
  }

  /** Create one planned card; the name function gives the id that a new key receives. */
  function CreatePlanned(b: Board, plan: Plan, name: CardKey -> CardId): Board {
    Create(b, plan.spec.(parents := ResolveParents(b, plan.parents)), name(plan.spec.key))
  }

  /** The board after creating the first `n` plans. */
  function CreateFirst(b: Board, plans: seq<Plan>, n: nat, name: CardKey -> CardId): Board
    requires n <= |plans|
  {
    if n == 0 then b else CreatePlanned(CreateFirst(b, plans, n - 1, name), plans[n - 1], name)
  }

  lemma {:induction false} CreatedKeys(b: Board, plans: seq<Plan>, n: nat, name: CardKey -> CardId)
    requires n <= |plans|
    ensures b.keys.Keys <= CreateFirst(b, plans, n, name).keys.Keys
    ensures forall k :: 0 <= k < n ==> plans[k].spec.key in CreateFirst(b, plans, n, name).keys
  {
    if n > 0 {
      CreatedKeys(b, plans, n - 1, name);
    }
  }

  const MATERIALIZED: seq<ProofItem> := [Record("passed", "", "GitHub work contract", "", "", None)]

  /** `enqueue`: all cards, root first, then the root is completed. */
  function EnqueueAll(b: Board, plans: seq<Plan>, name: CardKey -> CardId): Board
    requires plans != []
  {
    var m := CreateFirst(b, plans, |plans|, name);
    CompleteKey(m, plans[0].spec.key)
  }

  /** `complete_card` for the card of a key. */
  function CompleteKey(b: Board, key: CardKey): Board {
    if key in b.keys && b.keys[key] in b.cards then Put(b, Completed(b.cards[b.keys[key]], MATERIALIZED)) else b
  }

  // ---------------------------------------------------------------- the graph without ids

  /** A card without ids: the keys it is stored under, its content, and the keys of its parents. */
  datatype Node = Node(keys: set<CardKey>, content: Card, parents: seq<set<CardKey>>)

  ghost function KeysNaming(b: Board, id: CardId): set<CardKey> {
    set key | key in b.keys && b.keys[key] == id
  }

  function Anonymous(card: Card): Card {
    card.(id := "", metadata := card.metadata.(parents := []))
  }

  ghost function NodeOf(b: Board, id: CardId): Node
    requires id in b.cards
  {
    var parents := b.cards[id].metadata.parents;
    Node(KeysNaming(b, id), Anonymous(b.cards[id]),
         seq(|parents|, i requires 0 <= i < |parents| => KeysNaming(b, parents[i])))
  }

  /** The key-to-card graph of a board, in creation order: everything but the choice of ids. */
  ghost function GraphOf(b: Board): seq<Node>
    requires Valid(b)
  {
    seq(|b.order|, i requires 0 <= i < |b.order| && b.order[i] in b.order => NodeOf(b, b.order[i]))
  }

  ghost predicate Knows(g: seq<Node>, key: CardKey) {
    exists i :: 0 <= i < |g| && key in g[i].keys
  }

  /** Creating a plan, as seen by the graph. */
  ghost function Extend(g: seq<Node>, plan: Plan): seq<Node> {
    if Knows(g, plan.spec.key) then g
    else g + [Node({plan.spec.key}, Anonymous(NewCard(plan.spec, "")),
                   seq(|plan.parents|, i requires 0 <= i < |plan.parents| => {plan.parents[i]}))]
  }

  ghost function ExtendFirst(g: seq<Node>, plans: seq<Plan>, n: nat): seq<Node>
    requires n <= |plans|
  {
    if n == 0 then g else Extend(ExtendFirst(g, plans, n - 1), plans[n - 1])
  }

  /** Completing the card of a key, as seen by the graph. */
  ghost function CompleteNode(g: seq<Node>, key: CardKey): seq<Node> {
    seq(|g|, i requires 0 <= i < |g| =>
      if key in g[i].keys then g[i].(content := Anonymous(Completed(g[i].content, MATERIALIZED))) else g[i])
  }

  // ---------------------------------------------------------------- board operations, seen by the graph

  ghost predicate ParentsExist(b: Board) {
    forall id, i :: id in b.cards && 0 <= i < |b.cards[id].metadata.parents| ==>
      b.cards[id].metadata.parents[i] in b.cards
  }

  /** Ids chosen for new keys: unused on the board and different for different keys. */
  ghost predicate FreshFor(name: CardKey -> CardId, b: Board, plans: seq<Plan>) {
    && (forall k :: 0 <= k < |plans| && plans[k].spec.key !in b.keys ==> name(plans[k].spec.key) !in b.cards)
    && (forall k, k' :: 0 <= k < |plans| && 0 <= k' < |plans|
                        && name(plans[k].spec.key) == name(plans[k'].spec.key) ==>
          plans[k].spec.key == plans[k'].spec.key)
  }

  lemma GraphKnows(b: Board, key: CardKey)
    requires Valid(b)
    ensures Knows(GraphOf(b), key) <==> key in b.keys
  {
    if key in b.keys {
      assert b.keys[key] in b.order;
      var i :| 0 <= i < |b.order| && b.order[i] == b.keys[key];
      assert key in GraphOf(b)[i].keys;
    }
  }

  /** Old nodes do not notice a new row. */
  lemma NodeSurvives(b: Board, spec: CardSpec, id: CardId, row: CardId)
    requires Valid(b) && ParentsExist(b) && spec.key !in b.keys && id !in b.cards && row in b.cards
    ensures NodeOf(Create(b, spec, id), row) == NodeOf(b, row)
  {
    var m := Create(b, spec, id);
    forall x | x in b.cards ensures KeysNaming(m, x) == KeysNaming(b, x) {
    }
    var parents := b.cards[row].metadata.parents;
  }

  lemma NewNode(b: Board, plan: Plan, id: CardId)
    requires Valid(b) && plan.spec.key !in b.keys && id !in b.cards && CanCreate(b, plan)
    ensures NodeOf(Create(b, plan.spec.(parents := ResolveParents(b, plan.parents)), id), id)
         == Node({plan.spec.key}, Anonymous(NewCard(plan.spec, "")),
                 seq(|plan.parents|, i requires 0 <= i < |plan.parents| => {plan.parents[i]}))
  {
    var spec := plan.spec.(parents := ResolveParents(b, plan.parents));
    var m := Create(b, spec, id);
    assert KeysNaming(m, id) == {plan.spec.key};
    forall i | 0 <= i < |plan.parents| ensures KeysNaming(m, spec.parents[i]) == {plan.parents[i]} {
      assert m.keys[plan.parents[i]] == spec.parents[i];
    }
  }

  /** Creating a plan has the same effect on the graph whatever id it receives. */
  lemma CreateExtends(b: Board, plan: Plan, name: CardKey -> CardId)
    requires Valid(b) && ParentsExist(b) && CanCreate(b, plan)
    requires plan.spec.key !in b.keys ==> name(plan.spec.key) !in b.cards
    ensures var m := CreatePlanned(b, plan, name);
            Valid(m) && ParentsExist(m) && GraphOf(m) == Extend(GraphOf(b), plan)
  {
    GraphKnows(b, plan.spec.key);
    if plan.spec.key !in b.keys {
      var id := name(plan.spec.key);
      var spec := plan.spec.(parents := ResolveParents(b, plan.parents));
      CreateKeepsValid(b, spec, id);
      CreateKeepsParents(b, plan, id);
      NewNode(b, plan, id);
      forall i | 0 <= i < |b.order| ensures NodeOf(Create(b, spec, id), b.order[i]) == NodeOf(b, b.order[i]) {
        assert b.order[i] in b.order;
        NodeSurvives(b, spec, id, b.order[i]);
      }
    }
  }

  lemma CreateKeepsParents(b: Board, plan: Plan, id: CardId)
    requires Valid(b) && ParentsExist(b) && CanCreate(b, plan) && plan.spec.key !in b.keys && id !in b.cards
    ensures ParentsExist(Create(b, plan.spec.(parents := ResolveParents(b, plan.parents)), id))
  {
    forall i | 0 <= i < |plan.parents| ensures ResolveParents(b, plan.parents)[i] in b.cards {
    }
  }

  lemma CompleteOnGraph(b: Board, key: CardKey)
    requires Valid(b) && key in b.keys
    ensures Valid(CompleteKey(b, key)) && GraphOf(CompleteKey(b, key)) == CompleteNode(GraphOf(b), key)
  {
    var m := CompleteKey(b, key);
    PutKeepsValid(b, Completed(b.cards[b.keys[key]], MATERIALIZED));
    forall i | 0 <= i < |b.order| ensures GraphOf(m)[i] == CompleteNode(GraphOf(b), key)[i] {
      assert b.order[i] in b.order;
      assert key in GraphOf(b)[i].keys <==> b.order[i] == b.keys[key];
    }
  }

  // ---------------------------------------------------------------- interrupted and run again

  /** Rows and keys that a creation run adds. */
  lemma {:induction false} AddedRows(b: Board, plans: seq<Plan>, n: nat, name: CardKey -> CardId)
    requires Creatable(plans) && n <= |plans|
    ensures forall id :: id in CreateFirst(b, plans, n, name).cards && id !in b.cards ==>
      exists k :: 0 <= k < n && id == name(plans[k].spec.key)
    ensures forall key :: key in CreateFirst(b, plans, n, name).keys && key !in b.keys ==>
      exists k :: 0 <= k < n && plans[k].spec.key == key
  {
    if n > 0 {
      AddedRows(b, plans, n - 1, name);
    }
  }

  lemma NextIdIsFresh(b: Board, plans: seq<Plan>, n: nat, name: CardKey -> CardId)
    requires Creatable(plans) && n < |plans| && FreshFor(name, b, plans)
    requires plans[n].spec.key !in CreateFirst(b, plans, n, name).keys
    ensures name(plans[n].spec.key) !in CreateFirst(b, plans, n, name).cards
  {
    AddedRows(b, plans, n, name);
    CreatedKeys(b, plans, n, name);
    assert plans[n].spec.key !in b.keys;
    forall k | 0 <= k < n ensures name(plans[k].spec.key) != name(plans[n].spec.key) {
    }
  }

  ghost predicate Tabled(b: Board) {
    Valid(b) && ParentsExist(b)
  }

  /** The next plan can be created, under an unused id. */
  ghost predicate CanAppend(b: Board, plan: Plan, name: CardKey -> CardId) {
    CanCreate(b, plan) && (plan.spec.key !in b.keys ==> name(plan.spec.key) !in b.cards)
  }

  lemma NextIsReady(b: Board, plans: seq<Plan>, n: nat, name: CardKey -> CardId)
    requires Creatable(plans) && n < |plans| && FreshFor(name, b, plans)
    ensures CanAppend(CreateFirst(b, plans, n, name), plans[n], name)
  {
    CreatedKeys(b, plans, n, name);
    assert CreatableAt(plans, n);
    assert forall i :: 0 <= i < |plans[n].parents| ==> plans[n].parents[i] in plans[n].parents;
    if plans[n].spec.key !in CreateFirst(b, plans, n, name).keys {
      NextIdIsFresh(b, plans, n, name);
    }
  }

  lemma CreateNext(b: Board, plan: Plan, name: CardKey -> CardId, g: seq<Node>)
    requires Tabled(b) && CanAppend(b, plan, name) && GraphOf(b) == g
    ensures Tabled(CreatePlanned(b, plan, name)) && GraphOf(CreatePlanned(b, plan, name)) == Extend(g, plan)
  {
    CreateExtends(b, plan, name);
  }

  /** A run of creations builds a graph that does not depend on the ids it draws. */
  lemma {:induction false} CreationsExtend(b: Board, plans: seq<Plan>, n: nat, name: CardKey -> CardId)
    requires Tabled(b) && n <= |plans| && AllReady(b, plans, name)
    ensures Tabled(CreateFirst(b, plans, n, name))
    ensures GraphOf(CreateFirst(b, plans, n, name)) == ExtendFirst(GraphOf(b), plans, n)
  {
    if n > 0 {
      CreationsExtend(b, plans, n - 1, name);
      assert ReadyAt(b, plans, n - 1, name);
      CreateNext(CreateFirst(b, plans, n - 1, name), plans[n - 1], name, ExtendFirst(GraphOf(b), plans, n - 1));
    }
  }

  ghost predicate ReadyAt(b: Board, plans: seq<Plan>, n: nat, name: CardKey -> CardId)
    requires n < |plans|
  {
    CanAppend(CreateFirst(b, plans, n, name), plans[n], name)
  }

  /** Every creation of a run finds its parents and an unused id. */
  ghost predicate AllReady(b: Board, plans: seq<Plan>, name: CardKey -> CardId) {
    forall n: nat {:trigger ReadyAt(b, plans, n, name)} :: n < |plans| ==> ReadyAt(b, plans, n, name)
  }

  lemma RunIsReady(b: Board, plans: seq<Plan>, name: CardKey -> CardId)
    requires Creatable(plans) && FreshFor(name, b, plans)
    ensures AllReady(b, plans, name)
  {
    forall n: nat | n < |plans| ensures ReadyAt(b, plans, n, name) {
      NextIsReady(b, plans, n, name);
    }
  }

  lemma {:induction false} ExtendKnows(g: seq<Node>, plans: seq<Plan>, n: nat)
    requires n <= |plans|
    ensures forall key :: Knows(g, key) ==> Knows(ExtendFirst(g, plans, n), key)
    ensures forall k :: 0 <= k < n ==> Knows(ExtendFirst(g, plans, n), plans[k].spec.key)
  {
    if n > 0 {
      ExtendKnows(g, plans, n - 1);
      var m := ExtendFirst(g, plans, n - 1);
      var m' := ExtendFirst(g, plans, n);
      forall key | Knows(m, key) ensures Knows(m', key) {
        var i :| 0 <= i < |m| && key in m[i].keys;
        assert m'[i] == m[i];
      }
      if !Knows(m, plans[n - 1].spec.key) {
        assert plans[n - 1].spec.key in m'[|m|].keys;
      }
    }
  }

  lemma {:induction false} RepeatExtendsNothing(g: seq<Node>, plans: seq<Plan>, n: nat)
    requires n <= |plans| && forall k :: 0 <= k < n ==> Knows(g, plans[k].spec.key)
    ensures ExtendFirst(g, plans, n) == g
  {
    if n > 0 {
      RepeatExtendsNothing(g, plans, n - 1);
    }
  }

  /** Repeating the first `n` creations and going on is the same as going on. */
  lemma {:induction false} ResumeExtends(g: seq<Node>, plans: seq<Plan>, n: nat, m: nat)
    requires n <= m <= |plans|
    ensures ExtendFirst(ExtendFirst(g, plans, n), plans, m) == ExtendFirst(g, plans, m)
    decreases m
  {
    if m == n {
      ExtendKnows(g, plans, n);
      RepeatExtendsNothing(ExtendFirst(g, plans, n), plans, n);
    } else {
      ResumeExtends(g, plans, n, m - 1);
    }
  }

  /** The graph that one uninterrupted `enqueue` builds, whatever ids it draws. */
  lemma EnqueueBuilds(b: Board, plans: seq<Plan>, name: CardKey -> CardId)
    requires Valid(b) && ParentsExist(b) && Creatable(plans) && plans != [] && FreshFor(name, b, plans)
    ensures var m := EnqueueAll(b, plans, name);
            Valid(m) && GraphOf(m) == CompleteNode(ExtendFirst(GraphOf(b), plans, |plans|), plans[0].spec.key)
  {
    RunIsReady(b, plans, name);
    CreationsExtend(b, plans, |plans|, name);
    CreatedKeys(b, plans, |plans|, name);
    CompleteOnGraph(CreateFirst(b, plans, |plans|, name), plans[0].spec.key);
  }

  /** Crash and resume: interrupt the creations after any prefix, run everything again under other
      ids, and the board holds the same graph as after one uninterrupted run. */
  lemma ResumeEqualsOneRun(b: Board, plans: seq<Plan>, n: nat,
                           crashed: CardKey -> CardId, resumed: CardKey -> CardId, single: CardKey -> CardId)
    requires Valid(b) && ParentsExist(b) && Creatable(plans) && plans != [] && n <= |plans|
    requires FreshFor(crashed, b, plans) && FreshFor(single, b, plans)
    requires FreshFor(resumed, CreateFirst(b, plans, n, crashed), plans)
    ensures var again := EnqueueAll(CreateFirst(b, plans, n, crashed), plans, resumed);
            var once := EnqueueAll(b, plans, single);
            Valid(again) && Valid(once) && GraphOf(again) == GraphOf(once)
  {
    RunIsReady(b, plans, crashed);
    CreationsExtend(b, plans, n, crashed);
    EnqueueBuilds(CreateFirst(b, plans, n, crashed), plans, resumed);
    EnqueueBuilds(b, plans, single);
    ResumeExtends(GraphOf(b), plans, n, |plans|);
  }

  /** Running `enqueue` again on a later board only touches the root card. */
  lemma RerunOnlyCompletesRoot(b: Board, plans: seq<Plan>, name: CardKey -> CardId)
    requires Valid(b) && Creatable(plans) && plans != []
    requires forall k :: 0 <= k < |plans| ==> plans[k].spec.key in b.keys
    ensures EnqueueAll(b, plans, name) == CompleteKey(b, plans[0].spec.key)
  {
    RepeatIsNoop(b, plans, |plans|, name);
  }

  lemma {:induction false} RepeatIsNoop(b: Board, plans: seq<Plan>, n: nat, name: CardKey -> CardId)
    requires Creatable(plans) && n <= |plans| && forall k :: 0 <= k < n ==> plans[k].spec.key in b.keys
    ensures CreateFirst(b, plans, n, name) == b
  {
    if n > 0 {
      RepeatIsNoop(b, plans, n - 1, name);
    }
  }
}
