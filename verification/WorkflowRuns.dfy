/**
 Runs of promotion and worker steps over a dependency graph: gating, termination and quiescence.

 The steps are those of the atomic system that every interleaving refines, without
 administrative writes.
 */
module WorkflowRuns {
  import opened Wrappers
  import opened Cards
  import opened CardBoard
  import opened LeaseProtocol

  // ---------------------------------------------------------------- one step

  ghost predicate StoreInv(a: Store) {
    ClaimsMatch(a.table) && TokensIssued(a.table, a.issued)
  }

  /** The failures a card can still absorb before lease recovery blocks it. */
  function Budget(card: Card): nat {
    if card.metadata.failures <= RetryLimit(card, 0) then RetryLimit(card, 0) + 1 - card.metadata.failures else 0
  }

  function Rank(card: Card): nat {
    match card.status
    case Todo => 3
    case Ready => 2
    case Running => 1
    case _ => 0
  }

  /** Decreases with every step of a card but heartbeats. */
  function Weight(card: Card): nat {
    2 * Budget(card) + Rank(card)
  }

  predicate ParentsDone(table: Table, card: Card) {
    forall p | p in card.metadata.parents :: IsDone(table, p)
  }

  /** How one step may change a card. */
  ghost predicate Transition(table: Table, before: Card, after: Card) {
    && after.id == before.id && after.labels == before.labels
    && after.metadata.parents == before.metadata.parents && after.metadata.qaProfile == before.metadata.qaProfile
    && after.metadata.maxRetries == before.metadata.maxRetries
    && after.metadata.failureCount == before.metadata.failureCount
    && after.metadata.attempts == before.metadata.attempts
    && ( || (before.status == Todo && after.status == Ready && ParentsDone(table, before))
         || (before.status == Ready && after.status == Running)
         || (before.status == Running && after.status in {Running, Ready, Done, Blocked}))
  }

  ghost predicate Changes(table: Table, table': Table, id: CardId) {
    id in table && id in table' && table' == table[id := table'[id]] && Transition(table, table[id], table'[id])
  }

  predicate IsHeartbeat(e: AtomicEvent) {
    e.Work? && e.event.HeartbeatEvent?
  }

  /** A step without administration changes at most one card, along its status order, and lowers its
      weight unless it is a heartbeat. */
  lemma StepShape(a: Store, e: AtomicEvent, lease: nat)
    requires StoreInv(a) && AtomicEnabled(a, e) && !e.AdminPut?
    ensures var table' := AtomicNext(a, e, lease).table;
            table' == a.table ||
            exists id :: Changes(a.table, table', id)
                         && (if IsHeartbeat(e) then Weight(table'[id]) == Weight(a.table[id])
                             else Weight(table'[id]) < Weight(a.table[id]))
  {
    var table' := AtomicNext(a, e, lease).table;
    match e
    case PromoteNow(id) =>
      assert Changes(a.table, table', id);
    case Work(event) =>
      if WorkerResult(a.table, a.now, event, lease).Ok? {
        WorkerStepIsLocal(Sys(a.table, a.now, a.issued, Idle), event, lease);
        assert Changes(a.table, table', event.id);
      }
    case _ =>
  }

  lemma StepKeepsStoreInv(a: Store, e: AtomicEvent, lease: nat)
    requires StoreInv(a) && AtomicEnabled(a, e) && !e.AdminPut?
    ensures StoreInv(AtomicNext(a, e, lease))
  {
    if e.Work? {
      WorkerStepKeepsInv(Sys(a.table, a.now, a.issued, Idle), e.event, lease);
    }
  }

  // ---------------------------------------------------------------- gating

  ghost predicate GatedAt(table: Table, id: CardId)
    requires id in table
  {
    table[id].status != Todo ==> ParentsDone(table, table[id])
  }

  /** A card leaves TODO only when all its parents are DONE. */
  ghost predicate Gated(table: Table) {
    forall id :: id in table ==> GatedAt(table, id)
  }

  lemma ChangeKeepsDone(table: Table, table': Table, id: CardId, p: CardId)
    requires Changes(table, table', id) && IsDone(table, p)
    ensures IsDone(table', p)
  {
  }

  lemma ChangeKeepsGated(table: Table, table': Table, id: CardId)
    requires Changes(table, table', id) && Gated(table)
    ensures Gated(table')
  {
    forall x | x in table' ensures GatedAt(table', x) {
      assert GatedAt(table, x);
      if table'[x].status != Todo {
        forall p | p in table'[x].metadata.parents ensures IsDone(table', p) {
          assert IsDone(table, p);
          ChangeKeepsDone(table, table', id, p);
        }
      }
    }
  }

  ghost predicate Unadministered(events: seq<AtomicEvent>) {
    forall i :: 0 <= i < |events| ==> !events[i].AdminPut?
  }

  ghost predicate GraphRun(stores: seq<Store>, events: seq<AtomicEvent>, lease: nat) {
    AtomicBehaviour(stores, events, lease) && Unadministered(events) && StoreInv(stores[0])
  }

  lemma {:induction false} RunKeepsStoreInv(stores: seq<Store>, events: seq<AtomicEvent>, lease: nat, n: nat)
    requires GraphRun(stores, events, lease) && n < |stores|
    ensures StoreInv(stores[n])
  {
    if n > 0 {
      RunKeepsStoreInv(stores, events, lease, n - 1);
      StepKeepsStoreInv(stores[n - 1], events[n - 1], lease);
    }
  }

  /** What a later table keeps of an earlier one: its cards, what they are for, and all that is DONE. */
  ghost predicate KeptAt(table: Table, later: Table, id: CardId)
    requires id in table
  {
    && id in later
    && later[id].labels == table[id].labels
    && later[id].metadata.parents == table[id].metadata.parents
    && later[id].metadata.qaProfile == table[id].metadata.qaProfile
    && (table[id].status == Done ==> later[id].status == Done)
  }

  ghost predicate Keeps(table: Table, later: Table) {
    later.Keys == table.Keys && forall id :: id in table ==> KeptAt(table, later, id)
  }

  lemma KeepsItself(table: Table)
    ensures Keeps(table, table)
  {
  }

  lemma ChangeKeeps(first: Table, table: Table, table': Table, id: CardId)
    requires Keeps(first, table) && Changes(table, table', id)
    ensures Keeps(first, table')
  {
    forall x | x in first ensures KeptAt(first, table', x) {
      assert KeptAt(first, table, x);
    }
  }

  lemma StepKeepsGated(first: Table, a: Store, e: AtomicEvent, lease: nat)
    requires StoreInv(a) && AtomicEnabled(a, e) && !e.AdminPut? && Gated(a.table) && Keeps(first, a.table)
    ensures var table' := AtomicNext(a, e, lease).table; Gated(table') && Keeps(first, table')
  {
    StepShape(a, e, lease);
    var table' := AtomicNext(a, e, lease).table;
    if table' != a.table {
      var id :| Changes(a.table, table', id);
      ChangeKeepsGated(a.table, table', id);
      ChangeKeeps(first, a.table, table', id);
    }
  }

  /** Gating over whole runs: in every reachable state the parents of a card that has left TODO are
      DONE, and what is DONE stays DONE. */
  lemma {:induction false} RunKeepsGated(stores: seq<Store>, events: seq<AtomicEvent>, lease: nat, m: nat, n: nat)
    requires GraphRun(stores, events, lease) && m <= n < |stores| && Gated(stores[m].table)
    ensures Gated(stores[n].table) && Keeps(stores[m].table, stores[n].table)
    decreases n
  {
    hide Gated;
    hide Keeps;
    hide AtomicNext;
    hide AtomicEnabled;
    hide StoreInv;
    if m == n {
      KeepsItself(stores[m].table);
    } else {
      RunKeepsGated(stores, events, lease, m, n - 1);
      RunKeepsStoreInv(stores, events, lease, n - 1);
      StepKeepsGated(stores[m].table, stores[n - 1], events[n - 1], lease);
    }
  }

  // ---------------------------------------------------------------- termination

  ghost predicate Covers(order: seq<CardId>, table: Table) {
    && (forall i, j :: 0 <= i < j < |order| ==> order[i] != order[j])
    && (forall id :: id in order <==> id in table)
  }

  ghost function Measure(table: Table, order: seq<CardId>): nat {
    if order == [] then 0
    else (if order[0] in table then Weight(table[order[0]]) else 0) + Measure(table, order[1..])
  }

  lemma {:induction false} MeasureAtOne(table: Table, table': Table, order: seq<CardId>, id: CardId)
    requires forall i, j :: 0 <= i < j < |order| ==> order[i] != order[j]
    requires id in table && id in table' && table' == table[id := table'[id]]
    ensures Measure(table', order) + (if id in order then Weight(table[id]) else 0)
         == Measure(table, order) + (if id in order then Weight(table'[id]) else 0)
  {
    if order != [] {
      MeasureAtOne(table, table', order[1..], id);
      assert order == [order[0]] + order[1..];
      if order[0] == id {
        assert forall j :: 0 < j < |order| ==> order[j] != id;
      }
    }
  }

  predicate IsProgress(table: Table, table': Table, e: AtomicEvent) {
    table' != table && !IsHeartbeat(e)
  }

  /** The steps that make progress: they change the board and are no heartbeats. */
  ghost function ProgressSteps(stores: seq<Store>, events: seq<AtomicEvent>, n: nat): nat
    requires n <= |events| < |stores|
  {
    if n == 0 then 0
    else
      var earlier := ProgressSteps(stores, events, n - 1);
      if IsProgress(stores[n - 1].table, stores[n].table, events[n - 1]) then earlier + 1 else earlier
  }

  lemma ChangeKeepsCovers(order: seq<CardId>, table: Table, table': Table, id: CardId)
    requires Covers(order, table) && Changes(table, table', id)
    ensures Covers(order, table')
  {
    assert table'.Keys == table.Keys;
  }

  lemma StepLowersMeasure(a: Store, e: AtomicEvent, lease: nat, order: seq<CardId>)
    requires StoreInv(a) && AtomicEnabled(a, e) && !e.AdminPut? && Covers(order, a.table)
    ensures var table' := AtomicNext(a, e, lease).table;
            && Covers(order, table')
            && Measure(table', order) + (if IsProgress(a.table, table', e) then 1 else 0) <= Measure(a.table, order)
  {
    var table' := AtomicNext(a, e, lease).table;
    StepShape(a, e, lease);
    if table' != a.table {
      var id :| Changes(a.table, table', id)
                && (if IsHeartbeat(e) then Weight(table'[id]) == Weight(a.table[id])
                    else Weight(table'[id]) < Weight(a.table[id]));
      ChangeKeepsCovers(order, a.table, table', id);
      MeasureAtOne(a.table, table', order, id);
    }
  }

  /** Every run makes at most as many progress steps as the measure of its first state. */
  lemma {:induction false} ProgressIsBounded(stores: seq<Store>, events: seq<AtomicEvent>, lease: nat,
                                             order: seq<CardId>, n: nat)
    requires GraphRun(stores, events, lease) && n <= |events| && Covers(order, stores[0].table)
    ensures Covers(order, stores[n].table)
    ensures ProgressSteps(stores, events, n) + Measure(stores[n].table, order) <= Measure(stores[0].table, order)
  {
    if n > 0 {
      ProgressIsBounded(stores, events, lease, order, n - 1);
      RunKeepsStoreInv(stores, events, lease, n - 1);
      StepLowersMeasure(stores[n - 1], events[n - 1], lease, order);
    }
  }

  // ---------------------------------------------------------------- quiescence

  ghost predicate OrderedAt(order: seq<CardId>, table: Table, i: nat)
    requires i < |order|
  {
    order[i] in table &&
    forall p :: p in table[order[i]].metadata.parents ==> p in order[..i]
  }

  /** Every card comes after its parents. */
  ghost predicate Ordered(order: seq<CardId>, table: Table) {
    forall i :: 0 <= i < |order| ==> OrderedAt(order, table, i)
  }

  ghost predicate WorkingStatuses(table: Table) {
    forall id :: id in table ==> table[id].status in {Todo, Ready, Running, Blocked, Done}
  }

  lemma {:induction false} FirstUnfinished(order: seq<CardId>, table: Table, n: nat) returns (i: nat)
    requires n <= |order| && forall k :: 0 <= k < |order| ==> order[k] in table
    requires exists k :: 0 <= k < n && table[order[k]].status != Done
    ensures i < n && table[order[i]].status != Done && forall k :: 0 <= k < i ==> table[order[k]].status == Done
  {
    i := 0;
    while table[order[i]].status == Done
      invariant 0 <= i < n
      invariant forall k :: 0 <= k < i ==> table[order[k]].status == Done
      invariant exists k :: i <= k < n && table[order[k]].status != Done
      decreases n - i
    {
      i := i + 1;
    }
  }

  /** When dispatch can promote nothing and no card is READY or RUNNING, every card is DONE or some
      card is BLOCKED: a workflow never gets stuck on its own dependencies. */
  lemma QuiescentIsFinishedOrBlocked(order: seq<CardId>, table: Table)
    requires Covers(order, table) && Ordered(order, table) && WorkingStatuses(table)
    requires forall id :: id in table ==>
      table[id].status != Ready && table[id].status != Running && !IsPromotable(table, id)
    ensures (forall id :: id in table ==> table[id].status == Done)
         || (exists id :: id in table && table[id].status == Blocked)
  {
    assert forall k :: 0 <= k < |order| ==> order[k] in order && order[k] in table;
    if id :| id in table && table[id].status != Done {
      var k :| 0 <= k < |order| && order[k] == id;
      var i := FirstUnfinished(order, table, |order|);
      var card := table[order[i]];
      assert OrderedAt(order, table, i);
      forall p | p in card.metadata.parents ensures IsDone(table, p) {
        var j :| 0 <= j < i && order[..i][j] == p;
      }
      assert IsPromotable(table, order[i]) <==> card.status == Todo;
    }
  }

  lemma {:induction false} RunKeepsStatuses(stores: seq<Store>, events: seq<AtomicEvent>, lease: nat, n: nat)
    requires GraphRun(stores, events, lease) && n < |stores| && WorkingStatuses(stores[0].table)
    ensures WorkingStatuses(stores[n].table)
  {
    if n > 0 {
      RunKeepsStatuses(stores, events, lease, n - 1);
      RunKeepsStoreInv(stores, events, lease, n - 1);
      StepShape(stores[n - 1], events[n - 1], lease);
      if stores[n].table != stores[n - 1].table {
        var id :| Changes(stores[n - 1].table, stores[n].table, id);
      }
    }
  }
}
