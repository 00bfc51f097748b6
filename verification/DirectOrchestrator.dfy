/** The direct card store as the object it is: a table of rows that its methods update in place. */
module DirectStore {
  import opened Wrappers
  import opened Text
  import opened Cards
  import opened CardBoard
  import opened LeaseProtocol

  /** The keyword arguments of `_update`. */
  datatype Changes = Changes(status: Option<QueueStatus>, agent: Option<string>, metadata: Option<Metadata>)

  function Updated(card: Card, changes: Changes): Card {
    card.(status := if changes.status.Some? then changes.status.value else card.status,
          agent := if changes.agent.Some? then changes.agent else card.agent,
          metadata := if changes.metadata.Some? then changes.metadata.value else card.metadata)
  }

  // ---------------------------------------------------------------- whole-board steps

  /** A claim that lease recovery takes back. */
  predicate IsOverdue(card: Card, at: int) {
    card.status == Running && card.metadata.claim.Some? && IsExpired(card.metadata.claim.value, at)
  }

  /** The table after lease recovery: every overdue card is released or blocked, nothing else changes. */
  ghost function RecoveredTable(table: Table, at: int): Table {
    map id | id in table ::
      if IsOverdue(table[id], at) then Recovered(table[id], table[id].metadata.claim.value) else table[id]
  }

  /** The table after the promotion loop: every waiting card with finished parents is READY. */
  ghost function PromotedTable(table: Table): Table {
    map id | id in table :: if IsPromotable(table, id) then Promoted(table[id]) else table[id]
  }

  /** The same two, for the rows before a position only. */
  ghost function RecoveredFirst(table: Table, rows: seq<CardId>, at: int): Table {
    map id | id in table ::
      if id in rows && IsOverdue(table[id], at) then Recovered(table[id], table[id].metadata.claim.value) else table[id]
  }

  ghost function PromotedFirst(table: Table, rows: seq<CardId>): Table {
    map id | id in table :: if id in rows && IsPromotable(table, id) then Promoted(table[id]) else table[id]
  }

  /** Promotion tests the rows it read before the loop; the live table gives the same answer. */
  lemma SnapshotTestIsLive(table: Table, rows: seq<CardId>, id: CardId)
    requires id in table && id !in rows
    ensures IsPromotable(PromotedFirst(table, rows), id) == IsPromotable(table, id)
    ensures id in PromotedFirst(table, rows) && PromotedFirst(table, rows)[id] == table[id]
    ensures PromotedFirst(table, rows + [id])
         == if IsPromotable(table, id) then PromotedFirst(table, rows)[id := Promoted(table[id])]
            else PromotedFirst(table, rows)
  {
    var m := PromotedFirst(table, rows);
    forall p ensures IsDone(m, p) == IsDone(table, p) {
    }
    assert forall x :: x in rows + [id] <==> x in rows || x == id;
  }

  lemma RecoverNext(table: Table, rows: seq<CardId>, id: CardId, at: int)
    requires id in table && id !in rows
    ensures RecoveredFirst(table, rows, at).Keys == table.Keys && RecoveredFirst(table, rows, at)[id] == table[id]
    ensures RecoveredFirst(table, rows + [id], at)
         == if IsOverdue(table[id], at)
            then RecoveredFirst(table, rows, at)[id := Recovered(table[id], table[id].metadata.claim.value)]
            else RecoveredFirst(table, rows, at)
  {
    assert forall x :: x in rows + [id] <==> x in rows || x == id;
  }

  /** One dispatch leaves nothing to do: no lease is overdue and no card can be promoted. */
  lemma DispatchSettles(table: Table, at: int, id: CardId)
    requires id in table
    ensures var after := PromotedTable(RecoveredTable(table, at));
            id in after && !IsOverdue(after[id], at) && !IsPromotable(after, id)
  {
    var t := RecoveredTable(table, at);
    forall p ensures IsDone(PromotedTable(t), p) == IsDone(t, p) {
    }
  }

  lemma FirstOfNone(table: Table, at: int)
    ensures RecoveredFirst(table, [], at) == table && PromotedFirst(table, []) == table
  {
  }

  lemma FirstOfAll(table: Table, rows: seq<CardId>, at: int)
    requires forall id :: id in table ==> id in rows
    ensures RecoveredFirst(table, rows, at) == RecoveredTable(table, at)
    ensures PromotedFirst(table, rows) == PromotedTable(table)
  {
  }

  /** The rows that lease recovery reports, in row order. */
  function OverdueRows(table: Table, rows: seq<CardId>, at: int): (r: seq<CardId>)
    ensures forall id :: id in r <==> id in rows && id in table && IsOverdue(table[id], at)
  {
    if rows == [] then []
    else
      var earlier := OverdueRows(table, rows[..|rows| - 1], at);
      var last := rows[|rows| - 1];
      if last in table && IsOverdue(table[last], at) then earlier + [last] else earlier
  }

  /** The rows that dispatch reports as promoted, in row order. */
  function PromotableRows(table: Table, rows: seq<CardId>): (r: seq<CardId>)
    ensures forall id :: id in r <==> id in rows && IsPromotable(table, id)
  {
    if rows == [] then []
    else
      var earlier := PromotableRows(table, rows[..|rows| - 1]);
      var last := rows[|rows| - 1];
      if IsPromotable(table, last) then earlier + [last] else earlier
  }

  /** One row further in the recovery loop. */
  lemma RecoverStep(table: Table, rows: seq<CardId>, i: nat, at: int)
    requires Distinct(rows) && i < |rows| && rows[i] in table
    ensures RecoveredFirst(table, rows[..i], at).Keys == table.Keys
    ensures RecoveredFirst(table, rows[..i], at)[rows[i]] == table[rows[i]]
    ensures RecoveredFirst(table, rows[..i + 1], at)
         == if IsOverdue(table[rows[i]], at)
            then RecoveredFirst(table, rows[..i], at)[
                   rows[i] := Recovered(table[rows[i]], table[rows[i]].metadata.claim.value)]
            else RecoveredFirst(table, rows[..i], at)
    ensures OverdueRows(table, rows[..i + 1], at)
         == OverdueRows(table, rows[..i], at) + (if IsOverdue(table[rows[i]], at) then [rows[i]] else [])
  {
    NextRow(rows, i);
    RecoverNext(table, rows[..i], rows[i], at);
  }

  ghost predicate Distinct(rows: seq<CardId>) {
    forall i, j :: 0 <= i < j < |rows| ==> rows[i] != rows[j]
  }

  lemma NextRow(rows: seq<CardId>, n: nat)
    requires Distinct(rows) && n < |rows|
    ensures rows[n] !in rows[..n] && rows[..n + 1] == rows[..n] + [rows[n]] && rows[..n + 1][..n] == rows[..n]
  {
  }

  // ---------------------------------------------------------------- dispatch in protocol steps

  ghost predicate RunFrom(a: Store, stores: seq<Store>, events: seq<AtomicEvent>, lease: nat) {
    && AtomicBehaviour(stores, events, lease) && stores[0] == a
    && forall i :: 0 <= i < |events| ==> !events[i].AdminPut?
  }

  lemma AppendStep(a: Store, stores: seq<Store>, events: seq<AtomicEvent>, e: AtomicEvent, lease: nat)
    returns (stores': seq<Store>, events': seq<AtomicEvent>)
    requires RunFrom(a, stores, events, lease) && AtomicEnabled(stores[|events|], e) && !e.AdminPut?
    ensures RunFrom(a, stores', events', lease)
    ensures stores'[|events'|] == AtomicNext(stores[|events|], e, lease)
  {
    stores' := stores + [AtomicNext(stores[|events|], e, lease)];
    events' := events + [e];
    forall i | 0 <= i < |events'|
      ensures AtomicEnabled(stores'[i], events'[i]) && stores'[i + 1] == AtomicNext(stores'[i], events'[i], lease)
    {
      if i < |events| {
        assert stores'[i] == stores[i] && stores'[i + 1] == stores[i + 1] && events'[i] == events[i];
      }
    }
  }

  lemma {:induction false} RecoveryRun(a: Store, rows: seq<CardId>, n: nat, lease: nat)
    returns (stores: seq<Store>, events: seq<AtomicEvent>)
    requires Distinct(rows) && n <= |rows| && forall id :: id in rows ==> id in a.table
    ensures RunFrom(a, stores, events, lease)
    ensures stores[|events|].now == a.now && stores[|events|].table == RecoveredFirst(a.table, rows[..n], a.now)
  {
    hide RecoveredFirst;
    hide IsExpired;
    if n == 0 {
      stores, events := [a], [];
      assert rows[..0] == [];
      FirstOfNone(a.table, a.now);
    } else {
      stores, events := RecoveryRun(a, rows, n - 1, lease);
      NextRow(rows, n - 1);
      assert rows[..n] == rows[..n - 1] + [rows[n - 1]];
      RecoverNext(a.table, rows[..n - 1], rows[n - 1], a.now);
      if IsOverdue(a.table[rows[n - 1]], a.now) {
        stores, events := AppendStep(a, stores, events, Work(RecoverEvent(rows[n - 1], a.now)), lease);
      }
    }
  }

  lemma {:induction false} PromotionRun(a: Store, first: seq<Store>, before: seq<AtomicEvent>, table: Table,
                                        rows: seq<CardId>, n: nat, lease: nat)
    returns (stores: seq<Store>, events: seq<AtomicEvent>)
    requires RunFrom(a, first, before, lease) && first[|before|].table == table
    requires Distinct(rows) && n <= |rows| && forall id :: id in rows ==> id in table
    ensures RunFrom(a, stores, events, lease) && stores[|events|].table == PromotedFirst(table, rows[..n])
  {
    hide PromotedFirst;
    if n == 0 {
      stores, events := first, before;
      assert rows[..0] == [];
      FirstOfNone(table, a.now);
    } else {
      stores, events := PromotionRun(a, first, before, table, rows, n - 1, lease);
      NextRow(rows, n - 1);
      assert rows[..n] == rows[..n - 1] + [rows[n - 1]];
      SnapshotTestIsLive(table, rows[..n - 1], rows[n - 1]);
      if IsPromotable(table, rows[n - 1]) {
        stores, events := AppendStep(a, stores, events, PromoteNow(rows[n - 1]), lease);
      }
    }
  }

  /** One dispatch is a run of the atomic system: a lease recovery for each overdue card, then a
      promotion for each card that can go. */
  lemma DispatchIsARun(a: Store, rows: seq<CardId>, lease: nat) returns (stores: seq<Store>, events: seq<AtomicEvent>)
    requires Distinct(rows) && forall id :: id in rows <==> id in a.table
    ensures RunFrom(a, stores, events, lease)
    ensures stores[|events|].table == PromotedTable(RecoveredTable(a.table, a.now))
  {
    assert rows[..|rows|] == rows;
    stores, events := RecoveryRun(a, rows, |rows|, lease);
    FirstOfAll(a.table, rows, a.now);
    var r := RecoveredTable(a.table, a.now);
    stores, events := PromotionRun(a, stores, events, r, rows, |rows|, lease);
    FirstOfAll(r, rows, a.now);
  }

  // ---------------------------------------------------------------- choosing the next card

  predicate IsWanted(card: Card, agent: Option<string>) {
    card.status == Ready && (agent.Some? ==> card.agent == agent)
  }

  /** The row that `claim_next_card` takes: the first wanted one that is not claimed. */
  ghost predicate IsNext(cards: seq<Card>, agent: Option<string>, i: nat) {
    && i < |cards| && IsWanted(cards[i], agent) && cards[i].metadata.claim.None?
    && forall k :: 0 <= k < i ==> !(IsWanted(cards[k], agent) && cards[k].metadata.claim.None?)
  }

  class DirectOrchestrator {
    const leaseSeconds: nat
    var order: seq<CardId>
    var cards: map<CardId, Card>
    var keys: map<CardKey, CardId>

    ghost function View(): Board
      reads this
    {
      Board(order, cards, keys)
    }

    ghost predicate Valid()
      reads this
    {
      CardBoard.Valid(View())
    }

    constructor (leaseSeconds: nat)
      requires leaseSeconds >= 1
      ensures Valid() && View() == EMPTY && this.leaseSeconds == leaseSeconds
    {
      this.leaseSeconds := leaseSeconds;
      order, cards, keys := [], map[], map[];
    }

    method ListCards() returns (listing: seq<Card>)
      requires Valid()
      ensures listing == Listing(View())
    {
      listing := [];
      for i := 0 to |order|
        invariant listing == Listing(View())[..i]
      {
        assert order[i] in order;
        listing := listing + [cards[order[i]]];
      }
    }

    /** A known key gives back its row untouched; a new key appends a row under `id`. */
    method CreateCard(spec: CardSpec, id: CardId) returns (card: Card)
      requires Valid() && (spec.key !in keys ==> id !in cards)
      modifies this
      ensures Valid() && View() == Create(old(View()), spec, id)
      ensures spec.key in keys && keys[spec.key] in cards && card == cards[keys[spec.key]]
    {
      if spec.key in keys {
        return cards[keys[spec.key]];
      }
      CreateKeepsValid(View(), spec, id);
      card := NewCard(spec, id);
      order := order + [id];
      cards := cards[id := card];
      keys := keys[spec.key := id];
    }

    method FindCard(id: CardId) returns (r: Result<Card, StoreError>)
      ensures r == if id in cards then Ok(cards[id]) else Err(UnknownCard)
    {
      r := if id in cards then Ok(cards[id]) else Err(UnknownCard);
    }

    method Update(id: CardId, changes: Changes) returns (r: Result<Card, StoreError>)
      requires Valid()
      modifies this`cards
      ensures Valid()
      ensures id in old(cards) ==> r == Ok(Updated(old(cards[id]), changes)) && View() == Put(old(View()), r.value)
      ensures id !in old(cards) ==> r == Err(UnknownCard) && View() == old(View())
    {
      r := FindCard(id);
      if r.Ok? {
        r := Ok(Updated(r.value, changes));
        PutKeepsValid(View(), r.value);
        cards := cards[id := r.value];
      }
    }

    method CompleteCard(id: CardId, proof: seq<ProofItem>) returns (r: Result<Card, StoreError>)
      requires Valid()
      modifies this`cards
      ensures Valid()
      ensures id in old(cards) ==> r == Ok(Completed(old(cards[id]), proof)) && View() == Put(old(View()), r.value)
      ensures id !in old(cards) ==> r == Err(UnknownCard) && View() == old(View())
    {
      r := FindCard(id);
      if r.Ok? {
        var metadata := r.value.metadata.(completed := true, proof := Some(proof));
        r := Update(id, Changes(Some(Done), None, Some(metadata)));
      }
    }

    method UnblockCard(id: CardId) returns (r: Result<Card, StoreError>)
      requires Valid()
      modifies this`cards
      ensures Valid()
      ensures id in old(cards) ==> r == Ok(Unblocked(old(cards[id]))) && View() == Put(old(View()), r.value)
      ensures id !in old(cards) ==> r == Err(UnknownCard) && View() == old(View())
    {
      r := FindCard(id);
      if r.Ok? {
        var metadata := r.value.metadata.(protocolDetail := "");
        metadata := metadata.(claim := None);
        r := Update(id, Changes(Some(Todo), None, Some(metadata)));
      }
    }

    method ReclaimCard(id: CardId, status: QueueStatus) returns (r: Result<Card, StoreError>)
      requires Valid()
      modifies this`cards
      ensures Valid()
      ensures id in old(cards) ==> r == Ok(Reclaimed(old(cards[id]), status)) && View() == Put(old(View()), r.value)
      ensures id !in old(cards) ==> r == Err(UnknownCard) && View() == old(View())
    {
      r := FindCard(id);
      if r.Ok? {
        r := Update(id, Changes(Some(status), None, Some(r.value.metadata.(claim := None))));
      }
    }

    method ReassignCard(id: CardId, agent: string, status: QueueStatus, resetFailures: bool)
      returns (r: Result<Card, StoreError>)
      requires Valid()
      modifies this`cards
      ensures Valid()
      ensures id in old(cards) ==>
        r == Ok(Reassigned(old(cards[id]), agent, status, resetFailures)) && View() == Put(old(View()), r.value)
      ensures id !in old(cards) ==> r == Err(UnknownCard) && View() == old(View())
    {
      r := FindCard(id);
      if r.Ok? {
        var metadata := r.value.metadata.(claim := None);
        if resetFailures {
          metadata := metadata.(failures := 0);
        }
        r := Update(id, Changes(Some(status), Some(agent), Some(metadata)));
      }
    }

    // -------------------------------------------------------------- worker transactions

    method ClaimCard(id: CardId, owner: string, token: string, now: int) returns (r: Result<Card, StoreError>)
      requires Valid()
      modifies this`cards
      ensures Valid()
      ensures match LeaseProtocol.ClaimCard(old(cards), id, owner, token, now, leaseSeconds)
              case Err(e) => r == Err(e) && cards == old(cards)
              case Ok(table) => cards == table && id in table && r == Ok(table[id])
    {
      if Strip(owner) == "" || token == "" {
        return Err(BadRequest);
      }
      r := FindCard(id);
      if r.Err? {
        return;
      }
      var card := r.value;
      if card.status != Ready {
        return Err(NotReady);
      }
      if card.metadata.claim.Some? {
        return Err(AlreadyClaimed);
      }
      var claim := Claim(owner, token, now, Some(now + leaseSeconds));
      card := card.(status := Running, metadata := card.metadata.(claim := Some(claim)));
      PutKeepsValid(View(), card);
      cards := cards[id := card];
      r := Ok(card);
    }

    /** `_claimed_update`: the guard shared by heartbeat, completion and block. */
    method ClaimedUpdate(id: CardId, owner: string, token: string, now: int, update: (Card, Claim) -> Card)
      returns (r: Result<Card, StoreError>)
      requires Valid() && forall card, claim :: update(card, claim).id == card.id
      modifies this`cards
      ensures Valid()
      ensures match HeldClaim(old(cards), id, owner, token, now)
              case Err(e) => r == Err(e) && cards == old(cards)
              case Ok(claim) => r == Ok(update(old(cards[id]), claim)) && cards == old(cards)[id := r.value]
    {
      r := FindCard(id);
      if r.Err? {
        return;
      }
      var card := r.value;
      if card.metadata.claim.None? {
        return Err(NoActiveClaim);
      }
      var claim := card.metadata.claim.value;
      if claim.owner != owner || claim.token != token {
        return Err(CredentialMismatch);
      }
      if claim.expiresAt.Some? && claim.expiresAt.value <= now {
        return Err(LeaseExpired);
      }
      card := update(card, claim);
      PutKeepsValid(View(), card);
      cards := cards[id := card];
      r := Ok(card);
    }

    method HeartbeatCard(id: CardId, owner: string, token: string, stamp: int, now: int)
      returns (r: Result<Card, StoreError>)
      requires Valid()
      modifies this`cards
      ensures Valid()
      ensures match LeaseProtocol.HeartbeatCard(old(cards), id, owner, token, now, stamp, leaseSeconds)
              case Err(e) => r == Err(e) && cards == old(cards)
              case Ok(table) => cards == table && id in table && r == Ok(table[id])
    {
      var lease := leaseSeconds;
      r := ClaimedUpdate(id, owner, token, now, (card: Card, claim: Claim) => Renewed(card, claim, stamp, lease));
    }

    method CompleteClaimedCard(id: CardId, owner: string, token: string, proof: seq<ProofItem>, now: int)
      returns (r: Result<Card, StoreError>)
      requires Valid()
      modifies this`cards
      ensures Valid()
      ensures match CompleteClaimed(old(cards), id, owner, token, now, proof)
              case Err(e) => r == Err(e) && cards == old(cards)
              case Ok(table) => cards == table && id in table && r == Ok(table[id])
    {
      r := ClaimedUpdate(id, owner, token, now, (card: Card, claim: Claim) => Finished(card, claim, proof));
    }

    method BlockClaimedCard(id: CardId, owner: string, token: string, reason: string, now: int)
      returns (r: Result<Card, StoreError>)
      requires Valid()
      modifies this`cards
      ensures Valid()
      ensures match BlockClaimed(old(cards), id, owner, token, now, reason)
              case Err(e) => r == Err(e) && cards == old(cards)
              case Ok(table) => cards == table && id in table && r == Ok(table[id])
    {
      r := ClaimedUpdate(id, owner, token, now, (card: Card, claim: Claim) => BlockedBy(card, claim, reason));
    }

    method CancelClaimedCard(id: CardId, requestedBy: string, reason: string) returns (r: Result<Card, StoreError>)
      requires Valid()
      modifies this`cards
      ensures Valid()
      ensures match CancelClaimed(old(cards), id, requestedBy, reason)
              case Err(e) => r == Err(e) && cards == old(cards)
              case Ok(table) => cards == table && id in table && r == Ok(table[id])
    {
      if Strip(requestedBy) == "" || Strip(reason) == "" {
        return Err(BadRequest);
      }
      r := FindCard(id);
      if r.Err? {
        return;
      }
      if r.value.metadata.claim.None? {
        return Err(NoActiveClaim);
      }
      var card := CancelledBy(r.value, r.value.metadata.claim.value, reason);
      PutKeepsValid(View(), card);
      cards := cards[id := card];
      r := Ok(card);
    }

    /** Claim the first READY card, in row order, that is meant for the agent and not claimed. */
    method ClaimNextCard(owner: string, token: string, agent: Option<string>, now: int)
      returns (r: Result<Option<Card>, StoreError>)
      requires Valid()
      modifies this`cards
      ensures Valid()
      ensures r.Ok? && r.value.None? ==> cards == old(cards) && forall i: nat :: !IsNext(old(Listing(View())), agent, i)
      ensures r.Ok? && r.value.Some? ==> (exists i: nat ::
        && i < |old(order)|
        && IsNext(old(Listing(View())), agent, i) && r.value.value.id == old(order[i])
        && LeaseProtocol.ClaimCard(old(cards), old(order[i]), owner, token, now, leaseSeconds) == Ok(cards))
      ensures r.Err? ==> r == Err(BadRequest) && cards == old(cards) && (Strip(owner) == "" || token == "")
    {
      var listing := ListCards();
      for i := 0 to |listing|
        invariant Valid() && cards == old(cards)
        invariant forall k :: 0 <= k < i ==> !(IsWanted(listing[k], agent) && listing[k].metadata.claim.None?)
      {
        var card := listing[i];
        ListingAt(View(), i);
        if card.status == Ready && !(agent.Some? && card.agent != agent) {
          var claimed := ClaimCard(card.id, owner, token, now);
          if claimed.Ok? {
            assert IsNext(listing, agent, i);
            return Ok(Some(claimed.value));
          }
          if claimed.error == BadRequest {
            return Err(BadRequest);
          }
        }
      }
      r := Ok(None);
    }

    // -------------------------------------------------------------- recovery and dispatch

    /** Lease recovery for one listed row: skip it unless it is overdue, then test again and write. */
    method RecoverRow(current: Card, observedAt: int) returns (done: bool)
      requires Valid() && current.id in cards && cards[current.id] == current
      modifies this`cards
      ensures Valid() && done == IsOverdue(current, observedAt)
      ensures cards
           == if done then old(cards)[current.id := Recovered(current, current.metadata.claim.value)] else old(cards)
    {
      if current.status != Running || current.metadata.claim.None?
        || !IsExpired(current.metadata.claim.value, observedAt) {
        return false;
      }
      var card := cards[current.id];
      if card.metadata.claim.None? || !IsExpired(card.metadata.claim.value, observedAt) {
        return false;
      }
      card := Recovered(card, card.metadata.claim.value);
      PutKeepsValid(View(), card);
      cards := cards[card.id := card];
      done := true;
    }

    /** Take back every overdue lease, one transaction for each. */
    method RecoverExpiredClaims(observedAt: int) returns (recovered: seq<CardId>)
      requires Valid()
      modifies this`cards
      ensures Valid() && cards == RecoveredTable(old(cards), observedAt)
      ensures recovered == OverdueRows(old(cards), order, observedAt)
    {
      var listing := ListCards();
      recovered := [];
      FirstOfNone(cards, observedAt);
      for i := 0 to |listing|
        invariant Valid() && cards == RecoveredFirst(old(cards), order[..i], observedAt)
        invariant recovered == OverdueRows(old(cards), order[..i], observedAt)
      {
        ListingAt(old(View()), i);
        assert order[i] in order;
        RecoverStep(old(cards), order, i, observedAt);
        var done := RecoverRow(listing[i], observedAt);
        if done {
          recovered := recovered + [listing[i].id];
        }
      }
      assert order[..|order|] == order;
      FirstOfAll(old(cards), order, observedAt);
    }

    /** The promotion loop, on the card list `snapshot` that it read. */
    method PromoteAll(snapshot: map<CardId, Card>) returns (promoted: seq<CardId>)
      requires Valid() && snapshot == cards
      modifies this`cards
      ensures Valid() && cards == PromotedTable(old(cards))
      ensures promoted == PromotableRows(old(cards), order)
    {
      hide PromotedFirst;
      promoted := [];
      FirstOfNone(snapshot, 0);
      for i := 0 to |order|
        invariant Valid() && cards == PromotedFirst(snapshot, order[..i])
        invariant promoted == PromotableRows(snapshot, order[..i])
      {
        NextRow(order, i);
        assert order[i] in order;
        SnapshotTestIsLive(snapshot, order[..i], order[i]);
        var card := snapshot[order[i]];
        if card.status == Todo && forall p | p in card.metadata.parents :: p in snapshot && snapshot[p].status == Done {
          var _ := Update(card.id, Changes(Some(Ready), None, None));
          promoted := promoted + [card.id];
        }
      }
      assert order[..|order|] == order;
      FirstOfAll(snapshot, order, 0);
    }

    /** Dispatch without an executor: recover leases, then promote by the card list read afterwards. */
    method Dispatch(now: int) returns (recovered: seq<CardId>, promoted: seq<CardId>)
      requires Valid()
      modifies this`cards
      ensures Valid() && cards == PromotedTable(RecoveredTable(old(cards), now))
      ensures recovered == OverdueRows(old(cards), order, now)
      ensures promoted == PromotableRows(RecoveredTable(old(cards), now), order)
    {
      recovered := RecoverExpiredClaims(now);
      promoted := PromoteAll(cards);
    }
  }
}
