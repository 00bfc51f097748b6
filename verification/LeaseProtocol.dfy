/**
 The lease protocol of the direct store, as a transition system.

 Claim, heartbeat, complete, block, cancel and lease recovery each run in one immediate
 transaction, so each is one atomic step.  Promotion and the administrative operations read and
 write in separate transactions; the repository lease lets one process at a time run them, but
 worker steps interleave with them freely.
 */
module LeaseProtocol {
  import opened Wrappers
  import opened Text
  import opened Cards
  import opened CardBoard

  type Table = map<CardId, Card>

  datatype StoreError =
    | UnknownCard | NotReady | AlreadyClaimed | NoActiveClaim | CredentialMismatch | LeaseExpired | BadRequest

  // ---------------------------------------------------------------- the transactions

  function Claimed(card: Card, owner: string, token: string, now: int, lease: nat): Card {
    card.(status := Running,
          metadata := card.metadata.(claim := Some(Claim(owner, token, now, Some(now + lease)))))
  }

  function ClaimCard(table: Table, id: CardId, owner: string, token: string, now: int, lease: nat)
    : Result<Table, StoreError>
  {
    if Strip(owner) == "" || token == "" then Err(BadRequest)
    else if id !in table then Err(UnknownCard)
    else if table[id].status != Ready then Err(NotReady)
    else if table[id].metadata.claim.Some? then Err(AlreadyClaimed)
    else Ok(table[id := Claimed(table[id], owner, token, now, lease)])
  }

  predicate IsExpired(claim: Claim, at: int) {
    claim.expiresAt.Some? && claim.expiresAt.value <= at
  }

  /** The guard of `_claimed_update`: the claim that the credentials still hold. */
  function HeldClaim(table: Table, id: CardId, owner: string, token: string, now: int): Result<Claim, StoreError> {
    if id !in table then Err(UnknownCard)
    else
      match table[id].metadata.claim
      case None => Err(NoActiveClaim)
      case Some(claim) =>
        if claim.owner != owner || claim.token != token then Err(CredentialMismatch)
        else if IsExpired(claim, now) then Err(LeaseExpired)
        else Ok(claim)
  }

  function Redacted(claim: Claim): PastClaim {
    PastClaim(claim.owner, claim.claimedAt, claim.expiresAt)
  }

  function Renewed(card: Card, claim: Claim, stamp: int, lease: nat): Card {
    card.(metadata := card.metadata.(claim := Some(claim.(expiresAt := Some(stamp + lease)))))
  }

  function Finished(card: Card, claim: Claim, proof: seq<ProofItem>): Card {
    card.(status := Done, metadata := card.metadata.(
      completed := true, proof := Some(proof), lastClaim := Some(Redacted(claim)), claim := None))
  }

  predicate IsTechnical(reason: string) {
    "TECHNICAL" <= Upper(Strip(reason))
  }

  function BlockedBy(card: Card, claim: Claim, reason: string): Card {
    card.(status := Blocked, metadata := card.metadata.(
      protocolDetail := reason, lastClaim := Some(Redacted(claim)), claim := None,
      failures := card.metadata.failures + (if IsTechnical(reason) then 1 else 0)))
  }

  function CancelledBy(card: Card, claim: Claim, reason: string): Card {
    card.(status := Blocked, metadata := card.metadata.(
      protocolDetail := "CANCELLED: " + reason, lastClaim := Some(Redacted(claim)), claim := None))
  }

  const LEASE_EXPIRED := "TECHNICAL: " + "direct worker lease expired without completion proof"

  /** Lease recovery: back to READY while the failures stay within the retry limit. */
  function Recovered(card: Card, claim: Claim): Card {
    var failures := card.metadata.failures + 1;
    card.(status := if failures <= RetryLimit(card, 0) then Ready else Blocked,
          metadata := card.metadata.(
            failures := failures, lastClaim := Some(Redacted(claim)), claim := None,
            protocolDetail := LEASE_EXPIRED))
  }

  function HeartbeatCard(table: Table, id: CardId, owner: string, token: string, now: int, stamp: int, lease: nat)
    : Result<Table, StoreError>
  {
    match HeldClaim(table, id, owner, token, now)
    case Err(e) => Err(e)
    case Ok(claim) => Ok(table[id := Renewed(table[id], claim, stamp, lease)])
  }

  function CompleteClaimed(table: Table, id: CardId, owner: string, token: string, now: int, proof: seq<ProofItem>)
    : Result<Table, StoreError>
  {
    match HeldClaim(table, id, owner, token, now)
    case Err(e) => Err(e)
    case Ok(claim) => Ok(table[id := Finished(table[id], claim, proof)])
  }

  function BlockClaimed(table: Table, id: CardId, owner: string, token: string, now: int, reason: string)
    : Result<Table, StoreError>
  {
    match HeldClaim(table, id, owner, token, now)
    case Err(e) => Err(e)
    case Ok(claim) => Ok(table[id := BlockedBy(table[id], claim, reason)])
  }

  function CancelClaimed(table: Table, id: CardId, requestedBy: string, reason: string): Result<Table, StoreError> {
    if Strip(requestedBy) == "" || Strip(reason) == "" then Err(BadRequest)
    else if id !in table then Err(UnknownCard)
    else
      match table[id].metadata.claim
      case None => Err(NoActiveClaim)
      case Some(claim) => Ok(table[id := CancelledBy(table[id], claim, reason)])
  }

  /** The transaction of `recover_expired_claims` for one card. */
  function RecoverClaim(table: Table, id: CardId, observedAt: int): Result<Table, StoreError> {
    if id !in table then Err(UnknownCard)
    else
      match table[id].metadata.claim
      case None => Err(NoActiveClaim)
      case Some(claim) =>
        if IsExpired(claim, observedAt) then Ok(table[id := Recovered(table[id], claim)]) else Err(NoActiveClaim)
  }

  // ---------------------------------------------------------------- the system

  datatype AdminOp =
    | AdminComplete(proof: seq<ProofItem>)
    | AdminUnblock
    | AdminReclaim(status: QueueStatus)
    | AdminReassign(agent: string, status: QueueStatus, resetFailures: bool)

  function AdminResult(card: Card, op: AdminOp): Card {
    match op
    case AdminComplete(proof) => Completed(card, proof)
    case AdminUnblock => Unblocked(card)
    case AdminReclaim(status) => Reclaimed(card, status)
    case AdminReassign(agent, status, reset) => Reassigned(card, agent, status, reset)
  }

  /** What the holder of the repository lease is doing between two of its transactions. */
  datatype Lessee =
    | Idle
    | Scanning(snapshot: Table, todo: set<CardId>)
    | Promoting(snapshot: Table, todo: set<CardId>, card: Card)
    | Prepared(id: CardId, planned: Card)
    | Writing(card: Card)

  /** `issued` are the tokens of all claims made so far. */
  datatype Sys = Sys(table: Table, now: int, issued: set<string>, lessee: Lessee)

  datatype Event =
    | Tick(elapsed: nat)
    | ClaimEvent(id: CardId, owner: string, token: string)
    | HeartbeatEvent(id: CardId, owner: string, token: string, stamp: int)
    | CompleteEvent(id: CardId, owner: string, token: string, proof: seq<ProofItem>)
    | BlockEvent(id: CardId, owner: string, token: string, reason: string)
    | CancelEvent(id: CardId, requestedBy: string, reason: string)
    | RecoverEvent(id: CardId, observedAt: int)
    | ScanStart
    | ScanRead(id: CardId)
    | ScanWrite
    | ScanEnd
    | AdminRead(id: CardId, op: AdminOp)
    | AdminReread
    | AdminWrite

  predicate IsDone(table: Table, id: CardId) {
    id in table && table[id].status == Done
  }

  /** The test of the dispatch loop on the card list it read. */
  predicate IsPromotable(table: Table, id: CardId) {
    && id in table
    && table[id].status == Todo
    && forall p | p in table[id].metadata.parents :: IsDone(table, p)
  }

  function Promoted(card: Card): Card {
    card.(status := Ready)
  }

  /** The store part of a worker step; a refused step changes nothing. */
  function WorkerResult(table: Table, now: int, e: Event, lease: nat): Result<Table, StoreError> {
    match e
    case ClaimEvent(id, owner, token) => ClaimCard(table, id, owner, token, now, lease)
    case HeartbeatEvent(id, owner, token, stamp) => HeartbeatCard(table, id, owner, token, now, stamp, lease)
    case CompleteEvent(id, owner, token, proof) => CompleteClaimed(table, id, owner, token, now, proof)
    case BlockEvent(id, owner, token, reason) => BlockClaimed(table, id, owner, token, now, reason)
    case CancelEvent(id, requestedBy, reason) => CancelClaimed(table, id, requestedBy, reason)
    case RecoverEvent(id, observedAt) => RecoverClaim(table, id, observedAt)
    case _ => Err(BadRequest)
  }

  predicate IsWorkerEvent(e: Event) {
    e.ClaimEvent? || e.HeartbeatEvent? || e.CompleteEvent? || e.BlockEvent? || e.CancelEvent? || e.RecoverEvent?
  }

  /** What the environment guarantees: unused tokens, a monotone clock, one lessee at a time that
      follows its program, and no administrative completion of a claimed card. */
  predicate Enabled(s: Sys, e: Event) {
    match e
    case ClaimEvent(_, _, token) => token !in s.issued
    case HeartbeatEvent(_, _, _, stamp) => stamp <= s.now
    case ScanStart => s.lessee.Idle?
    case ScanRead(id) =>
      s.lessee.Scanning? && id in s.lessee.todo && IsPromotable(s.lessee.snapshot, id) && id in s.table
    case ScanWrite => s.lessee.Promoting?
    case ScanEnd => s.lessee.Scanning?
    case AdminRead(id, op) =>
      && s.lessee.Idle? && id in s.table
      && AdminResult(s.table[id], op).status != Running
      && (op.AdminComplete? ==> s.table[id].metadata.claim.None?)
    case AdminReread => s.lessee.Prepared? && s.lessee.id in s.table
    case AdminWrite => s.lessee.Writing?
    case _ => true
  }

  function Next(s: Sys, e: Event, lease: nat): Sys
    requires Enabled(s, e)
  {
    match e
    case Tick(elapsed) => s.(now := s.now + elapsed)
    case ScanStart => s.(lessee := Scanning(s.table, s.table.Keys))
    case ScanRead(id) => s.(lessee := Promoting(s.lessee.snapshot, s.lessee.todo - {id}, s.table[id]))
    case ScanWrite =>
      s.(table := s.table[s.lessee.card.id := Promoted(s.lessee.card)],
         lessee := Scanning(s.lessee.snapshot, s.lessee.todo))
    case ScanEnd => s.(lessee := Idle)
    case AdminRead(id, op) => s.(lessee := Prepared(id, AdminResult(s.table[id], op)))
    case AdminReread =>
      var read := s.table[s.lessee.id];
      s.(lessee := Writing(read.(status := s.lessee.planned.status, agent := s.lessee.planned.agent,
                                 metadata := s.lessee.planned.metadata)))
    case AdminWrite => s.(table := s.table[s.lessee.card.id := s.lessee.card], lessee := Idle)
    case _ =>
      match WorkerResult(s.table, s.now, e, lease)
      case Err(_) => s
      case Ok(table) => s.(table := table, issued := if e.ClaimEvent? then s.issued + {e.token} else s.issued)
  }

  ghost predicate Behaviour(states: seq<Sys>, events: seq<Event>, lease: nat) {
    && |states| == |events| + 1
    && forall i :: 0 <= i < |events| ==>
         Enabled(states[i], events[i]) && states[i + 1] == Next(states[i], events[i], lease)
  }

  // ---------------------------------------------------------------- the invariant

  /** Rows are stored under their id, and a card is claimed exactly while it is RUNNING. */
  ghost predicate ClaimsMatch(table: Table) {
    forall id :: id in table ==>
      table[id].id == id && (table[id].metadata.claim.Some? <==> table[id].status == Running)
  }

  ghost predicate TokensIssued(table: Table, issued: set<string>) {
    forall id :: id in table && table[id].metadata.claim.Some? ==> table[id].metadata.claim.value.token in issued
  }

  /** What no worker step can take away from a scan: finished cards, and cards still waiting. */
  ghost predicate ScanHolds(table: Table, snapshot: Table, todo: set<CardId>) {
    && (forall id :: id in snapshot && snapshot[id].status == Done ==> id in table && table[id] == snapshot[id])
    && (forall id :: id in snapshot && id in todo && snapshot[id].status == Todo ==>
          id in table && table[id] == snapshot[id])
  }

  ghost predicate LesseeHolds(s: Sys) {
    match s.lessee
    case Idle => true
    case Scanning(snapshot, todo) => ScanHolds(s.table, snapshot, todo)
    case Promoting(snapshot, todo, card) =>
      && ScanHolds(s.table, snapshot, todo)
      && IsPromotable(s.table, card.id) && s.table[card.id] == card && card.id !in todo
    case Prepared(id, planned) => planned.metadata.claim.None? && planned.status != Running
    case Writing(card) => card.id in s.table && card.metadata.claim.None? && card.status != Running
  }

  ghost predicate Inv(s: Sys) {
    ClaimsMatch(s.table) && TokensIssued(s.table, s.issued) && LesseeHolds(s)
  }

  /** A worker step rewrites one card, and only a READY or a claimed one. */
  lemma WorkerStepIsLocal(s: Sys, e: Event, lease: nat)
    requires Inv(s) && IsWorkerEvent(e) && WorkerResult(s.table, s.now, e, lease).Ok?
    ensures e.id in s.table
    ensures var card := s.table[e.id];
            var table := WorkerResult(s.table, s.now, e, lease).value;
            && (card.status == Ready || card.status == Running)
            && e.id in table && table == s.table[e.id := table[e.id]]
            && table[e.id].id == e.id
            && table[e.id].metadata.parents == card.metadata.parents
            && (table[e.id].metadata.claim.Some? <==> table[e.id].status == Running)
            && (table[e.id].metadata.claim.Some? ==>
                  if e.ClaimEvent? then table[e.id].metadata.claim.value.token == e.token
                  else card.metadata.claim.Some?
                       && table[e.id].metadata.claim.value.token == card.metadata.claim.value.token)
  {
  }

  lemma WorkerStepKeepsInv(s: Sys, e: Event, lease: nat)
    requires Inv(s) && Enabled(s, e) && IsWorkerEvent(e)
    ensures Inv(Next(s, e, lease))
  {
    hide WorkerResult;
    if WorkerResult(s.table, s.now, e, lease).Ok? {
      WorkerStepIsLocal(s, e, lease);
    }
  }

  lemma LesseeStepKeepsInv(s: Sys, e: Event, lease: nat)
    requires Inv(s) && Enabled(s, e) && !IsWorkerEvent(e)
    ensures Inv(Next(s, e, lease))
  {
  }

  lemma StepKeepsInv(s: Sys, e: Event, lease: nat)
    requires Inv(s) && Enabled(s, e)
    ensures Inv(Next(s, e, lease))
  {
    if IsWorkerEvent(e) {
      WorkerStepKeepsInv(s, e, lease);
    } else {
      LesseeStepKeepsInv(s, e, lease);
    }
  }

  /** In every reachable state a card is claimed exactly while it is RUNNING, under an issued token. */
  lemma {:induction false} BehaviourKeepsInv(states: seq<Sys>, events: seq<Event>, lease: nat, n: nat)
    requires Behaviour(states, events, lease) && n < |states| && Inv(states[0])
    ensures Inv(states[n])
  {
    if n > 0 {
      BehaviourKeepsInv(states, events, lease, n - 1);
      StepKeepsInv(states[n - 1], events[n - 1], lease);
    }
  }

  // ---------------------------------------------------------------- fencing

  /** A token that was claimed with, and that no longer opens card `id`: its claim was released,
      cancelled, taken over or has expired. */
  ghost predicate IsDead(s: Sys, id: CardId, token: string) {
    && token in s.issued
    && (id in s.table && s.table[id].metadata.claim.Some? ==>
          var claim := s.table[id].metadata.claim.value;
          claim.token != token || IsExpired(claim, s.now))
  }

  /** A worker step that presents `token` for card `id`. */
  predicate Presents(e: Event, id: CardId, token: string) {
    && (e.ClaimEvent? || e.HeartbeatEvent? || e.CompleteEvent? || e.BlockEvent?)
    && e.id == id && e.token == token
  }

  lemma DeadStaysDead(s: Sys, e: Event, lease: nat, id: CardId, token: string)
    requires Inv(s) && Enabled(s, e) && IsDead(s, id, token)
    ensures IsDead(Next(s, e, lease), id, token)
  {
  }

  lemma DeadIsRefused(s: Sys, e: Event, lease: nat, id: CardId, token: string)
    requires Inv(s) && Enabled(s, e) && IsDead(s, id, token) && Presents(e, id, token)
    ensures WorkerResult(s.table, s.now, e, lease).Err? && Next(s, e, lease).table == s.table
  {
  }

  /** Fencing: once dead, a credential never changes its card again, under any interleaving. */
  lemma {:induction false} DeadCredentialNeverWrites(states: seq<Sys>, events: seq<Event>, lease: nat,
                                                     i: nat, j: nat, id: CardId, token: string)
    requires Behaviour(states, events, lease) && Inv(states[0])
    requires i <= j < |states| && IsDead(states[i], id, token)
    ensures IsDead(states[j], id, token)
    ensures j < |events| && Presents(events[j], id, token) ==>
      WorkerResult(states[j].table, states[j].now, events[j], lease).Err? && states[j + 1].table == states[j].table
    decreases j
  {
    BehaviourKeepsInv(states, events, lease, j);
    if i < j {
      DeadCredentialNeverWrites(states, events, lease, i, j - 1, id, token);
      BehaviourKeepsInv(states, events, lease, j - 1);
      DeadStaysDead(states[j - 1], events[j - 1], lease, id, token);
    }
    if j < |events| && Presents(events[j], id, token) {
      DeadIsRefused(states[j], events[j], lease, id, token);
    }
  }

  /** How a credential dies: by its own completion or block, or when another claim succeeds. */
  lemma FinishedIsDead(s: Sys, e: Event, lease: nat, token: string)
    requires Inv(s) && Enabled(s, e) && WorkerResult(s.table, s.now, e, lease).Ok? && token in s.issued
    requires || ((e.CompleteEvent? || e.BlockEvent?) && e.token == token)
             || e.CancelEvent? || e.RecoverEvent? || e.ClaimEvent?
    ensures IsDead(Next(s, e, lease), e.id, token)
  {
  }

  /** A claim ends at most once: of all completions and blocks that present one token for one card,
      in any interleaving, at most one succeeds. */
  lemma TokenFinishesOnce(states: seq<Sys>, events: seq<Event>, lease: nat, i: nat, j: nat, id: CardId, token: string)
    requires Behaviour(states, events, lease) && Inv(states[0]) && i < j < |events|
    requires Presents(events[i], id, token) && (events[i].CompleteEvent? || events[i].BlockEvent?)
    requires WorkerResult(states[i].table, states[i].now, events[i], lease).Ok?
    ensures Presents(events[j], id, token) ==> WorkerResult(states[j].table, states[j].now, events[j], lease).Err?
  {
    BehaviourKeepsInv(states, events, lease, i);
    assert token in states[i].issued;
    FinishedIsDead(states[i], events[i], lease, token);
    DeadCredentialNeverWrites(states, events, lease, i + 1, j, id, token);
  }

  /** A second successful claim of a card shuts out the first for good. */
  lemma LaterClaimFences(states: seq<Sys>, events: seq<Event>, lease: nat, i: nat, j: nat, k: nat, id: CardId)
    requires Behaviour(states, events, lease) && Inv(states[0]) && i < j < k < |events|
    requires events[i].ClaimEvent? && events[i].id == id
    requires WorkerResult(states[i].table, states[i].now, events[i], lease).Ok?
    requires events[j].ClaimEvent? && events[j].id == id
    requires WorkerResult(states[j].table, states[j].now, events[j], lease).Ok?
    ensures Presents(events[k], id, events[i].token) ==> states[k + 1].table == states[k].table
  {
    var token := events[i].token;
    IssuedStays(states, events, lease, i + 1, j, token);
    BehaviourKeepsInv(states, events, lease, j);
    FinishedIsDead(states[j], events[j], lease, token);
    DeadCredentialNeverWrites(states, events, lease, j + 1, k, id, token);
  }

  lemma {:induction false} IssuedStays(states: seq<Sys>, events: seq<Event>, lease: nat, i: nat, j: nat, token: string)
    requires Behaviour(states, events, lease) && i <= j < |states| && token in states[i].issued
    ensures token in states[j].issued
    decreases j
  {
    if i < j {
      IssuedStays(states, events, lease, i, j - 1, token);
    }
  }

  /** While a claim is live, only its own credential, a cancellation, the expiry of its lease or an
      administrative write changes the card. */
  lemma OnlyHolderWrites(s: Sys, e: Event, lease: nat, id: CardId)
    requires Inv(s) && Enabled(s, e) && id in s.table && s.table[id].metadata.claim.Some?
    requires id !in Next(s, e, lease).table || Next(s, e, lease).table[id] != s.table[id]
    ensures var claim := s.table[id].metadata.claim.value;
            || Presents(e, id, claim.token)
            || (e.CancelEvent? && e.id == id)
            || (e.RecoverEvent? && e.id == id && IsExpired(claim, e.observedAt))
            || (e.AdminWrite? && s.lessee.card.id == id)
  {
  }

  // ---------------------------------------------------------------- leases and failures over runs

  function WorkerOutcome(s: Sys, e: Event, lease: nat): Result<Table, StoreError> {
    WorkerResult(s.table, s.now, e, lease)
  }

  /** A successful claim or heartbeat protects the card: no recovery that observes a time before the
      end of the lease takes it back. */
  lemma LeaseProtects(s: Sys, e: Event, lease: nat, observedAt: int)
    requires Inv(s) && Enabled(s, e) && (e.ClaimEvent? || e.HeartbeatEvent?) && WorkerOutcome(s, e, lease).Ok?
    requires observedAt < (if e.ClaimEvent? then s.now else e.stamp) + lease
    ensures var after := Next(s, e, lease);
            Enabled(after, RecoverEvent(e.id, observedAt))
            && Next(after, RecoverEvent(e.id, observedAt), lease) == after
  {
  }

  /** A step that counts as a failure of the card: a technical block or a lease recovery that succeeds. */
  predicate IsFailure(s: Sys, e: Event, lease: nat, id: CardId) {
    && ((e.BlockEvent? && IsTechnical(e.reason)) || e.RecoverEvent?)
    && e.id == id && WorkerOutcome(s, e, lease).Ok?
  }

  ghost function FailuresBefore(states: seq<Sys>, events: seq<Event>, lease: nat, id: CardId, n: nat): nat
    requires n <= |events| <= |states|
  {
    if n == 0 then 0
    else
      var earlier := FailuresBefore(states, events, lease, id, n - 1);
      if IsFailure(states[n - 1], events[n - 1], lease, id) then earlier + 1 else earlier
  }

  lemma StepCountsFailures(s: Sys, e: Event, lease: nat, id: CardId)
    requires Inv(s) && Enabled(s, e) && !e.AdminWrite? && id in s.table
    ensures var after := Next(s, e, lease).table;
            && id in after
            && after[id].metadata.failures
               == s.table[id].metadata.failures + (if IsFailure(s, e, lease, id) then 1 else 0)
            && RetryLimit(after[id], 0) == RetryLimit(s.table[id], 0)
  {
  }

  /** The failure counter of a card is exactly the number of its technical blocks and lease recoveries,
      over every run without administrative writes. */
  lemma {:induction false} FailuresAreCounted(states: seq<Sys>, events: seq<Event>, lease: nat, id: CardId, n: nat)
    requires Behaviour(states, events, lease) && Inv(states[0]) && n <= |events| && id in states[0].table
    requires forall i :: 0 <= i < n ==> !events[i].AdminWrite?
    ensures id in states[n].table
    ensures states[n].table[id].metadata.failures
         == states[0].table[id].metadata.failures + FailuresBefore(states, events, lease, id, n)
    ensures RetryLimit(states[n].table[id], 0) == RetryLimit(states[0].table[id], 0)
  {
    if n > 0 {
      FailuresAreCounted(states, events, lease, id, n - 1);
      BehaviourKeepsInv(states, events, lease, n - 1);
      StepCountsFailures(states[n - 1], events[n - 1], lease, id);
    }
  }

  /** Lease recovery hands a card out again exactly while the failures of the run, this one included,
      stay within its retry limit; after that it blocks the card. */
  lemma RecoveryReleasesIff(states: seq<Sys>, events: seq<Event>, lease: nat, id: CardId, n: nat)
    requires Behaviour(states, events, lease) && Inv(states[0]) && n < |events| && id in states[0].table
    requires forall i :: 0 <= i < n ==> !events[i].AdminWrite?
    requires states[0].table[id].metadata.failures == 0
    requires events[n].RecoverEvent? && events[n].id == id && WorkerOutcome(states[n], events[n], lease).Ok?
    ensures id in states[n + 1].table
    ensures var after := states[n + 1].table[id].status;
            && (after == Ready
                <==> FailuresBefore(states, events, lease, id, n + 1) <= RetryLimit(states[0].table[id], 0))
            && (after == Ready || after == Blocked)
  {
    FailuresAreCounted(states, events, lease, id, n);
  }

  // ---------------------------------------------------------------- promotion refines an atomic step

  /** The store alone, without the lessee and its reads. */
  datatype Store = Store(table: Table, now: int, issued: set<string>)

  datatype AtomicEvent =
    | Elapse(elapsed: nat)
    | Work(event: Event)
    | PromoteNow(id: CardId)     // test the parents and release the card in one step
    | AdminPut(card: Card)
    | Stutter

  predicate AtomicEnabled(a: Store, e: AtomicEvent) {
    match e
    case Work(event) =>
      && IsWorkerEvent(event)
      && (event.ClaimEvent? ==> event.token !in a.issued)
      && (event.HeartbeatEvent? ==> event.stamp <= a.now)
    case PromoteNow(id) => IsPromotable(a.table, id)
    case AdminPut(card) => card.id in a.table && card.metadata.claim.None? && card.status != Running
    case _ => true
  }

  function AtomicNext(a: Store, e: AtomicEvent, lease: nat): Store
    requires AtomicEnabled(a, e)
  {
    match e
    case Elapse(elapsed) => a.(now := a.now + elapsed)
    case Work(event) =>
      (match WorkerResult(a.table, a.now, event, lease)
       case Err(_) => a
       case Ok(table) =>
         Store(table, a.now, if event.ClaimEvent? then a.issued + {event.token} else a.issued))
    case PromoteNow(id) => a.(table := a.table[id := Promoted(a.table[id])])
    case AdminPut(card) => a.(table := a.table[card.id := card])
    case Stutter => a
  }

  function StoreOf(s: Sys): Store {
    Store(s.table, s.now, s.issued)
  }

  /** The atomic step that a step of the split system stands for: reads are invisible. */
  function AtomicOf(s: Sys, e: Event): AtomicEvent
    requires Enabled(s, e)
  {
    match e
    case Tick(elapsed) => Elapse(elapsed)
    case ScanWrite => PromoteNow(s.lessee.card.id)
    case AdminWrite => AdminPut(s.lessee.card)
    case _ => if IsWorkerEvent(e) then Work(e) else Stutter
  }

  /** Whatever workers do between the reads and the write, the promoted card is still TODO and its
      parents are still DONE when it is written: the split promotion is an atomic one. */
  lemma StepRefinesAtomic(s: Sys, e: Event, lease: nat)
    requires Inv(s) && Enabled(s, e)
    ensures AtomicEnabled(StoreOf(s), AtomicOf(s, e))
    ensures StoreOf(Next(s, e, lease)) == AtomicNext(StoreOf(s), AtomicOf(s, e), lease)
  {
  }

  ghost predicate AtomicBehaviour(stores: seq<Store>, events: seq<AtomicEvent>, lease: nat) {
    && |stores| == |events| + 1
    && forall i :: 0 <= i < |events| ==>
         AtomicEnabled(stores[i], events[i]) && stores[i + 1] == AtomicNext(stores[i], events[i], lease)
  }

  ghost function StoresOf(states: seq<Sys>): seq<Store> {
    seq(|states|, i requires 0 <= i < |states| => StoreOf(states[i]))
  }

  ghost function AtomicEventsOf(states: seq<Sys>, events: seq<Event>): seq<AtomicEvent>
    requires |events| <= |states| && forall i :: 0 <= i < |events| ==> Enabled(states[i], events[i])
  {
    seq(|events|, i requires 0 <= i < |events| => AtomicOf(states[i], events[i]))
  }

  /** Every interleaving with split promotions is a run of the system with atomic promotions. */
  lemma BehaviourRefinesAtomic(states: seq<Sys>, events: seq<Event>, lease: nat)
    requires Behaviour(states, events, lease) && Inv(states[0])
    ensures AtomicBehaviour(StoresOf(states), AtomicEventsOf(states, events), lease)
  {
    var stores, labels := StoresOf(states), AtomicEventsOf(states, events);
    forall i | 0 <= i < |events|
      ensures AtomicEnabled(stores[i], labels[i]) && stores[i + 1] == AtomicNext(stores[i], labels[i], lease)
    {
      BehaviourKeepsInv(states, events, lease, i);
      StepRefinesAtomic(states[i], events[i], lease);
    }
  }
}
