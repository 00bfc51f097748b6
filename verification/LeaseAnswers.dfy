/** Which requests the store accepts, and what each accepted one leaves in the row; no other row changes. */
module LeaseAnswers {
  import opened Wrappers
  import opened Text
  import opened Cards
  import opened LeaseProtocol

  /** The new table differs from the old one in the row of one card. */
  ghost predicate OnlyRow(table: Table, after: Table, id: CardId) {
    id in table && after.Keys == table.Keys && forall x :: x in table && x != id ==> after[x] == table[x]
  }

  /** The row keeps its identity: id, labels, agent, parents, links, limit and comments. */
  ghost predicate SameWork(before: Card, after: Card) {
    && after.id == before.id && after.labels == before.labels && after.agent == before.agent
    && after.metadata.parents == before.metadata.parents && after.metadata.links == before.metadata.links
    && after.metadata.maxRetries == before.metadata.maxRetries && after.metadata.comments == before.metadata.comments
    && after.metadata.qaProfile == before.metadata.qaProfile && after.metadata.archived == before.metadata.archived
    && after.metadata.attempts == before.metadata.attempts && after.metadata.logs == before.metadata.logs
    && after.metadata.failureCount == before.metadata.failureCount
  }

  /** A claim is granted exactly to a named owner with a token, for a known READY card that nobody holds; it runs until
      its lease ends. */
  lemma ClaimIff(table: Table, id: CardId, owner: string, token: string, now: int, lease: nat)
    ensures ClaimCard(table, id, owner, token, now, lease).Ok?
       <==> && |Strip(owner)| > 0 && |token| > 0 && id in table
            && table[id].status == Ready && table[id].metadata.claim.None?
    ensures ClaimCard(table, id, owner, token, now, lease).Ok? ==>
      var after := ClaimCard(table, id, owner, token, now, lease).value;
      && OnlyRow(table, after, id) && SameWork(table[id], after[id]) && after[id].status == Running
      && after[id].metadata == table[id].metadata.(claim := Some(Claim(owner, token, now, Some(now + lease))))
  {
    hide Strip;
  }

  /** The credentials open the card: its claim is theirs and has not run out. */
  predicate Opens(table: Table, id: CardId, owner: string, token: string, now: int) {
    && id in table && table[id].metadata.claim.Some?
    && table[id].metadata.claim.value.owner == owner && table[id].metadata.claim.value.token == token
    && (table[id].metadata.claim.value.expiresAt.Some? ==> now < table[id].metadata.claim.value.expiresAt.value)
  }

  /** A heartbeat, a completion and a block are accepted exactly from credentials that open the card. */
  lemma HolderIsHeardIff(table: Table, id: CardId, owner: string, token: string, now: int, stamp: int, lease: nat,
                         proof: seq<ProofItem>, reason: string)
    ensures HeartbeatCard(table, id, owner, token, now, stamp, lease).Ok? <==> Opens(table, id, owner, token, now)
    ensures CompleteClaimed(table, id, owner, token, now, proof).Ok? <==> Opens(table, id, owner, token, now)
    ensures BlockClaimed(table, id, owner, token, now, reason).Ok? <==> Opens(table, id, owner, token, now)
  {
  }

  /** A heartbeat moves the end of the lease and nothing else. */
  lemma HeartbeatIs(table: Table, id: CardId, owner: string, token: string, now: int, stamp: int, lease: nat)
    requires Opens(table, id, owner, token, now)
    ensures var after := HeartbeatCard(table, id, owner, token, now, stamp, lease).value;
            && OnlyRow(table, after, id) && after[id].status == table[id].status && SameWork(table[id], after[id])
            && after[id].metadata == table[id].metadata.(
                 claim := Some(table[id].metadata.claim.value.(expiresAt := Some(stamp + lease))))
  {
  }

  function PastOf(claim: Claim): PastClaim {
    PastClaim(claim.owner, claim.claimedAt, claim.expiresAt)
  }

  /** A completion leaves the card DONE with the worker's proof, and the claim on record without its token. */
  lemma CompletionIs(table: Table, id: CardId, owner: string, token: string, now: int, proof: seq<ProofItem>)
    requires Opens(table, id, owner, token, now)
    ensures var after := CompleteClaimed(table, id, owner, token, now, proof).value;
            && OnlyRow(table, after, id) && after[id].status == Done && SameWork(table[id], after[id])
            && after[id].metadata == table[id].metadata.(
                 completed := true, proof := Some(proof), claim := None,
                 lastClaim := Some(PastOf(table[id].metadata.claim.value)))
  {
  }

  /** A block leaves the card BLOCKED under its reason, and counts as a failure if the reason says that it is
      technical. */
  lemma BlockIs(table: Table, id: CardId, owner: string, token: string, now: int, reason: string)
    requires Opens(table, id, owner, token, now)
    ensures var after := BlockClaimed(table, id, owner, token, now, reason).value;
            && OnlyRow(table, after, id) && after[id].status == Blocked && SameWork(table[id], after[id])
            && after[id].metadata == table[id].metadata.(
                 protocolDetail := reason, claim := None, lastClaim := Some(PastOf(table[id].metadata.claim.value)),
                 failures := if "TECHNICAL" <= Upper(Strip(reason)) then table[id].metadata.failures + 1
                             else table[id].metadata.failures)
  {
    hide Strip;
    hide Upper;
  }

  /** A cancellation is accepted exactly from a named requester with a reason, of a card that is held, by whomever; it
      counts as no failure. */
  lemma CancelIff(table: Table, id: CardId, requestedBy: string, reason: string)
    ensures CancelClaimed(table, id, requestedBy, reason).Ok?
       <==> && |Strip(requestedBy)| > 0 && |Strip(reason)| > 0
            && id in table && table[id].metadata.claim.Some?
    ensures CancelClaimed(table, id, requestedBy, reason).Ok? ==>
      var after := CancelClaimed(table, id, requestedBy, reason).value;
      && OnlyRow(table, after, id) && after[id].status == Blocked && SameWork(table[id], after[id])
      && after[id].metadata == table[id].metadata.(
           protocolDetail := "CANCELLED: " + reason, claim := None,
           lastClaim := Some(PastOf(table[id].metadata.claim.value)))
  {
    hide Strip;
  }

  /** Recovery takes a claim back exactly when its lease has ended by the time observed; the card is READY again while
      its failures, this one included, are within its limit, and BLOCKED after that. */
  lemma RecoverIff(table: Table, id: CardId, observedAt: int)
    ensures RecoverClaim(table, id, observedAt).Ok?
       <==> && id in table && table[id].metadata.claim.Some? && table[id].metadata.claim.value.expiresAt.Some?
            && table[id].metadata.claim.value.expiresAt.value <= observedAt
    ensures RecoverClaim(table, id, observedAt).Ok? ==>
      var before, after := table[id], RecoverClaim(table, id, observedAt).value;
      var limit := if before.metadata.maxRetries.Some? then before.metadata.maxRetries.value else 0;
      && OnlyRow(table, after, id) && SameWork(before, after[id])
      && after[id].status == (if before.metadata.failures < limit then Ready else Blocked)
      && after[id].metadata == before.metadata.(
           failures := before.metadata.failures + 1, claim := None, protocolDetail := LEASE_EXPIRED,
           lastClaim := Some(PastOf(before.metadata.claim.value)))
  {
  }

  /** What a refused request is told: that the card is unknown, that nobody holds it, that the credentials are others',
      or that the lease has run out, in this order. */
  lemma RefusalsAre(table: Table, id: CardId, owner: string, token: string, now: int, proof: seq<ProofItem>)
    requires !Opens(table, id, owner, token, now)
    ensures CompleteClaimed(table, id, owner, token, now, proof)
         == Err(if id !in table then UnknownCard
                else if table[id].metadata.claim.None? then NoActiveClaim
                else if table[id].metadata.claim.value.owner != owner || table[id].metadata.claim.value.token != token
                then CredentialMismatch
                else LeaseExpired)
  {
  }
}
