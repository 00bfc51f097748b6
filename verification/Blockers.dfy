/**
 From a worker's report to the reconciler's decision: what a worker gives as its reason is what a pass reads, and a
 card that is blocked for its owner stays blocked until an administrative write.
 */
module Blockers {
  import opened Wrappers
  import opened Text
  import opened Cards
  import opened CardBoard
  import opened Reconcile
  import opened ReconcileOps
  import opened ReconcileInvariant
  import opened ReconcileSafety
  import opened LeaseProtocol
  import opened PassOutcomes
  import opened PassRows
  import opened Qa
  import opened Workflow
  import opened MixedRuns
  import RetryBudget
  import RetryLabels

  // ---------------------------------------------------------------- whose blocker it is

  const OWNER_PREFIXES := ["USER_SECRET:", "GOAL_DIVERGENCE:", "EXTERNAL_ACCESS:", "HIGH_RISK_DECISION:", "CANCELLED:"]

  /** A reason that names the owner, in any case and after any blanks. */
  predicate IsForOwner(reason: string) {
    exists prefix | prefix in OWNER_PREFIXES :: prefix <= Upper(Strip(reason))
  }

  lemma OwnerReasonIff(reason: string)
    ensures ClassifyBlocker(reason) != Technical <==> IsForOwner(reason)
  {
    var normalized := Upper(Strip(reason));
    assert OWNER_PREFIXES[0] in OWNER_PREFIXES && OWNER_PREFIXES[1] in OWNER_PREFIXES
        && OWNER_PREFIXES[2] in OWNER_PREFIXES && OWNER_PREFIXES[3] in OWNER_PREFIXES
        && OWNER_PREFIXES[4] in OWNER_PREFIXES;
    hide Strip;
    hide Upper;
    if IsForOwner(reason) {
      var prefix :| prefix in OWNER_PREFIXES && prefix <= normalized;
      var k :| 0 <= k < |OWNER_PREFIXES| && OWNER_PREFIXES[k] == prefix;
    }
  }

  // ---------------------------------------------------------------- what a report leaves behind

  /** The card is released: BLOCKED, unclaimed, and with the claim on record but for its token. */
  ghost predicate IsReleasedBy(before: Card, after: Card) {
    && after.status == Blocked && after.metadata.claim.None? && before.metadata.claim.Some?
    && after.metadata.lastClaim == Some(PastClaim(before.metadata.claim.value.owner,
                                                  before.metadata.claim.value.claimedAt,
                                                  before.metadata.claim.value.expiresAt))
    && after.id == before.id && after.labels == before.labels && after.agent == before.agent
    && after.metadata.comments == before.metadata.comments && after.metadata.proof == before.metadata.proof
    && after.metadata.parents == before.metadata.parents
  }

  /** After an accepted block the reconciler reads the worker's reason, and takes the card for an owner's exactly if
      the reason names the owner. */
  lemma BlockIsRead(s: Sys, e: Event, lease: nat)
    requires Inv(s) && Enabled(s, e) && e.BlockEvent? && WorkerResult(s.table, s.now, e, lease).Ok?
    ensures e.id in s.table && e.id in Next(s, e, lease).table
    ensures var after := Next(s, e, lease).table[e.id];
            && IsReleasedBy(s.table[e.id], after)
            && (e.reason != "" ==> BlockReason(after) == e.reason && (IsOwnerBlocked(after) <==> IsForOwner(e.reason)))
            && (e.reason == "" ==> BlockReason(after) == BlockReason(
                  s.table[e.id].(metadata := s.table[e.id].metadata.(protocolDetail := ""))))
  {
    OwnerReasonIff(e.reason);
    hide ClassifyBlocker;
    hide IsForOwner;
  }

  /** A cancelled card reads as cancelled by its owner. */
  lemma CancelIsRead(s: Sys, e: Event, lease: nat)
    requires Inv(s) && Enabled(s, e) && e.CancelEvent? && WorkerResult(s.table, s.now, e, lease).Ok?
    ensures e.id in s.table && e.id in Next(s, e, lease).table
    ensures var after := Next(s, e, lease).table[e.id];
            && IsReleasedBy(s.table[e.id], after) && BlockReason(after) == "CANCELLED: " + e.reason
            && ClassifyBlocker(BlockReason(after)) == Cancellation && IsOwnerBlocked(after)
  {
    CancelIsCancellation(e.reason);
    hide ClassifyBlocker;
  }

  lemma {:induction false} StripKeeps(s: string, n: nat)
    requires 0 < n <= |s| && !IsSpace(s[0]) && !IsSpace(s[n - 1])
    ensures n <= |Strip(s)| && Strip(s)[..n] == s[..n]
  {
    assert LStripWhere(s, IsSpace) == s;
    RetryLabels.RStripKeeps(s, n);
  }

  lemma CancelIsCancellation(reason: string)
    ensures ClassifyBlocker("CANCELLED: " + reason) == Cancellation
  {
    var text := "CANCELLED: " + reason;
    assert text[0] == 'C' && text[9] == ':';
    StripKeeps(text, 10);
    assert text[..10] == "CANCELLED:";
    var normalized := Upper(Strip(text));
    assert normalized[..10] == Upper(Strip(text)[..10]) == "CANCELLED:";
    assert normalized[0] == 'C';
  }

  /** A lease that ran out for good leaves a technical blocker. */
  lemma ExpiryIsRead(s: Sys, e: Event, lease: nat)
    requires Inv(s) && Enabled(s, e) && e.RecoverEvent? && WorkerResult(s.table, s.now, e, lease).Ok?
    ensures e.id in s.table && e.id in Next(s, e, lease).table
    ensures var after := Next(s, e, lease).table[e.id];
            && after.metadata.claim.None? && BlockReason(after) == LEASE_EXPIRED && !IsOwnerBlocked(after)
            && after.metadata.lastClaim == Some(PastClaim(s.table[e.id].metadata.claim.value.owner,
                                                          s.table[e.id].metadata.claim.value.claimedAt,
                                                          s.table[e.id].metadata.claim.value.expiresAt))
  {
    ExpiryIsTechnical();
    hide ClassifyBlocker;
  }

  lemma ExpiryIsTechnical()
    ensures ClassifyBlocker(LEASE_EXPIRED) == Technical
  {
    var text := LEASE_EXPIRED;
    assert text[0] == "TECHNICAL: "[0] && text[9] == "TECHNICAL: "[9];
    StripKeeps(text, 10);
    var normalized := Upper(Strip(text));
    assert normalized[..10] == Upper(Strip(text)[..10]);
    assert normalized[0] == 'T';
  }

  /** A failure that the store counts is technical for the reconciler too; a report without a prefix is technical for
      the reconciler, and the store does not count it. */
  lemma CountedIsTechnical(s: Sys, e: Event, lease: nat)
    requires Inv(s) && Enabled(s, e) && e.BlockEvent? && WorkerResult(s.table, s.now, e, lease).Ok?
    ensures var before, after := s.table[e.id], Next(s, e, lease).table[e.id];
            after.metadata.failures
            == before.metadata.failures + (if "TECHNICAL" <= Upper(Strip(e.reason)) then 1 else 0)
    ensures "TECHNICAL" <= Upper(Strip(e.reason)) ==> ClassifyBlocker(e.reason) == Technical
  {
    var normalized := Upper(Strip(e.reason));
    if "TECHNICAL" <= normalized {
      assert normalized[0] == 'T';
    }
  }

  lemma UncountedTechnical()
    ensures ClassifyBlocker("tests failed") == Technical && !IsTechnical("tests failed")
  {
    StripKeeps("tests failed", 12);
    assert Upper(Strip("tests failed"))[1] == 'E' && Upper(Strip("tests failed"))[2] == 'S';
    assert Upper(Strip("tests failed"))[0] == 'T';
  }

  // ---------------------------------------------------------------- what is blocked for the owner stays so

  /** Blocked for the owner, and no repair that its gate could hand out again. */
  ghost predicate IsHeld(table: Table, id: CardId) {
    id in table && IsOwnerBlocked(table[id])
    && (CardStage(table[id]) != Some(Repair) || RepairToken(table[id]).None?)
  }

  /** A stretch of a history: worker steps, promotions, further cards and passes, in any order. */
  ghost predicate Stretch(name: CardKey -> CardId, fallback: nat, used: set<CardKey>, lease: nat,
                          plants: seq<Plant>, events: seq<MixedEvent>)
  {
    && |plants| == |events| + 1
    && MixedInv(name, fallback, used, map[], plants[0])
    && forall i :: 0 <= i < |events| ==> MixedStep(name, fallback, used, lease, plants[i], events[i], plants[i + 1])
  }

  lemma {:induction false} StretchKeepsInv(name: CardKey -> CardId, fallback: nat, used: set<CardKey>, lease: nat,
                                           plants: seq<Plant>, events: seq<MixedEvent>, n: nat)
    requires Stretch(name, fallback, used, lease, plants, events) && n < |plants|
    ensures MixedInv(name, fallback, used, map[], plants[n])
  {
    hide MixedInv;
    hide MixedStep;
    if n > 0 {
      StretchKeepsInv(name, fallback, used, lease, plants, events, n - 1);
      MixedStepKeeps(name, fallback, used, map[], lease, plants[n - 1], events[n - 1], plants[n]);
    }
  }

  lemma StoreLeavesBlocked(s: Sys, e: Event, lease: nat, id: CardId)
    requires Inv(s) && Enabled(s, e) && !e.AdminWrite? && id in s.table && s.table[id].status == Blocked
    ensures id in Next(s, e, lease).table && Next(s, e, lease).table[id] == s.table[id]
  {
  }

  lemma PassLeavesHeld(env: Env, b: Board, used: set<CardKey>, id: CardId)
    requires Sound(b, env.name, used) && ReconcileInvariant.Covers(used, PassOps(env, Listing(b)))
    requires IsHeld(b.cards, id)
    ensures id in Pass(env, b).cards && Pass(env, b).cards[id] == b.cards[id]
  {
    hide PassOps;
    hide Pass;
    hide IsOwnerBlocked;
    assert id in b.order;
    var i :| 0 <= i < |b.order| && b.order[i] == id;
    ListingAt(b, i);
    PassRowsGrow(env, b, used);
    PassLeavesAlone(env, b, used, i);
    ListingAt(Pass(env, b), i);
    assert Pass(env, b).order[i] in Pass(env, b).order;
  }

  lemma BoundedIsSound(name: CardKey -> CardId, fallback: nat, used: set<CardKey>, p: Plant)
    requires MixedInv(name, fallback, used, map[], p)
    ensures Inv(p.sys) && Sound(BoardOf(p), name, used) && RetryBudget.Bounded(BoardOf(p), name, fallback, used)
  {
  }

  lemma EnqueueLeavesRow(b: Board, spec: CardSpec, name: CardKey -> CardId, fallback: nat, used: set<CardKey>,
                         id: CardId)
    requires RetryBudget.Bounded(b, name, fallback, used) && spec.key in used && id in b.cards
    ensures var b' := CardBoard.Create(b, spec, name(spec.key)); id in b'.cards && b'.cards[id] == b.cards[id]
  {
    hide RetryBudget.Bounded;
    if spec.key !in b.keys {
      NewIdIsFresh(b, name, fallback, used, spec.key);
    }
  }

  lemma StepLeavesHeld(name: CardKey -> CardId, fallback: nat, used: set<CardKey>, lease: nat,
                       p: Plant, e: MixedEvent, p': Plant, id: CardId)
    requires MixedInv(name, fallback, used, map[], p) && MixedStep(name, fallback, used, lease, p, e, p')
    requires IsHeld(p.sys.table, id)
    ensures id in p'.sys.table && p'.sys.table[id] == p.sys.table[id]
  {
    hide MixedInv;
    hide Inv;
    hide Enabled;
    hide Next;
    hide Sound;
    hide RetryBudget.Bounded;
    hide PassOps;
    hide Pass;
    BoundedIsSound(name, fallback, used, p);
    match e
    case StoreStep(event) => StoreLeavesBlocked(p.sys, event, lease, id);
    case PassStep(env) => PassLeavesHeld(env, BoardOf(p), used, id);
    case EnqueueStep(spec) => EnqueueLeavesRow(BoardOf(p), spec, name, fallback, used, id);
  }

  /** Over every stretch without administrative writes a card that is blocked for its owner stays exactly as it is. */
  lemma {:induction false} HeldStaysHeld(name: CardKey -> CardId, fallback: nat, used: set<CardKey>, lease: nat,
                                         plants: seq<Plant>, events: seq<MixedEvent>, m: nat, n: nat, id: CardId)
    requires Stretch(name, fallback, used, lease, plants, events) && m <= n < |plants|
    requires IsHeld(plants[m].sys.table, id)
    ensures id in plants[n].sys.table && plants[n].sys.table[id] == plants[m].sys.table[id]
    decreases n
  {
    hide MixedInv;
    hide MixedStep;
    hide IsOwnerBlocked;
    if m < n {
      HeldStaysHeld(name, fallback, used, lease, plants, events, m, n - 1, id);
      StretchKeepsInv(name, fallback, used, lease, plants, events, n - 1);
      StepLeavesHeld(name, fallback, used, lease, plants[n - 1], events[n - 1], plants[n], id);
    }
  }

  /** A worker step of the stretch that blocks a card for its owner, or a cancellation. */
  ghost predicate GivesUp(p: Plant, e: MixedEvent, lease: nat) {
    && e.StoreStep? && WorkerResult(p.sys.table, p.sys.now, e.event, lease).Ok?
    && ((e.event.BlockEvent? && e.event.reason != "" && IsForOwner(e.event.reason)) || e.event.CancelEvent?)
  }

  function GivenReason(e: Event): string
    requires e.BlockEvent? || e.CancelEvent?
  {
    if e.BlockEvent? then e.reason else "CANCELLED: " + e.reason
  }

  lemma GivenUpIsHeld(p: Plant, e: Event, lease: nat)
    requires Inv(p.sys) && Enabled(p.sys, e) && GivesUp(p, StoreStep(e), lease)
    ensures e.id in Next(p.sys, e, lease).table && e.id in p.sys.table
    ensures var after := Next(p.sys, e, lease).table[e.id];
            && IsReleasedBy(p.sys.table[e.id], after) && IsOwnerBlocked(after)
            && BlockReason(after) == GivenReason(e)
  {
    hide Inv;
    hide Enabled;
    hide IsForOwner;
    hide IsReleasedBy;
    hide IsOwnerBlocked;
    hide BlockReason;
    hide Next;
    if e.BlockEvent? {
      BlockIsRead(p.sys, e, lease);
    } else {
      CancelIsRead(p.sys, e, lease);
    }
  }

  /** What a worker gives up for its owner, or an operator cancels, stays BLOCKED and unclaimed under the reason given,
      whatever workers, promotions and passes do after it. */
  lemma GivenUpStaysBlocked(name: CardKey -> CardId, fallback: nat, used: set<CardKey>, lease: nat,
                            plants: seq<Plant>, events: seq<MixedEvent>, i: nat, n: nat)
    requires Stretch(name, fallback, used, lease, plants, events) && i < n < |plants|
    requires GivesUp(plants[i], events[i], lease)
    requires events[i].event.id in plants[i].sys.table ==>
               CardStage(plants[i].sys.table[events[i].event.id]) != Some(Repair)
    ensures var id := events[i].event.id;
            && id in plants[n].sys.table && plants[n].sys.table[id].status == Blocked
            && plants[n].sys.table[id].metadata.claim.None?
            && BlockReason(plants[n].sys.table[id]) == GivenReason(events[i].event)
  {
    hide MixedInv;
    hide Inv;
    hide Enabled;
    hide GivesUp;
    hide BlockReason;
    hide GivenReason;
    hide Next;
    StretchKeepsInv(name, fallback, used, lease, plants, events, i);
    BoundedIsSound(name, fallback, used, plants[i]);
    GivesUpIsStep(plants[i], events[i], lease);
    var e := events[i].event;
    assert MixedStep(name, fallback, used, lease, plants[i], events[i], plants[i + 1]);
    GivenUpIsHeld(plants[i], e, lease);
    HeldStaysHeld(name, fallback, used, lease, plants, events, i + 1, n, e.id);
  }

  lemma GivesUpIsStep(p: Plant, e: MixedEvent, lease: nat)
    requires GivesUp(p, e, lease)
    ensures e.StoreStep? && (e.event.BlockEvent? || e.event.CancelEvent?)
  {
  }

  // ---------------------------------------------------------------- a budget that is never used up

  lemma NoRecordNoBudgetUsed(env: Env, card: Card)
    requires IsOrdinary(card) && card.metadata.failureCount.None? && card.metadata.attempts.None?
    ensures IsWithinBudget(env, card)
  {
  }

  /** The store counts failures where the reconciler does not look: in every reachable state every pass hands the
      stalled work of a workflow with at least one retry out again, however often it has failed, and never asks
      the captain to recover it. */
  lemma StalledWorkIsAlwaysHandedOut(job: Job, sel: Selection, env: Env, used: set<CardKey>, lease: nat,
                                     plants: seq<Plant>, events: seq<MixedEvent>, n: nat, i: nat)
    requires MixedRun(job, sel, env.name, used, lease, plants, events) && n < |plants| && job.maxRetries >= 1
    requires Valid(BoardOf(plants[n])) && i < |plants[n].order| && plants[n].order[i] in plants[0].sys.table
    requires ReconcileInvariant.Covers(used, PassOps(env, Listing(BoardOf(plants[n]))))
    requires IsStalledWork(env, Listing(BoardOf(plants[n])), Listing(BoardOf(plants[n]))[i])
    ensures var b, after := BoardOf(plants[n]), Pass(env, BoardOf(plants[n]));
            && Valid(after) && i < |after.order| && Listing(after)[i] == HandedOut(Listing(b)[i])
            && !GainsRecovery(b, after, Listing(b)[i].id)
  {
    hide MixedRun;
    hide MixedInv;
    hide PassOps;
    hide Pass;
    hide IsStalledWork;
    hide IsOrdinaryTable;
    hide IsOrdinary;
    hide GainsRecovery;
    var b := BoardOf(plants[n]);
    RunStartsSound(job, sel, env.name, used, lease, plants, events);
    RunKeepsMixedInv(job, sel, env.name, used, lease, plants, events, 0, n);
    InvIsSound(env.name, job.maxRetries, used, plants[0].sys.table, plants[n]);
    ListingAt(b, i);
    assert StaysBuilt(plants[0].sys.table, plants[n].sys.table, b.order[i]);
    BuiltStaysOrdinary(plants[0].sys.table, plants[n].sys.table, b.order[i]);
    NoRecordNoBudgetUsed(env, Listing(b)[i]);
    StalledRow(env, b, used, i);
    StalledGainsIff(env, b, used, i);
  }

  lemma InvIsSound(name: CardKey -> CardId, fallback: nat, used: set<CardKey>, built: Table, p: Plant)
    requires MixedInv(name, fallback, used, built, p)
    ensures Sound(BoardOf(p), name, used) && AllStayBuilt(built, p.sys.table)
  {
  }
}
