/**
 One pass of `WorkflowOrchestrator.reconcile`.

 Every decision is taken from the card list read at the start of the pass; the operations it
 yields are applied to the board as it changes.  A pass is therefore a list of operations that
 is a function of the snapshot, folded over the live board.
 */
module Reconcile {
  import opened Wrappers
  import opened Cards
  import opened CardBoard
  import opened RetryChain

  /** The live completion gate: absent, or the ids it accepts in this pass. */
  datatype Validator = NoValidator(required: bool) | Live(accepts: set<CardId>)

  /** Configuration and environment of a pass; `name` is the id a newly created key receives. */
  datatype Env = Env(
    policy: CompletionPolicy,
    maxRetries: nat,
    repo: string,
    captain: string,
    workerFor: WorkStage -> string,
    deterministicMerge: bool,
    validator: Validator,
    name: CardKey -> CardId)

  datatype Op =
    | CompleteOp(id: CardId, proof: seq<ProofItem>)
    | ReclaimOp(id: CardId, status: QueueStatus)
    | ReassignOp(id: CardId, agent: string)
    | CreateOp(spec: CardSpec)
    | CreateReadyOp(spec: CardSpec)   // create_card, then reclaim unless the returned card is READY

  // ---------------------------------------------------------------- reading the snapshot

  predicate IsOpen(card: Card) {
    !card.metadata.archived && card.status != Done && card.status != Blocked
  }

  function RetriesOf(cards: seq<Card>, source: CardId): seq<Card> {
    if cards == [] then []
    else
      var earlier := RetriesOf(cards[..|cards| - 1], source);
      if IsRetryFor(cards[|cards| - 1], source) then earlier + [cards[|cards| - 1]] else earlier
  }

  function RepairsOf(cards: seq<Card>, gate: CardId): seq<Card> {
    if cards == [] then []
    else
      var earlier := RepairsOf(cards[..|cards| - 1], gate);
      if IsRepairFor(cards[|cards| - 1], gate) then earlier + [cards[|cards| - 1]] else earlier
  }

  function RecoveriesOf(cards: seq<Card>, failed: CardId): seq<Card> {
    if cards == [] then []
    else
      var earlier := RecoveriesOf(cards[..|cards| - 1], failed);
      if IsRecoveryFor(cards[|cards| - 1], failed) then earlier + [cards[|cards| - 1]] else earlier
  }

  /** The first card at or after `from` whose id starts with `token`. */
  function FirstNamed(cards: seq<Card>, token: string, from: nat): (r: Option<nat>)
    requires from <= |cards|
    ensures r.Some? ==> r.value < |cards|
    decreases |cards| - from
  {
    if from == |cards| then None
    else if token <= cards[from].id then Some(from)
    else FirstNamed(cards, token, from + 1)
  }

  predicate IsProvenDescendant(env: Env, cards: seq<Card>, item: Card, source: CardId) {
    Descends(TagsOf(cards), TagOf(item), source) && HasValidProof(env.policy, item)
  }

  /** The retry whose proof is promoted: the first descendant with a valid proof. */
  function FirstProven(env: Env, cards: seq<Card>, source: CardId, from: nat): (r: Option<nat>)
    requires from <= |cards|
    ensures r.Some? ==> r.value < |cards| && IsProvenDescendant(env, cards, cards[r.value], source)
    ensures r.None? ==> forall i :: from <= i < |cards| ==> !IsProvenDescendant(env, cards, cards[i], source)
    decreases |cards| - from
  {
    if from == |cards| then None
    else if IsProvenDescendant(env, cards, cards[from], source) then Some(from)
    else FirstProven(env, cards, source, from + 1)
  }

  /** `_active_retry`, and equally the live retry that `_create_fresh_retry` looks for. */
  function ActiveRetry(cards: seq<Card>, source: CardId, from: nat): (r: Option<nat>)
    requires from <= |cards|
    ensures r.Some? ==> r.value < |cards| && IsOpen(cards[r.value]) && IsRetryFor(cards[r.value], source)
    ensures r.None? ==> forall i :: from <= i < |cards| ==> !(IsOpen(cards[i]) && IsRetryFor(cards[i], source))
    decreases |cards| - from
  {
    if from == |cards| then None
    else if IsOpen(cards[from]) && IsRetryFor(cards[from], source) then Some(from)
    else ActiveRetry(cards, source, from + 1)
  }

  predicate HasOpenRecovery(cards: seq<Card>, failed: CardId) {
    exists c | c in cards :: IsOpen(c) && IsRecoveryFor(c, failed)
  }

  /** `_has_valid_completion`: final reviews and QA cards also need the live gate. */
  predicate HasValidCompletion(env: Env, card: Card) {
    && HasValidProof(env.policy, card)
    && (NeedsLiveGate(card) ==>
          match env.validator
          case NoValidator(required) => !required
          case Live(accepts) => card.id in accepts)
  }

  predicate NeedsLiveGate(card: Card) {
    || CardStage(card) == Some(FinalReview)
    || ((CardStage(card) == Some(Test) || CardStage(card) == Some(UxReview)) && card.metadata.qaProfile != "")
  }

  predicate StandsFor(cards: seq<Card>, candidate: Card, parent: CardId) {
    parent <= candidate.id || Descends(TagsOf(cards), TagOf(candidate), parent)
  }

  /** `_has_valid_merge_predecessor`. */
  predicate HasValidMergePredecessor(env: Env, card: Card, cards: seq<Card>) {
    exists c | c in cards ::
      && c.status == Done
      && CardStage(c) == Some(FinalReview)
      && (WorkflowLabel(card).None? || WorkflowLabel(c) == WorkflowLabel(card))
      && HasValidProof(env.policy, c)
      && (card.metadata.links == [] || exists p | p in card.metadata.links :: StandsFor(cards, c, p))
  }

  predicate HasValidPredecessors(env: Env, card: Card, cards: seq<Card>) {
    && card.metadata.links != []
    && forall p | p in card.metadata.links ::
         exists c | c in cards :: c.status == Done && HasValidCompletion(env, c) && StandsFor(cards, c, p)
  }

  predicate TargetIsSettled(env: Env, target: Card, cards: seq<Card>) {
    if target.status == Done then
      HasValidProof(env.policy, target) || FirstProven(env, cards, target.id, 0).Some?
    else
      target.status == Blocked && IsCancelled(target)
  }

  function NamedCard(cards: seq<Card>, token: Option<string>): Option<Card> {
    if token.None? || token.value == "" then None
    else
      match FirstNamed(cards, token.value, 0)
      case None => None
      case Some(i) => Some(cards[i])
  }

  predicate RepairIsObsolete(env: Env, card: Card, cards: seq<Card>) {
    var target := NamedCard(cards, RepairToken(card));
    target.Some? && TargetIsSettled(env, target.value, cards)
  }

  predicate RecoveryIsObsolete(env: Env, card: Card, cards: seq<Card>) {
    var target := NamedCard(cards, RecoveryToken(card));
    && target.Some?
    && (if CardStage(target.value) == Some(Merge) then HasValidMergePredecessor(env, target.value, cards)
        else TargetIsSettled(env, target.value, cards))
  }

  /** `_protocol_retry_exhausted`. */
  predicate RetryExhausted(env: Env, card: Card, cards: seq<Card>) {
    Depth(TagsOf(cards), TagOf(card)) + |RetriesOf(cards, card.id)| >= RetryLimit(card, env.maxRetries)
  }

  // ---------------------------------------------------------------- new cards

  function BoundedLabels(labels: seq<string>): seq<string> {
    seq(|labels|, i requires 0 <= i < |labels| => BoundedLabel(labels[i]))
  }

  function RetrySpec(env: Env, card: Card, cards: seq<Card>): CardSpec
    requires CardStage(card).Some?
  {
    CardSpec(
      RetryKey(card.id, |RetriesOf(cards, card.id)| + 1),
      Ready,
      BoundedLabels(card.labels + [RetryLabel(card.id)]),
      if CardStage(card) == Some(Merge) && env.deterministicMerge then None
      else if card.agent.Some? && card.agent.value != "" then card.agent
      else Some(env.workerFor(CardStage(card).value)),
      card.metadata.links,
      env.maxRetries,
      card.metadata.qaProfile)
  }

  function RepairSpec(env: Env, card: Card): CardSpec {
    CardSpec(
      RepairKey(card.id, FailureCount(card)),
      Ready,
      ["make_it_so", "repo:" + env.repo]
      + (match WorkflowLabel(card) case None => [] case Some(workflow) => [workflow])
      + ["stage:repair", RepairLabel(card.id)],
      Some(env.workerFor(Repair)), [], env.maxRetries, "")
  }

  function RecoverySpec(env: Env, failed: Card, cards: seq<Card>): CardSpec {
    CardSpec(
      RecoveryKey(failed.id, |RecoveriesOf(cards, failed.id)| + 1),
      Ready,
      ["make_it_so", "repo:" + env.repo, "stage:control_plane_action", RecoveryLabel(failed.id)],
      Some(env.captain), [], env.maxRetries, "")
  }

  /** `_create_fresh_retry`: an open retry is reused. */
  function FreshRetryOps(env: Env, card: Card, cards: seq<Card>): seq<Op>
    requires CardStage(card).Some?
  {
    if ActiveRetry(cards, card.id, 0).Some? then [] else [CreateReadyOp(RetrySpec(env, card, cards))]
  }

  /** `_create_control_plane_recovery`: an open recovery is reused. */
  function RecoveryOps(env: Env, failed: Card, cards: seq<Card>): seq<Op> {
    if HasOpenRecovery(cards, failed.id) then [] else [CreateReadyOp(RecoverySpec(env, failed, cards))]
  }

  /** The guarded retry of a card without proof: reuse, give up to recovery, or retry. */
  function GuardedRetryOps(env: Env, card: Card, cards: seq<Card>): seq<Op>
    requires CardStage(card).Some?
  {
    match ActiveRetry(cards, card.id, 0)
    case Some(i) => if RetryExhausted(env, cards[i], cards) then RecoveryOps(env, cards[i], cards) else []
    case None =>
      if RetryExhausted(env, card, cards) then RecoveryOps(env, card, cards)
      else FreshRetryOps(env, card, cards)
  }

  /** `_recover_card`: reclaim within the budget, hand over to the captain beyond it. */
  function RecoverCardOps(env: Env, card: Card): seq<Op> {
    if FailureCount(card) <= RetryLimit(card, env.maxRetries) then [ReclaimOp(card.id, Ready)]
    else [ReassignOp(card.id, env.captain)]
  }

  function CancelOps(repairs: seq<Card>): seq<Op> {
    if repairs == [] then []
    else
      var earlier := CancelOps(repairs[..|repairs| - 1]);
      var repair := repairs[|repairs| - 1];
      if IsWaiting(repair) || repair.status == Blocked then earlier + [ReclaimOp(repair.id, Blocked)]
      else earlier
  }

  // ---------------------------------------------------------------- decisions

  predicate IsWaiting(card: Card) {
    card.status == Ready || card.status == Todo
  }

  predicate IsGate(stage: Option<WorkStage>) {
    || stage == Some(Review) || stage == Some(Test)
    || stage == Some(UxReview) || stage == Some(FinalReview)
  }

  /** The three loops that cancel superseded cards (phases 0 to 2). */
  predicate IsSuperseded(env: Env, phase: nat, card: Card, cards: seq<Card>) {
    && IsWaiting(card)
    && (if phase == 0 then
          RetryFor(card).Some? && AncestorIn(TagsOf(cards), TagOf(card), {}, Proven(env.policy, cards))
        else if phase == 1 then
          CardStage(card) == Some(ControlPlaneAction) && RecoveryIsObsolete(env, card, cards)
        else
          CardStage(card) == Some(Repair) && RepairIsObsolete(env, card, cards))
  }

  predicate IsOwnerBlocked(card: Card) {
    card.status == Blocked && ClassifyBlocker(BlockReason(card)) != Technical
  }

  /** The last repair of a gate is recovered, whatever its status is; a gate without one gets one. */
  function RepairGateOps(env: Env, card: Card, cards: seq<Card>): seq<Op> {
    var repairs := RepairsOf(cards, card.id);
    if repairs == [] then [CreateOp(RepairSpec(env, card))]
    else
      var repair := repairs[|repairs| - 1];
      if FailureCount(repair) > RetryLimit(repair, env.maxRetries) then RecoveryOps(env, repair, cards)
      else RecoverCardOps(env, repair)
  }

  /** A technically blocked review, test or final-review card without a promotable retry. */
  function BlockedGateOps(env: Env, card: Card, cards: seq<Card>): seq<Op>
    requires CardStage(card).Some?
  {
    var repairs := RepairsOf(cards, card.id);
    if && CardStage(card) == Some(FinalReview)
       && IsStaleGateBlock(BlockReason(card))
       && HasValidPredecessors(env, card, cards)
    then CancelOps(repairs) + FreshRetryOps(env, card, cards)
    else if exists r | r in repairs :: r.status == Done && HasValidCompletion(env, r)
    then GuardedRetryOps(env, card, cards)
    else RepairGateOps(env, card, cards)
  }

  function BlockedOps(env: Env, card: Card, cards: seq<Card>): seq<Op> {
    if IsOwnerBlocked(card) || IsCancelled(card) then []
    else
      match FirstProven(env, cards, card.id, 0)
      case Some(i) => [CompleteOp(card.id, PassedProof(cards[i]))]
      case None =>
        if CardStage(card) == Some(Merge) && HasValidMergePredecessor(env, card, cards) then
          FreshRetryOps(env, card, cards)
        else if IsGate(CardStage(card)) then BlockedGateOps(env, card, cards)
        else if FailureCount(card) > RetryLimit(card, env.maxRetries) then RecoveryOps(env, card, cards)
        else RecoverCardOps(env, card)
  }

  /** A REVIEW card, or a DONE card without a valid completion. */
  function UnprovenOps(env: Env, card: Card, cards: seq<Card>): seq<Op>
    requires CardStage(card).Some?
  {
    match FirstProven(env, cards, card.id, 0)
    case Some(i) => [CompleteOp(card.id, PassedProof(cards[i]))]
    case None => GuardedRetryOps(env, card, cards)
  }

  /** What a card's status asks for, after the early exits of the main loop. */
  function StatusOps(env: Env, card: Card, cards: seq<Card>): seq<Op> {
    var stage := CardStage(card);
    if card.status == InReview && stage.Some? then
      if HasValidCompletion(env, card) then [CompleteOp(card.id, PassedProof(card))]
      else UnprovenOps(env, card, cards)
    else if card.status == Done && stage.Some? && !HasValidCompletion(env, card) then
      UnprovenOps(env, card, cards)
    else if card.status != Blocked then []
    else BlockedOps(env, card, cards)
  }

  function MergeTurnOps(env: Env, card: Card, cards: seq<Card>): seq<Op> {
    if && CardStage(card) == Some(Merge) && HasFailureEvidence(card) && RetryFor(card).None?
       && HasValidMergePredecessor(env, card, cards) then FreshRetryOps(env, card, cards)
    else if IsWaiting(card) && FailureCount(card) > RetryLimit(card, env.maxRetries) then
      RecoverCardOps(env, card)
    else StatusOps(env, card, cards)
  }

  /** The body of the main loop for one card. */
  function MainOps(env: Env, card: Card, cards: seq<Card>): seq<Op> {
    if card.metadata.archived then []
    else if CardStage(card) == Some(Repair) && RepairIsObsolete(env, card, cards) then []
    else MergeTurnOps(env, card, cards)
  }

  function StepOps(env: Env, phase: nat, card: Card, cards: seq<Card>): seq<Op> {
    if phase < 3 then
      if IsSuperseded(env, phase, card, cards) then [ReclaimOp(card.id, Blocked)] else []
    else MainOps(env, card, cards)
  }

  // ---------------------------------------------------------------- the pass

  /** The operations of the first `n` cards of a phase. */
  function PhaseOps(env: Env, phase: nat, cards: seq<Card>, n: nat): seq<Op>
    requires n <= |cards|
  {
    if n == 0 then [] else PhaseOps(env, phase, cards, n - 1) + StepOps(env, phase, cards[n - 1], cards)
  }

  function PassOps(env: Env, cards: seq<Card>): seq<Op> {
    PhaseOps(env, 0, cards, |cards|) + PhaseOps(env, 1, cards, |cards|)
    + PhaseOps(env, 2, cards, |cards|) + PhaseOps(env, 3, cards, |cards|)
  }

  function Apply(b: Board, op: Op, name: CardKey -> CardId): Board {
    match op
    case CompleteOp(id, proof) => if id in b.cards then Put(b, Completed(b.cards[id], proof)) else b
    case ReclaimOp(id, status) => if id in b.cards then Put(b, Reclaimed(b.cards[id], status)) else b
    case ReassignOp(id, agent) =>
      if id in b.cards then Put(b, Reassigned(b.cards[id], agent, Ready, true)) else b
    case CreateOp(spec) => Create(b, spec, name(spec.key))
    case CreateReadyOp(spec) =>
      var b' := Create(b, spec, name(spec.key));
      var id := if spec.key in b'.keys then b'.keys[spec.key] else name(spec.key);
      if id in b'.cards && b'.cards[id].status != Ready then Put(b', Reclaimed(b'.cards[id], Ready)) else b'
  }

  function ApplyAll(b: Board, ops: seq<Op>, name: CardKey -> CardId): Board {
    if ops == [] then b else Apply(ApplyAll(b, ops[..|ops| - 1], name), ops[|ops| - 1], name)
  }

  /** One atomic reconcile step. */
  function Pass(env: Env, b: Board): Board
    requires forall id :: id in b.order ==> id in b.cards
  {
    ApplyAll(b, PassOps(env, Listing(b)), env.name)
  }
}
