/** Queue cards, their labels and the evidence readers of the workflow orchestrator. */
module Cards {
  import opened Wrappers
  import opened Text

  type CardId = string

  datatype QueueStatus =
    | Triage | Backlog | Todo | Scheduled | Ready | Running | InReview | Blocked | Done

  datatype WorkStage =
    | ControlPlaneAction | Implementation | Repair | Review | Test | UxReview
    | FinalReview | Merge | PostMerge

  datatype BlockerKind =
    | UserSecret | GoalDivergence | ExternalAccess | HighRiskDecision | Cancellation | Technical

  datatype CompletionPolicy = OwnerApproval | ControlPlaneComplete | AutoMerge

  /** One entry of the `proof` list; non-dictionaries are `Malformed`.  `title` is its `label` field,
      `evidence` the JSON text of its evidence list unless that is missing or empty. */
  datatype ProofItem =
    | Malformed
    | Record(status: string, note: string, title: string, model: string, provider: string, evidence: Option<string>)

  datatype Attempt = Attempt(status: string, error: string)

  datatype Claim = Claim(owner: string, token: string, claimedAt: int, expiresAt: Option<int>)

  /** A claim after `_redacted_claim`: the token is gone. */
  datatype PastClaim = PastClaim(owner: string, claimedAt: int, expiresAt: Option<int>)

  /** The metadata keys read or written by the modelled code; `None` and `""` stand for an absent key. */
  datatype Metadata = Metadata(
    parents: seq<CardId>,
    links: seq<CardId>,
    maxRetries: Option<nat>,
    failures: nat,
    failureCount: Option<nat>,
    attempts: Option<seq<Attempt>>,
    logs: seq<string>,
    claim: Option<Claim>,
    lastClaim: Option<PastClaim>,
    protocolDetail: string,
    completed: bool,
    proof: Option<seq<ProofItem>>,
    comments: seq<string>,
    archived: bool,
    qaProfile: string)

  datatype Card = Card(
    id: CardId,
    status: QueueStatus,
    labels: seq<string>,
    agent: Option<string>,
    metadata: Metadata)

  /** The idempotency key of a card; one constructor for each key format. */
  datatype CardKey =
    | WorkKey(action: string, suffix: string)
    | RetryKey(source: CardId, attempt: nat)
    | RepairKey(gate: CardId, failures: nat)
    | RecoveryKey(failed: CardId, attempt: nat)

  datatype CardSpec = CardSpec(
    key: CardKey,
    status: QueueStatus,
    labels: seq<string>,
    agent: Option<string>,
    parents: seq<CardId>,
    maxRetries: nat,
    qaProfile: string)

  // ---------------------------------------------------------------- labels

  function StageName(stage: WorkStage): string {
    match stage
    case ControlPlaneAction => "control_plane_action"
    case Implementation => "implementation"
    case Repair => "repair"
    case Review => "review"
    case Test => "test"
    case UxReview => "ux_review"
    case FinalReview => "final_review"
    case Merge => "merge"
    case PostMerge => "post_merge"
  }

  function StageNamed(name: string): Option<WorkStage> {
    if name == "control_plane_action" then Some(ControlPlaneAction)
    else if name == "implementation" then Some(Implementation)
    else if name == "repair" then Some(Repair)
    else if name == "review" then Some(Review)
    else if name == "test" then Some(Test)
    else if name == "ux_review" then Some(UxReview)
    else if name == "final_review" then Some(FinalReview)
    else if name == "merge" then Some(Merge)
    else if name == "post_merge" then Some(PostMerge)
    else None
  }

  /** The first label with the given prefix, without the prefix. */
  function FirstValue(labels: seq<string>, prefix: string): Option<string> {
    if labels == [] then None
    else if prefix <= labels[0] then Some(labels[0][|prefix|..])
    else FirstValue(labels[1..], prefix)
  }

  /** As `FirstValue`, for the first label with either prefix. */
  function FirstValueOf(labels: seq<string>, prefix: string, prefix': string): Option<string> {
    if labels == [] then None
    else if prefix <= labels[0] then Some(labels[0][|prefix|..])
    else if prefix' <= labels[0] then Some(labels[0][|prefix'|..])
    else FirstValueOf(labels[1..], prefix, prefix')
  }

  function StageOfLabels(labels: seq<string>): Option<WorkStage> {
    match FirstValue(labels, "stage:")
    case None => None
    case Some(name) => StageNamed(name)
  }

  function CardStage(card: Card): Option<WorkStage> {
    StageOfLabels(card.labels)
  }

  function WorkflowLabel(card: Card): Option<string> {
    match FirstValue(card.labels, "workflow:")
    case None => None
    case Some(value) => Some("workflow:" + value)
  }

  /** `_retry_for` on a label tuple: the last retry label names the parent. */
  function RetryToken(labels: seq<string>): Option<string> {
    if labels == [] then None
    else
      var last := labels[|labels| - 1];
      if "retry-for:" <= last then Some(last[10..])
      else if "retry:" <= last then Some(last[6..])
      else RetryToken(labels[..|labels| - 1])
  }

  function RetryFor(card: Card): Option<string> {
    RetryToken(card.labels)
  }

  predicate TokenNames(token: Option<string>, id: CardId) {
    token.Some? && token.value <= id
  }

  predicate IsRetryFor(card: Card, parent: CardId) {
    TokenNames(RetryFor(card), parent)
  }

  function RepairToken(card: Card): Option<string> {
    FirstValueOf(card.labels, "repair-for:", "repair:")
  }

  predicate IsRepairFor(card: Card, gate: CardId) {
    TokenNames(RepairToken(card), gate)
  }

  function RecoveryToken(card: Card): Option<string> {
    FirstValueOf(card.labels, "control-plane-recovery-for:", "control-plane-recovery:")
  }

  predicate IsRecoveryFor(card: Card, failed: CardId) {
    TokenNames(RecoveryToken(card), failed)
  }

  const LABEL_LIMIT: nat := 40

  function BoundedLabel(text: string): string {
    if |text| <= LABEL_LIMIT then text else RStripWhere(text[..37], IsSpace) + "..."
  }

  /** A label that carries a whole id when it fits, and otherwise a truncated id. */
  function CompactLabel(full: string, short: string, id: CardId, width: nat): string {
    if |full + id| <= LABEL_LIMIT then full + id else short + Take(id, width)
  }

  function RetryLabel(source: CardId): string {
    CompactLabel("retry-for:", "retry:", source, 32)
  }

  function RepairLabel(gate: CardId): string {
    CompactLabel("repair-for:", "repair:", gate, 32)
  }

  function RecoveryLabel(failed: CardId): string {
    CompactLabel("control-plane-recovery-for:", "control-plane-recovery:", failed, 17)
  }

  // ---------------------------------------------------------------- evidence

  predicate Passed(item: ProofItem) {
    item.Record? && Lower(item.status) == "passed"
  }

  /** The newest passed record of a proof list. */
  function LatestPassed(proof: seq<ProofItem>): (r: Option<ProofItem>)
    ensures r.Some? ==> Passed(r.value)
  {
    if proof == [] then None
    else if Passed(proof[|proof| - 1]) then Some(proof[|proof| - 1])
    else LatestPassed(proof[..|proof| - 1])
  }

  function LatestProof(card: Card): (r: Option<ProofItem>)
    ensures r.Some? ==> Passed(r.value)
  {
    match card.metadata.proof
    case None => None
    case Some(proof) => LatestPassed(proof)
  }

  function PassedProof(card: Card): seq<ProofItem> {
    match LatestProof(card)
    case None => []
    case Some(item) => [item]
  }

  function PolicyMarker(policy: CompletionPolicy): string {
    match policy
    case OwnerApproval => "READY_FOR_OWNER:"
    case ControlPlaneComplete => "CONTROL_PLANE_COMPLETE:"
    case AutoMerge => "AUTO_MERGE_ALLOWED:"
  }

  /** What one text field says about a final review. */
  datatype FieldReading =
    | NoMarker                 // the marker does not occur
    | BadHead                  // it occurs, but no acceptable commit follows
    | Raises                   // nothing follows it: taking the first word raises IndexError
    | Head(sha: string)

  predicate IsQuotePunctuation(c: char) {
    c == '`' || c == '.' || c == ',' || c == ';' || c == ')'
  }

  function FirstWord(s: string): string {
    if s == [] || IsSpace(s[0]) then [] else [s[0]] + FirstWord(s[1..])
  }

  predicate AllHex(s: string) {
    forall i :: 0 <= i < |s| ==> IsHex(s[i])
  }

  predicate IsSha(s: string) {
    7 <= |s| <= 64 && AllHex(s)
  }

  function ReadField(text: string, marker: string): FieldReading {
    match Find(Upper(text), marker)
    case None => NoMarker
    case Some(at) =>
      var rest := Strip(text[at + |marker|..]);
      if rest == [] then Raises
      else
        var word := FirstWord(rest);
        var head := RStripWhere(LStripWhere(word, IsQuotePunctuation), IsQuotePunctuation);
        if IsSha(head) then Head(head) else BadHead
  }

  /** The marker check of `_has_valid_proof`: `note` first, then `label`. */
  function ReadMarker(item: ProofItem, marker: string): FieldReading
    requires item.Record?
  {
    var note := ReadField(item.note, marker);
    if note.Head? || note.Raises? then note else ReadField(item.title, marker)
  }

  /** `_has_valid_proof`. */
  predicate HasValidProof(policy: CompletionPolicy, card: Card) {
    match LatestProof(card)
    case None => false
    case Some(item) =>
      CardStage(card) != Some(FinalReview) || ReadMarker(item, PolicyMarker(policy)).Head?
  }

  /** The one way `_has_valid_proof` raises: a final-review marker with nothing after it. */
  predicate ProofRaises(policy: CompletionPolicy, card: Card) {
    && CardStage(card) == Some(FinalReview)
    && LatestProof(card).Some?
    && ReadMarker(LatestProof(card).value, PolicyMarker(policy)).Raises?
  }

  // ---------------------------------------------------------------- blockers and budgets

  function ClassifyBlocker(reason: string): BlockerKind {
    var normalized := Upper(Strip(reason));
    if "USER_SECRET:" <= normalized then UserSecret
    else if "GOAL_DIVERGENCE:" <= normalized then GoalDivergence
    else if "EXTERNAL_ACCESS:" <= normalized then ExternalAccess
    else if "HIGH_RISK_DECISION:" <= normalized then HighRiskDecision
    else if "CANCELLED:" <= normalized then Cancellation
    else Technical
  }

  const UNSTRUCTURED_BLOCK := "TECHNICAL: worker blocked without structured failure evidence"

  /** The last non-empty text of a list. */
  function LastNonEmpty(texts: seq<string>): string {
    if texts == [] then []
    else if texts[|texts| - 1] != [] then texts[|texts| - 1]
    else LastNonEmpty(texts[..|texts| - 1])
  }

  function AttemptErrors(attempts: Option<seq<Attempt>>): seq<string> {
    match attempts
    case None => []
    case Some(items) => seq(|items|, i requires 0 <= i < |items| => items[i].error)
  }

  function BlockReason(card: Card): string {
    if card.metadata.protocolDetail != [] then card.metadata.protocolDetail
    else if LastNonEmpty(card.metadata.logs) != [] then LastNonEmpty(card.metadata.logs)
    else if LastNonEmpty(AttemptErrors(card.metadata.attempts)) != [] then
      LastNonEmpty(AttemptErrors(card.metadata.attempts))
    else UNSTRUCTURED_BLOCK
  }

  predicate IsStaleGateBlock(reason: string) {
    var normalized := Lower(reason);
    || Contains(normalized, "without structured failure evidence")
    || Contains(normalized, "stale")
    || Contains(normalized, "remain ready")
    || Contains(normalized, "not recorded")
  }

  predicate IsCancelled(card: Card) {
    exists body | body in card.metadata.comments :: "CANCELLED:" <= Upper(body)
  }

  predicate IsFailedAttempt(attempt: Attempt) {
    attempt.status == "failed" || attempt.status == "blocked" || attempt.status == "stopped"
  }

  function CountFailed(attempts: seq<Attempt>): nat {
    if attempts == [] then 0
    else (if IsFailedAttempt(attempts[0]) then 1 else 0) + CountFailed(attempts[1..])
  }

  /** `_failure_count` of the reconciler, which is not the `failures` counter of the direct store. */
  function FailureCount(card: Card): nat {
    match card.metadata.failureCount
    case Some(value) => value
    case None =>
      match card.metadata.attempts
      case None => 1
      case Some(attempts) => if CountFailed(attempts) == 0 then 1 else CountFailed(attempts)
  }

  function RetryLimit(card: Card, fallback: nat): nat {
    match card.metadata.maxRetries
    case Some(value) => value
    case None => fallback
  }

  predicate HasFailureEvidence(card: Card) {
    || card.status == Blocked
    || (card.metadata.failureCount.Some? && card.metadata.failureCount.value > 0)
    || (card.metadata.attempts.Some? && CountFailed(card.metadata.attempts.value) > 0)
  }
}
