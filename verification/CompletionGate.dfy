/** The policy evaluators, the merge gate and the live completion gate, over an abstract provider. */
module CompletionGate {
  import opened Wrappers
  import opened Text
  import opened Cards
  import opened Qa
  import opened FinalReview

  datatype OperationMode = Disabled | Advisory | Supervised | Autonomous

  datatype Verdict = ChangesRequested | ReadyForOwner | ControlPlaneDone | MergeAllowed

  datatype RepoPolicy = RepoPolicy(mode: OperationMode, completion: CompletionPolicy, autonomousMerge: bool)

  datatype Gate = Gate(
    draft: bool, mergeable: bool, mergeState: string, checksGreen: bool, unresolvedThreads: int,
    reviewHead: Option<string>, head: string)

  datatype PolicyResult = PolicyResult(allowed: bool, requiresOwner: bool)

  const REFUSED := PolicyResult(false, false)
  const OWNER := PolicyResult(false, true)
  const ALLOWED := PolicyResult(true, false)

  // ---------------------------------------------------------------- policy

  /** The checks on the pull request that all three evaluators end with. */
  function EvaluateGate(gate: Gate): PolicyResult {
    if gate.draft then REFUSED
    else if !gate.mergeable || Upper(gate.mergeState) != "CLEAN" then REFUSED
    else if !gate.checksGreen then REFUSED
    else if gate.unresolvedThreads != 0 then REFUSED
    else if gate.reviewHead != Some(gate.head) then REFUSED
    else ALLOWED
  }

  function EvaluateMerge(repo: RepoPolicy, verdict: Verdict, gate: Gate): PolicyResult {
    if repo.mode == Disabled then REFUSED
    else if repo.completion != AutoMerge then OWNER
    else if repo.mode != Autonomous || !repo.autonomousMerge then OWNER
    else if verdict != MergeAllowed then OWNER
    else EvaluateGate(gate)
  }

  function EvaluateControlPlane(repo: RepoPolicy, verdict: Verdict, gate: Gate): PolicyResult {
    if repo.mode == Disabled then REFUSED
    else if repo.completion != ControlPlaneComplete then OWNER
    else if verdict != ControlPlaneDone && verdict != MergeAllowed then OWNER
    else EvaluateGate(gate)
  }

  function EvaluateOwner(repo: RepoPolicy, verdict: Verdict, gate: Gate): PolicyResult {
    if repo.mode == Disabled then REFUSED
    else if repo.completion != OwnerApproval then OWNER
    else if verdict != ReadyForOwner then OWNER
    else EvaluateGate(gate)
  }

  predicate IsClean(gate: Gate) {
    && !gate.draft && gate.mergeable && Upper(gate.mergeState) == "CLEAN" && gate.checksGreen
    && gate.unresolvedThreads == 0
  }

  // ---------------------------------------------------------------- the merge gate

  /** `evaluate_workboard_merge`: the provider's gate, anchored to the head that the card proves. */
  function WorkboardMerge(repo: RepoPolicy, card: Card, gate: Gate): PolicyResult {
    match FinalReviewHead(card)
    case None => REFUSED
    case Some(head) => EvaluateMerge(repo, MergeAllowed, gate.(reviewHead := Some(head)))
  }

  /** A merge is authorised exactly when the repository merges autonomously, the pull request is clean,
      and the newest passed record of the finished final review names its current head. */
  lemma MergeIsAuthorisedIff(repo: RepoPolicy, card: Card, gate: Gate)
    ensures WorkboardMerge(repo, card, gate).allowed
       <==> && repo.mode == Autonomous && repo.autonomousMerge && repo.completion == AutoMerge && IsClean(gate)
            && IsFinishedReview(card) && LatestProof(card).Some?
            && MergeHeadOf(LatestProof(card).value) == Some(gate.head)
  {
  }

  /** No history of a card and no other policy can authorise a merge that the newest record does not. */
  lemma RevokedMergeStaysRevoked(repo: RepoPolicy, card: Card, proof: seq<ProofItem>, newer: ProofItem, gate: Gate)
    requires Passed(newer) && IsUnmarked(newer.note, MERGE_MARKER) && IsUnmarked(newer.title, MERGE_MARKER)
    ensures !WorkboardMerge(repo, WithProof(card, proof + [newer]), gate).allowed
  {
    NewerRecordRevokes(card, proof, newer);
  }

  // ---------------------------------------------------------------- QA evidence

  function QaMarker(key: string): string {
    Upper("QA_PASSED:" + key + ":")
  }

  /** The head in a QA record: the label is read before the note. */
  function QaHeadOf(item: ProofItem, key: string): Option<string>
    requires item.Record?
  {
    var marker := QaMarker(key);
    if CompletionHead(item.title, marker).Some? then CompletionHead(item.title, marker)
    else CompletionHead(item.note, marker)
  }

  const UI_EVIDENCE: seq<string> := ["accessibility", "contrast", "responsive", "flow", "cohesion"]

  /** `_validate_qa_evidence`. */
  predicate HasQaEvidence(card: Card, profile: Profile, head: string) {
    match LatestProof(card)
    case None => false
    case Some(item) =>
      && QaHeadOf(item, profile.key).Some? && Lower(QaHeadOf(item, profile.key).value) == Lower(head)
      && Strip(item.model) != "" && Strip(item.provider) != ""
      && item.evidence.Some?
      && (WebUi in profile.surfaces ==>
            forall word | word in UI_EVIDENCE :: Contains(Lower(item.evidence.value), word))
  }

  // ---------------------------------------------------------------- the completion gate

  /** The live QA requirement of a workflow. */
  datatype QaContext = QaContext(head: string, selection: Selection)

  /** What the gate learns from outside: the pull requests that the workflow names, whether its QA is
      tracked, the live QA requirement, and the provider's answer for a number and a head. */
  datatype World = World(
    numbers: set<nat>, tracked: bool, context: Option<QaContext>, provider: (nat, string) -> Option<Gate>)

  function FirstProfile(profiles: seq<Profile>, key: string): (r: Option<Profile>)
    ensures r.Some? ==> r.value in profiles && r.value.key == key
    ensures r.None? ==> forall p :: p in profiles ==> p.key != key
  {
    if profiles == [] then None
    else if profiles[0].key == key then Some(profiles[0])
    else FirstProfile(profiles[1..], key)
  }

  predicate IsQaCard(card: Card) {
    (CardStage(card) == Some(Test) || CardStage(card) == Some(UxReview)) && card.metadata.qaProfile != ""
  }

  /** Some card of the profile has evidence for the head. */
  predicate IsProvedBy(workflow: seq<Card>, profile: Profile, head: string) {
    exists c | c in workflow :: c.metadata.qaProfile == profile.key && HasQaEvidence(c, profile, head)
  }

  predicate QaIsProved(workflow: seq<Card>, context: QaContext) {
    forall p | p in context.selection.profiles :: IsProvedBy(workflow, p, context.head)
  }

  function VerdictFor(policy: CompletionPolicy): Verdict {
    match policy
    case OwnerApproval => ReadyForOwner
    case ControlPlaneComplete => ControlPlaneDone
    case AutoMerge => MergeAllowed
  }

  function EvaluateCompletion(repo: RepoPolicy, verdict: Verdict, gate: Gate): PolicyResult {
    match repo.completion
    case OwnerApproval => EvaluateOwner(repo, verdict, gate)
    case ControlPlaneComplete => EvaluateControlPlane(repo, verdict, gate)
    case AutoMerge => EvaluateMerge(repo, verdict, gate)
  }

  method ValidateQaCard(card: Card, world: World) returns (allowed: bool)
    ensures allowed == IsAcceptedQa(card, world)
  {
    if world.context.None? {
      return false;
    }
    var profile := FirstProfile(world.context.value.selection.profiles, card.metadata.qaProfile);
    if profile.None? {
      return true;
    }
    allowed := HasQaEvidence(card, profile.value, world.context.value.head);
  }

  /** The required profiles of a tracked workflow, each proved for the live head. */
  method CheckTrackedQa(workflow: seq<Card>, world: World) returns (ok: bool)
    ensures ok <==> (world.tracked ==> world.context.Some? && QaIsProved(workflow, world.context.value))
  {
    if !world.tracked {
      return true;
    }
    if world.context.None? {
      return false;
    }
    var context := world.context.value;
    for i := 0 to |context.selection.profiles|
      invariant forall k :: 0 <= k < i ==> IsProvedBy(workflow, context.selection.profiles[k], context.head)
    {
      var proved := FindEvidence(workflow, context.selection.profiles[i], context.head);
      if !proved {
        return false;
      }
    }
    ok := true;
  }

  /** One pull request, and the policy's verdict on the gate that the provider reports for it. */
  method AskProvider(repo: RepoPolicy, world: World, head: string) returns (allowed: bool)
    ensures allowed == ProviderAccepts(repo, world, head)
  {
    if |world.numbers| != 1 {
      forall n: nat ensures world.numbers != {n} {
        NotOne(world.numbers, n);
      }
      return false;
    }
    var number := OnlyNumber(world.numbers);
    forall n | world.numbers == {n} ensures n == number {
      assert n in world.numbers;
    }
    var gate := world.provider(number, head);
    if gate.None? {
      return false;
    }
    allowed := EvaluateCompletion(repo, VerdictFor(repo.completion), gate.value).allowed;
  }

  /** `GitHubCompletionValidator.validate`. */
  method Validate(repo: RepoPolicy, card: Card, workflow: seq<Card>, world: World) returns (allowed: bool)
    ensures allowed == IsAccepted(repo, card, workflow, world)
  {
    if IsQaCard(card) {
      allowed := ValidateQaCard(card, world);
      return;
    }
    if CardStage(card) != Some(WorkStage.FinalReview) {
      return false;
    }
    var head := ReadCompletionHead(repo.completion, card);
    if head.None? {
      return false;
    }
    allowed := CheckTrackedQa(workflow, world);
    if allowed {
      allowed := AskProvider(repo, world, head.value);
    }
  }

  /** The search over the cards of one profile, newest card first. */
  method FindEvidence(workflow: seq<Card>, profile: Profile, head: string) returns (found: bool)
    ensures found == IsProvedBy(workflow, profile, head)
  {
    var n := |workflow|;
    while n > 0
      invariant 0 <= n <= |workflow|
      invariant forall k :: n <= k < |workflow| ==>
        !(workflow[k].metadata.qaProfile == profile.key && HasQaEvidence(workflow[k], profile, head))
    {
      n := n - 1;
      if workflow[n].metadata.qaProfile == profile.key && HasQaEvidence(workflow[n], profile, head) {
        return true;
      }
    }
    found := false;
  }

  lemma NotOne(numbers: set<nat>, n: nat)
    requires |numbers| != 1
    ensures numbers != {n}
  {
    var single := {n};
    assert |single| == 1;
  }

  function OnlyNumber(numbers: set<nat>): (n: nat)
    requires |numbers| == 1
    ensures numbers == {n}
  {
    SingletonIs(numbers);
    var n :| numbers == {n};
    n
  }

  lemma SingletonIs(numbers: set<nat>)
    requires |numbers| == 1
    ensures exists n :: numbers == {n}
  {
    var n :| n in numbers;
    assert |numbers - {n}| == 0;
    assert numbers == {n};
  }

  /** The provider accepts the head for the only pull request. */
  ghost predicate ProviderAccepts(repo: RepoPolicy, world: World, head: string) {
    exists number: nat ::
      && world.numbers == {number} && world.provider(number, head).Some?
      && EvaluateCompletion(repo, VerdictFor(repo.completion), world.provider(number, head).value).allowed
  }

  /** A QA card proves its profile for the live head, or the profile is no longer required. */
  ghost predicate IsAcceptedQa(card: Card, world: World) {
    && world.context.Some?
    && forall p :: p in world.context.value.selection.profiles && p.key == card.metadata.qaProfile ==>
         FirstProfile(world.context.value.selection.profiles, p.key).Some?
         && HasQaEvidence(card, FirstProfile(world.context.value.selection.profiles, p.key).value,
                          world.context.value.head)
  }

  /** What the completion gate accepts. */
  ghost predicate IsAccepted(repo: RepoPolicy, card: Card, workflow: seq<Card>, world: World) {
    if IsQaCard(card) then IsAcceptedQa(card, world)
    else
      && CardStage(card) == Some(WorkStage.FinalReview)
      && FinalReviewEvidence(repo.completion, card).Some?
      && ProviderAccepts(repo, world, FinalReviewEvidence(repo.completion, card).value)
      && (world.tracked ==> world.context.Some? && QaIsProved(workflow, world.context.value))
  }

  /** A provider that anchors its gate to the head it is asked about. */
  ghost predicate Anchors(provider: (nat, string) -> Option<Gate>) {
    forall n: nat, h: string :: provider(n, h).Some? ==> provider(n, h).value.reviewHead == Some(h)
  }

  /** An accepted final review names the live head, on a clean pull request, under the repository's own
      policy; with tracked QA every required surface has a card with evidence for that head. */
  lemma AcceptedReviewIsLive(repo: RepoPolicy, card: Card, workflow: seq<Card>, world: World)
    requires IsAccepted(repo, card, workflow, world) && !IsQaCard(card) && Anchors(world.provider)
    ensures exists number: nat, gate ::
      && world.numbers == {number}
      && world.provider(number, FinalReviewEvidence(repo.completion, card).value) == Some(gate)
      && IsClean(gate) && gate.head == FinalReviewEvidence(repo.completion, card).value && repo.mode != Disabled
    ensures world.tracked ==> world.context.Some? && forall s :: Gates(world.context.value.selection, s) ==>
      exists p, c :: p in world.context.value.selection.profiles && s in p.surfaces && c in workflow
                     && c.metadata.qaProfile == p.key && HasQaEvidence(c, p, world.context.value.head)
  {
    if world.tracked {
      forall s | Gates(world.context.value.selection, s)
        ensures exists p, c :: p in world.context.value.selection.profiles && s in p.surfaces && c in workflow
                               && c.metadata.qaProfile == p.key && HasQaEvidence(c, p, world.context.value.head)
      {
        var p :| p in world.context.value.selection.profiles && s in p.surfaces;
        assert IsProvedBy(workflow, p, world.context.value.head);
        var c :| c in workflow && c.metadata.qaProfile == p.key && HasQaEvidence(c, p, world.context.value.head);
      }
    }
  }

  /** Of two gates that see the same pull request, the completion gate compares heads as written and the
      merge gate in lower case.  With one marker, a head that the merge gate authorises is accepted by
      the completion gate's policy exactly when it is written as the live head is. */
  lemma GatesSplitOnCase(repo: RepoPolicy, card: Card, gate: Gate)
    requires WorkboardMerge(repo, card, gate).allowed && HasSingleMarker(LatestProof(card).value)
    ensures FinalReviewEvidence(AutoMerge, card).Some?
    ensures EvaluateCompletion(repo, VerdictFor(repo.completion),
                               gate.(reviewHead := Some(FinalReviewEvidence(AutoMerge, card).value))).allowed
       <==> FinalReviewEvidence(AutoMerge, card).value == Lower(FinalReviewEvidence(AutoMerge, card).value)
  {
    ReadersAgree(card);
    MergeIsAuthorisedIff(repo, card, gate);
  }
}
