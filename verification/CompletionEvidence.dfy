/**
 What the live completion gate demands, spelled out: which text names a head, what a QA record must hold,
 and when a card is accepted, under each of the three policies.
 */
module CompletionEvidence {
  import opened Wrappers
  import opened Text
  import opened Cards
  import opened Qa
  import opened FinalReview
  import opened CompletionGate

  // ---------------------------------------------------------------- heads in texts

  /** The marker, in any case, with a commit right behind it up to the end of a word. */
  ghost predicate IsMark(text: string, marker: string, at: nat, sha: string) {
    && OccursAt(Upper(text), marker, at)
    && IsSha(sha) && OccursAt(text, sha, at + |marker|)
    && (at + |marker| + |sha| == |text| || !IsWord(text[at + |marker| + |sha|]))
  }

  ghost predicate IsUnmarkedBefore(text: string, marker: string, end: nat) {
    forall at, sha | 0 <= at < end :: !IsMark(text, marker, at, sha)
  }

  /** The first mark of the text. */
  ghost predicate FirstMarkIs(text: string, marker: string, sha: string) {
    exists at :: 0 <= at && IsMark(text, marker, at, sha) && IsUnmarkedBefore(text, marker, at)
  }

  /** The first mark of the text names the head, up to case. */
  ghost predicate FirstMarkNames(text: string, marker: string, head: string) {
    exists sha :: FirstMarkIs(text, marker, sha) && Lower(sha) == Lower(head)
  }

  lemma MatchIsMark(text: string, marker: string, at: nat)
    requires CompletionMatches(text, marker, at)
    ensures at + |marker| <= |text| && IsMark(text, marker, at, GroupAt(text, at + |marker|))
  {
    var start := at + |marker|;
    var k: nat :| k <= 64 && IsCompletionTail(text, start, k);
    GroupIsRun(text, start, k);
  }

  lemma MarkIsMatch(text: string, marker: string, at: nat, sha: string)
    requires IsMark(text, marker, at, sha)
    ensures CompletionMatches(text, marker, at) && GroupAt(text, at + |marker|) == sha && at < |text|
  {
    var start := at + |marker|;
    assert IsCompletionTail(text, start, |sha|);
    GroupIsRun(text, start, |sha|);
  }

  lemma UnmarkedIff(text: string, marker: string, end: nat)
    ensures IsUnmarkedBefore(text, marker, end) <==> forall at :: 0 <= at < end ==> !CompletionMatches(text, marker, at)
  {
    hide CompletionMatches;
    hide IsMark;
    forall at: nat | at < end && CompletionMatches(text, marker, at) ensures !IsUnmarkedBefore(text, marker, end) {
      MatchIsMark(text, marker, at);
    }
    forall at: nat, sha | at < end && IsMark(text, marker, at, sha) ensures CompletionMatches(text, marker, at) {
      MarkIsMatch(text, marker, at, sha);
    }
  }

  /** The completion gate's search of one field, spelled out. */
  lemma CompletionHeadIff(text: string, marker: string, sha: string)
    ensures CompletionHead(text, marker).None? <==> IsUnmarkedBefore(text, marker, |text|)
    ensures CompletionHead(text, marker) == Some(sha) <==> FirstMarkIs(text, marker, sha)
  {
    hide CompletionMatches;
    hide IsMark;
    hide IsUnmarkedBefore;
    UnmarkedIff(text, marker, |text|);
    var r := FirstCompletion(text, marker, 0);
    if r.Some? {
      MatchIsMark(text, marker, r.value);
      UnmarkedIff(text, marker, r.value);
      MarkIsMatch(text, marker, r.value, GroupAt(text, r.value + |marker|));
    }
    if FirstMarkIs(text, marker, sha) {
      var at :| 0 <= at && IsMark(text, marker, at, sha) && IsUnmarkedBefore(text, marker, at);
      MarkIsMatch(text, marker, at, sha);
      UnmarkedIff(text, marker, at);
    }
  }

  lemma CompletionNamesIff(text: string, marker: string, head: string)
    ensures CompletionHead(text, marker).None? <==> IsUnmarkedBefore(text, marker, |text|)
    ensures CompletionHead(text, marker).Some? && Lower(CompletionHead(text, marker).value) == Lower(head)
       <==> FirstMarkNames(text, marker, head)
  {
    hide CompletionHead;
    hide FirstMarkIs;
    hide IsUnmarkedBefore;
    CompletionHeadIff(text, marker, head);
    forall sha ensures CompletionHead(text, marker) == Some(sha) <==> FirstMarkIs(text, marker, sha) {
      CompletionHeadIff(text, marker, sha);
    }
  }

  // ---------------------------------------------------------------- QA records

  /** The record is the newest passed one of the list. */
  ghost predicate IsNewestPassed(proof: seq<ProofItem>, item: ProofItem) {
    exists n :: 0 <= n < |proof| && proof[n] == item && Passed(item)
                && forall m :: n < m < |proof| ==> !Passed(proof[m])
  }

  lemma NewestSkips(proof: seq<ProofItem>, last: ProofItem, item: ProofItem)
    requires !Passed(last)
    ensures IsNewestPassed(proof + [last], item) <==> IsNewestPassed(proof, item)
  {
    hide Passed;
    var all := proof + [last];
    if IsNewestPassed(proof, item) {
      var n :| 0 <= n < |proof| && proof[n] == item && Passed(item)
               && forall m :: n < m < |proof| ==> !Passed(proof[m]);
      assert all[n] == item && forall m :: n < m < |all| ==> !Passed(all[m]);
    }
    if IsNewestPassed(all, item) {
      var n :| 0 <= n < |all| && all[n] == item && Passed(item) && forall m :: n < m < |all| ==> !Passed(all[m]);
      assert n < |proof| && proof[n] == item;
      forall m | n < m < |proof| ensures !Passed(proof[m]) {
        assert all[m] == proof[m];
      }
    }
  }

  lemma {:induction false} NewestIff(proof: seq<ProofItem>, item: ProofItem)
    ensures LatestPassed(proof) == Some(item) <==> IsNewestPassed(proof, item)
  {
    if proof != [] {
      var init, last := proof[..|proof| - 1], proof[|proof| - 1];
      NewestIff(init, item);
      assert proof == init + [last];
      if Passed(last) {
        assert last == item ==> IsNewestPassed(proof, item);
      } else {
        NewestSkips(init, last, item);
      }
    }
  }

  function QaText(key: string): string {
    Upper("QA_PASSED:" + key + ":")
  }

  /** The record names the head in its label, or in its note if its label has no mark of the profile. */
  ghost predicate RecordNames(item: ProofItem, key: string, head: string)
    requires item.Record?
  {
    || FirstMarkNames(item.title, QaText(key), head)
    || (IsUnmarkedBefore(item.title, QaText(key), |item.title|) && FirstMarkNames(item.note, QaText(key), head))
  }

  ghost predicate ShowsAllUiEvidence(text: string) {
    && Contains(Lower(text), "accessibility") && Contains(Lower(text), "contrast")
    && Contains(Lower(text), "responsive") && Contains(Lower(text), "flow") && Contains(Lower(text), "cohesion")
  }

  /** The newest passed record of the card names the head for the profile, says which model of which provider
      found it, and holds evidence, on all five points of a user interface. */
  ghost predicate ShowsQa(card: Card, profile: Profile, head: string) {
    && card.metadata.proof.Some?
    && exists item :: IsNewestPassed(card.metadata.proof.value, item) && RecordNames(item, profile.key, head)
         && Strip(item.model) != "" && Strip(item.provider) != "" && item.evidence.Some?
         && (WebUi in profile.surfaces ==> ShowsAllUiEvidence(item.evidence.value))
  }

  lemma RecordNamesIff(item: ProofItem, key: string, head: string)
    requires item.Record?
    ensures QaHeadOf(item, key).Some? && Lower(QaHeadOf(item, key).value) == Lower(head)
       <==> RecordNames(item, key, head)
  {
    hide CompletionHead;
    hide FirstMarkNames;
    hide IsUnmarkedBefore;
    CompletionNamesIff(item.title, QaText(key), head);
    CompletionNamesIff(item.note, QaText(key), head);
  }

  lemma UiEvidenceIff(text: string)
    ensures (forall word | word in UI_EVIDENCE :: Contains(Lower(text), word)) <==> ShowsAllUiEvidence(text)
  {
    hide Contains;
    assert UI_EVIDENCE[0] == "accessibility" && UI_EVIDENCE[1] == "contrast" && UI_EVIDENCE[2] == "responsive";
    assert UI_EVIDENCE[3] == "flow" && UI_EVIDENCE[4] == "cohesion";
  }

  /** `_validate_qa_evidence`, spelled out. */
  lemma QaEvidenceIff(card: Card, profile: Profile, head: string)
    ensures HasQaEvidence(card, profile, head) <==> ShowsQa(card, profile, head)
  {
    hide QaHeadOf;
    hide RecordNames;
    hide ShowsAllUiEvidence;
    hide Contains;
    hide UI_EVIDENCE;
    if card.metadata.proof.Some? {
      var proof := card.metadata.proof.value;
      forall item ensures LatestPassed(proof) == Some(item) <==> IsNewestPassed(proof, item) {
        NewestIff(proof, item);
      }
      if LatestPassed(proof).Some? {
        var item := LatestPassed(proof).value;
        assert IsNewestPassed(proof, item);
        RecordNamesIff(item, profile.key, head);
        if item.evidence.Some? {
          UiEvidenceIff(item.evidence.value);
        }
      }
    }
  }

  // ---------------------------------------------------------------- policies

  /** A clean pull request at the reviewed head, in a repository that is not disabled; to merge it must also
      be allowed to merge on its own. */
  predicate PolicyAllows(repo: RepoPolicy, gate: Gate) {
    && !gate.draft && gate.mergeable && Upper(gate.mergeState) == "CLEAN" && gate.checksGreen
    && gate.unresolvedThreads == 0 && gate.reviewHead == Some(gate.head)
    && repo.mode != Disabled
    && (repo.completion == AutoMerge ==> repo.mode == Autonomous && repo.autonomousMerge)
  }

  /** The three evaluators, for the verdict that the policy's marker stands for. */
  lemma EvaluationIff(repo: RepoPolicy, gate: Gate)
    ensures EvaluateCompletion(repo, VerdictFor(repo.completion), gate).allowed <==> PolicyAllows(repo, gate)
  {
  }

  predicate IsMergeOnItsOwn(repo: RepoPolicy) {
    repo.completion == AutoMerge && repo.mode == Autonomous && repo.autonomousMerge
  }

  /** Each evaluator by itself: it allows its own policy's verdict on a clean pull request at the reviewed head, and
      asks the owner exactly where policy or verdict are not its own. */
  lemma EvaluatorsIff(repo: RepoPolicy, verdict: Verdict, gate: Gate)
    ensures EvaluateMerge(repo, verdict, gate).allowed
       <==> PolicyAllows(repo, gate) && IsMergeOnItsOwn(repo) && verdict == MergeAllowed
    ensures EvaluateMerge(repo, verdict, gate).requiresOwner
       <==> repo.mode != Disabled && !(IsMergeOnItsOwn(repo) && verdict == MergeAllowed)
    ensures EvaluateControlPlane(repo, verdict, gate).allowed
       <==> && PolicyAllows(repo, gate) && repo.completion == ControlPlaneComplete
            && verdict in {ControlPlaneDone, MergeAllowed}
    ensures EvaluateControlPlane(repo, verdict, gate).requiresOwner
       <==> && repo.mode != Disabled
            && !(repo.completion == ControlPlaneComplete && verdict in {ControlPlaneDone, MergeAllowed})
    ensures EvaluateOwner(repo, verdict, gate).allowed
       <==> PolicyAllows(repo, gate) && repo.completion == OwnerApproval && verdict == ReadyForOwner
    ensures EvaluateOwner(repo, verdict, gate).requiresOwner
       <==> repo.mode != Disabled && !(repo.completion == OwnerApproval && verdict == ReadyForOwner)
  {
  }

  /** No evaluator allows anything under another policy's verdict, except that a merge verdict also completes
      the control plane. */
  lemma VerdictsDoNotCross(repo: RepoPolicy, verdict: Verdict, gate: Gate)
    ensures EvaluateCompletion(repo, verdict, gate).allowed
       <==> PolicyAllows(repo, gate) && (verdict == VerdictFor(repo.completion)
                                         || (repo.completion == ControlPlaneComplete && verdict == MergeAllowed))
    ensures EvaluateCompletion(repo, verdict, gate).allowed ==> !EvaluateCompletion(repo, verdict, gate).requiresOwner
  {
  }

  /** QA is the work of a test or UX-review card that names a profile. */
  lemma QaCardIff(card: Card)
    ensures IsQaCard(card)
       <==> CardStage(card) in {Some(WorkStage.Test), Some(WorkStage.UxReview)} && |card.metadata.qaProfile| > 0
  {
  }

  // ---------------------------------------------------------------- what the gate accepts

  /** The newest passed record reads a head, in its note or else in its label. */
  ghost predicate ReviewNames(card: Card, marker: string, sha: string) {
    && card.metadata.proof.Some?
    && exists item :: IsNewestPassed(card.metadata.proof.value, item)
         && (|| FirstMarkIs(item.note, marker, sha)
             || (IsUnmarkedBefore(item.note, marker, |item.note|) && FirstMarkIs(item.title, marker, sha)))
  }

  lemma ReviewNamesIff(policy: CompletionPolicy, card: Card, sha: string)
    ensures FinalReviewEvidence(policy, card) == Some(sha) <==> ReviewNames(card, PolicyMarker(policy), sha)
  {
    hide CompletionHead;
    hide FirstMarkIs;
    hide IsUnmarkedBefore;
    hide PolicyMarker;
    if card.metadata.proof.Some? {
      var proof := card.metadata.proof.value;
      forall item ensures LatestPassed(proof) == Some(item) <==> IsNewestPassed(proof, item) {
        NewestIff(proof, item);
      }
      if LatestPassed(proof).Some? {
        var item := LatestPassed(proof).value;
        assert IsNewestPassed(proof, item);
        CompletionHeadIff(item.note, PolicyMarker(policy), sha);
        CompletionHeadIff(item.title, PolicyMarker(policy), sha);
      }
    }
  }

  /** The marker that a final review must carry. */
  function MarkerText(policy: CompletionPolicy): string {
    if policy == OwnerApproval then "READY_FOR_OWNER:"
    else if policy == AutoMerge then "AUTO_MERGE_ALLOWED:" else "CONTROL_PLANE_COMPLETE:"
  }

  /** Some card of the workflow shows QA of the profile for the head. */
  ghost predicate IsShownBy(workflow: seq<Card>, profile: Profile, head: string) {
    exists c :: c in workflow && c.metadata.qaProfile == profile.key && ShowsQa(c, profile, head)
  }

  /** A final review that names a head, on the only pull request that the workflow names, whose gate for that
      head satisfies the policy; and with tracked QA every required profile shown for the live head. */
  ghost predicate IsCompleteReview(repo: RepoPolicy, card: Card, workflow: seq<Card>, world: World) {
    && CardStage(card) == Some(WorkStage.FinalReview)
    && (exists sha, number, gate ::
          && ReviewNames(card, MarkerText(repo.completion), sha)
          && world.numbers == {number} && world.provider(number, sha) == Some(gate) && PolicyAllows(repo, gate))
    && (world.tracked ==>
          && world.context.Some?
          && forall p :: p in world.context.value.selection.profiles ==>
               IsShownBy(workflow, p, world.context.value.head))
  }

  lemma ShownIff(workflow: seq<Card>, profile: Profile, head: string)
    ensures IsProvedBy(workflow, profile, head) <==> IsShownBy(workflow, profile, head)
  {
    hide HasQaEvidence;
    hide ShowsQa;
    forall c ensures HasQaEvidence(c, profile, head) <==> ShowsQa(c, profile, head) {
      QaEvidenceIff(c, profile, head);
    }
  }

  lemma ProviderIff(repo: RepoPolicy, world: World, head: string)
    ensures ProviderAccepts(repo, world, head)
       <==> exists number, gate :: world.numbers == {number} && world.provider(number, head) == Some(gate)
                                   && PolicyAllows(repo, gate)
  {
    hide PolicyAllows;
    hide EvaluateCompletion;
    if ProviderAccepts(repo, world, head) {
      var number: nat :| world.numbers == {number} && world.provider(number, head).Some?
        && EvaluateCompletion(repo, VerdictFor(repo.completion), world.provider(number, head).value).allowed;
      EvaluationIff(repo, world.provider(number, head).value);
    }
    if number, gate :| world.numbers == {number} && world.provider(number, head) == Some(gate)
                       && PolicyAllows(repo, gate) {
      EvaluationIff(repo, gate);
    }
  }

  /** What `Validate` accepts of a final review, spelled out. */
  lemma AcceptedReviewIff(repo: RepoPolicy, card: Card, workflow: seq<Card>, world: World)
    requires !IsQaCard(card)
    ensures IsAccepted(repo, card, workflow, world) <==> IsCompleteReview(repo, card, workflow, world)
  {
    hide FinalReviewEvidence;
    hide ProviderAccepts;
    hide ReviewNames;
    hide PolicyAllows;
    hide IsProvedBy;
    hide IsShownBy;
    assert MarkerText(repo.completion) == PolicyMarker(repo.completion);
    forall sha ensures FinalReviewEvidence(repo.completion, card) == Some(sha)
                  <==> ReviewNames(card, MarkerText(repo.completion), sha)
    {
      ReviewNamesIff(repo.completion, card, sha);
    }
    forall sha { ProviderIff(repo, world, sha); }
    if world.context.Some? {
      forall p { ShownIff(workflow, p, world.context.value.head); }
    }
  }

  /** What `Validate` accepts of a QA card: its profile shown by itself for the live head, or no such profile
      among the required ones. */
  lemma AcceptedQaIff(repo: RepoPolicy, card: Card, workflow: seq<Card>, world: World, n: nat)
    requires IsQaCard(card) && world.context.Some? && n < |world.context.value.selection.profiles|
    requires world.context.value.selection.profiles[n].key == card.metadata.qaProfile
    requires forall i :: 0 <= i < n ==> world.context.value.selection.profiles[i].key != card.metadata.qaProfile
    ensures IsAccepted(repo, card, workflow, world)
       <==> ShowsQa(card, world.context.value.selection.profiles[n], world.context.value.head)
  {
    hide HasQaEvidence;
    hide ShowsQa;
    var profiles := world.context.value.selection.profiles;
    FirstProfileAt(profiles, card.metadata.qaProfile, n);
    assert profiles[n] in profiles;
    QaEvidenceIff(card, profiles[n], world.context.value.head);
  }

  lemma {:induction false} FirstProfileAt(profiles: seq<Profile>, key: string, n: nat)
    requires n < |profiles| && profiles[n].key == key && forall i :: 0 <= i < n ==> profiles[i].key != key
    ensures FirstProfile(profiles, key) == Some(profiles[n])
  {
    if n > 0 {
      FirstProfileAt(profiles[1..], key, n - 1);
    }
  }

  predicate IsRequired(profiles: seq<Profile>, key: string) {
    exists p | p in profiles :: p.key == key
  }

  /** Without a live requirement a QA card is refused, and one that is not required any more is accepted. */
  lemma UnrequiredQa(repo: RepoPolicy, card: Card, workflow: seq<Card>, world: World)
    requires IsQaCard(card)
    requires world.context.Some? ==> !IsRequired(world.context.value.selection.profiles, card.metadata.qaProfile)
    ensures IsAccepted(repo, card, workflow, world) <==> world.context.Some?
  {
  }

  // ---------------------------------------------------------------- stale evidence

  /** A newest passed record whose first mark of the profile names another head, or that has none. */
  ghost predicate IsStale(card: Card, key: string, head: string) {
    forall item :: card.metadata.proof.Some? && IsNewestPassed(card.metadata.proof.value, item) ==>
      !RecordNames(item, key, head)
  }

  /** A profile whose cards are all stale makes the gate refuse the final review, whatever older records say. */
  lemma StaleQaIsRefused(repo: RepoPolicy, card: Card, workflow: seq<Card>, world: World, p: Profile)
    requires !IsQaCard(card) && world.tracked && world.context.Some? && p in world.context.value.selection.profiles
    requires forall c :: c in workflow && c.metadata.qaProfile == p.key ==> IsStale(c, p.key, world.context.value.head)
    ensures !IsAccepted(repo, card, workflow, world)
  {
    hide RecordNames;
    hide IsAccepted;
    hide IsNewestPassed;
    AcceptedReviewIff(repo, card, workflow, world);
  }

  /** A QA card whose newest passed record is stale is refused, if its profile is required. */
  lemma StaleCardIsRefused(repo: RepoPolicy, card: Card, workflow: seq<Card>, world: World, n: nat)
    requires IsQaCard(card) && world.context.Some? && n < |world.context.value.selection.profiles|
    requires world.context.value.selection.profiles[n].key == card.metadata.qaProfile
    requires forall i :: 0 <= i < n ==> world.context.value.selection.profiles[i].key != card.metadata.qaProfile
    requires IsStale(card, card.metadata.qaProfile, world.context.value.head)
    ensures !IsAccepted(repo, card, workflow, world)
  {
    hide RecordNames;
    hide IsAccepted;
    hide IsNewestPassed;
    AcceptedQaIff(repo, card, workflow, world, n);
  }

  lemma NewerIsNewest(proof: seq<ProofItem>, newer: ProofItem)
    requires Passed(newer)
    ensures forall item :: IsNewestPassed(proof + [newer], item) <==> item == newer
  {
    var all := proof + [newer];
    assert all[|proof|] == newer;
    forall item | IsNewestPassed(all, item) ensures item == newer {
      var n :| 0 <= n < |all| && all[n] == item && forall m :: n < m < |all| ==> !Passed(all[m]);
      assert n == |proof|;
    }
  }

  /** A newer passed record without the QA marker makes the card stale for every head. */
  lemma NewerUnmarkedIsStale(card: Card, proof: seq<ProofItem>, newer: ProofItem, key: string, head: string)
    requires Passed(newer) && IsUnmarked(newer.note, QaText(key)) && IsUnmarked(newer.title, QaText(key))
    ensures IsStale(WithProof(card, proof + [newer]), key, head)
  {
    NewerIsNewest(proof, newer);
    UnmarkedNamesNothing(newer.note, QaText(key), head);
    UnmarkedNamesNothing(newer.title, QaText(key), head);
  }

  lemma UnmarkedNamesNothing(text: string, marker: string, head: string)
    requires IsUnmarked(text, marker)
    ensures !FirstMarkNames(text, marker, head)
  {
  }
}
