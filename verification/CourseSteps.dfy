/** The steps that an operator takes on a course: when each is accepted, what it changes, and what undoes it. */
module CourseSteps {
  import opened Wrappers
  import opened Text
  import opened Courses
  import opened CourseSchedule
  import opened Readiness
  import CourseGraph
  import ProofErrors
  import RetryLabels

  // ---------------------------------------------------------------- requirements

  /** Two courses that differ in one requirement only, and there only in what a resolution sets. */
  ghost predicate DifferAt(course: Course, after: Course, n: nat) {
    && n < |course.readiness| && |after.readiness| == |course.readiness|
    && after == course.(readiness := after.readiness)
    && (forall i :: 0 <= i < |course.readiness| && i != n ==> after.readiness[i] == course.readiness[i])
    && after.readiness[n].key == course.readiness[n].key
    && after.readiness[n].category == course.readiness[n].category
    && after.readiness[n].question == course.readiness[n].question
    && after.readiness[n].required == course.readiness[n].required
    && after.readiness[n].ownerDecision == course.readiness[n].ownerDecision
  }

  predicate HasContent(text: Option<string>) {
    text.Some? && Strip(text.value) != ""
  }

  lemma StripTwice(text: string)
    ensures Strip(Strip(text)) == "" <==> Strip(text) == ""
  {
    var kept := Strip(text);
    ProofErrors.StripEmptyIff(kept);
    if kept != "" {
      StripStarts(text);
    }
  }

  lemma StripStarts(text: string)
    requires Strip(text) != ""
    ensures !IsSpace(Strip(text)[0])
  {
    var left := LStripWhere(text, IsSpace);
    ProofErrors.LStripStarts(text);
    RetryLabels.RStripIsPrefix(left);
    assert Strip(text) <= left;
  }

  /** The requirement that a call addresses. */
  ghost predicate IsAddressed(course: Course, key: string, n: nat) {
    n < |course.readiness| && course.readiness[n].key == key
  }

  lemma FirstIs(rs: seq<Requirement>, key: string, n: nat)
    requires UniqueKeys(rs) && n < |rs| && rs[n].key == key
    ensures FirstRequirement(rs, key) == Some(rs[n])
  {
    assert rs[n] in rs;
    var r := FirstRequirement(rs, key);
    var k :| 0 <= k < |rs| && rs[k] == r.value;
  }

  /** A resolution is accepted exactly if the requirement has an answer where it needs one, independent provenance
      where it is verified, and the owner's decision where something required is waived. */
  lemma ResolvableIff(course: Course, key: string, status: RequirementStatus, answer: Option<string>,
                      evidence: seq<string>, verifiedBy: Option<string>, at: int, model: Option<string>, n: nat)
    requires UniqueKeys(course.readiness) && IsAddressed(course, key, n)
    ensures var r := course.readiness[n];
            ResolveRequirement(course, key, status, answer, evidence, verifiedBy, at, model).Ok?
            <==> && (status in {Answered, Verified} ==>
                       if answer.Some? then HasContent(answer) else HasContent(r.answer))
                 && (status == Verified ==> evidence != [] && HasContent(verifiedBy) && HasContent(model))
                 && (status == Waived && r.required ==> r.ownerDecision)
  {
    hide Strip;
    hide FirstRequirement;
    hide Replaced;
    hide UniqueKeys;
    var r := course.readiness[n];
    FirstIs(course.readiness, key, n);
    BlankIsNothing();
    if answer.Some? {
      StripTwice(answer.value);
    }
    if verifiedBy.Some? {
      StripTwice(verifiedBy.value);
    }
    if model.Some? {
      StripTwice(model.value);
    }
    var updated := Resolution(r, status, answer, evidence, verifiedBy, at, model);
    assert HasContent(updated.answer) <==> if answer.Some? then HasContent(answer) else HasContent(r.answer);
  }

  lemma BlankIsNothing()
    ensures Strip("") == ""
  {
  }

  /** It changes that requirement alone, to the status, answer and evidence given; a verification also records when and
      by whom, and any other resolution forgets when it was verified. */
  lemma ResolvedIs(course: Course, key: string, status: RequirementStatus, answer: Option<string>,
                   evidence: seq<string>, verifiedBy: Option<string>, at: int, model: Option<string>, n: nat)
    requires UniqueKeys(course.readiness) && IsAddressed(course, key, n)
    requires ResolveRequirement(course, key, status, answer, evidence, verifiedBy, at, model).Ok?
    ensures var after := ResolveRequirement(course, key, status, answer, evidence, verifiedBy, at, model).value;
            DifferAt(course, after, n)
            && var r := after.readiness[n];
               && r.status == status && r.evidence == evidence
               && (answer.Some? ==> r.answer == Some(Strip(answer.value)))
               && (answer.None? ==> r.answer == course.readiness[n].answer)
               && (status == Verified ==> r.verifiedAt == Some(at)) && (status != Verified ==> r.verifiedAt.None?)
               && (HasContent(verifiedBy) ==> r.verifiedBy == Some(Strip(verifiedBy.value)))
               && (!HasContent(verifiedBy) ==> r.verifiedBy.None?)
               && (HasContent(model) ==> r.model == Some(Strip(model.value))) && (!HasContent(model) ==> r.model.None?)
  {
    hide Strip;
    FirstIs(course.readiness, key, n);
  }

  /** A missing answer is asked for first, and then missing provenance. */
  lemma ResolutionAsksFor(course: Course, key: string, status: RequirementStatus, answer: Option<string>,
                          evidence: seq<string>, verifiedBy: Option<string>, at: int, model: Option<string>, n: nat)
    requires UniqueKeys(course.readiness) && IsAddressed(course, key, n) && status in {Answered, Verified}
    ensures var r := ResolveRequirement(course, key, status, answer, evidence, verifiedBy, at, model);
            var known := if answer.Some? then HasContent(answer) else IsText(course.readiness[n].answer);
            && (!known ==> r == Err(NeedsAnswer))
            && (known && status == Verified && !(evidence != [] && HasContent(verifiedBy) && HasContent(model)) ==>
                  r == Err(NeedsProvenance))
  {
    hide Strip;
    hide UniqueKeys;
    hide FirstRequirement;
    FirstIs(course.readiness, key, n);
  }

  /** An unknown requirement is refused. */
  lemma UnknownIsRefused(course: Course, key: string, status: RequirementStatus, answer: Option<string>,
                         evidence: seq<string>, verifiedBy: Option<string>, at: int, model: Option<string>)
    requires forall r :: r in course.readiness ==> r.key != key
    ensures ResolveRequirement(course, key, status, answer, evidence, verifiedBy, at, model) == Err(NoSuchRequirement)
  {
    hide Resolution;
  }

  // ---------------------------------------------------------------- the report

  lemma {:induction false} KeysWhereIs(rs: seq<Requirement>, n: nat, test: Requirement -> bool, key: string)
    requires n <= |rs|
    ensures key in KeysWhere(rs, n, test)
       <==> exists i :: 0 <= i < n && rs[i].required && test(rs[i]) && rs[i].key == key
  {
    if n > 0 {
      KeysWhereIs(rs, n - 1, test, key);
    }
  }

  /** The report lists as unresolved exactly the required requirements that are neither verified nor waived, as the
      owner's those of them that wait for a decision, and as verified the other required ones. */
  lemma ReportLists(rs: seq<Requirement>, key: string)
    ensures key in KeysWhere(rs, |rs|, IsOpen)
       <==> exists r :: r in rs && r.required && r.status !in {Verified, Waived} && r.key == key
    ensures key in KeysWhere(rs, |rs|, IsOpenDecision)
       <==> exists r :: r in rs && r.required && r.status !in {Verified, Waived} && r.ownerDecision && r.key == key
    ensures key in KeysWhere(rs, |rs|, IsSettled)
       <==> exists r :: r in rs && r.required && r.status in {Verified, Waived} && r.key == key
  {
    hide KeysWhere;
    KeysWhereIs(rs, |rs|, IsOpen, key);
    KeysWhereIs(rs, |rs|, IsOpenDecision, key);
    KeysWhereIs(rs, |rs|, IsSettled, key);
  }

  /** A review is current exactly if it was ready, complete, without a blocked category, and of these very inputs. */
  lemma CurrentIff(course: Course, hash: Inputs -> string)
    requires IsInjective(hash)
    ensures IsCurrent(course, hash)
       <==> course.review.Some? && var review := course.review.value;
            && (forall inputs :: hash(inputs) == review.inputSha ==> inputs == InputsOf(course))
            && review.inputSha == hash(InputsOf(course)) && review.verdict != NeedsInput
            && (forall c :: c in CATEGORIES ==> exists check :: check in review.checks && check.category == c)
            && (forall check :: check in review.checks ==> check.status in {CheckVerified, NotApplicable})
  {
    hide InputsOf;
  }

  // ---------------------------------------------------------------- recording a review

  ghost predicate HasAssessment(decision: Decision, key: string) {
    exists a :: a in decision.requirements && a.key == key
  }

  /** The decision has a check for each required category and no other, and an assessment for each requirement of the
      course and no other. */
  ghost predicate SpeaksOfCourse(course: Course, decision: Decision) {
    && (forall c :: c in CATEGORIES ==> exists check :: check in decision.checks && check.category == c)
    && (forall check :: check in decision.checks ==> check.category in CATEGORIES)
    && (forall r :: r in course.readiness ==> HasAssessment(decision, r.key))
    && (forall a :: a in decision.requirements ==> exists r :: r in course.readiness && r.key == a.key)
  }

  lemma CoversIff(course: Course, decision: Decision)
    ensures CoversCourse(course, decision) <==> SpeaksOfCourse(course, decision)
  {
    if CoversCourse(course, decision) {
      forall c | c in CATEGORIES ensures exists check :: check in decision.checks && check.category == c {
        assert c in CategoriesOf(decision.checks);
      }
      forall check | check in decision.checks ensures check.category in CATEGORIES {
        assert check.category in CategoriesOf(decision.checks);
      }
      forall r | r in course.readiness ensures HasAssessment(decision, r.key) {
        assert r.key in RequirementKeys(course.readiness);
      }
      forall a | a in decision.requirements ensures exists r :: r in course.readiness && r.key == a.key {
        assert a.key in AssessedKeys(decision.requirements);
      }
    }
  }

  /** On a course whose requirements are valid, a decision is recorded exactly if a named model gives it, it speaks of
      the course, a ready verdict has work to do and leaves neither a blocked category nor a required requirement
      unverified, and no requirement loses its proof. */
  lemma ReviewIsRecordedIff(course: Course, decision: Decision, model: string)
    requires forall r :: r in course.readiness ==> IsValidRequirement(r)
    ensures IsAcceptable(course, decision, model)
       <==> && |model| > 0 && SpeaksOfCourse(course, decision)
            && (decision.verdict != NeedsInput ==>
                  && course.packages != []
                  && (forall c :: c in decision.checks ==> c.status in {CheckVerified, NotApplicable})
                  && forall r :: r in course.readiness && r.required && r.status != Waived ==>
                       HasAssessment(decision, r.key) && AssessmentOf(decision.requirements, r.key).verified)
            && forall r :: r in course.readiness ==>
                 HasAssessment(decision, r.key) && !LosesProof(r, AssessmentOf(decision.requirements, r.key))
  {
    hide SpeaksOfCourse;
    hide LosesProof;
    hide IsRecordable;
    hide IsValidRequirement;
    CoversIff(course, decision);
    forall r | r in course.readiness && HasAssessment(decision, r.key) && |model| > 0
      ensures IsRecordable(r, AssessmentOf(decision.requirements, r.key), model)
         <==> !LosesProof(r, AssessmentOf(decision.requirements, r.key))
    {
      ValidIsRecordableIff(r, AssessmentOf(decision.requirements, r.key), model);
    }
  }

  /** A review leaves a waived requirement alone, signs one that it verifies on an answer with evidence, and takes every
      signature off any other, which it blocks if it is required. */
  lemma AssessmentIs(r: Requirement, a: Assessment, now: int, model: string)
    ensures var after := Assessed(r, a, now, model);
            && after.key == r.key && after.answer == r.answer && after.required == r.required
            && (if r.status == Waived then after == r
                else if a.verified && r.answer.Some? && |r.answer.value| > 0 && |a.evidence| > 0 then
                  && after.status == Verified && after.evidence == a.evidence
                  && after.verifiedBy == Some("readiness_reviewer") && after.verifiedAt == Some(now)
                  && after.model == Some(model)
                else
                  && after.status == (if r.required then RequirementBlocked else r.status) && after.evidence == []
                  && after.verifiedBy.None? && after.verifiedAt.None? && after.model.None?)
  {
  }

  // ---------------------------------------------------------------- engaging, pausing, resuming

  /** A course is engaged exactly if somebody approves it, it has work, nothing required is open and its review is
      current; nothing else of it changes. */
  lemma ApprovalIff(course: Course, approver: string, at: int, hash: Inputs -> string)
    ensures ApproveCourse(course, approver, at, hash).Ok?
       <==> && Strip(approver) != "" && course.packages != [] && IsCurrent(course, hash)
            && forall r :: r in course.readiness && r.required ==> r.status in {Verified, Waived}
    ensures ApproveCourse(course, approver, at, hash).Ok? ==>
      ApproveCourse(course, approver, at, hash).value
      == course.(status := Engaged, approvedBy := Some(Strip(approver)), approvedAt := Some(at))
  {
    hide Strip;
    hide IsCurrent;
  }

  predicate HasApproval(course: Course) {
    course.approvedBy.Some? && |course.approvedBy.value| > 0 && course.approvedAt.Some?
  }

  /** Resuming undoes pausing, and pausing undoes resuming, on an approved course; each is accepted only where the other
      leaves off. */
  lemma PauseAndResume(course: Course)
    requires HasApproval(course)
    ensures PauseCourse(course).Ok? <==> course.status == Engaged
    ensures ResumeCourse(course).Ok? <==> course.status == Paused
    ensures PauseCourse(course).Ok? ==> PauseCourse(course).value.status == Paused
                                        && ResumeCourse(PauseCourse(course).value) == Ok(course)
    ensures ResumeCourse(course).Ok? ==> ResumeCourse(course).value.status == Engaged
                                         && PauseCourse(ResumeCourse(course).value) == Ok(course)
  {
  }

  /** The approval that a valid engaged course must carry is the one that resuming asks for. */
  lemma ApprovalIsShared(course: Course)
    ensures CourseGraph.IsApproved(course) <==> HasApproval(course)
  {
  }

  /** Without its approval a paused course cannot be resumed, and no other course either. */
  lemma UnapprovedStaysPaused(course: Course)
    requires !HasApproval(course)
    ensures ResumeCourse(course).Err?
  {
  }

  /** Going back to review is refused exactly for an engaged or completed course, and changes the status alone. */
  lemma MarkIff(course: Course)
    ensures MarkReadinessReview(course).Ok? <==> course.status !in {Engaged, Completed}
    ensures MarkReadinessReview(course).Ok? ==>
      MarkReadinessReview(course).value.status == ReadinessReview
      && MarkReadinessReview(course).value.(status := course.status) == course
  {
  }

  // ---------------------------------------------------------------- packages and checkpoints

  ghost predicate HasPackage(course: Course, key: string) {
    exists p :: p in course.packages && p.key == key
  }

  /** Setting a status is accepted exactly for a known package, reads back, and leaves all else alone; the old status
      set again gives the old course. */
  lemma PackageIsSet(course: Course, key: string, status: PackageStatus)
    ensures SetPackageStatus(course, key, status).Ok? <==> HasPackage(course, key)
    ensures HasPackage(course, key) ==>
      var after := SetPackageStatus(course, key, status).value;
      && after == course.(packages := after.packages) && |after.packages| == |course.packages|
      && forall i :: 0 <= i < |course.packages| ==>
           after.packages[i] == if course.packages[i].key == key then course.packages[i].(status := status)
                                else course.packages[i]
  {
  }

  lemma PackageIsRestored(course: Course, n: nat, status: PackageStatus)
    requires n < |course.packages|
    requires forall i :: 0 <= i < |course.packages| && i != n ==> course.packages[i].key != course.packages[n].key
    ensures var key := course.packages[n].key;
            && SetPackageStatus(course, key, status).Ok?
            && SetPackageStatus(SetPackageStatus(course, key, status).value, key, course.packages[n].status)
               == Ok(course)
  {
    var key := course.packages[n].key;
    assert course.packages[n] in course.packages;
    PackageIsSet(course, key, status);
    var after := SetPackageStatus(course, key, status).value;
    assert after.packages[n] in after.packages && after.packages[n].key == key;
    PackageIsSet(after, key, course.packages[n].status);
    assert SetPackageStatus(after, key, course.packages[n].status).value.packages == course.packages;
  }

  predicate IsDecided(status: CheckpointStatus) {
    status in {Approved, Resolved, CheckpointWaived}
  }

  lemma FirstCheckpointIs(checkpoints: seq<Checkpoint>, key: string, n: nat)
    requires n < |checkpoints| && checkpoints[n].key == key
    requires forall i :: 0 <= i < |checkpoints| && i != n ==> checkpoints[i].key != key
    ensures FirstCheckpoint(checkpoints, key) == Some(checkpoints[n])
  {
    assert checkpoints[n] in checkpoints;
    var r := FirstCheckpoint(checkpoints, key);
    var k :| 0 <= k < |checkpoints| && checkpoints[k] == r.value;
  }

  /** A checkpoint can be decided exactly if somebody stands for a decision that is the owner's; then it names who, and
      putting it on hold or back to pending keeps who decided before.  No other checkpoint changes. */
  lemma CheckpointIsResolved(course: Course, n: nat, status: CheckpointStatus, actor: string)
    requires n < |course.checkpoints|
    requires forall i :: 0 <= i < |course.checkpoints| && i != n ==>
      course.checkpoints[i].key != course.checkpoints[n].key
    ensures var c := course.checkpoints[n];
            var r := ResolveCheckpoint(course, c.key, status, actor);
            && (r.Ok? <==> (IsDecided(status) && c.ownerDecision ==> Strip(actor) != ""))
            && (r.Ok? ==>
                  && r.value == course.(checkpoints := r.value.checkpoints)
                  && |r.value.checkpoints| == |course.checkpoints|
                  && (forall i :: 0 <= i < |course.checkpoints| && i != n ==>
                        r.value.checkpoints[i] == course.checkpoints[i])
                  && r.value.checkpoints[n]
                     == c.(status := status,
                           resolvedBy := if !IsDecided(status) then c.resolvedBy
                                         else if Strip(actor) != "" then Some(Strip(actor)) else None))
  {
    hide Strip;
    FirstCheckpointIs(course.checkpoints, course.checkpoints[n].key, n);
  }

  lemma UnknownCheckpointIsRefused(course: Course, key: string, status: CheckpointStatus, actor: string)
    requires forall c :: c in course.checkpoints ==> c.key != key
    ensures ResolveCheckpoint(course, key, status, actor) == Err(NoSuchCheckpoint)
  {
  }

  /** A package is offered exactly on an engaged course, unless it is completed or not startable, if everything that it
      depends on is completed and every checkpoint that either of the two names is decided. */
  lemma EligibleIff(course: Course, p: WorkPackage, completed: set<string>)
    ensures IsEligible(course, p, completed)
       <==> && course.status == Engaged && p.key !in completed && p.status in {Planned, PackageReady}
            && (forall i :: 0 <= i < |p.dependencies| ==> p.dependencies[i] in completed)
            && (forall c :: c in course.checkpoints && (c.key in p.checkpointKeys || p.key in c.blocks) ==>
                  IsDecided(c.status))
  {
    if IsEligible(course, p, completed) {
      forall i | 0 <= i < |p.dependencies| ensures p.dependencies[i] in completed {
      }
    }
  }
}
