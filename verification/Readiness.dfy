/**
 The readiness review: bound to a fingerprint of the planning inputs, kept by execution, and lost
 with any change of an answer or a waiver.
 */
module Readiness {
  import opened Wrappers
  import opened Text
  import opened Courses

  // ---------------------------------------------------------------- the fingerprint

  datatype RequirementInput = RequirementInput(
    key: string, category: string, question: string, required: bool, answer: Option<string>,
    ownerDecision: bool, waived: bool)

  datatype PackageInput = PackageInput(
    key: string, dependencies: seq<string>, checkpointKeys: seq<string>, qaProfiles: seq<string>, design: string)

  datatype CheckpointInput = CheckpointInput(key: string, blocks: seq<string>, ownerDecision: bool, design: string)

  /** The payload that is fingerprinted: the plan, without the state of its execution. */
  datatype Inputs = Inputs(
    charter: string, readiness: seq<RequirementInput>, packages: seq<PackageInput>,
    checkpoints: seq<CheckpointInput>, qaProfiles: seq<string>)

  function RequirementInputOf(r: Requirement): RequirementInput {
    RequirementInput(r.key, r.category, r.question, r.required, r.answer, r.ownerDecision, r.status == Waived)
  }

  function InputsOf(course: Course): Inputs {
    Inputs(
      course.charter,
      seq(|course.readiness|, i requires 0 <= i < |course.readiness| => RequirementInputOf(course.readiness[i])),
      seq(|course.packages|, i requires 0 <= i < |course.packages| =>
        var p := course.packages[i]; PackageInput(p.key, p.dependencies, p.checkpointKeys, p.qaProfiles, p.design)),
      seq(|course.checkpoints|, i requires 0 <= i < |course.checkpoints| =>
        var c := course.checkpoints[i]; CheckpointInput(c.key, c.blocks, c.ownerDecision, c.design)),
      course.qaProfiles)
  }

  /** The hash never maps two payloads to one fingerprint. */
  ghost predicate IsInjective(hash: Inputs -> string) {
    forall x, y :: hash(x) == hash(y) ==> x == y
  }

  // ---------------------------------------------------------------- the report

  const CATEGORIES: seq<string> := [
    "goals", "non-goals", "users", "architecture constraints", "permissions", "secret references",
    "external access", "environments", "test data", "CI", "deployment", "rollback", "observability",
    "security", "UX inputs", "token policy", "exit criteria"]

  function CategoriesOf(checks: seq<Check>): set<string> {
    set c | c in checks :: c.category
  }

  predicate IsComplete(checks: seq<Check>) {
    forall c | c in CATEGORIES :: c in CategoriesOf(checks)
  }

  predicate IsCurrent(course: Course, hash: Inputs -> string) {
    match course.review
    case None => false
    case Some(review) =>
      && review.inputSha == hash(InputsOf(course))
      && review.verdict == VerdictReady
      && IsComplete(review.checks)
      && forall c | c in review.checks :: c.status != CheckBlocked
  }

  predicate IsSettled(r: Requirement) {
    r.status == Verified || r.status == Waived
  }

  datatype Report = Report(
    ready: bool, requiredCount: nat, unresolved: seq<string>, ownerDecisions: seq<string>, verified: seq<string>,
    reviewCurrent: bool)

  /** The keys of the required requirements among the first `n` that satisfy a condition. */
  function KeysWhere(rs: seq<Requirement>, n: nat, test: Requirement -> bool): (keys: seq<string>)
    requires n <= |rs|
    ensures keys == [] <==> forall i :: 0 <= i < n ==> !(rs[i].required && test(rs[i]))
  {
    if n == 0 then []
    else if rs[n - 1].required && test(rs[n - 1]) then KeysWhere(rs, n - 1, test) + [rs[n - 1].key]
    else KeysWhere(rs, n - 1, test)
  }

  predicate IsOpen(r: Requirement) {
    !IsSettled(r)
  }

  predicate IsOpenDecision(r: Requirement) {
    !IsSettled(r) && r.ownerDecision
  }

  predicate AllSettled(course: Course) {
    forall r | r in course.readiness :: r.required ==> IsSettled(r)
  }

  /** `readiness_report`: ready means that nothing required is open and the review is current. */
  method ReadinessReport(course: Course, hash: Inputs -> string) returns (report: Report)
    ensures report.ready <==> AllSettled(course) && IsCurrent(course, hash)
    ensures report.reviewCurrent == IsCurrent(course, hash)
    ensures report.unresolved == KeysWhere(course.readiness, |course.readiness|, IsOpen)
    ensures report.ownerDecisions == KeysWhere(course.readiness, |course.readiness|, IsOpenDecision)
    ensures report.verified == KeysWhere(course.readiness, |course.readiness|, IsSettled)
    ensures report.requiredCount == |report.unresolved| + |report.verified|
  {
    var unresolved, ownerDecisions, verified := [], [], [];
    var count := 0;
    for i := 0 to |course.readiness|
      invariant unresolved == KeysWhere(course.readiness, i, IsOpen)
      invariant ownerDecisions == KeysWhere(course.readiness, i, IsOpenDecision)
      invariant verified == KeysWhere(course.readiness, i, IsSettled)
      invariant count == |unresolved| + |verified|
    {
      var requirement := course.readiness[i];
      if requirement.required {
        count := count + 1;
        if requirement.status == Verified || requirement.status == Waived {
          verified := verified + [requirement.key];
        } else {
          unresolved := unresolved + [requirement.key];
          if requirement.ownerDecision {
            ownerDecisions := ownerDecisions + [requirement.key];
          }
        }
      }
    }
    assert unresolved == [] <==> AllSettled(course);
    var current := IsCurrent(course, hash);
    report := Report(unresolved == [] && current, count, unresolved, ownerDecisions, verified, current);
  }

  // ---------------------------------------------------------------- requirements

  predicate IsText(text: Option<string>) {
    text.Some? && text.value != ""
  }

  /** `ReadinessRequirement.validate_resolution`. */
  predicate IsValidRequirement(r: Requirement) {
    && (r.status == Answered || r.status == Verified ==> r.answer.Some? && Strip(r.answer.value) != "")
    && (r.status == Waived && r.required ==> r.ownerDecision)
    && (r.status == Verified ==>
          r.evidence != [] && IsText(r.verifiedBy) && r.verifiedAt.Some? && IsText(r.model))
  }

  function Stripped(text: Option<string>): Option<string> {
    if text.None? || Strip(text.value) == "" then None else Some(Strip(text.value))
  }

  /** The new content of a requirement; `now` is the time used when none is given. */
  function Resolution(r: Requirement, status: RequirementStatus, answer: Option<string>, evidence: seq<string>,
                      verifiedBy: Option<string>, at: int, model: Option<string>): Requirement
  {
    r.(status := status,
       answer := if answer.Some? then Some(Strip(answer.value)) else r.answer,
       evidence := evidence,
       verifiedBy := Stripped(verifiedBy),
       verifiedAt := if status == Verified then Some(at) else None,
       model := Stripped(model))
  }

  function FirstRequirement(rs: seq<Requirement>, key: string): (r: Option<Requirement>)
    ensures r.Some? ==> r.value in rs && r.value.key == key
    ensures r.None? ==> forall x :: x in rs ==> x.key != key
  {
    if rs == [] then None else if rs[0].key == key then Some(rs[0]) else FirstRequirement(rs[1..], key)
  }

  function Replaced(rs: seq<Requirement>, key: string, updated: Requirement): (r: seq<Requirement>)
    ensures |r| == |rs|
  {
    seq(|rs|, i requires 0 <= i < |rs| => if rs[i].key == key then updated else rs[i])
  }

  /** `resolve_readiness_requirement`. */
  function ResolveRequirement(course: Course, key: string, status: RequirementStatus, answer: Option<string>,
                              evidence: seq<string>, verifiedBy: Option<string>, at: int, model: Option<string>)
    : Result<Course, CourseError>
  {
    match FirstRequirement(course.readiness, key)
    case None => Err(NoSuchRequirement)
    case Some(r) =>
      var updated := Resolution(r, status, answer, evidence, verifiedBy, at, model);
      if (status == Answered || status == Verified) && !IsText(updated.answer) then Err(NeedsAnswer)
      else if status == Verified && (evidence == [] || updated.verifiedBy.None? || updated.model.None?) then
        Err(NeedsProvenance)
      else if !IsValidRequirement(updated) then Err(Invalid)
      else Ok(course.(readiness := Replaced(course.readiness, key, updated)))
  }

  ghost predicate UniqueKeys(rs: seq<Requirement>) {
    forall i, j :: 0 <= i < j < |rs| ==> rs[i].key != rs[j].key
  }

  /** A change of a requirement keeps the review current exactly when it changes neither the answer
      nor whether the requirement is waived. */
  lemma ResolutionKeepsReviewIff(course: Course, key: string, status: RequirementStatus, answer: Option<string>,
                                 evidence: seq<string>, verifiedBy: Option<string>, at: int, model: Option<string>,
                                 hash: Inputs -> string)
    requires IsInjective(hash) && UniqueKeys(course.readiness) && IsCurrent(course, hash)
    requires ResolveRequirement(course, key, status, answer, evidence, verifiedBy, at, model).Ok?
    ensures var before := FirstRequirement(course.readiness, key).value;
            var after := ResolveRequirement(course, key, status, answer, evidence, verifiedBy, at, model).value;
            IsCurrent(after, hash) == ((answer.None? || Some(Strip(answer.value)) == before.answer)
                                       && (status == Waived <==> before.status == Waived))
  {
    var before := FirstRequirement(course.readiness, key).value;
    var after := ResolveRequirement(course, key, status, answer, evidence, verifiedBy, at, model).value;
    var updated := Resolution(before, status, answer, evidence, verifiedBy, at, model);
    var n :| 0 <= n < |course.readiness| && course.readiness[n] == before;
    var old_, new_ := InputsOf(course), InputsOf(after);
    assert old_.packages == new_.packages && old_.checkpoints == new_.checkpoints;
    assert new_.readiness[n] == RequirementInputOf(updated) && old_.readiness[n] == RequirementInputOf(before);
    if RequirementInputOf(updated) == RequirementInputOf(before) {
      forall i | 0 <= i < |course.readiness| ensures new_.readiness[i] == old_.readiness[i] {
      }
      assert new_ == old_;
    } else {
      assert new_ != old_;
    }
  }

  // ---------------------------------------------------------------- execution keeps the review

  lemma SameInputs(a: Course, b: Course)
    requires a.charter == b.charter && a.readiness == b.readiness && a.qaProfiles == b.qaProfiles
    requires |a.packages| == |b.packages| && |a.checkpoints| == |b.checkpoints|
    requires forall i :: 0 <= i < |a.packages| ==> b.packages[i] == a.packages[i].(status := b.packages[i].status)
    requires forall i :: 0 <= i < |a.checkpoints| ==>
      b.checkpoints[i]
        == a.checkpoints[i].(status := b.checkpoints[i].status, resolvedBy := b.checkpoints[i].resolvedBy)
    ensures InputsOf(a) == InputsOf(b)
  {
  }

  datatype Step =
    | PackageStep(key: string, package: PackageStatus)
    | CheckpointStep(key: string, checkpoint: CheckpointStatus, actor: string)
    | ApproveStep(approver: string, at: int)
    | MarkStep
    | PauseStep
    | ResumeStep

  /** `approve_course`. */
  function ApproveCourse(course: Course, approver: string, at: int,
                         hash: Inputs -> string)
    : Result<Course, CourseError>
  {
    if Strip(approver) == "" then Err(NeedsActor)
    else if course.packages == [] then Err(NoPackages)
    else if !(AllSettled(course) && IsCurrent(course, hash)) then Err(NotReady)
    else Ok(course.(status := Engaged, approvedBy := Some(Strip(approver)), approvedAt := Some(at)))
  }

  function Execute(course: Course, step: Step, hash: Inputs -> string): Result<Course, CourseError> {
    match step
    case PackageStep(key, status) => SetPackageStatus(course, key, status)
    case CheckpointStep(key, status, actor) => ResolveCheckpoint(course, key, status, actor)
    case ApproveStep(approver, at) => ApproveCourse(course, approver, at, hash)
    case MarkStep => MarkReadinessReview(course)
    case PauseStep => PauseCourse(course)
    case ResumeStep => ResumeCourse(course)
  }

  lemma StepKeepsReview(course: Course, step: Step, hash: Inputs -> string)
    requires Execute(course, step, hash).Ok?
    ensures var after := Execute(course, step, hash).value;
            InputsOf(after) == InputsOf(course) && after.review == course.review && after.readiness == course.readiness
  {
    SameInputs(course, Execute(course, step, hash).value);
  }

  /** Refused steps change nothing. */
  function ExecuteAll(course: Course, steps: seq<Step>, hash: Inputs -> string): Course {
    if steps == [] then course
    else
      var earlier := ExecuteAll(course, steps[..|steps| - 1], hash);
      match Execute(earlier, steps[|steps| - 1], hash)
      case Ok(after) => after
      case Err(_) => earlier
  }

  /** Over any run of package, checkpoint, approval, status, pause and resume steps the review stays as
      current as it was, and so does the readiness of the course. */
  lemma {:induction false} ExecutionKeepsReview(course: Course, steps: seq<Step>, hash: Inputs -> string)
    ensures IsCurrent(ExecuteAll(course, steps, hash), hash) == IsCurrent(course, hash)
    ensures AllSettled(ExecuteAll(course, steps, hash)) == AllSettled(course)
  {
    if steps != [] {
      var earlier := ExecuteAll(course, steps[..|steps| - 1], hash);
      ExecutionKeepsReview(course, steps[..|steps| - 1], hash);
      if Execute(earlier, steps[|steps| - 1], hash).Ok? {
        StepKeepsReview(earlier, steps[|steps| - 1], hash);
      }
    }
  }

  /** Over any such run from a course that was never engaged, an engaged or paused course carries its
      approval, and was ready when it was approved. */
  lemma {:induction false} EngagedIsApproved(course: Course, steps: seq<Step>, hash: Inputs -> string)
    requires course.status == Draft || course.status == ReadinessReview || course.status == AwaitingApproval
    ensures var after := ExecuteAll(course, steps, hash);
            after.status == Engaged || after.status == Paused ==>
              && IsText(after.approvedBy) && after.approvedAt.Some? && after.packages != []
              && AllSettled(after) && IsCurrent(after, hash)
  {
    if steps != [] {
      var earlier := ExecuteAll(course, steps[..|steps| - 1], hash);
      EngagedIsApproved(course, steps[..|steps| - 1], hash);
      if Execute(earlier, steps[|steps| - 1], hash).Ok? {
        StepKeepsReview(earlier, steps[|steps| - 1], hash);
      }
    }
  }

  // ---------------------------------------------------------------- applying a review

  datatype Assessment = Assessment(key: string, verified: bool, evidence: seq<string>)

  datatype Decision = Decision(verdict: Verdict, checks: seq<Check>, requirements: seq<Assessment>)

  function AssessmentOf(requirements: seq<Assessment>, key: string): (a: Assessment)
    requires exists x :: x in requirements && x.key == key
    ensures a in requirements && a.key == key
  {
    var last := requirements[|requirements| - 1];
    if last.key == key then last
    else
      assert exists x :: x in requirements[..|requirements| - 1] && x.key == key;
      AssessmentOf(requirements[..|requirements| - 1], key)
  }

  function AssessedKeys(requirements: seq<Assessment>): set<string> {
    set a | a in requirements :: a.key
  }

  function RequirementKeys(rs: seq<Requirement>): set<string> {
    set r | r in rs :: r.key
  }

  predicate IsGrounded(r: Requirement, a: Assessment) {
    a.verified && IsText(r.answer) && a.evidence != []
  }

  /** A requirement after its assessment. */
  function Assessed(r: Requirement, a: Assessment, now: int, model: string): Requirement {
    if r.status == Waived then r
    else if IsGrounded(r, a) then
      r.(status := Verified, evidence := a.evidence, verifiedBy := Some("readiness_reviewer"),
         verifiedAt := Some(now), model := Some(model))
    else
      r.(status := if r.required then RequirementBlocked else r.status, evidence := [],
         verifiedBy := None, verifiedAt := None, model := None)
  }

  predicate LeavesOpen(course: Course, decision: Decision)
    requires RequirementKeys(course.readiness) == AssessedKeys(decision.requirements)
  {
    exists r | r in course.readiness ::
      && r.required && r.status != Waived
      && (assert r.key in AssessedKeys(decision.requirements); !AssessmentOf(decision.requirements, r.key).verified)
  }

  ghost predicate IsAssessedAt(course: Course, decision: Decision, now: int, model: string, updated: seq<Requirement>,
                               i: nat)
    requires i < |course.readiness| && i < |updated|
    requires RequirementKeys(course.readiness) == AssessedKeys(decision.requirements)
  {
    var r := course.readiness[i];
    && r.key in AssessedKeys(decision.requirements)
    && updated[i] == Assessed(r, AssessmentOf(decision.requirements, r.key), now, model)
  }

  /** Whether a requirement can be recorded with its assessment: a waiver as it is, a verification with an
      answer that is not blank and a named model, and an optional requirement that the review does not verify
      only if it was not verified before. */
  predicate IsRecordable(r: Requirement, a: Assessment, model: string) {
    if r.status == Waived then r.required ==> r.ownerDecision
    else if a.verified && IsText(r.answer) && a.evidence != [] then Strip(r.answer.value) != "" && model != ""
    else
      || r.required
      || (r.status != Verified && (r.status == Answered ==> r.answer.Some? && Strip(r.answer.value) != ""))
  }

  lemma RecordableIff(r: Requirement, a: Assessment, now: int, model: string)
    ensures IsValidRequirement(Assessed(r, a, now, model)) <==> IsRecordable(r, a, model)
  {
  }

  /** The decision speaks about exactly the required categories and the requirements of the course. */
  predicate CoversCourse(course: Course, decision: Decision) {
    && CategoriesOf(decision.checks) == (set c | c in CATEGORIES)
    && AssessedKeys(decision.requirements) == RequirementKeys(course.readiness)
  }

  /** A ready verdict has packages to work on, no blocked category, and leaves nothing required unverified. */
  ghost predicate IsSupported(course: Course, decision: Decision)
    requires CoversCourse(course, decision)
  {
    && course.packages != []
    && (forall c :: c in decision.checks ==> c.status != CheckBlocked)
    && (forall r :: r in course.readiness && r.required && r.status != Waived ==>
          r.key in AssessedKeys(decision.requirements) && AssessmentOf(decision.requirements, r.key).verified)
  }

  ghost predicate AllRecordable(course: Course, decision: Decision, model: string)
    requires CoversCourse(course, decision)
  {
    forall r :: r in course.readiness ==>
      r.key in AssessedKeys(decision.requirements)
      && IsRecordable(r, AssessmentOf(decision.requirements, r.key), model)
  }

  /** When a review by a model is recorded. */
  ghost predicate IsAcceptable(course: Course, decision: Decision, model: string) {
    && |model| > 0 && CoversCourse(course, decision)
    && (decision.verdict == VerdictReady ==> IsSupported(course, decision))
    && AllRecordable(course, decision, model)
  }

  lemma AllRecordableIff(course: Course, decision: Decision, now: int, model: string, updated: seq<Requirement>)
    requires CoversCourse(course, decision) && |updated| == |course.readiness|
    requires forall i :: 0 <= i < |updated| ==> IsAssessedAt(course, decision, now, model, updated, i)
    ensures AllRecordable(course, decision, model) <==> forall u :: u in updated ==> IsValidRequirement(u)
  {
    hide IsValidRequirement;
    hide IsRecordable;
    hide Assessed;
    forall i | 0 <= i < |updated|
      ensures var r := course.readiness[i];
              && r.key in AssessedKeys(decision.requirements)
              && (IsValidRequirement(updated[i])
                  <==> IsRecordable(r, AssessmentOf(decision.requirements, r.key), model))
    {
      assert IsAssessedAt(course, decision, now, model, updated, i);
      RecordableIff(course.readiness[i], AssessmentOf(decision.requirements, course.readiness[i].key), now, model);
    }
    if forall u :: u in updated ==> IsValidRequirement(u) {
      forall r | r in course.readiness
        ensures r.key in AssessedKeys(decision.requirements)
        ensures IsRecordable(r, AssessmentOf(decision.requirements, r.key), model)
      {
        var i :| 0 <= i < |course.readiness| && course.readiness[i] == r;
        assert updated[i] in updated;
      }
    }
    if AllRecordable(course, decision, model) {
      forall u | u in updated ensures IsValidRequirement(u) {
        var i :| 0 <= i < |updated| && updated[i] == u;
        assert course.readiness[i] in course.readiness;
      }
    }
  }

  /** `apply_readiness_review`, up to the fields of the record that nothing here reads. */
  method ApplyReview(course: Course, decision: Decision, hash: Inputs -> string, now: int, model: string)
    returns (r: Result<Course, CourseError>)
    ensures r.Ok? <==> IsAcceptable(course, decision, model)
    ensures r.Ok? ==> InputsOf(r.value) == InputsOf(course)
    ensures r.Ok? ==> r.value.review == Some(Review(decision.verdict, hash(InputsOf(course)), decision.checks))
    ensures r.Ok? ==>
      && RequirementKeys(course.readiness) == AssessedKeys(decision.requirements)
      && |r.value.readiness| == |course.readiness|
      && forall i :: 0 <= i < |course.readiness| ==> IsAssessedAt(course, decision, now, model, r.value.readiness, i)
    ensures r.Ok? ==> (IsCurrent(r.value, hash) <==> decision.verdict == VerdictReady)
    ensures r.Ok? && decision.verdict == VerdictReady ==>
      course.packages != [] && !LeavesOpen(course, decision)
  {
    if CategoriesOf(decision.checks) != (set c | c in CATEGORIES) {
      return Err(Invalid);
    }
    if AssessedKeys(decision.requirements) != RequirementKeys(course.readiness) {
      return Err(Invalid);
    }
    if decision.verdict == VerdictReady && course.packages == [] {
      return Err(Invalid);
    }
    if decision.verdict == VerdictReady && LeavesOpen(course, decision) {
      OpenIsUnsupported(course, decision);
      return Err(Invalid);
    }
    var updated: seq<Requirement> := [];
    for i := 0 to |course.readiness|
      invariant |updated| == i
      invariant forall k :: 0 <= k < i ==> IsAssessedAt(course, decision, now, model, updated, k)
    {
      var requirement := course.readiness[i];
      ghost var before := updated;
      assert requirement.key in AssessedKeys(decision.requirements);
      var assessment := AssessmentOf(decision.requirements, requirement.key);
      if requirement.status == Waived {
        updated := updated + [requirement];
      } else if assessment.verified && IsText(requirement.answer) && assessment.evidence != [] {
        updated := updated + [requirement.(
          status := Verified, evidence := assessment.evidence, verifiedBy := Some("readiness_reviewer"),
          verifiedAt := Some(now), model := Some(model))];
      } else {
        updated := updated + [requirement.(
          status := if requirement.required then RequirementBlocked else requirement.status,
          evidence := [], verifiedBy := None, verifiedAt := None, model := None)];
      }
      assert updated[i] == Assessed(requirement, assessment, now, model);
      forall k | 0 <= k < i ensures IsAssessedAt(course, decision, now, model, updated, k) {
        assert IsAssessedAt(course, decision, now, model, before, k);
      }
    }
    var blocked := exists c | c in decision.checks :: c.status == CheckBlocked;
    if model == "" || (decision.verdict == VerdictReady && blocked) {
      return Err(Invalid);
    }
    AllRecordableIff(course, decision, now, model, updated);
    if exists u | u in updated :: !IsValidRequirement(u) {
      return Err(Invalid);
    }
    var record := Review(decision.verdict, hash(InputsOf(course)), decision.checks);
    var after := course.(readiness := updated, review := Some(record));
    AssessmentKeepsInputs(course, decision, now, model, after);
    r := Ok(after);
  }

  lemma OpenIsUnsupported(course: Course, decision: Decision)
    requires CoversCourse(course, decision) && LeavesOpen(course, decision)
    ensures !IsSupported(course, decision)
  {
  }

  /** The two kinds of requirement that cannot be recorded: one verified on a blank answer, and an optional one
      that was verified before and is not any more. */
  predicate LosesProof(r: Requirement, a: Assessment) {
    || (IsGrounded(r, a) && r.status != Waived && Strip(r.answer.value) == "")
    || (!IsGrounded(r, a) && r.status == Verified && !r.required)
  }

  lemma ValidIsRecordableIff(r: Requirement, a: Assessment, model: string)
    requires IsValidRequirement(r) && model != ""
    ensures IsRecordable(r, a, model) <==> !LosesProof(r, a)
  {
  }

  /** On a course whose requirements are valid, a decision by a named model that asks for input is recorded
      exactly if it covers the course and no requirement is of these two kinds. */
  lemma NeedsInputIsRecordedIff(course: Course, decision: Decision, model: string)
    requires decision.verdict == NeedsInput && model != ""
    requires forall r :: r in course.readiness ==> IsValidRequirement(r)
    ensures IsAcceptable(course, decision, model)
       <==> CoversCourse(course, decision) && forall r :: r in course.readiness ==>
              r.key in AssessedKeys(decision.requirements)
              && !LosesProof(r, AssessmentOf(decision.requirements, r.key))
  {
    hide LosesProof;
    hide IsRecordable;
    hide IsValidRequirement;
    if CoversCourse(course, decision) {
      forall r | r in course.readiness
        ensures r.key in AssessedKeys(decision.requirements)
        ensures IsRecordable(r, AssessmentOf(decision.requirements, r.key), model)
           <==> !LosesProof(r, AssessmentOf(decision.requirements, r.key))
      {
        assert r.key in RequirementKeys(course.readiness);
        ValidIsRecordableIff(r, AssessmentOf(decision.requirements, r.key), model);
      }
    }
  }

  /** Assessing requirements changes neither answers nor waivers. */
  lemma AssessmentKeepsInputs(course: Course, decision: Decision, now: int, model: string, after: Course)
    requires RequirementKeys(course.readiness) == AssessedKeys(decision.requirements)
    requires |after.readiness| == |course.readiness|
    requires forall i :: 0 <= i < |course.readiness| ==> IsAssessedAt(course, decision, now, model, after.readiness, i)
    requires after == course.(readiness := after.readiness, review := after.review)
    ensures InputsOf(after) == InputsOf(course)
  {
    forall i | 0 <= i < |course.readiness|
      ensures RequirementInputOf(after.readiness[i]) == RequirementInputOf(course.readiness[i])
    {
      assert IsAssessedAt(course, decision, now, model, after.readiness, i);
    }
  }

  /** After a ready verdict the report is ready exactly when every required requirement that is not
      waived has an answer and evidence from the review. */
  lemma ReadyAfterReviewIff(course: Course, decision: Decision, now: int, model: string, after: Course)
    requires RequirementKeys(course.readiness) == AssessedKeys(decision.requirements)
    requires decision.verdict == VerdictReady && !LeavesOpen(course, decision)
    requires |after.readiness| == |course.readiness|
    requires forall i :: 0 <= i < |course.readiness| ==> IsAssessedAt(course, decision, now, model, after.readiness, i)
    ensures AllSettled(after) <==> forall r :: r in course.readiness && r.required && r.status != Waived ==>
      && r.key in AssessedKeys(decision.requirements)
      && IsText(r.answer) && AssessmentOf(decision.requirements, r.key).evidence != []
  {
    forall i | 0 <= i < |course.readiness|
      ensures var r := course.readiness[i];
              && r.key in AssessedKeys(decision.requirements)
              && (r.required && r.status != Waived ==>
                    (IsSettled(after.readiness[i])
                     <==> IsText(r.answer) && AssessmentOf(decision.requirements, r.key).evidence != []))
              && after.readiness[i].required == r.required
              && (r.status == Waived ==> IsSettled(after.readiness[i]))
    {
      assert IsAssessedAt(course, decision, now, model, after.readiness, i);
      assert course.readiness[i] in course.readiness && after.readiness[i] in after.readiness;
    }
    if AllSettled(after) {
      forall r | r in course.readiness && r.required && r.status != Waived
        ensures r.key in AssessedKeys(decision.requirements)
        ensures IsText(r.answer) && AssessmentOf(decision.requirements, r.key).evidence != []
      {
        var i :| 0 <= i < |course.readiness| && course.readiness[i] == r;
        assert after.readiness[i] in after.readiness;
      }
    } else {
      var u :| u in after.readiness && u.required && !IsSettled(u);
      var i :| 0 <= i < |after.readiness| && after.readiness[i] == u;
      assert course.readiness[i] in course.readiness;
    }
  }
}
