/** Courses: work packages with dependencies, checkpoints, and the readiness record. */
module Courses {
  import opened Wrappers
  import opened Text

  datatype CourseStatus = Draft | ReadinessReview | AwaitingApproval | Engaged | Paused | Completed | CourseBlocked

  datatype PackageStatus = Planned | PackageReady | Executing | Reviewing | PackageBlocked | Complete

  datatype CheckpointStatus = Pending | Approved | CheckpointBlocked | Resolved | CheckpointWaived

  datatype RequirementStatus = Unknown | Answered | Verified | Waived | RequirementBlocked

  datatype Requirement = Requirement(
    key: string, category: string, question: string, required: bool, status: RequirementStatus,
    answer: Option<string>, evidence: seq<string>, ownerDecision: bool,
    verifiedBy: Option<string>, verifiedAt: Option<int>, model: Option<string>)

  datatype CheckStatus = CheckVerified | NotApplicable | CheckBlocked

  datatype Check = Check(category: string, status: CheckStatus)

  datatype Verdict = VerdictReady | NeedsInput

  /** `inputSha` is the fingerprint of the planning inputs that the review saw. */
  datatype Review = Review(verdict: Verdict, inputSha: string, checks: seq<Check>)

  /** `design` stands for the fields of a package or checkpoint that nothing here looks into. */
  datatype WorkPackage = WorkPackage(
    key: string, dependencies: seq<string>, checkpointKeys: seq<string>, qaProfiles: seq<string>,
    status: PackageStatus, design: string)

  datatype Checkpoint = Checkpoint(
    key: string, blocks: seq<string>, status: CheckpointStatus, ownerDecision: bool,
    resolvedBy: Option<string>, design: string)

  datatype Course = Course(
    charter: string, packages: seq<WorkPackage>, checkpoints: seq<Checkpoint>, qaProfiles: seq<string>,
    readiness: seq<Requirement>, review: Option<Review>, status: CourseStatus,
    approvedBy: Option<string>, approvedAt: Option<int>)

  // ---------------------------------------------------------------- transitions

  datatype CourseError =
    | NoSuchRequirement | NoSuchCheckpoint | NoSuchPackage | NeedsAnswer | NeedsProvenance | NeedsActor
    | NotReady | NoPackages | WrongStatus | Invalid

  function SetCheckpoint(checkpoints: seq<Checkpoint>, key: string, status: CheckpointStatus, actor: Option<string>)
    : (r: seq<Checkpoint>)
    ensures |r| == |checkpoints|
  {
    seq(|checkpoints|, i requires 0 <= i < |checkpoints| =>
      if checkpoints[i].key != key then checkpoints[i]
      else if status == Pending || status == CheckpointBlocked then checkpoints[i].(status := status)
      else checkpoints[i].(status := status, resolvedBy := actor))
  }

  /** `resolve_checkpoint`; the first checkpoint of the key decides whether an actor is needed. */
  function ResolveCheckpoint(course: Course, key: string, status: CheckpointStatus, actor: string)
    : Result<Course, CourseError>
  {
    match FirstCheckpoint(course.checkpoints, key)
    case None => Err(NoSuchCheckpoint)
    case Some(c) =>
      if status != Pending && status != CheckpointBlocked && c.ownerDecision && Strip(actor) == "" then Err(NeedsActor)
      else
        var resolver := if Strip(actor) == "" then None else Some(Strip(actor));
        Ok(course.(checkpoints := SetCheckpoint(course.checkpoints, key, status, resolver)))
  }

  function FirstCheckpoint(checkpoints: seq<Checkpoint>, key: string): (r: Option<Checkpoint>)
    ensures r.Some? <==> exists c :: c in checkpoints && c.key == key
    ensures r.Some? ==> r.value in checkpoints && r.value.key == key
  {
    if checkpoints == [] then None
    else if checkpoints[0].key == key then Some(checkpoints[0])
    else FirstCheckpoint(checkpoints[1..], key)
  }

  function SetPackage(packages: seq<WorkPackage>, key: string, status: PackageStatus): (r: seq<WorkPackage>)
    ensures |r| == |packages|
  {
    seq(|packages|, i requires 0 <= i < |packages| =>
      if packages[i].key == key then packages[i].(status := status) else packages[i])
  }

  /** `set_work_package_status`. */
  function SetPackageStatus(course: Course, key: string, status: PackageStatus): Result<Course, CourseError> {
    if exists p | p in course.packages :: p.key == key
    then Ok(course.(packages := SetPackage(course.packages, key, status)))
    else Err(NoSuchPackage)
  }

  function PauseCourse(course: Course): Result<Course, CourseError> {
    if course.status != Engaged then Err(WrongStatus) else Ok(course.(status := Paused))
  }

  function ResumeCourse(course: Course): Result<Course, CourseError> {
    if course.status != Paused then Err(WrongStatus)
    else if course.approvedBy.None? || course.approvedBy.value == "" || course.approvedAt.None? then
      Err(NeedsProvenance)
    else Ok(course.(status := Engaged))
  }

  function MarkReadinessReview(course: Course): Result<Course, CourseError> {
    if course.status == Engaged || course.status == Completed then Err(WrongStatus)
    else Ok(course.(status := ReadinessReview))
  }
}
