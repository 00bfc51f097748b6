/** Capability-driven QA selection. */
module Qa {
  import opened Wrappers
  import opened Text

  datatype Surface = WebUi | Cli | Api | Library | DataPipeline | InfrastructureRelease | Custom

  /** A changed path, split and lower-cased: the final name, its suffix and the directories above it. */
  datatype ChangedPath = ChangedPath(name: string, suffix: string, dirs: seq<string>)

  datatype Profile = Profile(
    key: string, surfaces: set<Surface>, checks: seq<string>, reviewerRole: string, enabled: bool)

  datatype QaSource = QaSource(surfaces: set<Surface>, profiles: seq<Profile>, checks: seq<string>)

  datatype QaRepo = QaRepo(own: QaSource, uxEnabled: bool)

  datatype WorkerRole = UxReviewer | Tester

  datatype Selection = Selection(surfaces: set<Surface>, profiles: seq<Profile>, roles: map<string, WorkerRole>)

  // ---------------------------------------------------------------- inferring surfaces

  predicate HasDir(path: ChangedPath, names: set<string>) {
    exists d | d in path.dirs :: d in names
  }

  const WEB_SUFFIXES := {".tsx", ".jsx", ".css", ".scss", ".html", ".vue", ".svelte"}
  const CODE_SUFFIXES := {".py", ".js", ".ts", ".go", ".rs", ".java", ".cs", ".rb", ".php"}
  const DATA_SUFFIXES := {".sql", ".dbt", ".parquet"}
  const INFRA_SUFFIXES := {".tf", ".bicep"}
  const API_NAMES := {"openapi.yaml", "openapi.yml", "swagger.yaml", "swagger.yml"}
  const INFRA_NAMES := {"dockerfile", "docker-compose.yml", "docker-compose.yaml"}
  const CLI_NAMES := {"makefile", "justfile", "cli.py", "cli.ts", "command.py", "commands.py"}
  const API_DIRS := {"api", "controllers", "endpoints"}
  const INFRA_DIRS := {"terraform", "infra", "k8s", "helm", "workflows"}
  const DATA_DIRS := {"data", "etl", "pipelines", "migrations", "warehouse"}
  const CLI_DIRS := {"bin", "scripts", "cli", "commands"}

  /** The surfaces that one changed path touches. */
  function Triggers(path: ChangedPath): set<Surface> {
    (if path.suffix in WEB_SUFFIXES then {WebUi} else {})
    + (if path.name in API_NAMES || Contains(path.name, "routes") || HasDir(path, API_DIRS) then {Api} else {})
    + (if path.name in INFRA_NAMES || path.suffix in INFRA_SUFFIXES || HasDir(path, INFRA_DIRS)
       then {InfrastructureRelease} else {})
    + (if path.suffix in DATA_SUFFIXES || "dag_" <= path.name || "pipeline_" <= path.name || HasDir(path, DATA_DIRS)
       then {DataPipeline} else {})
    + (if path.suffix in CODE_SUFFIXES then {Library} else {})
    + (if path.name in CLI_NAMES || HasDir(path, CLI_DIRS) then {Cli} else {})
  }

  predicate LiesIn(path: ChangedPath, names: set<string>) {
    exists i :: 0 <= i < |path.dirs| && path.dirs[i] in names
  }

  /** What touches a surface: its suffixes, names and directories; no path touches CUSTOM. */
  predicate Touches(path: ChangedPath, surface: Surface) {
    match surface
    case WebUi => path.suffix in WEB_SUFFIXES
    case Library => path.suffix in CODE_SUFFIXES
    case Cli => path.name in CLI_NAMES || LiesIn(path, CLI_DIRS)
    case Api => path.name in API_NAMES || Contains(path.name, "routes") || LiesIn(path, API_DIRS)
    case DataPipeline =>
      path.suffix in DATA_SUFFIXES || "dag_" <= path.name || "pipeline_" <= path.name || LiesIn(path, DATA_DIRS)
    case InfrastructureRelease =>
      path.name in INFRA_NAMES || path.suffix in INFRA_SUFFIXES || LiesIn(path, INFRA_DIRS)
    case Custom => false
  }

  lemma DirIff(path: ChangedPath, names: set<string>)
    ensures HasDir(path, names) <==> LiesIn(path, names)
  {
    if HasDir(path, names) {
      var d :| d in path.dirs && d in names;
      var i :| 0 <= i < |path.dirs| && path.dirs[i] == d;
    }
  }

  /** The union over the rules is, surface by surface, the rule of that surface. */
  lemma TriggersIff(path: ChangedPath, surface: Surface)
    ensures surface in Triggers(path) <==> Touches(path, surface)
  {
    hide Contains;
    hide HasDir;
    hide LiesIn;
    hide WEB_SUFFIXES;
    hide CODE_SUFFIXES;
    hide DATA_SUFFIXES;
    hide INFRA_SUFFIXES;
    hide API_NAMES;
    hide INFRA_NAMES;
    hide CLI_NAMES;
    hide API_DIRS;
    hide INFRA_DIRS;
    hide DATA_DIRS;
    hide CLI_DIRS;
    DirIff(path, API_DIRS);
    DirIff(path, INFRA_DIRS);
    DirIff(path, DATA_DIRS);
    DirIff(path, CLI_DIRS);
  }

  ghost function Touched(paths: seq<ChangedPath>): set<Surface> {
    set p, s | p in paths && s in Triggers(p) :: s
  }

  ghost function Inferred(paths: seq<ChangedPath>): set<Surface> {
    if Touched(paths) == {} then {Custom} else Touched(paths)
  }

  lemma TouchedNext(paths: seq<ChangedPath>, path: ChangedPath)
    ensures Touched(paths + [path]) == Touched(paths) + Triggers(path)
  {
    var all := paths + [path];
    forall s ensures s in Touched(all) <==> s in Touched(paths) || s in Triggers(path) {
      if s in Touched(paths) {
        var p :| p in paths && s in Triggers(p);
        assert p in all;
      }
      if s in Triggers(path) {
        assert path in all;
      }
    }
  }

  /** A surface is inferred exactly when some path touches it; CUSTOM exactly when no path touches any. */
  lemma InferredIsExact(paths: seq<ChangedPath>, s: Surface)
    ensures s in Inferred(paths)
      <==> (exists p :: p in paths && s in Triggers(p))
           || (s == Custom && forall p, t :: p in paths ==> t !in Triggers(p))
  {
    if s == Custom && Touched(paths) != {} {
      var t :| t in Touched(paths);
      var p :| p in paths && t in Triggers(p);
    }
    assert forall p, t :: p in paths && t in Triggers(p) ==> t in Touched(paths);
  }

  /** `infer_surfaces`. */
  method InferSurfaces(paths: seq<ChangedPath>) returns (surfaces: set<Surface>)
    ensures surfaces == Inferred(paths) && surfaces != {}
  {
    surfaces := {};
    for i := 0 to |paths|
      invariant surfaces == Touched(paths[..i])
    {
      assert paths[..i + 1] == paths[..i] + [paths[i]];
      TouchedNext(paths[..i], paths[i]);
      surfaces := surfaces + Triggers(paths[i]);
    }
    assert paths[..|paths|] == paths;
    if surfaces == {} {
      surfaces := {Custom};
    }
  }

  // ---------------------------------------------------------------- selecting profiles

  function Dedupe(xs: seq<string>): (r: seq<string>)
    ensures forall x :: x in r <==> x in xs
  {
    if xs == [] then []
    else
      var earlier := Dedupe(xs[..|xs| - 1]);
      if xs[|xs| - 1] in earlier then earlier else earlier + [xs[|xs| - 1]]
  }

  predicate IsSelected(profile: Profile, surfaces: set<Surface>) {
    profile.enabled && (profile.surfaces == {} || profile.surfaces * surfaces != {} || Custom in profile.surfaces)
  }

  function SelectConfigured(configured: seq<Profile>, surfaces: set<Surface>): (r: seq<Profile>)
    ensures forall p :: p in r <==> p in configured && IsSelected(p, surfaces)
  {
    if configured == [] then []
    else
      var earlier := SelectConfigured(configured[..|configured| - 1], surfaces);
      var last := configured[|configured| - 1];
      if IsSelected(last, surfaces) then earlier + [last] else earlier
  }

  /** The surfaces that configured profiles stand for; CUSTOM always keeps its own gate. */
  function CoveredBy(profiles: seq<Profile>): set<Surface> {
    set p, s | p in profiles && s in p.surfaces && s != Custom :: s
  }

  function BuiltIn(surface: Surface, uxEnabled: bool): (p: Profile)
    ensures surface in p.surfaces && p.enabled
  {
    match surface
    case WebUi => Profile("web-ui-qa", {WebUi}, [], if uxEnabled then "ui_qa_reviewer" else "qa_assistant", true)
    case Cli => Profile("cli-qa", {Cli}, [], "qa_assistant", true)
    case Api => Profile("api-qa", {Api}, [], "qa_assistant", true)
    case Library => Profile("library-qa", {Library}, [], "qa_assistant", true)
    case DataPipeline => Profile("data-pipeline-qa", {DataPipeline}, [], "qa_assistant", true)
    case InfrastructureRelease =>
      Profile("infrastructure-release-qa", {InfrastructureRelease}, [], "qa_assistant", true)
    case Custom => Profile("custom-qa", {Custom}, [], "qa_assistant", true)
  }

  /** All surfaces in the order of their names. */
  const BY_NAME: seq<Surface> := [Api, Cli, Custom, DataPipeline, InfrastructureRelease, Library, WebUi]

  function AllChecks(profiles: seq<Profile>): set<string> {
    set p, c | p in profiles && c in p.checks :: c
  }

  function Remaining(checks: seq<string>, configured: set<string>): (r: seq<string>)
    ensures forall c :: c in r <==> c in checks && c !in configured
  {
    if checks == [] then []
    else
      var earlier := Remaining(checks[..|checks| - 1], configured);
      var last := checks[|checks| - 1];
      if last in configured then earlier else earlier + [last]
  }

  function RoleOf(profile: Profile): WorkerRole {
    if profile.reviewerRole == "ui_qa_reviewer" || profile.reviewerRole == "ux_reviewer" || WebUi in profile.surfaces
    then UxReviewer else Tester
  }

  function RolesOf(profiles: seq<Profile>): (roles: map<string, WorkerRole>)
    ensures forall p :: p in profiles ==> p.key in roles
  {
    if profiles == [] then map[]
    else
      var last := profiles[|profiles| - 1];
      RolesOf(profiles[..|profiles| - 1])[last.key := RoleOf(last)]
  }

  ghost predicate Gates(sel: Selection, surface: Surface) {
    exists p :: p in sel.profiles && surface in p.surfaces
  }

  ghost predicate RunsCheck(sel: Selection, check: string) {
    exists p :: p in sel.profiles && check in p.checks
  }

  function Declared(repo: QaRepo, manifest: Option<QaSource>): set<Surface> {
    if repo.own.surfaces != {} then repo.own.surfaces
    else if manifest.Some? then manifest.value.surfaces else {}
  }

  function ManifestChecks(manifest: Option<QaSource>): seq<string> {
    if manifest.Some? then manifest.value.checks else []
  }

  /** The built-in profiles for some of the first `n` surfaces, in the order of their names. */
  function BuiltInsFor(missing: set<Surface>, uxEnabled: bool, n: nat): (r: seq<Profile>)
    requires n <= |BY_NAME|
  {
    if n == 0 then []
    else
      var earlier := BuiltInsFor(missing, uxEnabled, n - 1);
      if BY_NAME[n - 1] in missing then earlier + [BuiltIn(BY_NAME[n - 1], uxEnabled)] else earlier
  }

  function WithBuiltIns(configured: seq<Profile>, surfaces: set<Surface>, uxEnabled: bool): seq<Profile> {
    var selected := SelectConfigured(configured, surfaces);
    selected + BuiltInsFor(surfaces - CoveredBy(selected), uxEnabled, |BY_NAME|)
  }

  /** The enabled profiles that apply, and a built-in one for every surface they leave uncovered. */
  method SelectWithBuiltIns(configured: seq<Profile>, surfaces: set<Surface>, uxEnabled: bool)
    returns (selected: seq<Profile>)
    ensures forall s :: s in surfaces ==> exists p :: p in selected && s in p.surfaces
    ensures selected == WithBuiltIns(configured, surfaces, uxEnabled)
    ensures SelectConfigured(configured, surfaces) <= selected
    ensures forall p :: p in selected ==> IsSelected(p, surfaces)
    ensures forall p :: p in selected && p !in SelectConfigured(configured, surfaces) ==>
      exists s :: s in surfaces - CoveredBy(SelectConfigured(configured, surfaces)) && p == BuiltIn(s, uxEnabled)
  {
    selected := SelectConfigured(configured, surfaces);
    ghost var applicable := selected;
    var covered := CoveredBy(selected);
    for i := 0 to |BY_NAME|
      invariant forall s :: s in covered ==> exists p :: p in selected && s in p.surfaces
      invariant selected == applicable + BuiltInsFor(surfaces - covered, uxEnabled, i)
      invariant forall p :: p in selected ==> IsSelected(p, surfaces)
      invariant forall p :: p in selected && p !in applicable ==>
        exists s :: s in surfaces - covered && p == BuiltIn(s, uxEnabled)
      invariant forall k :: 0 <= k < i && BY_NAME[k] in surfaces ==>
        exists p :: p in selected && BY_NAME[k] in p.surfaces
    {
      if BY_NAME[i] in surfaces - covered {
        var builtIn := BuiltIn(BY_NAME[i], uxEnabled);
        ghost var before := selected;
        assert BY_NAME[i] in builtIn.surfaces * surfaces;
        selected := selected + [builtIn];
        assert builtIn in selected && forall p :: p in before ==> p in selected;
      }
    }
    forall s | s in surfaces ensures exists p :: p in selected && s in p.surfaces {
      var k :| 0 <= k < |BY_NAME| && BY_NAME[k] == s by { EverySurfaceIsNamed(s); }
    }
  }

  /** The profiles, with one more for the checks that none of them runs. */
  function WithRemainingChecks(profiles: seq<Profile>, checks: seq<string>): (r: seq<Profile>)
    ensures profiles <= r && forall p :: p in profiles ==> p in r
    ensures forall c :: c in checks ==> exists p :: p in r && c in p.checks
    ensures forall p :: p in r && p !in profiles ==> p.enabled && p.surfaces == {}
  {
    var remaining := Remaining(checks, AllChecks(profiles));
    if remaining == [] then
      assert forall c :: c in checks ==> c in AllChecks(profiles);
      profiles
    else
      var extra := Profile("deterministic-checks", {}, remaining, "qa_assistant", true);
      var all := profiles + [extra];
      assert extra in all && forall p :: p in profiles ==> p in all;
      assert forall c :: c in checks ==> c in AllChecks(profiles) || c in extra.checks;
      all
  }

  /** Nothing that needs QA is left without a profile: no declared or inferred surface, and no
      repository or manifest check. */
  ghost predicate CoversAll(repo: QaRepo, manifest: Option<QaSource>, paths: seq<ChangedPath>, sel: Selection) {
    && Declared(repo, manifest) <= sel.surfaces
    && (paths != [] ==> Inferred(paths) <= sel.surfaces)
    && (forall s :: s in sel.surfaces ==> Gates(sel, s))
    && (forall c :: c in repo.own.checks || c in ManifestChecks(manifest) ==> RunsCheck(sel, c))
  }

  /** The declared surfaces and those that the changed paths touch, or CUSTOM if there are none. */
  ghost function Needed(repo: QaRepo, manifest: Option<QaSource>, paths: seq<ChangedPath>): set<Surface> {
    if paths != [] || Declared(repo, manifest) != {} then
      Declared(repo, manifest) + (if paths != [] then Inferred(paths) else {})
    else {Custom}
  }

  /** The surfaces that need a gate. */
  method NeededSurfaces(repo: QaRepo, manifest: Option<QaSource>, paths: seq<ChangedPath>)
    returns (surfaces: set<Surface>)
    ensures surfaces == Needed(repo, manifest, paths)
    ensures surfaces != {}
  {
    surfaces := Declared(repo, manifest);
    if paths != [] {
      var detected := InferSurfaces(paths);
      surfaces := surfaces + detected;
    }
    if surfaces == {} {
      surfaces := {Custom};
    }
  }

  ghost predicate AllSelected(profiles: seq<Profile>, surfaces: set<Surface>) {
    forall p :: p in profiles ==> IsSelected(p, surfaces)
  }

  /** The configured profiles: the repository's own, or else those of the manifest. */
  function Configured(repo: QaRepo, manifest: Option<QaSource>): seq<Profile> {
    if repo.own.profiles != [] then repo.own.profiles else if manifest.Some? then manifest.value.profiles else []
  }

  function SelectedProfiles(repo: QaRepo, manifest: Option<QaSource>, surfaces: set<Surface>): seq<Profile> {
    WithRemainingChecks(WithBuiltIns(Configured(repo, manifest), surfaces, repo.uxEnabled),
                        Dedupe(ManifestChecks(manifest) + repo.own.checks))
  }

  /** The gates for the surfaces, and one for the checks that no other gate runs. */
  method SelectGates(repo: QaRepo, manifest: Option<QaSource>, surfaces: set<Surface>)
    returns (profiles: seq<Profile>)
    ensures profiles == SelectedProfiles(repo, manifest, surfaces)
    ensures AllSelected(profiles, surfaces)
    ensures forall s :: s in surfaces ==> exists p :: p in profiles && s in p.surfaces
    ensures forall c :: c in repo.own.checks || c in ManifestChecks(manifest) ==>
      exists p :: p in profiles && c in p.checks
  {
    var configured := if repo.own.profiles != [] then repo.own.profiles
                      else if manifest.Some? then manifest.value.profiles else [];
    var selected := SelectWithBuiltIns(configured, surfaces, repo.uxEnabled);
    var checks := Dedupe(ManifestChecks(manifest) + repo.own.checks);
    profiles := WithRemainingChecks(selected, checks);
    assert forall c :: c in repo.own.checks || c in ManifestChecks(manifest) ==> c in checks;
  }

  /** `select_qa`. */
  method SelectQa(repo: QaRepo, manifest: Option<QaSource>, planned: seq<ChangedPath>, actual: seq<ChangedPath>)
    returns (sel: Selection)
    ensures CoversAll(repo, manifest, planned + actual, sel)
    ensures sel.surfaces != {} && sel.roles == RolesOf(sel.profiles) && AllSelected(sel.profiles, sel.surfaces)
    ensures sel.surfaces == Needed(repo, manifest, planned + actual)
    ensures sel.profiles == SelectedProfiles(repo, manifest, sel.surfaces)
  {
    var surfaces := NeededSurfaces(repo, manifest, planned + actual);
    var profiles := SelectGates(repo, manifest, surfaces);
    sel := Selection(surfaces, profiles, RolesOf(profiles));
    assert forall s :: s in surfaces ==> Gates(sel, s);
    assert forall c :: c in repo.own.checks || c in ManifestChecks(manifest) ==> RunsCheck(sel, c);
  }

  lemma EverySurfaceIsNamed(s: Surface)
    ensures exists k :: 0 <= k < |BY_NAME| && BY_NAME[k] == s
  {
    match s
    case Api => assert BY_NAME[0] == s;
    case Cli => assert BY_NAME[1] == s;
    case Custom => assert BY_NAME[2] == s;
    case DataPipeline => assert BY_NAME[3] == s;
    case InfrastructureRelease => assert BY_NAME[4] == s;
    case Library => assert BY_NAME[5] == s;
    case WebUi => assert BY_NAME[6] == s;
  }

  /** Adding changed paths never drops a capability surface (only the CUSTOM fallback can go). */
  lemma MorePathsMoreSurfaces(paths: seq<ChangedPath>, more: seq<ChangedPath>)
    ensures Inferred(paths) - {Custom} <= Inferred(paths + more)
  {
    forall s | s in Touched(paths) ensures s in Touched(paths + more) {
      var p :| p in paths && s in Triggers(p);
      assert p in paths + more;
    }
  }
}
