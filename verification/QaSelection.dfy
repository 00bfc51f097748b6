/** The rules behind a QA selection: which profiles apply, which gaps built-in ones fill, and who reviews. */
module QaSelection {
  import opened Wrappers
  import opened Qa

  /** The repository's own surfaces, profiles and checks come first; the manifest stands in for surfaces and profiles
      where it has none, and adds its checks. */
  lemma SourcesAre(repo: QaRepo, manifest: Option<QaSource>)
    ensures repo.own.surfaces != {} || manifest.None? ==> Declared(repo, manifest) == repo.own.surfaces
    ensures repo.own.surfaces == {} && manifest.Some? ==> Declared(repo, manifest) == manifest.value.surfaces
    ensures |repo.own.profiles| > 0 || manifest.None? ==> Configured(repo, manifest) == repo.own.profiles
    ensures |repo.own.profiles| == 0 && manifest.Some? ==> Configured(repo, manifest) == manifest.value.profiles
    ensures manifest.Some? ==> ManifestChecks(manifest) == manifest.value.checks
    ensures manifest.None? ==> |ManifestChecks(manifest)| == 0
  {
  }

  ghost predicate IsTouched(paths: seq<ChangedPath>, surface: Surface) {
    exists i :: 0 <= i < |paths| && Touches(paths[i], surface)
  }

  /** A surface is needed exactly if it is declared or some path touches it; CUSTOM also if there are paths and none of
      them touches anything, or if there are neither paths nor declared surfaces. */
  lemma NeededIff(repo: QaRepo, manifest: Option<QaSource>, paths: seq<ChangedPath>, surface: Surface)
    ensures surface in Needed(repo, manifest, paths)
       <==> || surface in Declared(repo, manifest) || IsTouched(paths, surface)
            || (surface == Custom && |paths| > 0 && forall s :: !IsTouched(paths, s))
            || (surface == Custom && |paths| == 0 && forall s :: s !in Declared(repo, manifest))
  {
    hide Triggers;
    hide Touches;
    hide Declared;
    hide Touched;
    forall s ensures s in Touched(paths) <==> IsTouched(paths, s) {
      TouchedIff(paths, s);
    }
  }

  lemma TouchedIff(paths: seq<ChangedPath>, s: Surface)
    ensures s in Touched(paths) <==> IsTouched(paths, s)
  {
    hide Triggers;
    hide Touches;
    forall p { TriggersIff(p, s); }
    if s in Touched(paths) {
      var p :| p in paths && s in Triggers(p);
      var i :| 0 <= i < |paths| && paths[i] == p;
    }
  }

  /** A configured profile applies exactly if it is enabled and names no surface, one that is needed, or CUSTOM. */
  lemma AppliesIff(profile: Profile, surfaces: set<Surface>)
    ensures IsSelected(profile, surfaces)
       <==> && profile.enabled
            && (|| (forall s :: s !in profile.surfaces)
                || (exists s :: s in profile.surfaces && s in surfaces)
                || Custom in profile.surfaces)
  {
    assert forall s :: s in profile.surfaces * surfaces <==> s in profile.surfaces && s in surfaces;
  }

  /** Profiles cover the surfaces that they name, but for CUSTOM, which keeps a gate of its own. */
  lemma CoveredIff(profiles: seq<Profile>, surface: Surface)
    ensures surface in CoveredBy(profiles)
       <==> surface !in {Custom} && exists i :: 0 <= i < |profiles| && surface in profiles[i].surfaces
  {
  }

  lemma {:induction false} BuiltInsAre(missing: set<Surface>, uxEnabled: bool, n: nat, p: Profile)
    requires n <= |BY_NAME|
    ensures p in BuiltInsFor(missing, uxEnabled, n)
       <==> exists k :: 0 <= k < n && BY_NAME[k] in missing && p == BuiltIn(BY_NAME[k], uxEnabled)
    ensures |BuiltInsFor(missing, uxEnabled, n)| <= n
  {
    hide BuiltIn;
    if n > 0 {
      BuiltInsAre(missing, uxEnabled, n - 1, p);
    }
  }

  function KeyOfBuiltIn(surface: Surface): string {
    match surface
    case Api => "api-qa"
    case Cli => "cli-qa"
    case Custom => "custom-qa"
    case DataPipeline => "data-pipeline-qa"
    case InfrastructureRelease => "infrastructure-release-qa"
    case Library => "library-qa"
    case WebUi => "web-ui-qa"
  }

  /** A built-in profile gates one surface under a key of its own, without checks; only the one for web interfaces, and
      only where UX review is on, asks for a UX reviewer. */
  lemma BuiltInIs(surface: Surface, uxEnabled: bool)
    ensures var p := BuiltIn(surface, uxEnabled);
            && p.surfaces == {surface} && p.enabled && p.checks == [] && p.key == KeyOfBuiltIn(surface)
            && (p.reviewerRole == "ui_qa_reviewer" <==> surface == WebUi && uxEnabled)
            && (p.reviewerRole != "ui_qa_reviewer" ==> p.reviewerRole == "qa_assistant")
  {
  }

  /** A profile is reviewed by a UX reviewer exactly if it asks for one or touches a web interface. */
  lemma RoleIff(profile: Profile)
    ensures RoleOf(profile) == UxReviewer
       <==> WebUi in profile.surfaces || profile.reviewerRole in {"ui_qa_reviewer", "ux_reviewer"}
    ensures RoleOf(profile) != UxReviewer ==> RoleOf(profile) == Tester
  {
  }

  /** Of profiles that share a key the last one decides. */
  lemma {:induction false} RolesAre(profiles: seq<Profile>, n: nat)
    requires n < |profiles| && forall i :: n < i < |profiles| ==> profiles[i].key != profiles[n].key
    ensures profiles[n].key in RolesOf(profiles) && RolesOf(profiles)[profiles[n].key] == RoleOf(profiles[n])
  {
    hide RoleOf;
    if n < |profiles| - 1 {
      RolesAre(profiles[..|profiles| - 1], n);
    }
  }

  lemma {:induction false} DedupeIsDistinct(xs: seq<string>)
    ensures forall i, j :: 0 <= i < j < |Dedupe(xs)| ==> Dedupe(xs)[i] != Dedupe(xs)[j]
  {
    if xs != [] {
      DedupeIsDistinct(xs[..|xs| - 1]);
    }
  }

  /** The checks that are named are run once: those that no profile runs by one profile more, for all surfaces, and
      without such checks there is none. */
  lemma RemainingChecksAre(profiles: seq<Profile>, checks: seq<string>)
    ensures var all := WithRemainingChecks(profiles, checks);
            if forall c :: c in checks ==> RunsAlready(profiles, c) then all == profiles
            else
              && |all| == |profiles| + 1 && all[..|profiles|] == profiles
              && all[|profiles|].key == "deterministic-checks" && all[|profiles|].enabled
              && all[|profiles|].surfaces == {} && all[|profiles|].reviewerRole == "qa_assistant"
              && forall c :: c in all[|profiles|].checks <==> c in checks && !RunsAlready(profiles, c)
  {
    var remaining := Remaining(checks, AllChecks(profiles));
    forall c ensures c in AllChecks(profiles) <==> RunsAlready(profiles, c) {
    }
    if remaining != [] {
      assert remaining[0] in remaining;
    }
  }

  ghost predicate RunsAlready(profiles: seq<Profile>, check: string) {
    exists p :: p in profiles && check in p.checks
  }
}
