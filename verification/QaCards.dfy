/**
 Which QA profile a QA card runs.

 Cards are created once per key, and the key of a QA card holds the normalised profile key.  Two
 profiles with one normalised key therefore share a card, which runs the first of them only.
 */
module QaCards {
  import opened Wrappers
  import opened Text
  import opened Cards
  import opened CardBoard
  import opened Qa
  import opened Workflow
  import opened Enqueue
  import opened LeaseProtocol
  import opened WorkflowRuns
  import opened BuiltWorkflow

  ghost predicate IsFirst(plans: seq<Plan>, k: nat)
    requires k < |plans|
  {
    forall i :: 0 <= i < k ==> plans[i].spec.key != plans[k].spec.key
  }

  /** The card of the plan's key has the plan's labels and QA profile. */
  ghost predicate Carries(b: Board, plan: Plan) {
    && plan.spec.key in b.keys && b.keys[plan.spec.key] in b.cards
    && b.cards[b.keys[plan.spec.key]].labels == plan.spec.labels
    && b.cards[b.keys[plan.spec.key]].metadata.qaProfile == plan.spec.qaProfile
  }

  /** The first plan of a key decides what its card is. */
  lemma {:induction false} FirstPlanDecides(plans: seq<Plan>, n: nat, name: CardKey -> CardId, k: nat)
    requires Creatable(plans) && FreshFor(name, EMPTY, plans) && k < n <= |plans| && IsFirst(plans, k)
    ensures Carries(CreateFirst(EMPTY, plans, n, name), plans[k])
  {
    var b := CreateFirst(EMPTY, plans, n - 1, name);
    NextIsReady(EMPTY, plans, n - 1, name);
    if k < n - 1 {
      FirstPlanDecides(plans, n - 1, name, k);
    } else {
      AddedRows(EMPTY, plans, n - 1, name);
    }
  }

  lemma CompletionKeepsProfile(b: Board, key: CardKey, plan: Plan)
    requires Carries(b, plan) && key in b.keys && b.keys[key] in b.cards && b.cards[b.keys[key]].id == b.keys[key]
    ensures Carries(CompleteKey(b, key), plan)
  {
  }

  lemma BuiltRunsFirst(job: Job, sel: Selection, name: CardKey -> CardId, k: nat)
    requires FreshNames(job, sel, name) && k < |BuildWorkflow(job, sel)| && IsFirst(BuildWorkflow(job, sel), k)
    ensures Carries(BuiltBoard(job, sel, name), BuildWorkflow(job, sel)[k])
  {
    var plans := BuildWorkflow(job, sel);
    WorkflowIsCreatable(job, sel);
    FirstPlanDecides(plans, |plans|, name, k);
    WorkflowAgrees(job, sel);
    CreationsLaid(plans, |plans|, name, job.maxRetries);
    var b := CreateFirst(EMPTY, plans, |plans|, name);
    assert Holds(b, plans[0]);
    CompletionKeepsProfile(b, plans[0].spec.key, plans[k]);
  }

  /** The plan of a QA profile, among the plans of its workflow. */
  function QaIndex(job: Job, j: nat): nat {
    1 + |LeadingRows(job.kind)| + j
  }

  lemma QaPlanAt(job: Job, sel: Selection, j: nat)
    requires job.kind != IssueAction && j < |sel.profiles|
    ensures QaIndex(job, j) < |BuildWorkflow(job, sel)|
    ensures BuildWorkflow(job, sel)[QaIndex(job, j)]
      == RowPlan(job, QaRow(sel.profiles[j], sel.roles, QaParent(job.kind)))
  {
  }

  /** No earlier profile has the same normalised key. */
  ghost predicate IsFirstProfile(profiles: seq<Profile>, f: nat)
    requires f < |profiles|
  {
    forall i :: 0 <= i < f ==> QaKey(profiles[i].key) != QaKey(profiles[f].key)
  }

  lemma SuffixTellsKey(p: Profile, q: Profile)
    ensures QaSuffix(p) == QaSuffix(q) <==> QaKey(p.key) == QaKey(q.key)
    ensures QaSuffix(p)[0] == 'q'
  {
    assert QaSuffix(p)[3..] == QaKey(p.key) && QaSuffix(q)[3..] == QaKey(q.key);
  }

  lemma QaKeyAt(job: Job, sel: Selection, j: nat)
    requires job.kind != IssueAction && j < |sel.profiles|
    ensures QaIndex(job, j) < |BuildWorkflow(job, sel)|
    ensures BuildWorkflow(job, sel)[QaIndex(job, j)].spec.key == KeyOf(job, QaSuffix(sel.profiles[j]))
  {
    QaPlanAt(job, sel, j);
  }

  /** The root and the leading stages have other keys than any QA card. */
  lemma LeadingKeyAt(job: Job, sel: Selection, i: nat)
    requires job.kind != IssueAction && i <= |LeadingRows(job.kind)|
    ensures i < |BuildWorkflow(job, sel)| && BuildWorkflow(job, sel)[i].spec.key.WorkKey?
    ensures var suffix := BuildWorkflow(job, sel)[i].spec.key.suffix; suffix != "" && suffix[0] != 'q'
  {
    assert i > 0 ==> BuildWorkflow(job, sel)[i] == RowPlan(job, LeadingRows(job.kind)[i - 1]);
  }

  lemma EarlierProfileDiffers(job: Job, sel: Selection, f: nat, j: nat)
    requires job.kind != IssueAction && f < |sel.profiles| && IsFirstProfile(sel.profiles, f) && j < f
    ensures KeyOf(job, QaSuffix(sel.profiles[j])) != KeyOf(job, QaSuffix(sel.profiles[f]))
  {
    SuffixTellsKey(sel.profiles[j], sel.profiles[f]);
  }

  lemma EarlierPlanDiffers(job: Job, sel: Selection, f: nat, i: nat)
    requires job.kind != IssueAction && f < |sel.profiles| && IsFirstProfile(sel.profiles, f) && i < QaIndex(job, f)
    requires QaIndex(job, f) < |BuildWorkflow(job, sel)|
    ensures BuildWorkflow(job, sel)[i].spec.key != BuildWorkflow(job, sel)[QaIndex(job, f)].spec.key
  {
    hide BuildWorkflow;
    hide LeadingRows;
    hide QaSuffix;
    hide QaKey;
    var lead := |LeadingRows(job.kind)|;
    QaKeyAt(job, sel, f);
    if i > lead {
      QaKeyAt(job, sel, i - 1 - lead);
      EarlierProfileDiffers(job, sel, f, i - 1 - lead);
    } else {
      LeadingKeyAt(job, sel, i);
      SuffixTellsKey(sel.profiles[f], sel.profiles[f]);
    }
  }

  lemma FirstProfileIsFirstPlan(job: Job, sel: Selection, f: nat)
    requires job.kind != IssueAction && f < |sel.profiles| && IsFirstProfile(sel.profiles, f)
    ensures QaIndex(job, f) < |BuildWorkflow(job, sel)| && IsFirst(BuildWorkflow(job, sel), QaIndex(job, f))
  {
    QaPlanAt(job, sel, f);
    forall i: nat | i < QaIndex(job, f)
      ensures BuildWorkflow(job, sel)[i].spec.key != BuildWorkflow(job, sel)[QaIndex(job, f)].spec.key
    {
      EarlierPlanDiffers(job, sel, f, i);
    }
  }

  /** The profile that the card of profile `j` runs. */
  function ProfileOn(job: Job, sel: Selection, b: Board, j: nat): string
    requires j < |sel.profiles|
  {
    var id := StageCard(b, job, QaSuffix(sel.profiles[j]));
    if id in b.cards then b.cards[id].metadata.qaProfile else ""
  }

  /** The card of a profile runs the first profile with the same normalised key. */
  lemma CardRunsFirstProfile(job: Job, sel: Selection, name: CardKey -> CardId, f: nat, j: nat)
    requires FreshNames(job, sel, name) && job.kind != IssueAction && f < |sel.profiles| && j < |sel.profiles|
    requires IsFirstProfile(sel.profiles, f) && QaKey(sel.profiles[f].key) == QaKey(sel.profiles[j].key)
    ensures ProfileOn(job, sel, BuiltBoard(job, sel, name), j) == sel.profiles[f].key
  {
    QaPlanAt(job, sel, f);
    FirstProfileIsFirstPlan(job, sel, f);
    BuiltRunsFirst(job, sel, name, QaIndex(job, f));
  }

  lemma {:induction false} FindFirstProfile(profiles: seq<Profile>, j: nat) returns (f: nat)
    requires j < |profiles|
    ensures f <= j && IsFirstProfile(profiles, f) && QaKey(profiles[f].key) == QaKey(profiles[j].key)
    decreases j
  {
    f := j;
    if !IsFirstProfile(profiles, j) {
      var i :| 0 <= i < j && QaKey(profiles[i].key) == QaKey(profiles[j].key);
      f := FindFirstProfile(profiles, i);
    }
  }

  ghost predicate IsServed(job: Job, sel: Selection, b: Board, j: nat)
    requires j < |sel.profiles|
  {
    ProfileOn(job, sel, b, j) == sel.profiles[j].key
  }

  ghost predicate AllServed(job: Job, sel: Selection, b: Board) {
    forall j :: 0 <= j < |sel.profiles| ==> IsServed(job, sel, b, j)
  }

  ghost predicate StayDifferent(profiles: seq<Profile>, i: nat, j: nat)
    requires i < |profiles| && j < |profiles|
  {
    QaKey(profiles[i].key) == QaKey(profiles[j].key) ==> profiles[i].key == profiles[j].key
  }

  /** Different profile keys stay different after normalisation. */
  ghost predicate DistinctWhenNormalised(profiles: seq<Profile>) {
    forall i, j :: 0 <= i < |profiles| && 0 <= j < |profiles| ==> StayDifferent(profiles, i, j)
  }

  lemma ServedWhenDistinct(job: Job, sel: Selection, name: CardKey -> CardId, j: nat)
    requires FreshNames(job, sel, name) && job.kind != IssueAction && j < |sel.profiles|
    requires DistinctWhenNormalised(sel.profiles)
    ensures IsServed(job, sel, BuiltBoard(job, sel, name), j)
  {
    var f := FindFirstProfile(sel.profiles, j);
    CardRunsFirstProfile(job, sel, name, f, j);
    assert StayDifferent(sel.profiles, f, j);
  }

  lemma DistinctWhenServed(job: Job, sel: Selection, name: CardKey -> CardId, i: nat, j: nat)
    requires FreshNames(job, sel, name) && job.kind != IssueAction && i < |sel.profiles| && j < |sel.profiles|
    requires IsServed(job, sel, BuiltBoard(job, sel, name), i) && IsServed(job, sel, BuiltBoard(job, sel, name), j)
    ensures StayDifferent(sel.profiles, i, j)
  {
    if QaKey(sel.profiles[i].key) == QaKey(sel.profiles[j].key) {
      var f := FindFirstProfile(sel.profiles, j);
      CardRunsFirstProfile(job, sel, name, f, j);
      CardRunsFirstProfile(job, sel, name, f, i);
    }
  }

  /** Every profile is run by its card exactly when different profile keys stay different after
      normalisation. */
  lemma EveryProfileIsServedIff(job: Job, sel: Selection, name: CardKey -> CardId)
    requires FreshNames(job, sel, name) && job.kind != IssueAction
    ensures AllServed(job, sel, BuiltBoard(job, sel, name)) <==> DistinctWhenNormalised(sel.profiles)
  {
    var b := BuiltBoard(job, sel, name);
    if DistinctWhenNormalised(sel.profiles) {
      forall j | 0 <= j < |sel.profiles| ensures IsServed(job, sel, b, j) {
        ServedWhenDistinct(job, sel, name, j);
      }
    }
    if AllServed(job, sel, b) {
      forall i, j | 0 <= i < |sel.profiles| && 0 <= j < |sel.profiles| ensures StayDifferent(sel.profiles, i, j) {
        assert IsServed(job, sel, b, i) && IsServed(job, sel, b, j);
        DistinctWhenServed(job, sel, name, i, j);
      }
    }
  }

  /** Two profiles whose keys differ in a replaced character only: the second is never run. */
  lemma SecondProfileIsDropped(job: Job, name: CardKey -> CardId, checks: seq<string>, sel: Selection)
    requires job.kind != IssueAction && FreshNames(job, sel, name)
    requires sel.profiles == [Profile("ui smoke", {WebUi}, [], "qa_assistant", true),
                              Profile("ui-smoke", {}, checks, "qa_assistant", true)]
    ensures ProfileOn(job, sel, BuiltBoard(job, sel, name), 1) == "ui smoke"
  {
    assert QaKey("ui smoke") == "ui-smoke" == QaKey("ui-smoke");
    CardRunsFirstProfile(job, sel, name, 0, 1);
  }

  // ---------------------------------------------------------------- what a merge rests on

  /** Some selected profile with the property has a card of its own that is DONE: the card runs this
      profile and no other. */
  ghost predicate IsProvedByOwnCard(job: Job, sel: Selection, b: Board, table: Table, wanted: Profile -> bool) {
    exists j :: 0 <= j < |sel.profiles| && wanted(sel.profiles[j]) && RanOn(job, sel, b, table, j)
  }

  ghost predicate RanOn(job: Job, sel: Selection, b: Board, table: Table, j: nat)
    requires j < |sel.profiles|
  {
    var id := StageCard(b, job, QaSuffix(sel.profiles[j]));
    IsDone(table, id) && table[id].metadata.qaProfile == sel.profiles[j].key
  }

  /** If different profile keys stay different after normalisation, then once the merge card is DONE every
      profile has been run, by a card of its own. */
  lemma MergeRanEveryProfile(job: Job, sel: Selection, name: CardKey -> CardId,
                             states: seq<Sys>, events: seq<Event>, lease: nat, n: nat, j: nat)
    requires WorkflowRun(job, sel, name, states, events, lease) && n < |states| && j < |sel.profiles|
    requires job.kind != IssueAction && job.policy == AutoMerge && DistinctWhenNormalised(sel.profiles)
    requires IsDone(states[n].table, StageCard(BuiltBoard(job, sel, name), job, "merge"))
    ensures RanOn(job, sel, BuiltBoard(job, sel, name), states[n].table, j)
  {
    hide BuiltBoard;
    hide FreshNames;
    var b, table := BuiltBoard(job, sel, name), states[n].table;
    MergeWaitsForItsGates(job, sel, name, states, events, lease, n, n);
    RunStaysGated(job, sel, name, states, events, lease, 0, n);
    ServedWhenDistinct(job, sel, name, j);
    var id := StageCard(b, job, QaSuffix(sel.profiles[j]));
    assert IsDone(table, id);
    assert id in b.cards;
    assert KeptAt(b.cards, table, id);
  }

  /** Then no declared or inferred surface and no check can be skipped: each lies in a profile that a card of
      its own has run. */
  lemma MergeRanEveryQa(job: Job, sel: Selection, repo: QaRepo, manifest: Option<QaSource>, paths: seq<ChangedPath>,
                        name: CardKey -> CardId, states: seq<Sys>, events: seq<Event>, lease: nat, n: nat)
    requires WorkflowRun(job, sel, name, states, events, lease) && n < |states|
    requires job.kind != IssueAction && job.policy == AutoMerge && CoversAll(repo, manifest, paths, sel)
    requires DistinctWhenNormalised(sel.profiles)
    requires IsDone(states[n].table, StageCard(BuiltBoard(job, sel, name), job, "merge"))
    ensures forall s :: s in Declared(repo, manifest) || (paths != [] && s in Inferred(paths)) ==>
      IsProvedByOwnCard(job, sel, BuiltBoard(job, sel, name), states[n].table, (p: Profile) => s in p.surfaces)
    ensures forall c :: c in repo.own.checks || c in ManifestChecks(manifest) ==>
      IsProvedByOwnCard(job, sel, BuiltBoard(job, sel, name), states[n].table, (p: Profile) => c in p.checks)
  {
    hide BuiltBoard;
    hide FreshNames;
    hide RanOn;
    hide WorkflowRun;
    var b, table := BuiltBoard(job, sel, name), states[n].table;
    forall j | 0 <= j < |sel.profiles| ensures RanOn(job, sel, b, table, j) {
      MergeRanEveryProfile(job, sel, name, states, events, lease, n, j);
    }
    forall s | s in Declared(repo, manifest) || (paths != [] && s in Inferred(paths))
      ensures IsProvedByOwnCard(job, sel, b, table, (p: Profile) => s in p.surfaces)
    {
      assert Gates(sel, s);
      var p :| p in sel.profiles && s in p.surfaces;
      var j :| 0 <= j < |sel.profiles| && sel.profiles[j] == p;
      assert ((q: Profile) => s in q.surfaces)(sel.profiles[j]);
    }
    forall c | c in repo.own.checks || c in ManifestChecks(manifest)
      ensures IsProvedByOwnCard(job, sel, b, table, (p: Profile) => c in p.checks)
    {
      assert RunsCheck(sel, c);
      var p :| p in sel.profiles && c in p.checks;
      var j :| 0 <= j < |sel.profiles| && sel.profiles[j] == p;
      assert ((q: Profile) => c in q.checks)(sel.profiles[j]);
    }
  }
}
