/** Every enqueued workflow is a sound starting point for the retry bounds of the reconciler. */
module EnqueuedRetries {
  import opened Wrappers
  import opened Text
  import opened Cards
  import opened CardBoard
  import opened RetryChain
  import opened RetryLabels
  import opened BoardFold
  import opened ReconcileInvariant
  import opened Qa
  import opened Workflow
  import opened Enqueue
  import opened BuiltWorkflow
  import RetryBudget
  import RetryTree

  /** A label that no reader takes for a retry, a repair or a recovery. */
  predicate IsHarmless(text: string) {
    && !("retry-for:" <= text) && !("retry:" <= text) && !("repair-for:" <= text) && !("repair:" <= text)
    && !("control-plane-recovery-for:" <= text) && !("control-plane-recovery:" <= text)
  }

  predicate AllHarmless(labels: seq<string>) {
    forall i :: 0 <= i < |labels| ==> IsHarmless(labels[i])
  }

  lemma StartsHarmless(text: string)
    requires text != [] && text[0] != 'c' && (text[0] != 'r' || (|text| > 3 && text[3] == 'o'))
    ensures IsHarmless(text)
  {
    assert "retry-for:"[3] == 'r' && "retry:"[3] == 'r' && "repair-for:"[3] == 'a' && "repair:"[3] == 'a';
    assert "control-plane-recovery-for:"[0] == 'c' && "control-plane-recovery:"[0] == 'c';
  }

  lemma {:induction false} HarmlessGivesNothing(labels: seq<string>)
    requires AllHarmless(labels)
    ensures RetryToken(labels).None? && FirstValueOf(labels, "repair-for:", "repair:").None?
    ensures FirstValueOf(labels, "control-plane-recovery-for:", "control-plane-recovery:").None?
  {
    forall i | 0 <= i < |labels| ensures IsPlain(labels[i]) {
      assert IsHarmless(labels[i]);
    }
    PlainGivesNoToken(labels);
    NoOtherToken(labels);
  }

  lemma {:induction false} NoOtherToken(labels: seq<string>)
    requires AllHarmless(labels)
    ensures FirstValueOf(labels, "repair-for:", "repair:").None?
    ensures FirstValueOf(labels, "control-plane-recovery-for:", "control-plane-recovery:").None?
  {
    if labels != [] {
      assert IsHarmless(labels[0]);
      NoOtherToken(labels[1..]);
    }
  }

  lemma HarmlessConcat(xs: seq<string>, ys: seq<string>)
    requires AllHarmless(xs) && AllHarmless(ys)
    ensures AllHarmless(xs + ys)
  {
    hide IsHarmless;
  }

  lemma CommonAreHarmless(job: Job)
    ensures AllHarmless(CommonLabels(job))
  {
    var repo, action, workflow := "repo:" + Lower(job.repo), "action:" + job.actionName, WorkflowLabelOf(job);
    assert repo[3] == 'o' && action[0] == 'a' && workflow[0] == 'w';
    StartsHarmless("make_it_so");
    StartsHarmless(repo);
    StartsHarmless(action);
    StartsHarmless(workflow);
    hide IsHarmless;
    assert CommonLabels(job) == ["make_it_so", repo, action, workflow];
  }

  lemma ProfileIsHarmless(key: string)
    ensures AllHarmless([BoundedLabel("qa:" + key)])
  {
    BoundedKeepsPrefix("qa:" + key, "qa:");
    assert BoundedLabel("qa:" + key)[0] == 'q';
    StartsHarmless(BoundedLabel("qa:" + key));
  }

  lemma PlanIsHarmless(job: Job, sel: Selection, k: nat)
    requires k < |BuildWorkflow(job, sel)|
    ensures AllHarmless(BuildWorkflow(job, sel)[k].spec.labels)
  {
    hide AllHarmless;
    CommonAreHarmless(job);
    if k == 0 {
      StageIsHarmless("orchestration");
      assert "stage:" + "orchestration" == "stage:orchestration";
      HarmlessConcat(CommonLabels(job), ["stage:orchestration"]);
    } else {
      var row := StageRows(job.kind, job.policy, sel)[k - 1];
      var qa := match row.profile case None => [] case Some(p) => [BoundedLabel("qa:" + p.key)];
      if row.profile.Some? {
        ProfileIsHarmless(row.profile.value.key);
      } else {
        NoLabelsAreHarmless();
      }
      StageIsHarmless(StageName(row.stage));
      HarmlessConcat(CommonLabels(job), qa);
      HarmlessConcat(CommonLabels(job) + qa, ["stage:" + StageName(row.stage)]);
    }
  }

  lemma NoLabelsAreHarmless()
    ensures AllHarmless([])
  {
  }

  lemma StageIsHarmless(name: string)
    ensures AllHarmless(["stage:" + name])
  {
    assert ("stage:" + name)[0] == 's';
    StartsHarmless("stage:" + name);
  }

  ghost predicate Quiet(b: Board) {
    forall id :: id in b.cards ==> AllHarmless(b.cards[id].labels)
  }

  ghost predicate Listed(b: Board, name: CardKey -> CardId, used: set<CardKey>) {
    Named(b, name, used) && Quiet(b) && forall key :: key in b.keys ==> key.WorkKey?
  }

  lemma CreateListed(b: Board, plan: Plan, name: CardKey -> CardId, used: set<CardKey>)
    requires Listed(b, name, used) && plan.spec.key in used && plan.spec.key.WorkKey? && AllHarmless(plan.spec.labels)
    ensures Listed(CreatePlanned(b, plan, name), name, used)
  {
    if plan.spec.key !in b.keys {
      CreateKeepsNamed(b, name, used, plan.spec.(parents := ResolveParents(b, plan.parents)));
    }
  }

  ghost predicate CoversPlans(used: set<CardKey>, plans: seq<Plan>) {
    forall k :: 0 <= k < |plans| ==> plans[k].spec.key in used
  }

  lemma NothingListed(name: CardKey -> CardId, used: set<CardKey>)
    requires PrefixFree(name, used)
    ensures Listed(EMPTY, name, used)
  {
    PrefixFreeIsInjective(name, used);
  }

  lemma PlanKeyIsWork(job: Job, sel: Selection, k: nat)
    requires k < |BuildWorkflow(job, sel)|
    ensures BuildWorkflow(job, sel)[k].spec.key.WorkKey?
  {
  }

  lemma {:induction false} CreationsListed(job: Job, sel: Selection, n: nat, name: CardKey -> CardId,
                                           used: set<CardKey>)
    requires PrefixFree(name, used) && CoversPlans(used, BuildWorkflow(job, sel)) && n <= |BuildWorkflow(job, sel)|
    ensures Listed(CreateFirst(EMPTY, BuildWorkflow(job, sel), n, name), name, used)
  {
    hide BuildWorkflow;
    hide Listed;
    hide AllHarmless;
    hide PrefixFree;
    if n == 0 {
      NothingListed(name, used);
    } else {
      CreationsListed(job, sel, n - 1, name, used);
      PlanIsHarmless(job, sel, n - 1);
      PlanKeyIsWork(job, sel, n - 1);
      CreateListed(CreateFirst(EMPTY, BuildWorkflow(job, sel), n - 1, name), BuildWorkflow(job, sel)[n - 1], name,
                   used);
    }
  }

  lemma CompletionListed(b: Board, key: CardKey, name: CardKey -> CardId, used: set<CardKey>)
    requires Listed(b, name, used) && key in b.keys
    ensures Listed(CompleteKey(b, key), name, used)
  {
    PutKeepsNamed(b, name, used, Completed(b.cards[b.keys[key]], MATERIALIZED));
  }

  /** The card carries no label of a retry, a repair or a recovery. */
  predicate IsUnlabelled(card: Card) {
    RetryFor(card).None? && RepairToken(card).None? && RecoveryToken(card).None?
  }

  lemma ListedIsSound(b: Board, name: CardKey -> CardId, used: set<CardKey>)
    requires PrefixFree(name, used) && Listed(b, name, used)
    ensures Sound(b, name, used)
    ensures forall j :: 0 <= j < |b.order| ==> IsUnlabelled(Listing(b)[j])
  {
    var cards := Listing(b);
    forall j | 0 <= j < |cards| ensures IsUnlabelled(cards[j]) {
      ListingAt(b, j);
      assert b.order[j] in b.order;
      HarmlessGivesNothing(cards[j].labels);
    }
    assert forall j :: 0 <= j < |cards| ==> StageAnchoredAt(cards, j);
  }

  /** An enqueued workflow satisfies the invariant of the reconciler, with no retries and no repairs yet. */
  lemma BuiltIsSound(job: Job, sel: Selection, name: CardKey -> CardId, used: set<CardKey>)
    requires PrefixFree(name, used) && CoversPlans(used, BuildWorkflow(job, sel))
    ensures var b := BuiltBoard(job, sel, name);
            && Sound(b, name, used)
            && forall j :: 0 <= j < |b.order| ==> IsUnlabelled(Listing(b)[j])
  {
    var plans := BuildWorkflow(job, sel);
    CreationsListed(job, sel, |plans|, name, used);
    CreatedKeys(EMPTY, plans, |plans|, name);
    CompletionListed(CreateFirst(EMPTY, plans, |plans|, name), plans[0].spec.key, name, used);
    ListedIsSound(BuiltBoard(job, sel, name), name, used);
  }

  /** The cards of a further workflow may be enqueued during such a run, with any parents. */
  lemma PlansAreEnqueued(job: Job, sel: Selection, k: nat, parents: seq<CardId>)
    requires k < |BuildWorkflow(job, sel)|
    ensures RetryBudget.IsPlainSpec(BuildWorkflow(job, sel)[k].spec.(parents := parents))
  {
    hide BuildWorkflow;
    PlanIsHarmless(job, sel, k);
    PlanKeyIsWork(job, sel, k);
    HarmlessGivesNothing(BuildWorkflow(job, sel)[k].spec.labels);
  }

  /** And so may the QA cards that a pull request calls for. */
  lemma DiscoveredQaIsEnqueued(repo: string, workflow: string, stage: WorkStage, profile: string, key: CardKey,
                               agent: Option<string>, limit: nat)
    requires "workflow:" <= workflow && key.WorkKey?
    ensures RetryBudget.IsPlainSpec(
              CardSpec(key, Ready, ["make_it_so", "repo:" + Lower(repo), workflow, "stage:" + StageName(stage),
                                    BoundedLabel("qa:" + profile)], agent, [], limit, profile))
  {
    hide RetryToken;
    hide FirstValueOf;
    DiscoveredIsHarmless(repo, workflow, StageName(stage), BoundedLabel("qa:" + profile));
    ProfileIsHarmless(profile);
    assert IsHarmless([BoundedLabel("qa:" + profile)][0]);
    HarmlessGivesNothing(["make_it_so", "repo:" + Lower(repo), workflow, "stage:" + StageName(stage),
                          BoundedLabel("qa:" + profile)]);
  }

  lemma DiscoveredIsHarmless(repo: string, workflow: string, stage: string, qa: string)
    requires "workflow:" <= workflow
    ensures IsHarmless(qa) ==> AllHarmless(["make_it_so", "repo:" + Lower(repo), workflow, "stage:" + stage, qa])
  {
    var name := "repo:" + Lower(repo);
    assert name[3] == 'o' && workflow[0] == 'w' && ("stage:" + stage)[0] == 's';
    StartsHarmless("make_it_so");
    StartsHarmless(name);
    StartsHarmless(workflow);
    StartsHarmless("stage:" + stage);
    hide IsHarmless;
  }

  /** Proofless retries of any stage of any built workflow, other than its merge and its final review,
      stay bounded by the retry limit over every run of worker activity, enqueued cards and reconcile passes. */
  lemma BuiltRetriesAreBounded(job: Job, sel: Selection, name: CardKey -> CardId, used: set<CardKey>,
                               boards: seq<Board>, events: seq<RetryBudget.Event>, n: nat, r: nat, k: nat, limit: nat)
    requires PrefixFree(name, used) && CoversPlans(used, BuildWorkflow(job, sel))
    requires RetryBudget.Run(name, job.maxRetries, used, boards, events) && n < |boards|
    requires boards[0] == BuiltBoard(job, sel, name)
    ensures Valid(boards[n])
    ensures RetryTree.IsStageRoot(Listing(boards[n]), job.maxRetries, limit, r) ==>
      RetryTree.RetriesBounded(TagsOf(Listing(boards[n])), limit, r, k)
  {
    BuiltIsSound(job, sel, name, used);
    RetryTree.RetriesAreBoundedOverRuns(name, job.maxRetries, used, boards, events, n, r, k, limit);
  }
}
