/**
 The first reconcile pass over a freshly enqueued workflow.

 The reconciler counts one failure for a card without any failure record, so with a retry limit of
 zero every waiting card is over its budget, and a pass hands it out whatever its dependencies.
 */
module ReconciledWorkflow {
  import opened Wrappers
  import opened Text
  import opened Cards
  import opened CardBoard
  import opened RetryChain
  import opened Reconcile
  import opened BoardFold
  import opened ReconcileInvariant
  import opened ReconcileSafety
  import opened RetryLabels
  import opened Qa
  import opened Workflow
  import opened Enqueue
  import opened LeaseProtocol
  import opened BuiltWorkflow
  import opened QaCards
  import opened EnqueuedRetries

  /** A card without failures is over budget exactly when its retry limit is zero. */
  lemma UntouchedIsOverBudgetIff(env: Env, card: Card, cards: seq<Card>, limit: nat)
    requires IsUntouched(card, limit)
    ensures IsOverBudget(env, card, cards) <==> limit == 0
  {
  }

  ghost predicate IsFirstPass(job: Job, sel: Selection, env: Env, used: set<CardKey>) {
    && PrefixFree(env.name, used) && CoversPlans(used, BuildWorkflow(job, sel))
    && Valid(BuiltBoard(job, sel, env.name))
    && ReconcileInvariant.Covers(used, PassOps(env, Listing(BuiltBoard(job, sel, env.name))))
  }

  lemma NamesAreFresh(job: Job, sel: Selection, name: CardKey -> CardId, used: set<CardKey>)
    requires PrefixFree(name, used) && CoversPlans(used, BuildWorkflow(job, sel))
    ensures FreshNames(job, sel, name)
  {
    PrefixFreeIsInjective(name, used);
  }

  /** The first pass over a fresh workflow releases a waiting card, whether or not its dependencies are
      done, exactly when the retry limit is zero. */
  lemma FirstPassReleasesIff(job: Job, sel: Selection, env: Env, used: set<CardKey>, i: nat)
    requires IsFirstPass(job, sel, env, used) && i < |BuiltBoard(job, sel, env.name).order|
    requires Listing(BuiltBoard(job, sel, env.name))[i].status == Todo
    ensures var after := Pass(env, BuiltBoard(job, sel, env.name));
            && Valid(after) && i < |after.order|
            && Listing(after)[i].id == Listing(BuiltBoard(job, sel, env.name))[i].id
            && (Listing(after)[i].status == Ready <==> job.maxRetries == 0)
            && Listing(after)[i].status in {Todo, Ready, Blocked}
  {
    var b := BuiltBoard(job, sel, env.name);
    NamesAreFresh(job, sel, env.name, used);
    BuiltIsSound(job, sel, env.name, used);
    FreshCardAt(job, sel, env.name, i);
    UntouchedIsOverBudgetIff(env, Listing(b)[i], Listing(b), job.maxRetries);
    TodoIsReleasedIff(env, b, used, i);
    PassOldRow(env, b, used, i);
  }

  lemma FreshCardAt(job: Job, sel: Selection, name: CardKey -> CardId, i: nat)
    requires FreshNames(job, sel, name) && Valid(BuiltBoard(job, sel, name)) && i < |BuiltBoard(job, sel, name).order|
    requires Listing(BuiltBoard(job, sel, name))[i].status == Todo
    ensures IsUntouched(Listing(BuiltBoard(job, sel, name))[i], job.maxRetries)
  {
    var b := BuiltBoard(job, sel, name);
    BuiltIsLaunched(job, sel, name);
    ListingAt(b, i);
    var card := b.cards[b.order[i]];
    assert card.(status := Todo) == card;
  }

  // ---------------------------------------------------------------- the merge card

  /** The position of the merge card's plan. */
  function MergeIndex(job: Job, sel: Selection): nat {
    1 + |LeadingRows(job.kind)| + |sel.profiles| + 1
  }

  lemma MergePlanAt(job: Job, sel: Selection)
    requires job.kind != IssueAction && job.policy == AutoMerge
    ensures MergeIndex(job, sel) < |BuildWorkflow(job, sel)|
    ensures BuildWorkflow(job, sel)[MergeIndex(job, sel)]
      == RowPlan(job, Row("merge", Merge, [Some("final_review")], None))
  {
  }

  lemma EarlierSuffix(job: Job, sel: Selection, i: nat)
    requires job.kind != IssueAction && job.policy == AutoMerge && i < MergeIndex(job, sel)
    ensures i < |BuildWorkflow(job, sel)| && BuildWorkflow(job, sel)[i].spec.key != KeyOf(job, "merge")
  {
    MergePlanAt(job, sel);
    var lead := |LeadingRows(job.kind)|;
    if i <= lead {
      LeadingKeyIs(job, sel, i);
    } else if i < 1 + lead + |sel.profiles| {
      QaKeyAt(job, sel, i - 1 - lead);
      SuffixTellsKey(sel.profiles[i - 1 - lead], sel.profiles[i - 1 - lead]);
    } else {
      FinalPlanAt(job, sel);
    }
  }

  lemma LeadingKeyIs(job: Job, sel: Selection, i: nat)
    requires job.kind != IssueAction && i <= |LeadingRows(job.kind)|
    ensures i < |BuildWorkflow(job, sel)| && BuildWorkflow(job, sel)[i].spec.key != KeyOf(job, "merge")
  {
    assert i > 0 ==> BuildWorkflow(job, sel)[i] == RowPlan(job, LeadingRows(job.kind)[i - 1]);
  }

  lemma MergeStageRead(job: Job)
    ensures StageOfLabels(CommonLabels(job) + ["stage:merge"]) == Some(Merge)
  {
    var labels := CommonLabels(job) + ["stage:merge"];
    assert labels == ["make_it_so"] + (["repo:" + Lower(job.repo)] + (["action:" + job.actionName]
                     + ([WorkflowLabelOf(job)] + ["stage:merge"])));
    assert ("repo:" + Lower(job.repo))[0] == 'r' && ("action:" + job.actionName)[0] == 'a'
      && WorkflowLabelOf(job)[0] == 'w';
    Differ("stage:", "repo:" + Lower(job.repo), 0);
    Differ("stage:", "action:" + job.actionName, 0);
    Differ("stage:", WorkflowLabelOf(job), 0);
    FirstValueSkips(WorkflowLabelOf(job), ["stage:merge"], "stage:");
    FirstValueSkips("action:" + job.actionName, [WorkflowLabelOf(job)] + ["stage:merge"], "stage:");
    FirstValueSkips("repo:" + Lower(job.repo),
                    ["action:" + job.actionName] + ([WorkflowLabelOf(job)] + ["stage:merge"]), "stage:");
    FirstValueSkips("make_it_so", ["repo:" + Lower(job.repo)] + (["action:" + job.actionName]
                    + ([WorkflowLabelOf(job)] + ["stage:merge"])), "stage:");
  }

  /** The merge card of a fresh workflow: waiting, and recognised as a merge card. */
  lemma MergeCardIs(job: Job, sel: Selection, name: CardKey -> CardId)
    requires FreshNames(job, sel, name) && job.kind != IssueAction && job.policy == AutoMerge
    ensures var b := BuiltBoard(job, sel, name);
            var id := StageCard(b, job, "merge");
            id in b.cards && b.cards[id].status == Todo && CardStage(b.cards[id]) == Some(Merge)
  {
    hide BuildWorkflow;
    hide BuiltBoard;
    hide FreshNames;
    hide CommonLabels;
    hide StageOfLabels;
    MergeIsFirst(job, sel);
    MergePlanAt(job, sel);
    MergeLabels(job);
    BuiltRunsFirst(job, sel, name, MergeIndex(job, sel));
    StageIsWaiting(job, sel, name, MergeIndex(job, sel), "merge");
  }

  lemma MergeIsFirst(job: Job, sel: Selection)
    requires job.kind != IssueAction && job.policy == AutoMerge
    ensures MergeIndex(job, sel) < |BuildWorkflow(job, sel)| && IsFirst(BuildWorkflow(job, sel), MergeIndex(job, sel))
  {
    MergePlanAt(job, sel);
    forall i: nat | i < MergeIndex(job, sel) ensures BuildWorkflow(job, sel)[i].spec.key != KeyOf(job, "merge") {
      EarlierSuffix(job, sel, i);
    }
  }

  lemma MergeLabels(job: Job)
    ensures StageOfLabels(RowPlan(job, Row("merge", Merge, [Some("final_review")], None)).spec.labels) == Some(Merge)
  {
    MergeStageRead(job);
    var labels := RowPlan(job, Row("merge", Merge, [Some("final_review")], None)).spec.labels;
    assert "stage:" + StageName(Merge) == "stage:merge";
    assert labels == CommonLabels(job) + ["stage:merge"];
  }

  /** Every stage card of a fresh workflow is waiting. */
  lemma StageIsWaiting(job: Job, sel: Selection, name: CardKey -> CardId, k: nat, suffix: string)
    requires FreshNames(job, sel, name) && k < |BuildWorkflow(job, sel)|
    requires BuildWorkflow(job, sel)[k].spec.key == KeyOf(job, suffix) && suffix != "root"
    ensures var b := BuiltBoard(job, sel, name);
            var id := StageCard(b, job, suffix);
            id in b.cards && b.cards[id].status == Todo
  {
    var b := BuiltBoard(job, sel, name);
    BuiltHolds(job, sel, name, k);
    BuiltIsLaunched(job, sel, name);
    KeysDiffer(b, KeyOf(job, suffix), KeyOf(job, "root"));
  }

  lemma KeysDiffer(b: Board, k: CardKey, l: CardKey)
    requires Valid(b) && k in b.keys && l in b.keys && k != l
    ensures b.keys[k] != b.keys[l]
  {
  }

  /** With a retry limit of zero the first pass releases every waiting card. */
  lemma WaitingIsReleased(job: Job, sel: Selection, env: Env, used: set<CardKey>, id: CardId)
    requires IsFirstPass(job, sel, env, used) && job.maxRetries == 0
    requires id in BuiltBoard(job, sel, env.name).cards && BuiltBoard(job, sel, env.name).cards[id].status == Todo
    ensures var after := Pass(env, BuiltBoard(job, sel, env.name)); id in after.cards && after.cards[id].status == Ready
  {
    hide BuiltBoard;
    var b := BuiltBoard(job, sel, env.name);
    assert id in b.order;
    var i :| 0 <= i < |b.order| && b.order[i] == id;
    ListingAt(b, i);
    FirstPassReleasesIff(job, sel, env, used, i);
    ListingAt(Pass(env, b), i);
    assert Pass(env, b).order[i] in Pass(env, b).order;
  }

  /** With a retry limit of zero the first pass opens the merge gate: the merge card of any auto-merge
      workflow becomes READY although its final review has not been done. */
  lemma ZeroRetriesOpenTheMergeGate(job: Job, sel: Selection, env: Env, used: set<CardKey>)
    requires IsFirstPass(job, sel, env, used) && job.kind != IssueAction && job.policy == AutoMerge
    requires job.maxRetries == 0
    ensures var b := BuiltBoard(job, sel, env.name);
            && StageCard(b, job, "merge") in Pass(env, b).cards
            && Pass(env, b).cards[StageCard(b, job, "merge")].status == Ready
            && !IsDone(Pass(env, b).cards, StageCard(b, job, "final_review"))
  {
    hide BuiltBoard;
    hide Pass;
    var b := BuiltBoard(job, sel, env.name);
    NamesAreFresh(job, sel, env.name, used);
    MergeCardIs(job, sel, env.name);
    WaitingIsReleased(job, sel, env, used, StageCard(b, job, "merge"));
    FinalPlanAt(job, sel);
    StageIsWaiting(job, sel, env.name, MergeIndex(job, sel) - 1, "final_review");
    WaitingIsReleased(job, sel, env, used, StageCard(b, job, "final_review"));
  }

  lemma FinalPlanAt(job: Job, sel: Selection)
    requires job.kind != IssueAction && job.policy == AutoMerge
    ensures MergeIndex(job, sel) - 1 < |BuildWorkflow(job, sel)|
    ensures BuildWorkflow(job, sel)[MergeIndex(job, sel) - 1].spec.key == KeyOf(job, "final_review")
  {
    var rows := StageRows(job.kind, job.policy, sel);
    assert rows[MergeIndex(job, sel) - 2] == FinalRow(job.kind, sel);
  }
}
