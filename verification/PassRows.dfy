/** What the cards that a pass adds say, and the fate of work that is blocked for a technical reason. */
module PassRows {
  import opened Wrappers
  import opened Text
  import opened Cards
  import opened CardBoard
  import opened RetryChain
  import opened Reconcile
  import opened ReconcileOps
  import opened BoardFold
  import opened RetryLabels
  import opened ReconcileInvariant
  import opened ReconcileSafety
  import opened PassOutcomes
  import opened PassCreations

  // ---------------------------------------------------------------- rows under new keys

  /** A row that a pass has added: the card of a specification, at the end of the table. */
  ghost predicate IsAdded(env: Env, b: Board, spec: CardSpec, row: Card)
    requires Valid(b)
  {
    && row == NewCard(spec, env.name(spec.key))
    && spec.key !in b.keys
    && FromPass(env, Listing(b), spec)
  }

  /** The row that a fold has added under a key. */
  lemma RowUnderKey(b: Board, m: Board, ops: seq<Op>, name: CardKey -> CardId, used: set<CardKey>, key: CardKey)
    returns (spec: CardSpec)
    requires Named(b, name, used) && Folded(b, m, ops, name, used) && key in m.keys && key !in b.keys
    ensures spec.key == key && spec in NewSpecs(ops, b.keys.Keys) && Valid(m)
    ensures m.cards[m.keys[key]] == NewCard(spec, name(key)) && m.cards[m.keys[key]] in Listing(m)
  {
    hide NewCard;
    hide NewSpecs;
    hide Effects;
    hide NewCards;
    var specs := NewSpecs(ops, b.keys.Keys);
    assert key in SpecKeys(specs);
    var j :| 0 <= j < |specs| && specs[j].key == key;
    spec := specs[j];
    NewRow(b, m, ops, name, used, j);
    ListingAt(m, |b.order| + j);
  }

  lemma AddedRow(env: Env, b: Board, used: set<CardKey>, key: CardKey) returns (spec: CardSpec)
    requires Sound(b, env.name, used) && Covers(used, PassOps(env, Listing(b)))
    requires key in Pass(env, b).keys && key !in b.keys
    ensures spec.key == key && Valid(Pass(env, b))
    ensures IsAdded(env, b, spec, Pass(env, b).cards[Pass(env, b).keys[key]])
    ensures Pass(env, b).cards[Pass(env, b).keys[key]] in Listing(Pass(env, b))
  {
    hide PassOps;
    hide FromPass;
    hide NewSpecs;
    hide NewCard;
    hide Folded;
    hide Pass;
    PassIsFold(env, b, used);
    spec := RowUnderKey(b, Pass(env, b), PassOps(env, Listing(b)), env.name, used, key);
  }

  /** The card of a table that a new retry, repair or recovery serves. */
  lemma ServedCard(env: Env, cards: seq<Card>, spec: CardSpec) returns (i: nat)
    requires FromPass(env, cards, spec)
    ensures i < |cards|
    ensures match spec.key
            case WorkKey(_, _) => false
            case RetryKey(source, _) =>
              cards[i].id == source && CardStage(cards[i]).Some? && spec == RetrySpec(env, cards[i], cards)
            case RepairKey(gate, _) => cards[i].id == gate && spec == RepairSpec(env, cards[i])
            case RecoveryKey(failed, _) => cards[i].id == failed && spec == RecoverySpec(env, cards[i], cards)
  {
    if k :| 0 <= k < |cards| && CardStage(cards[k]).Some? && spec == RetrySpec(env, cards[k], cards) {
      i := k;
    } else if k :| 0 <= k < |cards| && spec == RepairSpec(env, cards[k]) {
      i := k;
    } else {
      i :| 0 <= i < |cards| && spec == RecoverySpec(env, cards[i], cards);
    }
  }

  // ---------------------------------------------------------------- what a new row says

  predicate IsShort(text: Option<string>) {
    text.Some? ==> |text.value| <= LABEL_LIMIT
  }

  lemma {:induction false} ValueSurvives(labels: seq<string>, extra: string, p: string)
    requires IsReadPrefix(p) && !(p <= extra)
    requires FirstValue(labels, p).Some? ==> |p| + |FirstValue(labels, p).value| <= LABEL_LIMIT
    ensures FirstValue(BoundedLabels(labels + [extra]), p) == FirstValue(labels, p)
  {
    var bounded := BoundedLabels(labels + [extra]);
    if labels == [] {
      BoundedKeepsPrefix(extra, p);
      assert bounded == [BoundedLabel(extra)];
      assert bounded[1..] == [];
    } else {
      BoundedKeepsPrefix(labels[0], p);
      if !(p <= labels[0]) {
        ValueSurvives(labels[1..], extra, p);
      }
      assert (labels + [extra])[1..] == labels[1..] + [extra];
      assert bounded[1..] == BoundedLabels(labels[1..] + [extra]);
    }
  }

  /** A new retry: READY for the same work, in the same workflow, with a clean record. */
  ghost predicate IsRetryOf(env: Env, card: Card, row: Card) {
    && row.status == Ready && RetryFor(row) == Some(LabelId(card.id)) && CardStage(row) == CardStage(card)
    && (IsShort(WorkflowLabel(card)) ==> WorkflowLabel(row) == WorkflowLabel(card))
    && CardStage(card).Some?
    && row.agent == (if CardStage(card) == Some(Merge) && env.deterministicMerge then None
                     else if card.agent.Some? && card.agent.value != "" then card.agent
                     else Some(env.workerFor(CardStage(card).value)))
    && row.metadata == NO_METADATA.(parents := card.metadata.links, maxRetries := Some(env.maxRetries),
                                    qaProfile := card.metadata.qaProfile)
  }

  /** A new repair: READY for the coder, in the workflow of the gate that it is for. */
  ghost predicate IsRepairOf(env: Env, card: Card, row: Card) {
    && row.status == Ready && IsRepairFor(row, card.id) && CardStage(row) == Some(Repair) && RetryFor(row).None?
    && WorkflowLabel(row) == WorkflowLabel(card) && row.agent == Some(env.workerFor(Repair))
    && row.metadata == NO_METADATA.(maxRetries := Some(env.maxRetries))
  }

  /** A new recovery: READY for the captain. */
  ghost predicate IsRecoveryOf(env: Env, card: Card, row: Card) {
    && row.status == Ready && IsRecoveryFor(row, card.id) && CardStage(row) == Some(ControlPlaneAction)
    && RetryFor(row).None? && RepairToken(row).None? && row.agent == Some(env.captain)
    && row.metadata == NO_METADATA.(maxRetries := Some(env.maxRetries))
  }

  lemma RetryReads(env: Env, cards: seq<Card>, i: nat, id: CardId)
    requires i < |cards| && CardStage(cards[i]).Some?
    ensures IsRetryOf(env, cards[i], NewCard(RetrySpec(env, cards[i], cards), id))
  {
    var card := cards[i];
    RetryTokenOfRetry(card.labels, card.id);
    StageSurvives(card.labels, RetryLabel(card.id));
    RetryLabelShape(card.id);
    assert RetryLabel(card.id)[0] == 'r' && "workflow:"[0] == 'w';
    if IsShort(WorkflowLabel(card)) {
      ValueSurvives(card.labels, RetryLabel(card.id), "workflow:");
    }
  }

  lemma RepairReads(env: Env, card: Card, id: CardId)
    ensures IsRepairOf(env, card, NewCard(RepairSpec(env, card), id))
  {
    RepairLabelsRead(env, card);
    RepairTokenReads(env, card);
    RepairWorkflow(env, card);
  }

  lemma RepairLabelReads(id: CardId)
    ensures TokenNames(FirstValueOf([RepairLabel(id)], "repair-for:", "repair:"), id)
  {
    var last := RepairLabel(id);
    if |"repair-for:" + id| > LABEL_LIMIT {
      assert last == "repair:" + Take(id, 32);
      assert last[6] == ':' && "repair-for:"[6] == '-';
    }
  }

  lemma RepairTokenReads(env: Env, card: Card)
    ensures TokenNames(FirstValueOf(RepairSpec(env, card).labels, "repair-for:", "repair:"), card.id)
  {
    var repo, last := "repo:" + env.repo, RepairLabel(card.id);
    var middle := RepairLabelsShape(env, card);
    assert repo[3] == 'o';
    hide FirstValueOf;
    hide RepairSpec;
    hide RepairLabel;
    RepairLabelReads(card.id);
    Differ("repair-for:", repo, 3); Differ("repair:", repo, 3);
    FirstValueOfSkips("stage:repair", [last], "repair-for:", "repair:");
    assert ["stage:repair"] + [last] == ["stage:repair", last];
    if middle != [] {
      Differ("repair-for:", middle[0], 0); Differ("repair:", middle[0], 0);
      FirstValueOfSkips(middle[0], ["stage:repair", last], "repair-for:", "repair:");
      assert middle == [middle[0]];
    } else {
      assert middle + ["stage:repair", last] == ["stage:repair", last];
    }
    FirstValueOfSkips(repo, middle + ["stage:repair", last], "repair-for:", "repair:");
    FirstValueOfSkips("make_it_so", [repo] + (middle + ["stage:repair", last]), "repair-for:", "repair:");
  }

  lemma RepairWorkflow(env: Env, card: Card)
    ensures FirstValue(RepairSpec(env, card).labels, "workflow:") == FirstValue(card.labels, "workflow:")
  {
    var repo, last := "repo:" + env.repo, RepairLabel(card.id);
    assert repo[0] == 'r' && last[0] == 'r';
    var value := FirstValue(card.labels, "workflow:");
    var middle := match value case None => [] case Some(v) => ["workflow:" + v];
    var tail := ["stage:repair", last];
    assert RepairSpec(env, card).labels == ["make_it_so"] + ([repo] + (middle + tail));
    hide RepairSpec;
    hide RepairLabel;
    Differ("workflow:", repo, 0); Differ("workflow:", last, 0);
    assert FirstValue(tail, "workflow:") == None by {
      FirstValueSkips("stage:repair", [last], "workflow:");
      FirstValueSkips(last, [], "workflow:");
      assert tail == ["stage:repair"] + [last] && [last] == [last] + [];
    }
    if value.Some? {
      FirstValueSkips("workflow:" + value.value, tail, "workflow:");
    } else {
      assert middle + tail == tail;
    }
    FirstValueSkips(repo, middle + tail, "workflow:");
    FirstValueSkips("make_it_so", [repo] + (middle + tail), "workflow:");
  }

  lemma RecoveryReads(env: Env, card: Card, cards: seq<Card>, id: CardId)
    ensures IsRecoveryOf(env, card, NewCard(RecoverySpec(env, card, cards), id))
  {
    RecoveryLabelsRead(env, card, cards);
    RecoveryStage(env, card, cards);
  }

  lemma RecoveryStage(env: Env, card: Card, cards: seq<Card>)
    ensures StageOfLabels(RecoverySpec(env, card, cards).labels) == Some(ControlPlaneAction)
  {
    var repo, last := "repo:" + env.repo, RecoveryLabel(card.id);
    var tail := [last];
    assert repo[0] == 'r';
    assert RecoverySpec(env, card, cards).labels == ["make_it_so"] + ([repo] + (["stage:control_plane_action"] + tail));
    hide RecoverySpec;
    Differ("stage:", repo, 0);
    FirstValueSkips("stage:control_plane_action", tail, "stage:");
    FirstValueSkips(repo, ["stage:control_plane_action"] + tail, "stage:");
    FirstValueSkips("make_it_so", [repo] + (["stage:control_plane_action"] + tail), "stage:");
    assert "stage:control_plane_action"[6..] == "control_plane_action";
  }

  // ---------------------------------------------------------------- the rows of a pass

  /** A row under this key serves card `i` of the snapshot. */
  ghost predicate Serves(env: Env, cards: seq<Card>, key: CardKey, i: nat, row: Card)
    requires i < |cards|
  {
    match key
    case WorkKey(_, _) => false
    case RetryKey(source, attempt) =>
      source == cards[i].id && attempt == |RetriesOf(cards, source)| + 1 && IsRetryOf(env, cards[i], row)
    case RepairKey(gate, failures) =>
      gate == cards[i].id && failures == FailureCount(cards[i]) && IsRepairOf(env, cards[i], row)
    case RecoveryKey(failed, attempt) =>
      failed == cards[i].id && attempt == |RecoveriesOf(cards, failed)| + 1 && IsRecoveryOf(env, cards[i], row)
  }

  /** Every row that a pass adds is READY and serves the card that its key names. */
  lemma AddedRowServes(env: Env, b: Board, used: set<CardKey>, key: CardKey) returns (i: nat)
    requires Sound(b, env.name, used) && Covers(used, PassOps(env, Listing(b)))
    requires key in Pass(env, b).keys && key !in b.keys
    ensures i < |b.order| && Valid(Pass(env, b))
    ensures var row := Pass(env, b).cards[Pass(env, b).keys[key]];
            row in Listing(Pass(env, b)) && row.id == env.name(key) && Serves(env, Listing(b), key, i, row)
  {
    var spec := AddedRow(env, b, used, key);
    i := ServedCard(env, Listing(b), spec);
    SpecServes(env, Listing(b), spec, i);
    hide *;
    assert NewCard(spec, env.name(key)).id == env.name(key) by {
      NewCardId(spec, env.name(key));
    }
  }

  lemma NewCardId(spec: CardSpec, id: CardId)
    ensures NewCard(spec, id).id == id
  {
  }

  lemma SpecServes(env: Env, cards: seq<Card>, spec: CardSpec, i: nat)
    requires i < |cards|
    requires match spec.key
             case WorkKey(_, _) => false
             case RetryKey(source, _) =>
               cards[i].id == source && CardStage(cards[i]).Some? && spec == RetrySpec(env, cards[i], cards)
             case RepairKey(gate, _) => cards[i].id == gate && spec == RepairSpec(env, cards[i])
             case RecoveryKey(failed, _) => cards[i].id == failed && spec == RecoverySpec(env, cards[i], cards)
    ensures Serves(env, cards, spec.key, i, NewCard(spec, env.name(spec.key)))
  {
    hide IsRetryOf;
    hide IsRepairOf;
    hide IsRecoveryOf;
    hide FailureCount;
    match spec.key
    case RetryKey(_, _) => RetryReads(env, cards, i, env.name(spec.key));
    case RepairKey(_, _) => RepairReads(env, cards[i], env.name(spec.key));
    case RecoveryKey(_, _) => RecoveryReads(env, cards[i], cards, env.name(spec.key));
  }

  // ---------------------------------------------------------------- one card's retries, repairs and recoveries

  lemma OneTurnRetries(env: Env, cards: seq<Card>, i: nat)
    requires DistinctIds(cards) && i < |cards|
    ensures (exists k :: 0 <= k < |cards|
                         && KeyIsDue(env, cards, cards[k], RetryKey(cards[i].id, |RetriesOf(cards, cards[i].id)| + 1)))
       <==> RetryIsDue(env, cards, cards[i])
  {
    hide RetryIsDue;
    hide RetriesOf;
  }

  lemma OneTurnRepairs(env: Env, cards: seq<Card>, i: nat)
    requires DistinctIds(cards) && i < |cards|
    ensures (exists k :: 0 <= k < |cards|
                         && KeyIsDue(env, cards, cards[k], RepairKey(cards[i].id, FailureCount(cards[i]))))
       <==> NeedsRepair(env, cards, cards[i]) && !HasRepair(cards, cards[i].id)
  {
    hide NeedsRepair;
    hide HasRepair;
    hide FailureCount;
  }

  lemma SomeTurnRecovers(env: Env, cards: seq<Card>, i: nat)
    requires DistinctIds(cards) && i < |cards|
    ensures (exists k :: 0 <= k < |cards|
                         && KeyIsDue(env, cards, cards[k],
                                     RecoveryKey(cards[i].id, |RecoveriesOf(cards, cards[i].id)| + 1)))
       <==> exists k :: 0 <= k < |cards| && RecoveryIsDue(env, cards, cards[k], cards[i])
  {
    hide RecoveryIsDue;
    hide RecoveriesOf;
  }

  lemma NextKeysAreFree(b: Board, id: CardId)
    requires Valid(b) && KeysCounted(b)
    ensures RetryKey(id, |RetriesOf(Listing(b), id)| + 1) !in b.keys
    ensures RecoveryKey(id, |RecoveriesOf(Listing(b), id)| + 1) !in b.keys
  {
  }

  /** A pass adds a retry of a card exactly when one is due. */
  lemma RetryAppearsIff(env: Env, b: Board, used: set<CardKey>, i: nat)
    requires Sound(b, env.name, used) && Covers(used, PassOps(env, Listing(b))) && i < |b.order|
    ensures RetryKey(Listing(b)[i].id, |RetriesOf(Listing(b), Listing(b)[i].id)| + 1) in Pass(env, b).keys
       <==> RetryIsDue(env, Listing(b), Listing(b)[i])
  {
    var cards := Listing(b);
    ListingIdsDistinct(b);
    NextKeysAreFree(b, cards[i].id);
    hide *;
    KeysAfterPassIff(env, b, used, RetryKey(cards[i].id, |RetriesOf(cards, cards[i].id)| + 1));
    OneTurnRetries(env, cards, i);
  }

  /** It adds a first repair of a gate exactly when the gate needs one. */
  lemma RepairAppearsIff(env: Env, b: Board, used: set<CardKey>, i: nat)
    requires Sound(b, env.name, used) && Covers(used, PassOps(env, Listing(b))) && i < |b.order|
    requires RepairKey(Listing(b)[i].id, FailureCount(Listing(b)[i])) !in b.keys
    ensures RepairKey(Listing(b)[i].id, FailureCount(Listing(b)[i])) in Pass(env, b).keys
       <==> NeedsRepair(env, Listing(b), Listing(b)[i]) && !HasRepair(Listing(b), Listing(b)[i].id)
  {
    var cards := Listing(b);
    ListingIdsDistinct(b);
    hide *;
    KeysAfterPassIff(env, b, used, RepairKey(cards[i].id, FailureCount(cards[i])));
    OneTurnRepairs(env, cards, i);
  }

  /** It adds a recovery of a card exactly when the turn of that card, of the card that it retries, or of the gate
      that it repairs makes one due. */
  lemma RecoveryAppearsIff(env: Env, b: Board, used: set<CardKey>, i: nat)
    requires Sound(b, env.name, used) && Covers(used, PassOps(env, Listing(b))) && i < |b.order|
    ensures RecoveryKey(Listing(b)[i].id, |RecoveriesOf(Listing(b), Listing(b)[i].id)| + 1) in Pass(env, b).keys
       <==> exists k :: 0 <= k < |b.order| && RecoveryIsDue(env, Listing(b), Listing(b)[k], Listing(b)[i])
  {
    var cards := Listing(b);
    ListingIdsDistinct(b);
    NextKeysAreFree(b, cards[i].id);
    hide *;
    KeysAfterPassIff(env, b, used, RecoveryKey(cards[i].id, |RecoveriesOf(cards, cards[i].id)| + 1));
    SomeTurnRecovers(env, cards, i);
  }

  // ---------------------------------------------------------------- work that is blocked for a technical reason

  /** Work that a worker has given up for a technical reason: neither a gate nor a merge with its final review, and
      no retry of it has proof. */
  ghost predicate IsStalledWork(env: Env, cards: seq<Card>, card: Card) {
    && !card.metadata.archived && IsTechnicallyBlocked(card) && RepairToken(card).None?
    && IsReworked(env, card, cards) && !HasProvenRetry(env, cards, card.id)
  }

  /** A row has appeared under a recovery key of the card. */
  ghost predicate GainsRecovery(b: Board, after: Board, id: CardId) {
    exists n: nat :: RecoveryKey(id, n) in after.keys && RecoveryKey(id, n) !in b.keys
  }

  lemma StalledIsOpenCase(env: Env, cards: seq<Card>, card: Card)
    requires IsStalledWork(env, cards, card)
    ensures IsOpenCase(env, cards, card) && !LacksCompletion(env, card) && !IsBlockedGate(card)
    ensures !IsOpen(card) && !IsFirstOpenRetry(cards, card.id, card)
  {
  }

  /** Only its own turn recovers stalled work, beyond the budget and unless a recovery is open. */
  lemma StalledRecoveryIff(env: Env, cards: seq<Card>, i: nat, k: nat)
    requires DistinctIds(cards) && i < |cards| && k < |cards| && IsStalledWork(env, cards, cards[i])
    ensures RecoveryIsDue(env, cards, cards[k], cards[i])
       <==> k == i && !IsWithinBudget(env, cards[i]) && !HasOpenRecovery(cards, cards[i].id)
  {
    hide HasOpenRecovery;
    hide IsWithinBudget;
    hide HasProvenRetry;
    hide RetryExhausted;
    hide IsEarlyReview;
    hide IsRepaired;
    hide IsMootRepair;
    StalledIsOpenCase(env, cards, cards[i]);
  }

  /** A new row of the table that recovers the card. */
  ghost predicate IsNewRecovery(env: Env, b: Board, card: Card, row: Card) {
    row.id !in b.cards && IsRecoveryOf(env, card, row)
  }

  lemma AddedIsNew(env: Env, b: Board, used: set<CardKey>, key: CardKey)
    requires Sound(b, env.name, used) && Covers(used, PassOps(env, Listing(b)))
    requires key in Pass(env, b).keys && key !in b.keys
    ensures env.name(key) !in b.cards
  {
    hide PassOps;
    hide Pass;
    hide FromPass;
    PassIsFold(env, b, used);
    FreshId(b, env.name, used, key);
  }

  lemma ServesRecovery(env: Env, cards: seq<Card>, i: nat, j: nat, n: nat, row: Card)
    requires DistinctIds(cards) && i < |cards| && j < |cards|
    requires Serves(env, cards, RecoveryKey(cards[i].id, n), j, row)
    ensures n == |RecoveriesOf(cards, cards[i].id)| + 1 && IsRecoveryOf(env, cards[i], row)
  {
    hide IsRecoveryOf;
    hide RecoveriesOf;
  }

  /** A row under a recovery key of a card is the next recovery of that card. */
  lemma GainedRecovery(env: Env, b: Board, used: set<CardKey>, i: nat, n: nat)
    requires Sound(b, env.name, used) && Covers(used, PassOps(env, Listing(b))) && i < |b.order|
    requires RecoveryKey(Listing(b)[i].id, n) in Pass(env, b).keys && RecoveryKey(Listing(b)[i].id, n) !in b.keys
    ensures n == |RecoveriesOf(Listing(b), Listing(b)[i].id)| + 1 && Valid(Pass(env, b))
    ensures exists row :: row in Listing(Pass(env, b)) && IsNewRecovery(env, b, Listing(b)[i], row)
  {
    hide PassOps;
    hide Pass;
    hide Serves;
    hide IsRecoveryOf;
    hide RecoveriesOf;
    var key := RecoveryKey(Listing(b)[i].id, n);
    ListingIdsDistinct(b);
    var j := AddedRowServes(env, b, used, key);
    AddedIsNew(env, b, used, key);
    ServesRecovery(env, Listing(b), i, j, n, Pass(env, b).cards[Pass(env, b).keys[key]]);
  }

  lemma GainsNext(env: Env, b: Board, used: set<CardKey>, i: nat)
    requires Sound(b, env.name, used) && Covers(used, PassOps(env, Listing(b))) && i < |b.order|
    ensures GainsRecovery(b, Pass(env, b), Listing(b)[i].id)
       <==> exists k :: 0 <= k < |b.order| && RecoveryIsDue(env, Listing(b), Listing(b)[k], Listing(b)[i])
  {
    hide PassOps;
    hide Pass;
    hide RecoveriesOf;
    hide RecoveryIsDue;
    var id := Listing(b)[i].id;
    NextKeysAreFree(b, id);
    RecoveryAppearsIff(env, b, used, i);
    if n: nat :| RecoveryKey(id, n) in Pass(env, b).keys && RecoveryKey(id, n) !in b.keys {
      GainedRecovery(env, b, used, i, n);
    }
  }

  lemma SomeTurnRecoversStalled(env: Env, cards: seq<Card>, i: nat)
    requires DistinctIds(cards) && i < |cards| && IsStalledWork(env, cards, cards[i])
    ensures (exists k :: 0 <= k < |cards| && RecoveryIsDue(env, cards, cards[k], cards[i]))
       <==> !IsWithinBudget(env, cards[i]) && !HasOpenRecovery(cards, cards[i].id)
  {
    hide *;
    forall k | 0 <= k < |cards|
      ensures RecoveryIsDue(env, cards, cards[k], cards[i])
         <==> k == i && !IsWithinBudget(env, cards[i]) && !HasOpenRecovery(cards, cards[i].id)
    {
      StalledRecoveryIff(env, cards, i, k);
    }
  }

  lemma StalledGainsIff(env: Env, b: Board, used: set<CardKey>, i: nat)
    requires Sound(b, env.name, used) && Covers(used, PassOps(env, Listing(b))) && i < |b.order|
    requires IsStalledWork(env, Listing(b), Listing(b)[i])
    ensures GainsRecovery(b, Pass(env, b), Listing(b)[i].id)
       <==> !IsWithinBudget(env, Listing(b)[i]) && !HasOpenRecovery(Listing(b), Listing(b)[i].id)
  {
    ListingIdsDistinct(b);
    hide *;
    GainsNext(env, b, used, i);
    SomeTurnRecoversStalled(env, Listing(b), i);
  }

  lemma StalledRow(env: Env, b: Board, used: set<CardKey>, i: nat)
    requires Sound(b, env.name, used) && Covers(used, PassOps(env, Listing(b))) && i < |b.order|
    requires IsStalledWork(env, Listing(b), Listing(b)[i])
    ensures Valid(Pass(env, b)) && i < |Pass(env, b).order|
    ensures Listing(Pass(env, b))[i]
         == if IsWithinBudget(env, Listing(b)[i]) then HandedOut(Listing(b)[i]) else Listing(b)[i]
  {
    hide PassOps;
    hide Pass;
    hide HasProvenRetry;
    hide HasValidMergePredecessor;
    hide HasFailureEvidence;
    hide FailureCount;
    BlockedOutcome(env, b, used, i);
  }

  /** A pass hands stalled work out again, to the same worker and with the same record, exactly within its failure
      budget; then no recovery of it is added.  Beyond it the card stays BLOCKED and a recovery is there: the one
      that was open already, or a new READY one. */
  lemma StalledWorkIff(env: Env, b: Board, used: set<CardKey>, i: nat)
    requires Sound(b, env.name, used) && Covers(used, PassOps(env, Listing(b))) && i < |b.order|
    requires IsStalledWork(env, Listing(b), Listing(b)[i])
    ensures Valid(Pass(env, b)) && i < |Pass(env, b).order|
    ensures var before, after := Listing(b)[i], Listing(Pass(env, b))[i];
            FailureCount(before) <= RetryLimit(before, env.maxRetries)
            <==> && after.status == Ready && after.agent == before.agent
                 && after.metadata == before.metadata.(claim := None)
                 && !GainsRecovery(b, Pass(env, b), before.id)
    ensures var before, after := Listing(b)[i], Listing(Pass(env, b))[i];
            FailureCount(before) > RetryLimit(before, env.maxRetries) ==>
              && after == before
              && (HasOpenRecovery(Listing(b), before.id)
                  || exists row :: row in Listing(Pass(env, b)) && IsNewRecovery(env, b, before, row))
  {
    hide IsStalledWork;
    hide PassOps;
    hide Pass;
    hide HasOpenRecovery;
    hide IsNewRecovery;
    hide GainsRecovery;
    hide FailureCount;
    StalledRow(env, b, used, i);
    StalledGainsIff(env, b, used, i);
    GainIsNew(env, b, used, i);
    assert Listing(b)[i].status == Blocked by {
      StalledIsBlocked(env, Listing(b), Listing(b)[i]);
    }
  }

  lemma GainIsNew(env: Env, b: Board, used: set<CardKey>, i: nat)
    requires Sound(b, env.name, used) && Covers(used, PassOps(env, Listing(b))) && i < |b.order|
    ensures Valid(Pass(env, b))
    ensures GainsRecovery(b, Pass(env, b), Listing(b)[i].id) ==>
              exists row :: row in Listing(Pass(env, b)) && IsNewRecovery(env, b, Listing(b)[i], row)
  {
    hide PassOps;
    hide Pass;
    hide IsNewRecovery;
    hide RecoveriesOf;
    PassOldRow(env, b, used, i);
    if n: nat :| RecoveryKey(Listing(b)[i].id, n) in Pass(env, b).keys && RecoveryKey(Listing(b)[i].id, n) !in b.keys {
      GainedRecovery(env, b, used, i, n);
    }
  }

  lemma StalledIsBlocked(env: Env, cards: seq<Card>, card: Card)
    requires IsStalledWork(env, cards, card)
    ensures card.status == Blocked
  {
  }

  // ---------------------------------------------------------------- open cards through a pass

  /** An open card that the pass takes off the table: pointless, or finished with evidence. */
  ghost predicate IsClosedByPass(env: Env, cards: seq<Card>, card: Card) {
    || (IsPointless(env, cards, card) && !IsOverBudget(env, card, cards))
    || (&& card.status == InReview && CardStage(card).Some? && !IsRetriableMerge(env, card, cards)
        && (HasValidCompletion(env, card) || HasProvenRetry(env, cards, card.id)))
  }

  lemma PromotedIsDone(env: Env, cards: seq<Card>, card: Card, after: Card)
    requires IsPromoted(env, cards, card, after)
    ensures after.status == Done
  {
  }

  lemma SettledIsOpenIff(env: Env, cards: seq<Card>, card: Card, after: Card)
    requires IsOpen(card) && card.status == InReview && IsSettledAs(env, cards, card, after)
    ensures IsOpen(after) <==> !IsClosedByPass(env, cards, card)
  {
    hide IsPromoted;
    hide HasProvenRetry;
    hide HasValidCompletion;
    hide IsRetriableMerge;
    if IsPromoted(env, cards, card, after) {
      PromotedIsDone(env, cards, card, after);
    }
  }

  /** An open card without a repair label is still open after a pass unless the pass closes it. */
  lemma OpenStaysOpenIff(env: Env, b: Board, used: set<CardKey>, i: nat)
    requires Sound(b, env.name, used) && Covers(used, PassOps(env, Listing(b))) && i < |b.order|
    requires IsOpen(Listing(b)[i]) && RepairToken(Listing(b)[i]).None?
    ensures Valid(Pass(env, b)) && i < |Pass(env, b).order|
    ensures IsOpen(Listing(Pass(env, b))[i]) <==> !IsClosedByPass(env, Listing(b), Listing(b)[i])
  {
    hide PassOps;
    hide Pass;
    hide IsSettledAs;
    hide IsOverBudget;
    hide IsRetriableMerge;
    hide HasValidCompletion;
    hide HasProvenRetry;
    hide IsRetryOfProven;
    hide IsMootRecovery;
    hide IsMootRepair;
    var card := Listing(b)[i];
    if card.status in {Todo, Ready} {
      WaitingOutcome(env, b, used, i);
    } else if card.status == InReview {
      FinishedOutcome(env, b, used, i);
      SettledIsOpenIff(env, Listing(b), card, Listing(Pass(env, b))[i]);
    } else {
      IdleOutcome(env, b, used, i);
    }
  }

  /** Beyond the budget of stalled work a recovery is open after the pass, unless there was one already and the same
      pass has closed every one of them. */
  lemma StalledHasOpenRecovery(env: Env, b: Board, used: set<CardKey>, i: nat)
    requires Sound(b, env.name, used) && Covers(used, PassOps(env, Listing(b))) && i < |b.order|
    requires IsStalledWork(env, Listing(b), Listing(b)[i]) && !IsWithinBudget(env, Listing(b)[i])
    requires forall j :: 0 <= j < |b.order| && IsRecoveryFor(Listing(b)[j], Listing(b)[i].id) ==>
               RepairToken(Listing(b)[j]).None?
    ensures Valid(Pass(env, b))
    ensures || HasOpenRecovery(Listing(Pass(env, b)), Listing(b)[i].id)
            || (&& HasOpenRecovery(Listing(b), Listing(b)[i].id)
                && forall j :: 0 <= j < |b.order| && IsOpen(Listing(b)[j])
                               && IsRecoveryFor(Listing(b)[j], Listing(b)[i].id) ==>
                     IsClosedByPass(env, Listing(b), Listing(b)[j]))
  {
    hide PassOps;
    hide Pass;
    hide IsClosedByPass;
    hide IsStalledWork;
    hide IsOpen;
    hide RecoveryToken;
    hide RepairToken;
    var id := Listing(b)[i].id;
    StalledWorkIff(env, b, used, i);
    if row :| row in Listing(Pass(env, b)) && IsNewRecovery(env, b, Listing(b)[i], row) {
      NewRecoveryIsOpen(env, b, Listing(b)[i], row);
    } else {
      forall j | 0 <= j < |b.order| && IsOpen(Listing(b)[j]) && IsRecoveryFor(Listing(b)[j], id)
                 && !IsClosedByPass(env, Listing(b), Listing(b)[j])
        ensures HasOpenRecovery(Listing(Pass(env, b)), id)
      {
        RecoveryStaysOpen(env, b, used, j, id);
      }
    }
  }

  lemma NewRecoveryIsOpen(env: Env, b: Board, card: Card, row: Card)
    requires IsNewRecovery(env, b, card, row)
    ensures IsOpen(row) && IsRecoveryFor(row, card.id)
  {
  }

  lemma RecoveryStaysOpen(env: Env, b: Board, used: set<CardKey>, j: nat, id: CardId)
    requires Sound(b, env.name, used) && Covers(used, PassOps(env, Listing(b))) && j < |b.order|
    requires IsOpen(Listing(b)[j]) && RepairToken(Listing(b)[j]).None? && IsRecoveryFor(Listing(b)[j], id)
    requires !IsClosedByPass(env, Listing(b), Listing(b)[j])
    ensures Valid(Pass(env, b)) && HasOpenRecovery(Listing(Pass(env, b)), id)
  {
    hide PassOps;
    hide Pass;
    hide IsClosedByPass;
    hide IsOpen;
    OpenStaysOpenIff(env, b, used, j);
    PassOldRow(env, b, used, j);
    var after := Listing(Pass(env, b))[j];
    assert after in Listing(Pass(env, b)) && IsRecoveryFor(after, id);
  }

  // ---------------------------------------------------------------- cancellations do not last

  /** Waiting, pointless and within its budget, with nothing on record that names the owner. */
  ghost predicate IsPlainlyPointless(env: Env, cards: seq<Card>, card: Card) {
    && IsPointless(env, cards, card) && !card.metadata.archived && RepairToken(card).None?
    && IsWithinBudget(env, card) && ClassifyBlocker(BlockReason(card)) == Technical && !IsCancelled(card)
  }

  lemma CancelledIsStalled(env: Env, cards: seq<Card>, later: seq<Card>, card: Card)
    requires IsPlainlyPointless(env, cards, card)
    requires IsReworked(env, card, later) && !HasProvenRetry(env, later, card.id)
    ensures IsStalledWork(env, later, Cancelled(card)) && IsWithinBudget(env, Cancelled(card))
    ensures card.status in {Todo, Ready} && !IsOverBudget(env, card, cards)
  {
    hide IsPointless;
    hide HasProvenRetry;
    hide ClassifyBlocker;
    assert card.status in {Todo, Ready} by {
      PointlessWaits(env, cards, card);
    }
    assert BlockReason(Cancelled(card)) == BlockReason(card);
  }

  lemma PointlessWaits(env: Env, cards: seq<Card>, card: Card)
    requires IsPointless(env, cards, card)
    ensures card.status in {Todo, Ready}
  {
  }

  /** What one pass cancels as pointless the next pass hands out again: the reason of the cancellation is stored where
      no reader of blockers looks. */
  lemma CancellationIsUndone(env: Env, b: Board, used: set<CardKey>, i: nat)
    requires Sound(b, env.name, used) && Covers(used, PassOps(env, Listing(b))) && i < |b.order|
    requires IsPlainlyPointless(env, Listing(b), Listing(b)[i])
    requires Valid(Pass(env, b)) && Covers(used, PassOps(env, Listing(Pass(env, b))))
    requires IsReworked(env, Listing(b)[i], Listing(Pass(env, b)))
    requires !HasProvenRetry(env, Listing(Pass(env, b)), Listing(b)[i].id)
    ensures var b', b'' := Pass(env, b), Pass(env, Pass(env, b));
            && Valid(b'') && i < |b'.order| && i < |b''.order|
            && Listing(b')[i] == Listing(b)[i].(status := Blocked, metadata := Listing(b)[i].metadata.(claim := None))
            && Listing(b'')[i].status == Ready
  {
    hide PassOps;
    hide Pass;
    hide StageAnchored;
    hide KeysCounted;
    hide IsPlainlyPointless;
    hide IsPointless;
    hide IsOverBudget;
    hide HasProvenRetry;
    hide IsReworked;
    hide IsWithinBudget;
    hide IsStalledWork;
    var card := Listing(b)[i];
    CancelledIsStalled(env, Listing(b), Listing(Pass(env, b)), card);
    assert IsPointless(env, Listing(b), card) && RepairToken(card).None? by {
      PlainlyIsPointless(env, Listing(b), card);
    }
    WaitingOutcome(env, b, used, i);
    PassKeepsSound(env, b, used);
    StalledRow(env, Pass(env, b), used, i);
  }

  lemma PlainlyIsPointless(env: Env, cards: seq<Card>, card: Card)
    requires IsPlainlyPointless(env, cards, card)
    ensures IsPointless(env, cards, card) && RepairToken(card).None?
  {
  }
}
