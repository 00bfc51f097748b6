/** What the labels of newly created cards say: bounding a label keeps everything that is read back. */
module RetryLabels {
  import opened Wrappers
  import opened Text
  import opened Cards
  import opened RetryChain
  import opened Reconcile

  lemma {:induction false} RStripKeeps(s: string, n: nat)
    requires 0 < n <= |s| && !IsSpace(s[n - 1])
    ensures n <= |RStripWhere(s, IsSpace)| && RStripWhere(s, IsSpace) <= s
    decreases |s|
  {
    if IsSpace(s[|s| - 1]) {
      RStripKeeps(s[..|s| - 1], n);
    }
  }

  lemma {:induction false} RStripIsPrefix(s: string)
    ensures RStripWhere(s, IsSpace) <= s
    decreases |s|
  {
    if s != [] && IsSpace(s[|s| - 1]) {
      RStripIsPrefix(s[..|s| - 1]);
    }
  }

  /** A prefix that the label readers look for: short, and without blanks or dots. */
  ghost predicate IsReadPrefix(p: string) {
    && 0 < |p| <= 37
    && forall i :: 0 <= i < |p| ==> !IsSpace(p[i]) && p[i] != '.'
  }

  lemma BoundedKeepsPrefix(text: string, p: string)
    requires IsReadPrefix(p)
    ensures p <= BoundedLabel(text) <==> p <= text
  {
    if |text| > LABEL_LIMIT {
      var cut := text[..37];
      var kept := RStripWhere(cut, IsSpace);
      RStripIsPrefix(cut);
      if p <= text {
        assert cut[|p| - 1] == p[|p| - 1];
        RStripKeeps(cut, |p|);
      }
      if p <= kept + "..." && |p| > |kept| {
        assert (kept + "...")[|kept|] == '.';
      }
    }
  }

  /** A label that reads as a stage is short, so it is kept as it is. */
  lemma BoundedKeepsStage(text: string)
    requires "stage:" <= text && StageNamed(text[6..]).Some?
    ensures BoundedLabel(text) == text
  {
  }

  lemma {:induction false} StageSurvives(labels: seq<string>, extra: string)
    requires StageOfLabels(labels).Some?
    ensures StageOfLabels(BoundedLabels(labels + [extra])) == StageOfLabels(labels)
  {
    var all := labels + [extra];
    var bounded := BoundedLabels(all);
    BoundedKeepsPrefix(labels[0], "stage:");
    if "stage:" <= labels[0] {
      BoundedKeepsStage(labels[0]);
    } else {
      StageSurvives(labels[1..], extra);
      assert all[1..] == labels[1..] + [extra];
      assert bounded[1..] == BoundedLabels(labels[1..] + [extra]);
    }
  }

  lemma {:induction false} AbsentSurvives(labels: seq<string>, p: string, p': string)
    requires IsReadPrefix(p) && IsReadPrefix(p')
    ensures FirstValueOf(BoundedLabels(labels), p, p').Some? <==> FirstValueOf(labels, p, p').Some?
  {
    if labels != [] {
      BoundedKeepsPrefix(labels[0], p);
      BoundedKeepsPrefix(labels[0], p');
      AbsentSurvives(labels[1..], p, p');
      assert BoundedLabels(labels)[1..] == BoundedLabels(labels[1..]);
    }
  }

  lemma {:induction false} FirstValueOfAppend(labels: seq<string>, extra: string, p: string, p': string)
    requires !(p <= extra) && !(p' <= extra)
    ensures FirstValueOf(labels + [extra], p, p') == FirstValueOf(labels, p, p')
  {
    if labels == [] {
      assert (labels + [extra])[1..] == [];
    } else {
      FirstValueOfAppend(labels[1..], extra, p, p');
      assert (labels + [extra])[1..] == labels[1..] + [extra];
    }
  }

  lemma RetryLabelShape(id: CardId)
    ensures |RetryLabel(id)| <= LABEL_LIMIT
    ensures RetryLabel(id) == "retry-for:" + LabelId(id) || RetryLabel(id) == "retry:" + LabelId(id)
  {
  }

  /** The retry label of a new retry, read back, names its source for ids of any length. */
  lemma RetryTokenOfRetry(labels: seq<string>, source: CardId)
    ensures RetryToken(BoundedLabels(labels + [RetryLabel(source)])) == Some(LabelId(source))
  {
    RetryLabelShape(source);
    var bounded := BoundedLabels(labels + [RetryLabel(source)]);
    assert bounded[|bounded| - 1] == RetryLabel(source);
    if RetryLabel(source) == "retry:" + LabelId(source) {
      assert RetryLabel(source)[5] == ':';
      assert "retry-for:"[5] == '-';
    }
  }

  lemma RepairTokenOfRetry(labels: seq<string>, source: CardId)
    ensures FirstValueOf(BoundedLabels(labels + [RetryLabel(source)]), "repair-for:", "repair:").Some?
        <==> FirstValueOf(labels, "repair-for:", "repair:").Some?
  {
    RetryLabelShape(source);
    assert RetryLabel(source)[2] == 't';
    FirstValueOfAppend(labels, RetryLabel(source), "repair-for:", "repair:");
    AbsentSurvives(labels + [RetryLabel(source)], "repair-for:", "repair:");
  }

  predicate IsPlain(text: string) {
    !("retry-for:" <= text) && !("retry:" <= text)
  }

  lemma {:induction false} PlainGivesNoToken(labels: seq<string>)
    requires forall i :: 0 <= i < |labels| ==> IsPlain(labels[i])
    ensures RetryToken(labels).None?
  {
    if labels != [] {
      PlainGivesNoToken(labels[..|labels| - 1]);
      assert IsPlain(labels[|labels| - 1]);
    }
  }

  lemma FirstValueSkips(text: string, rest: seq<string>, p: string)
    ensures FirstValue([text] + rest, p) == if p <= text then Some(text[|p|..]) else FirstValue(rest, p)
  {
    assert ([text] + rest)[1..] == rest;
  }

  lemma FirstValueOfSkips(text: string, rest: seq<string>, p: string, p': string)
    requires !(p <= text) && !(p' <= text)
    ensures FirstValueOf([text] + rest, p, p') == FirstValueOf(rest, p, p')
  {
    assert ([text] + rest)[1..] == rest;
  }

  /** Two texts that differ at an index are not prefixes of one another. */
  lemma Differ(p: string, text: string, at: nat)
    requires at < |p| && at < |text| && p[at] != text[at]
    ensures !(p <= text)
  {
  }

  lemma RepairLabelsShape(env: Env, card: Card) returns (middle: seq<string>)
    ensures |middle| <= 1 && (middle != [] ==> middle[0] != "" && middle[0][0] == 'w')
    ensures RepairSpec(env, card).labels
         == ["make_it_so"] + (["repo:" + env.repo] + (middle + ["stage:repair", RepairLabel(card.id)]))
    ensures |RepairLabel(card.id)| > 2 && RepairLabel(card.id)[2] == 'p'
  {
    middle := match WorkflowLabel(card) case None => [] case Some(workflow) => [workflow];
    assert RepairSpec(env, card).labels
        == ["make_it_so", "repo:" + env.repo] + middle + ["stage:repair", RepairLabel(card.id)];
  }

  lemma PlainUnless(text: string)
    requires text != [] && (text[0] != 'r' || (|text| > 2 && text[2] == 'p'))
    ensures IsPlain(text)
  {
    assert "retry-for:"[2] == 't' && "retry:"[2] == 't' && "retry-for:"[0] == 'r' && "retry:"[0] == 'r';
  }

  lemma RepairLabelsGiveNoToken(repo: string, middle: seq<string>, last: string)
    requires |middle| <= 1 && (middle != [] ==> middle[0] != "" && middle[0][0] == 'w')
    requires |repo| > 2 && repo[2] == 'p' && |last| > 2 && last[2] == 'p'
    ensures RetryToken(["make_it_so"] + ([repo] + (middle + ["stage:repair", last]))).None?
  {
    hide IsPlain;
    var labels := ["make_it_so"] + ([repo] + (middle + ["stage:repair", last]));
    forall i | 0 <= i < |labels| ensures IsPlain(labels[i]) {
      PlainUnless(labels[i]);
    }
    PlainGivesNoToken(labels);
  }

  lemma RepairLabelsGiveStage(repo: string, middle: seq<string>, last: string)
    requires |middle| <= 1 && (middle != [] ==> middle[0] != "" && middle[0][0] == 'w')
    requires |repo| > 0 && repo[0] == 'r'
    ensures StageOfLabels(["make_it_so"] + ([repo] + (middle + ["stage:repair", last]))) == Some(Repair)
  {
    var tail := ["stage:repair", last];
    Differ("stage:", repo, 0);
    assert tail[0][|"stage:"|..] == "repair";
    if middle != [] {
      assert middle == [middle[0]];
      FirstValueSkips(middle[0], tail, "stage:");
    } else {
      assert middle + tail == tail;
    }
    FirstValueSkips(repo, middle + tail, "stage:");
    FirstValueSkips("make_it_so", [repo] + (middle + tail), "stage:");
  }

  lemma RepairLabelsRead(env: Env, card: Card)
    ensures var labels := RepairSpec(env, card).labels;
            RetryToken(labels).None? && StageOfLabels(labels) == Some(Repair)
  {
    var repo := "repo:" + env.repo;
    assert repo[0] == 'r' && repo[2] == 'p';
    hide *;
    var middle := RepairLabelsShape(env, card);
    RepairLabelsGiveNoToken(repo, middle, RepairLabel(card.id));
    RepairLabelsGiveStage(repo, middle, RepairLabel(card.id));
  }

  lemma RecoveryLabelsShape(env: Env, failed: Card, cards: seq<Card>)
    ensures var labels := RecoverySpec(env, failed, cards).labels;
            && labels == ["make_it_so"]
                         + (["repo:" + env.repo] + (["stage:control_plane_action"] + [RecoveryLabel(failed.id)]))
            && RetryToken(labels).None?
  {
    var repo, last := "repo:" + env.repo, RecoveryLabel(failed.id);
    var labels := RecoverySpec(env, failed, cards).labels;
    assert last[0] == 'c' && repo[2] == 'p';
    Differ("retry-for:", repo, 2); Differ("retry:", repo, 2);
    forall i | 0 <= i < |labels| ensures IsPlain(labels[i]) {
    }
    PlainGivesNoToken(labels);
  }

  lemma RecoveryLabelsRead(env: Env, failed: Card, cards: seq<Card>)
    ensures var labels := RecoverySpec(env, failed, cards).labels;
            && RetryToken(labels).None?
            && FirstValueOf(labels, "repair-for:", "repair:").None?
            && TokenNames(FirstValueOf(labels, "control-plane-recovery-for:", "control-plane-recovery:"), failed.id)
  {
    hide RecoverySpec;
    hide RetryToken;
    hide StageOfLabels;
    var repo, last := "repo:" + env.repo, RecoveryLabel(failed.id);
    var stage := "stage:control_plane_action";
    RecoveryLabelsShape(env, failed, cards);
    assert last[0] == 'c' && repo[3] == 'o' && repo[0] == 'r';
    Differ("repair-for:", repo, 3); Differ("repair:", repo, 3);
    SkipsToLast("repair-for:", "repair:", repo, stage, last);
    SkipsToLast("control-plane-recovery-for:", "control-plane-recovery:", repo, stage, last);
    RecoveryLabelShape(failed.id);
    assert [last][1..] == [];
  }

  lemma SkipsToLast(p: string, p': string, repo: string, stage: string, last: string)
    requires !(p <= "make_it_so") && !(p' <= "make_it_so") && !(p <= repo) && !(p' <= repo)
    requires !(p <= stage) && !(p' <= stage)
    ensures FirstValueOf(["make_it_so"] + ([repo] + ([stage] + [last])), p, p') == FirstValueOf([last], p, p')
  {
    FirstValueOfSkips(stage, [last], p, p');
    FirstValueOfSkips(repo, [stage] + [last], p, p');
    FirstValueOfSkips("make_it_so", [repo] + ([stage] + [last]), p, p');
  }

  lemma RecoveryLabelShape(id: CardId)
    ensures var last := RecoveryLabel(id);
            || ("control-plane-recovery-for:" <= last && last[27..] <= id)
            || (!("control-plane-recovery-for:" <= last) && "control-plane-recovery:" <= last && last[23..] <= id)
  {
    var last := RecoveryLabel(id);
    if |"control-plane-recovery-for:" + id| > LABEL_LIMIT {
      assert last == "control-plane-recovery:" + Take(id, 17);
      assert last[22] == ':';
      assert "control-plane-recovery-for:"[22] == '-';
    }
  }
}
