/** Token accounting: what a group counts, totals by model, and the dispatch budget. */
module Usage {
  import opened Wrappers
  import opened Text

  /** A usage group; absent and unusable numbers are `None`. */
  datatype Group = Group(
    model: string, provider: string, runtime: string,
    total: Option<nat>, input: Option<nat>, output: Option<nat>)

  function OrZero(n: Option<nat>): nat {
    if n.Some? then n.value else 0
  }

  /** `_accounted_tokens`: a provider total if there is one, else the known components. */
  function Accounted(g: Group): nat {
    if g.total.Some? then g.total.value else OrZero(g.input) + OrZero(g.output)
  }

  /** `_qualified_model`. */
  function QualifiedModel(g: Group): string {
    var model := if g.model == "" then "unknown" else g.model;
    if Contains(model, "/") then model
    else if Strip(g.provider) != "" then Strip(g.provider) + "/" + model
    else if Lower(Strip(g.runtime)) == "codex" then "codex/" + model
    else model
  }

  /** A total stands for the whole group, whatever the parts say; without one the known parts add up, and a group
      that knows nothing counts for nothing. */
  lemma AccountedCases(g: Group, total: nat, input: nat, output: nat)
    ensures Accounted(g.(total := Some(total))) == total
    ensures Accounted(g.(total := None, input := Some(input), output := Some(output))) == input + output
    ensures Accounted(g.(total := None, input := Some(input), output := None)) == input
    ensures Accounted(g.(total := None, input := None, output := Some(output))) == output
    ensures Accounted(g.(total := None, input := None, output := None)) == 0
  {
  }

  lemma SlashIsThere(left: string, right: string)
    ensures Contains(left + "/" + right, "/")
  {
    assert OccursAt(left + "/" + right, "/", |left|);
  }

  /** A model that names its provider is kept; any other is put under its provider, or under "codex" if only the
      runtime says so.  What has been qualified once is not qualified again. */
  lemma QualifiedOnce(g: Group, model: string)
    requires model == (if |g.model| == 0 then "unknown" else g.model)
    ensures Contains(model, "/") ==> QualifiedModel(g) == model
    ensures !Contains(model, "/") && |Strip(g.provider)| > 0 ==> QualifiedModel(g) == Strip(g.provider) + "/" + model
    ensures !Contains(model, "/") && |Strip(g.provider)| == 0 ==>
      QualifiedModel(g) == (if Lower(Strip(g.runtime)) == "codex" then "codex" + "/" else "") + model
    ensures QualifiedModel(g.(model := QualifiedModel(g))) == QualifiedModel(g)
  {
    hide Strip;
    hide Lower;
    SlashIsThere(Strip(g.provider), model);
    SlashIsThere("codex", model);
    assert "codex/" == "codex" + "/";
    assert QualifiedModel(g) != "";
    if !Contains(model, "/") && Strip(g.provider) == "" && Lower(Strip(g.runtime)) != "codex" {
      assert QualifiedModel(g) == model;
    }
  }

  lemma SlashInside(left: string, right: string, left': string, right': string)
    requires left + "/" + right == left' + "/" + right' && |left| < |left'|
    ensures Contains(left', "/")
  {
    assert (left + "/" + right)[|left|] == '/';
    assert left'[|left|] == '/';
    assert OccursAt(left', "/", |left|);
  }

  lemma FirstSlash(left: string, right: string, left': string, right': string)
    requires left + "/" + right == left' + "/" + right' && !Contains(left, "/") && !Contains(left', "/")
    ensures left == left' && right == right'
  {
    hide Contains;
    var text := left + "/" + right;
    if |left| < |left'| {
      SlashInside(left, right, left', right');
    } else if |left'| < |left| {
      SlashInside(left', right', left, right);
    }
    assert text[..|left|] == left && text[|left| + 1..] == right;
    assert text[..|left'|] == left' && text[|left'| + 1..] == right';
  }

  /** Plain models of named providers share an entry exactly if provider and model are the same. */
  lemma ProvidersStayApart(g: Group, h: Group)
    requires g.model != "" && h.model != "" && !Contains(g.model, "/") && !Contains(h.model, "/")
    requires Strip(g.provider) != "" && Strip(h.provider) != ""
    requires !Contains(Strip(g.provider), "/") && !Contains(Strip(h.provider), "/")
    ensures QualifiedModel(g) == QualifiedModel(h) <==> Strip(g.provider) == Strip(h.provider) && g.model == h.model
  {
    hide Strip;
    if QualifiedModel(g) == QualifiedModel(h) {
      FirstSlash(Strip(g.provider), g.model, Strip(h.provider), h.model);
    }
  }

  /** The accounted tokens of the groups whose model satisfies a condition. */
  ghost function SumWhere(groups: seq<Group>, test: string -> bool): nat {
    if groups == [] then 0
    else
      var last := groups[|groups| - 1];
      SumWhere(groups[..|groups| - 1], test) + (if test(QualifiedModel(last)) then Accounted(last) else 0)
  }

  ghost predicate AnyModel(model: string) {
    true
  }

  // ---------------------------------------------------------------- totals by model

  /** One entry of the totals, which a dictionary keeps in order of insertion. */
  datatype Entry = Entry(model: string, tokens: nat)

  function AddTo(entries: seq<Entry>, model: string, tokens: nat): seq<Entry> {
    if entries == [] then [Entry(model, tokens)]
    else if entries[0].model == model then [Entry(model, entries[0].tokens + tokens)] + entries[1..]
    else [entries[0]] + AddTo(entries[1..], model, tokens)
  }

  function EntrySum(entries: seq<Entry>, test: string -> bool): nat {
    if entries == [] then 0
    else (if test(entries[0].model) then entries[0].tokens else 0) + EntrySum(entries[1..], test)
  }

  lemma {:induction false} AddToAdds(entries: seq<Entry>, model: string, tokens: nat, test: string -> bool)
    ensures EntrySum(AddTo(entries, model, tokens), test)
         == EntrySum(entries, test) + (if test(model) then tokens else 0)
  {
    if entries != [] && entries[0].model != model {
      AddToAdds(entries[1..], model, tokens, test);
      assert ([entries[0]] + AddTo(entries[1..], model, tokens))[1..] == AddTo(entries[1..], model, tokens);
    } else if entries != [] {
      assert ([Entry(model, entries[0].tokens + tokens)] + entries[1..])[1..] == entries[1..];
    }
  }

  ghost predicate DistinctModels(entries: seq<Entry>) {
    forall i, j :: 0 <= i < j < |entries| ==> entries[i].model != entries[j].model
  }

  lemma {:induction false} AddToKeepsDistinct(entries: seq<Entry>, model: string, tokens: nat)
    requires DistinctModels(entries)
    ensures DistinctModels(AddTo(entries, model, tokens))
    ensures forall e :: e in AddTo(entries, model, tokens) ==>
      e.model == model || exists x :: x in entries && x.model == e.model
  {
    if entries != [] && entries[0].model != model {
      var rest := AddTo(entries[1..], model, tokens);
      AddToKeepsDistinct(entries[1..], model, tokens);
      forall k | 0 <= k < |rest| ensures rest[k].model != entries[0].model {
        assert rest[k] in rest;
        if rest[k].model != model {
          var x :| x in entries[1..] && x.model == rest[k].model;
        }
      }
    }
  }

  ghost predicate AgreesAt(entries: seq<Entry>, groups: seq<Group>, test: string -> bool) {
    EntrySum(entries, test) == SumWhere(groups, test)
  }

  /** `_model_totals`: one entry per model, and nothing is lost or counted twice: for every selection of
      models the entries add up to the accounted tokens of the groups. */
  method ModelTotals(groups: seq<Group>) returns (entries: seq<Entry>)
    ensures DistinctModels(entries)
    ensures forall test: string -> bool :: AgreesAt(entries, groups, test)
  {
    entries := [];
    for i := 0 to |groups|
      invariant DistinctModels(entries)
      invariant forall test: string -> bool :: AgreesAt(entries, groups[..i], test)
    {
      assert groups[..i + 1][..i] == groups[..i];
      ghost var before := entries;
      entries := AddTo(entries, QualifiedModel(groups[i]), Accounted(groups[i]));
      AddToKeepsDistinct(before, QualifiedModel(groups[i]), Accounted(groups[i]));
      ghost var counted := groups[..i + 1];
      forall test: string -> bool ensures AgreesAt(entries, counted, test) {
        assert AgreesAt(before, groups[..i], test);
        AddToAdds(before, QualifiedModel(groups[i]), Accounted(groups[i]), test);
      }
    }
    assert groups[..|groups|] == groups;
  }

  // ---------------------------------------------------------------- the budget

  datatype Limit = Limit(model: string, tokens: nat)

  datatype Config = Config(daily: Option<nat>, limits: seq<Limit>, blockOnUnknown: bool)

  /** The summary: aggregates of both sources, and their groups. */
  datatype Summary = Summary(
    direct: Group, external: Group, unknown: nat,
    directGroups: seq<Group>, attemptGroups: seq<Group>, externalGroups: seq<Group>)

  function GroupsInUse(s: Summary): seq<Group> {
    (if s.attemptGroups != [] then s.attemptGroups else s.directGroups) + s.externalGroups
  }

  function SumAll(groups: seq<Group>): nat {
    if groups == [] then 0 else SumAll(groups[..|groups| - 1]) + Accounted(groups[|groups| - 1])
  }

  /** The accounted total of `_token_totals`: the groups if there are any, else the aggregates. */
  function TotalTokens(s: Summary): nat {
    if GroupsInUse(s) != [] then SumAll(GroupsInUse(s)) else Accounted(s.direct) + Accounted(s.external)
  }

  /** The entries of all models add up to the overall total. */
  lemma ModelTotalsConserve(s: Summary, entries: seq<Entry>)
    requires GroupsInUse(s) != [] && AgreesAt(entries, GroupsInUse(s), AnyModel)
    ensures EntrySum(entries, AnyModel) == TotalTokens(s)
  {
    SumAllIsSum(GroupsInUse(s));
  }

  lemma {:induction false} SumAllIsSum(groups: seq<Group>)
    ensures SumAll(groups) == SumWhere(groups, AnyModel)
  {
    if groups != [] {
      SumAllIsSum(groups[..|groups| - 1]);
    }
  }

  ghost predicate IsReached(groups: seq<Group>, limit: Limit, matches: (string, string) -> bool) {
    SumWhere(groups, (model: string) => matches(model, limit.model)) >= limit.tokens
  }

  /** When `dispatch_budget` allows new work. */
  ghost predicate IsWithinBudget(s: Summary, config: Config, matches: (string, string) -> bool) {
    && !(config.blockOnUnknown && s.unknown > 0)
    && (forall k :: 0 <= k < |config.limits| ==> !IsReached(GroupsInUse(s), config.limits[k], matches))
    && (config.daily.Some? ==> TotalTokens(s) < config.daily.value)
  }

  /** `dispatch_budget`, its decision. */
  method DispatchBudget(s: Summary, config: Config, matches: (string, string) -> bool) returns (allowed: bool)
    ensures allowed == IsWithinBudget(s, config, matches)
  {
    if config.blockOnUnknown && s.unknown > 0 {
      return false;
    }
    var entries := ModelTotals(GroupsInUse(s));
    var exceeded: seq<string> := [];
    for i := 0 to |config.limits|
      invariant exceeded == [] <==> forall k :: 0 <= k < i ==> !IsReached(GroupsInUse(s), config.limits[k], matches)
    {
      var limit := config.limits[i];
      var test := (model: string) => matches(model, limit.model);
      assert AgreesAt(entries, GroupsInUse(s), test);
      var consumed := EntrySum(entries, test);
      if consumed >= limit.tokens {
        exceeded := exceeded + [limit.model];
      }
    }
    if exceeded != [] {
      return false;
    }
    if config.daily.Some? && TotalTokens(s) >= config.daily.value {
      return false;
    }
    allowed := true;
  }

  // ---------------------------------------------------------------- more usage never lifts a refusal

  lemma {:induction false} SumGrows(groups: seq<Group>, more: seq<Group>, test: string -> bool)
    ensures SumWhere(groups, test) <= SumWhere(groups + more, test)
  {
    if more == [] {
      assert groups + more == groups;
    } else {
      assert (groups + more)[..|groups + more| - 1] == groups + more[..|more| - 1];
      SumGrows(groups, more[..|more| - 1], test);
    }
  }

  /** The order of groups does not matter for a sum, nor where more of them are inserted. */
  lemma {:induction false} SumConcat(xs: seq<Group>, ys: seq<Group>, test: string -> bool)
    ensures SumWhere(xs + ys, test) == SumWhere(xs, test) + SumWhere(ys, test)
  {
    if ys == [] {
      assert xs + ys == xs;
    } else {
      assert (xs + ys)[..|xs + ys| - 1] == xs + ys[..|ys| - 1];
      SumConcat(xs, ys[..|ys| - 1], test);
    }
  }

  /** A summary with more attempt groups, more external groups and no fewer unknown records. */
  ghost predicate Extends(s: Summary, s': Summary) {
    && s.attemptGroups <= s'.attemptGroups && s.externalGroups <= s'.externalGroups
    && s.directGroups <= s'.directGroups && s.unknown <= s'.unknown
  }

  lemma PrefixSum(xs: seq<Group>, ys: seq<Group>, test: string -> bool)
    requires xs <= ys
    ensures SumWhere(xs, test) <= SumWhere(ys, test)
  {
    assert ys == xs + ys[|xs|..];
    SumGrows(xs, ys[|xs|..], test);
  }

  lemma InUseGrows(s: Summary, s': Summary, test: string -> bool)
    requires Extends(s, s') && (s.attemptGroups == [] <==> s'.attemptGroups == [])
    ensures SumWhere(GroupsInUse(s), test) <= SumWhere(GroupsInUse(s'), test)
  {
    PrefixSum(s.attemptGroups, s'.attemptGroups, test);
    PrefixSum(s.directGroups, s'.directGroups, test);
    PrefixSum(s.externalGroups, s'.externalGroups, test);
    if s.attemptGroups != [] {
      SumConcat(s.attemptGroups, s.externalGroups, test);
      SumConcat(s'.attemptGroups, s'.externalGroups, test);
    } else {
      SumConcat(s.directGroups, s.externalGroups, test);
      SumConcat(s'.directGroups, s'.externalGroups, test);
    }
  }

  /** Appending groups to the lists in use never turns a refused dispatch into an allowed one. */
  lemma RefusalIsKept(s: Summary, s': Summary, config: Config, matches: (string, string) -> bool)
    requires Extends(s, s') && (s.attemptGroups == [] <==> s'.attemptGroups == []) && GroupsInUse(s) != []
    requires !IsWithinBudget(s, config, matches)
    ensures !IsWithinBudget(s', config, matches)
  {
    InUseGrows(s, s', AnyModel);
    SumAllIsSum(GroupsInUse(s));
    SumAllIsSum(GroupsInUse(s'));
    if !(config.blockOnUnknown && s.unknown > 0) {
      if k :| 0 <= k < |config.limits| && IsReached(GroupsInUse(s), config.limits[k], matches) {
        InUseGrows(s, s', (model: string) => matches(model, config.limits[k].model));
        assert IsReached(GroupsInUse(s'), config.limits[k], matches);
      }
    }
  }

  // ---------------------------------------------------------------- exactly when a refusal is kept

  /** Under every configuration and model matching, what is refused for `s` is refused for `s'`. */
  ghost predicate KeepsRefusals(s: Summary, s': Summary) {
    forall config, matches | !IsWithinBudget(s, config, matches) :: !IsWithinBudget(s', config, matches)
  }

  ghost predicate CountsNoLess(s: Summary, s': Summary, test: string -> bool) {
    SumWhere(GroupsInUse(s), test) <= SumWhere(GroupsInUse(s'), test)
  }

  /** No selection of models, no total and no gap in the telemetry has become smaller. */
  ghost predicate NothingShrinks(s: Summary, s': Summary) {
    && (s.unknown > 0 ==> s'.unknown > 0)
    && TotalTokens(s) <= TotalTokens(s')
    && forall test: string -> bool :: CountsNoLess(s, s', test)
  }

  lemma {:induction false} SameTestSameSum(groups: seq<Group>, test: string -> bool, test': string -> bool)
    requires forall model :: test(model) == test'(model)
    ensures SumWhere(groups, test) == SumWhere(groups, test')
  {
    if groups != [] {
      SameTestSameSum(groups[..|groups| - 1], test, test');
    }
  }

  /** A limit for the models of one test, set to what `s` has used, is reached by `s` and so by `s'`. */
  lemma RefusalsCountModels(s: Summary, s': Summary, test: string -> bool)
    requires KeepsRefusals(s, s')
    ensures CountsNoLess(s, s', test)
  {
    var limit := Limit("m", SumWhere(GroupsInUse(s), test));
    var config := Config(None, [limit], false);
    var matches := (model: string, name: string) => test(model);
    var matched := (model: string) => matches(model, limit.model);
    SameTestSameSum(GroupsInUse(s), test, matched);
    SameTestSameSum(GroupsInUse(s'), test, matched);
    assert IsReached(GroupsInUse(s), config.limits[0], matches);
    assert !IsWithinBudget(s, config, matches);
    assert !IsWithinBudget(s', config, matches);
  }

  lemma RefusalsNeedAll(s: Summary, s': Summary)
    requires KeepsRefusals(s, s')
    ensures NothingShrinks(s, s')
  {
    var matches := (model: string, name: string) => false;
    var telemetry, daily := Config(None, [], true), Config(Some(TotalTokens(s)), [], false);
    assert s.unknown > 0 ==> !IsWithinBudget(s, telemetry, matches);
    assert !IsWithinBudget(s, daily, matches);
    assert !IsWithinBudget(s', daily, matches);
    forall test: string -> bool ensures CountsNoLess(s, s', test) {
      RefusalsCountModels(s, s', test);
    }
  }

  lemma NothingLostKeepsRefusal(s: Summary, s': Summary, config: Config, matches: (string, string) -> bool)
    requires NothingShrinks(s, s') && !IsWithinBudget(s, config, matches)
    ensures !IsWithinBudget(s', config, matches)
  {
    if k :| 0 <= k < |config.limits| && IsReached(GroupsInUse(s), config.limits[k], matches) {
      assert CountsNoLess(s, s', (model: string) => matches(model, config.limits[k].model));
      assert IsReached(GroupsInUse(s'), config.limits[k], matches);
    }
  }

  /** A refusal survives a change of the summary, whatever is configured, exactly when no count behind a
      decision has become smaller. */
  lemma RefusalIsKeptIff(s: Summary, s': Summary)
    ensures KeepsRefusals(s, s') <==> NothingShrinks(s, s')
  {
    if KeepsRefusals(s, s') {
      RefusalsNeedAll(s, s');
    }
    if NothingShrinks(s, s') {
      forall config, matches | !IsWithinBudget(s, config, matches) ensures !IsWithinBudget(s', config, matches) {
        NothingLostKeepsRefusal(s, s', config, matches);
      }
    }
  }

  // ---------------------------------------------------------------- the first group of its kind

  /** The group accounts for all tokens of the others, and under their model. */
  ghost predicate Absorbs(groups: seq<Group>, g: Group) {
    && SumAll(groups) <= Accounted(g)
    && forall x :: x in groups && Accounted(x) > 0 ==> QualifiedModel(x) == QualifiedModel(g)
  }

  lemma OneGroup(g: Group, test: string -> bool)
    ensures SumWhere([g], test) == if test(QualifiedModel(g)) then Accounted(g) else 0
    ensures SumAll([g]) == Accounted(g)
  {
    assert [g][..0] == [];
  }

  lemma {:induction false} SumWithin(groups: seq<Group>, g: Group, test: string -> bool)
    requires forall x :: x in groups && Accounted(x) > 0 ==> QualifiedModel(x) == QualifiedModel(g)
    ensures SumWhere(groups, test) == if test(QualifiedModel(g)) then SumAll(groups) else 0
  {
    if groups != [] {
      assert groups[|groups| - 1] in groups;
      SumWithin(groups[..|groups| - 1], g, test);
    }
  }

  lemma {:induction false} OtherModelCounts(groups: seq<Group>, x: Group, test: string -> bool)
    requires x in groups && test(QualifiedModel(x))
    ensures SumWhere(groups, test) >= Accounted(x)
  {
    if groups[|groups| - 1] != x {
      OtherModelCounts(groups[..|groups| - 1], x, test);
    }
  }

  ghost predicate FitsIn(groups: seq<Group>, g: Group, test: string -> bool) {
    SumWhere(groups, test) <= SumWhere([g], test)
  }

  lemma AbsorbedFits(groups: seq<Group>, g: Group, test: string -> bool)
    requires Absorbs(groups, g)
    ensures FitsIn(groups, g, test)
  {
    SumWithin(groups, g, test);
    OneGroup(g, test);
  }

  lemma FittingIsAbsorbed(groups: seq<Group>, g: Group)
    requires forall test: string -> bool :: FitsIn(groups, g, test)
    ensures Absorbs(groups, g)
  {
    SumAllIsSum(groups);
    OneGroup(g, AnyModel);
    assert FitsIn(groups, g, AnyModel);
    forall x | x in groups && Accounted(x) > 0 ensures QualifiedModel(x) == QualifiedModel(g) {
      var own := (model: string) => model == QualifiedModel(x);
      OtherModelCounts(groups, x, own);
      OneGroup(g, own);
      assert FitsIn(groups, g, own);
    }
  }

  /** Some groups count no more than one group, for every selection of models, exactly when that group
      absorbs them. */
  lemma AbsorbsIff(groups: seq<Group>, g: Group)
    ensures Absorbs(groups, g) <==> forall test: string -> bool :: FitsIn(groups, g, test)
  {
    if Absorbs(groups, g) {
      forall test: string -> bool ensures FitsIn(groups, g, test) {
        AbsorbedFits(groups, g, test);
      }
    } else if forall test: string -> bool :: FitsIn(groups, g, test) {
      FittingIsAbsorbed(groups, g);
    }
  }

  lemma FirstAttemptSums(s: Summary, g: Group, test: string -> bool)
    requires s.attemptGroups == []
    ensures CountsNoLess(s, s.(attemptGroups := [g]), test) <==> FitsIn(s.directGroups, g, test)
  {
    SumConcat(s.directGroups, s.externalGroups, test);
    SumConcat([g], s.externalGroups, test);
    assert [] + s.externalGroups == s.externalGroups;
  }

  lemma FirstAttemptTotals(s: Summary, g: Group)
    requires s.attemptGroups == [] && GroupsInUse(s) != []
    ensures TotalTokens(s) == SumAll(s.directGroups) + SumAll(s.externalGroups)
    ensures TotalTokens(s.(attemptGroups := [g])) == Accounted(g) + SumAll(s.externalGroups)
  {
    SumAllIsSum(GroupsInUse(s));
    SumAllIsSum(GroupsInUse(s.(attemptGroups := [g])));
    SumAllIsSum(s.directGroups);
    SumAllIsSum(s.externalGroups);
    SumConcat(s.directGroups, s.externalGroups, AnyModel);
    SumConcat([g], s.externalGroups, AnyModel);
    OneGroup(g, AnyModel);
  }

  /** The first attempt group replaces all direct groups.  While groups are in use, recording it keeps every
      refusal exactly when it absorbs the direct groups. */
  lemma FirstAttemptKeepsRefusalIff(s: Summary, g: Group)
    requires s.attemptGroups == [] && GroupsInUse(s) != []
    ensures KeepsRefusals(s, s.(attemptGroups := [g])) <==> Absorbs(s.directGroups, g)
  {
    var s' := s.(attemptGroups := [g]);
    RefusalIsKeptIff(s, s');
    AbsorbsIff(s.directGroups, g);
    FirstAttemptTotals(s, g);
    forall test: string -> bool ensures CountsNoLess(s, s', test) <==> FitsIn(s.directGroups, g, test) {
      FirstAttemptSums(s, g, test);
    }
  }

  /** One more group in any of the three lists. */
  ghost predicate AddsOneGroup(s: Summary, s': Summary, g: Group) {
    || s' == s.(attemptGroups := s.attemptGroups + [g])
    || s' == s.(directGroups := s.directGroups + [g])
    || s' == s.(externalGroups := s.externalGroups + [g])
  }

  /** The first group of all replaces the aggregates: recording it keeps every refusal exactly when it
      accounts for at least as much as they do. */
  lemma FirstGroupKeepsRefusalIff(s: Summary, s': Summary, g: Group)
    requires s.attemptGroups == [] && s.directGroups == [] && s.externalGroups == [] && AddsOneGroup(s, s', g)
    ensures KeepsRefusals(s, s') <==> Accounted(s.direct) + Accounted(s.external) <= Accounted(g)
  {
    assert GroupsInUse(s) == [] && GroupsInUse(s') == [g];
    OneGroup(g, AnyModel);
    RefusalIsKeptIff(s, s');
    assert forall test: string -> bool :: CountsNoLess(s, s', test);
  }

  /** So the daily limit can be lifted: the direct groups reach it, and recording one attempt without tokens
      allows new work. */
  lemma FirstAttemptLiftsRefusal(s: Summary, spent: Group, idle: Group, config: Config,
                                 matches: (string, string) -> bool)
    requires s.directGroups == [spent] && s.attemptGroups == [] && s.externalGroups == [] && s.unknown == 0
    requires Accounted(idle) == 0 < Accounted(spent)
    requires config.daily == Some(Accounted(spent)) && config.limits == []
    ensures !IsWithinBudget(s, config, matches)
    ensures IsWithinBudget(s.(attemptGroups := [idle]), config, matches)
  {
    assert GroupsInUse(s) == [spent] && GroupsInUse(s.(attemptGroups := [idle])) == [idle];
    OneGroup(spent, AnyModel);
    OneGroup(idle, AnyModel);
  }

  /** And so it is by the first group of all, of any kind, when the aggregates have reached the limit. */
  lemma FirstGroupLiftsRefusal(s: Summary, s': Summary, idle: Group, config: Config, matches: (string, string) -> bool)
    requires s.attemptGroups == [] && s.directGroups == [] && s.externalGroups == [] && s.unknown == 0
    requires AddsOneGroup(s, s', idle) && Accounted(idle) == 0 < Accounted(s.direct) + Accounted(s.external)
    requires config.daily == Some(Accounted(s.direct) + Accounted(s.external)) && config.limits == []
    ensures !IsWithinBudget(s, config, matches) && IsWithinBudget(s', config, matches)
  {
    assert GroupsInUse(s) == [] && GroupsInUse(s') == [idle];
    OneGroup(idle, AnyModel);
  }
}
