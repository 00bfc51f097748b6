/**
 The questions that a reconcile pass asks about proof, as the loops that answer them.

 Each stops at the first answer, and raises when the proof check of a card that it consults raises.  The
 functions `…Consults` list the cards consulted; the methods are proved to raise exactly when one of those
 cards does, and to give the specified answer otherwise.
 */
module Inspections {
  import opened Wrappers
  import opened Cards
  import opened ProofErrors
  import opened CardBoard
  import opened RetryChain
  import opened Reconcile

  // ---------------------------------------------------------------- proof of a retry

  /** The retry descendants of a card whose proof is checked: up to the first valid one. */
  function DescendantConsults(env: Env, cards: seq<Card>, source: CardId, from: nat): seq<Card>
    requires from <= |cards|
    decreases |cards| - from
  {
    if from == |cards| then []
    else if !Descends(TagsOf(cards), TagOf(cards[from]), source) then
      DescendantConsults(env, cards, source, from + 1)
    else
      [cards[from]] + (if HasValidProof(env.policy, cards[from]) then []
                       else DescendantConsults(env, cards, source, from + 1))
  }

  /** `_retry_with_passed_completion`, and the card that it finds. */
  method FindProven(env: Env, cards: seq<Card>, source: CardId) returns (r: Result<Option<nat>, ProofError>)
    ensures r == Verdict(env.policy, DescendantConsults(env, cards, source, 0), FirstProven(env, cards, source, 0))
  {
    hide HasValidProof;
    hide ProofRaises;
    hide Descends;
    hide TagsOf;
    for i := 0 to |cards|
      invariant FirstProven(env, cards, source, i) == FirstProven(env, cards, source, 0)
      invariant AnyRaises(env.policy, DescendantConsults(env, cards, source, i))
        == AnyRaises(env.policy, DescendantConsults(env, cards, source, 0))
    {
      var descends := IsRetryDescendant(cards[i], source, cards);
      if descends {
        ghost var rest := if HasValidProof(env.policy, cards[i]) then []
                          else DescendantConsults(env, cards, source, i + 1);
        AnyRaisesConcat(env.policy, [cards[i]], rest);
        var valid := CheckProof(env.policy, cards[i]);
        if valid.Err? {
          return Err(valid.error);
        }
        if valid.value {
          return Ok(Some(i));
        }
      }
    }
    r := Ok(None);
  }

  // ---------------------------------------------------------------- settled targets

  function SettledConsults(env: Env, target: Card, cards: seq<Card>): seq<Card> {
    if target.status != Done then []
    else [target] + (if HasValidProof(env.policy, target) then [] else DescendantConsults(env, cards, target.id, 0))
  }

  /** The common end of `_repair_is_obsolete` and `_control_recovery_is_obsolete`. */
  method CheckSettled(env: Env, target: Card, cards: seq<Card>) returns (r: Result<bool, ProofError>)
    ensures r == Verdict(env.policy, SettledConsults(env, target, cards), TargetIsSettled(env, target, cards))
  {
    hide HasValidProof;
    hide ProofRaises;
    if target.status != Done {
      return Ok(target.status == Blocked && IsCancelled(target));
    }
    ghost var rest := if HasValidProof(env.policy, target) then [] else DescendantConsults(env, cards, target.id, 0);
    AnyRaisesConcat(env.policy, [target], rest);
    var valid := CheckProof(env.policy, target);
    if valid.Err? || valid.value {
      return valid;
    }
    var retry := FindProven(env, cards, target.id);
    if retry.Err? {
      return Err(retry.error);
    }
    r := Ok(retry.value.Some?);
  }

  function RepairTargetConsults(env: Env, card: Card, cards: seq<Card>): seq<Card> {
    match NamedCard(cards, RepairToken(card))
    case None => []
    case Some(target) => SettledConsults(env, target, cards)
  }

  /** `_repair_is_obsolete`. */
  method CheckRepairObsolete(env: Env, card: Card, cards: seq<Card>) returns (r: Result<bool, ProofError>)
    ensures r == Verdict(env.policy, RepairTargetConsults(env, card, cards), RepairIsObsolete(env, card, cards))
  {
    var target := NamedCard(cards, RepairToken(card));
    if target.None? {
      return Ok(false);
    }
    r := CheckSettled(env, target.value, cards);
  }

  // ---------------------------------------------------------------- the final review of a merge

  /** A DONE final review of the merge card's workflow. */
  predicate IsCandidate(card: Card, c: Card) {
    && c.status == Done && CardStage(c) == Some(FinalReview)
    && (WorkflowLabel(card).None? || WorkflowLabel(c) == WorkflowLabel(card))
  }

  /** The finished final reviews, all of which are checked. */
  function MergeConsults(card: Card, cards: seq<Card>, n: nat): seq<Card>
    requires n <= |cards|
  {
    if n == 0 then []
    else MergeConsults(card, cards, n - 1) + (if IsCandidate(card, cards[n - 1]) then [cards[n - 1]] else [])
  }

  /** A candidate with proof that stands for a parent of the merge card. */
  predicate IsPredecessor(env: Env, card: Card, cards: seq<Card>, c: Card) {
    && IsCandidate(card, c) && HasValidProof(env.policy, c)
    && (card.metadata.links == [] || exists p | p in card.metadata.links :: StandsFor(cards, c, p))
  }

  /** `_has_valid_merge_predecessor`. */
  method CheckMergePredecessor(env: Env, card: Card, cards: seq<Card>) returns (r: Result<bool, ProofError>)
    ensures r == Verdict(env.policy, MergeConsults(card, cards, |cards|), HasValidMergePredecessor(env, card, cards))
  {
    hide HasValidProof;
    hide ProofRaises;
    hide StandsFor;
    hide IsCandidate;
    var found := false;
    for i := 0 to |cards|
      invariant !AnyRaises(env.policy, MergeConsults(card, cards, i))
      invariant found <==> exists k :: 0 <= k < i && IsPredecessor(env, card, cards, cards[k])
    {
      AnyRaisesConcat(env.policy, MergeConsults(card, cards, i), [cards[i]]);
      if IsCandidate(card, cards[i]) {
        var valid := CheckProof(env.policy, cards[i]);
        if valid.Err? {
          RaisesLater(env.policy, card, cards, i + 1, |cards|);
          return Err(valid.error);
        }
        found := found || (valid.value && (card.metadata.links == []
                             || exists p | p in card.metadata.links :: StandsFor(cards, cards[i], p)));
      }
    }
    PredecessorExists(env, card, cards);
    r := Ok(found);
  }

  lemma PredecessorExists(env: Env, card: Card, cards: seq<Card>)
    ensures HasValidMergePredecessor(env, card, cards)
       <==> exists k :: 0 <= k < |cards| && IsPredecessor(env, card, cards, cards[k])
  {
    hide HasValidProof;
    hide StandsFor;
    if HasValidMergePredecessor(env, card, cards) {
      var c :| c in cards && IsPredecessor(env, card, cards, c);
      var k :| 0 <= k < |cards| && cards[k] == c;
    }
    if k :| 0 <= k < |cards| && IsPredecessor(env, card, cards, cards[k]) {
      assert cards[k] in cards;
    }
  }

  lemma {:induction false} RaisesLater(policy: CompletionPolicy, card: Card, cards: seq<Card>, m: nat, n: nat)
    requires m <= n <= |cards| && AnyRaises(policy, MergeConsults(card, cards, m))
    ensures AnyRaises(policy, MergeConsults(card, cards, n))
    decreases n
  {
    hide AnyRaises;
    hide IsCandidate;
    if m < n {
      RaisesLater(policy, card, cards, m, n - 1);
      AnyRaisesConcat(policy, MergeConsults(card, cards, n - 1),
                      if IsCandidate(card, cards[n - 1]) then [cards[n - 1]] else []);
    }
  }

  function RecoveryConsults(env: Env, card: Card, cards: seq<Card>): seq<Card> {
    match NamedCard(cards, RecoveryToken(card))
    case None => []
    case Some(target) =>
      if CardStage(target) == Some(Merge) then MergeConsults(target, cards, |cards|)
      else SettledConsults(env, target, cards)
  }

  /** `_control_recovery_is_obsolete`. */
  method CheckRecoveryObsolete(env: Env, card: Card, cards: seq<Card>) returns (r: Result<bool, ProofError>)
    ensures r == Verdict(env.policy, RecoveryConsults(env, card, cards), RecoveryIsObsolete(env, card, cards))
  {
    var target := NamedCard(cards, RecoveryToken(card));
    if target.None? {
      return Ok(false);
    }
    if CardStage(target.value) == Some(Merge) {
      r := CheckMergePredecessor(env, target.value, cards);
    } else {
      r := CheckSettled(env, target.value, cards);
    }
  }

  // ---------------------------------------------------------------- completions

  /** `_has_valid_completion`: the proof, then the live gate. */
  method CheckCompletion(env: Env, card: Card) returns (r: Result<bool, ProofError>)
    ensures r == Verdict(env.policy, [card], HasValidCompletion(env, card))
  {
    var valid := CheckProof(env.policy, card);
    if valid.Err? || !valid.value {
      return valid;
    }
    if !NeedsLiveGate(card) {
      return Ok(true);
    }
    match env.validator {
      case NoValidator(required) => r := Ok(!required);
      case Live(accepts) => r := Ok(card.id in accepts);
    }
  }

  predicate IsParentEvidence(env: Env, cards: seq<Card>, parent: CardId, c: Card) {
    c.status == Done && HasValidCompletion(env, c) && StandsFor(cards, c, parent)
  }

  /** The DONE cards whose completion is checked for one parent: up to the first that stands for it. */
  function ParentConsults(env: Env, cards: seq<Card>, parent: CardId, from: nat): seq<Card>
    requires from <= |cards|
    decreases |cards| - from
  {
    if from == |cards| then []
    else if cards[from].status != Done then ParentConsults(env, cards, parent, from + 1)
    else
      [cards[from]] + (if IsParentEvidence(env, cards, parent, cards[from]) then []
                       else ParentConsults(env, cards, parent, from + 1))
  }

  predicate HasParentEvidence(env: Env, cards: seq<Card>, parent: CardId) {
    exists c | c in cards :: IsParentEvidence(env, cards, parent, c)
  }

  method CheckParent(env: Env, cards: seq<Card>, parent: CardId) returns (r: Result<bool, ProofError>)
    ensures r == Verdict(env.policy, ParentConsults(env, cards, parent, 0), HasParentEvidence(env, cards, parent))
  {
    hide HasValidCompletion;
    hide ProofRaises;
    hide StandsFor;
    for i := 0 to |cards|
      invariant forall k :: 0 <= k < i ==> !IsParentEvidence(env, cards, parent, cards[k])
      invariant AnyRaises(env.policy, ParentConsults(env, cards, parent, i))
        == AnyRaises(env.policy, ParentConsults(env, cards, parent, 0))
    {
      if cards[i].status == Done {
        ghost var rest := if IsParentEvidence(env, cards, parent, cards[i]) then []
                          else ParentConsults(env, cards, parent, i + 1);
        AnyRaisesConcat(env.policy, [cards[i]], rest);
        var complete := CheckCompletion(env, cards[i]);
        if complete.Err? {
          return Err(complete.error);
        }
        if complete.value && StandsFor(cards, cards[i], parent) {
          assert cards[i] in cards;
          return Ok(true);
        }
      }
    }
    r := Ok(false);
  }

  /** The cards consulted for the parents of a card, up to the first parent without evidence. */
  function PredecessorConsults(env: Env, card: Card, cards: seq<Card>, from: nat): seq<Card>
    requires from <= |card.metadata.links|
    decreases |card.metadata.links| - from
  {
    if from == |card.metadata.links| then []
    else
      ParentConsults(env, cards, card.metadata.links[from], 0)
      + (if HasParentEvidence(env, cards, card.metadata.links[from]) then
           PredecessorConsults(env, card, cards, from + 1)
         else [])
  }

  lemma PredecessorsByIndex(env: Env, card: Card, cards: seq<Card>)
    ensures HasValidPredecessors(env, card, cards)
       <==> card.metadata.links != []
            && forall k :: 0 <= k < |card.metadata.links| ==> HasParentEvidence(env, cards, card.metadata.links[k])
  {
    hide HasValidCompletion;
    hide StandsFor;
    var links := card.metadata.links;
    if links != [] && forall k :: 0 <= k < |links| ==> HasParentEvidence(env, cards, links[k]) {
      forall p | p in links
        ensures exists c | c in cards :: c.status == Done && HasValidCompletion(env, c) && StandsFor(cards, c, p)
      {
        assert HasParentEvidence(env, cards, p);
        var c :| c in cards && IsParentEvidence(env, cards, p, c);
      }
    }
    if HasValidPredecessors(env, card, cards) {
      forall k | 0 <= k < |links| ensures HasParentEvidence(env, cards, links[k]) {
        assert links[k] in links;
        var c :| c in cards && c.status == Done && HasValidCompletion(env, c) && StandsFor(cards, c, links[k]);
        assert IsParentEvidence(env, cards, links[k], c);
      }
    }
  }

  /** `_has_valid_predecessors`. */
  method CheckPredecessors(env: Env, card: Card, cards: seq<Card>) returns (r: Result<bool, ProofError>)
    ensures r == Verdict(env.policy, PredecessorConsults(env, card, cards, 0), HasValidPredecessors(env, card, cards))
  {
    hide HasParentEvidence;
    hide HasValidPredecessors;
    hide ParentConsults;
    hide ProofRaises;
    PredecessorsByIndex(env, card, cards);
    var links := card.metadata.links;
    if links == [] {
      return Ok(false);
    }
    for k := 0 to |links|
      invariant forall j :: 0 <= j < k ==> HasParentEvidence(env, cards, links[j])
      invariant AnyRaises(env.policy, PredecessorConsults(env, card, cards, k))
        == AnyRaises(env.policy, PredecessorConsults(env, card, cards, 0))
    {
      ghost var rest := if HasParentEvidence(env, cards, links[k]) then PredecessorConsults(env, card, cards, k + 1)
                        else [];
      AnyRaisesConcat(env.policy, ParentConsults(env, cards, links[k], 0), rest);
      var found := CheckParent(env, cards, links[k]);
      if found.Err? || !found.value {
        return found;
      }
    }
    r := Ok(true);
  }

  /** The DONE repairs whose completion is checked: up to the first valid one. */
  function RepairConsults(env: Env, repairs: seq<Card>, from: nat): seq<Card>
    requires from <= |repairs|
    decreases |repairs| - from
  {
    if from == |repairs| then []
    else if repairs[from].status != Done then RepairConsults(env, repairs, from + 1)
    else
      [repairs[from]] + (if HasValidCompletion(env, repairs[from]) then []
                         else RepairConsults(env, repairs, from + 1))
  }

  predicate HasFinishedRepair(env: Env, repairs: seq<Card>) {
    exists r | r in repairs :: r.status == Done && HasValidCompletion(env, r)
  }

  method CheckRepairs(env: Env, repairs: seq<Card>) returns (r: Result<bool, ProofError>)
    ensures r == Verdict(env.policy, RepairConsults(env, repairs, 0), HasFinishedRepair(env, repairs))
  {
    hide HasValidCompletion;
    hide ProofRaises;
    for i := 0 to |repairs|
      invariant forall k :: 0 <= k < i ==> !(repairs[k].status == Done && HasValidCompletion(env, repairs[k]))
      invariant AnyRaises(env.policy, RepairConsults(env, repairs, i))
        == AnyRaises(env.policy, RepairConsults(env, repairs, 0))
    {
      if repairs[i].status == Done {
        ghost var rest := if HasValidCompletion(env, repairs[i]) then [] else RepairConsults(env, repairs, i + 1);
        AnyRaisesConcat(env.policy, [repairs[i]], rest);
        var complete := CheckCompletion(env, repairs[i]);
        if complete.Err? {
          return Err(complete.error);
        }
        if complete.value {
          assert repairs[i] in repairs;
          return Ok(true);
        }
      }
    }
    r := Ok(false);
  }
}
