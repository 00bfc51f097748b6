/** What the reconciler reads in a card and its neighbours, spelled out. */
module CardReaders {
  import opened Wrappers
  import opened Text
  import opened Cards
  import opened CardBoard
  import opened RetryChain
  import opened Reconcile

  // ---------------------------------------------------------------- labels

  /** The first label with the prefix, and what follows it. */
  ghost predicate IsFirstValue(labels: seq<string>, p: string, value: string) {
    exists i :: 0 <= i < |labels| && labels[i] == p + value && forall k :: 0 <= k < i ==> !(p <= labels[k])
  }

  lemma {:induction false} FirstValueIff(labels: seq<string>, p: string, value: string)
    ensures FirstValue(labels, p) == Some(value) <==> IsFirstValue(labels, p, value)
  {
    if labels != [] {
      var first, rest := labels[0], labels[1..];
      FirstValueIff(rest, p, value);
      if p <= first {
        assert first == p + first[|p|..];
        assert p + value == first ==> value == first[|p|..];
      } else {
        assert IsFirstValue(labels, p, value) <==> IsFirstValue(rest, p, value) by {
          FirstValueLater(labels, p, value);
        }
      }
    }
  }

  lemma FirstValueLater(labels: seq<string>, p: string, value: string)
    requires labels != [] && !(p <= labels[0])
    ensures IsFirstValue(labels, p, value) <==> IsFirstValue(labels[1..], p, value)
  {
    var rest := labels[1..];
    if IsFirstValue(labels, p, value) {
      var i :| 0 <= i < |labels| && labels[i] == p + value && forall k :: 0 <= k < i ==> !(p <= labels[k]);
      assert i > 0 && rest[i - 1] == p + value;
    }
    if IsFirstValue(rest, p, value) {
      var i :| 0 <= i < |rest| && rest[i] == p + value && forall k :: 0 <= k < i ==> !(p <= rest[k]);
      assert labels[i + 1] == p + value;
      forall k | 0 <= k < i + 1 ensures !(p <= labels[k]) {
        assert k > 0 ==> labels[k] == rest[k - 1];
      }
    }
  }

  predicate IsRetryText(text: string) {
    "retry-for:" <= text || "retry:" <= text
  }

  /** The last label that names a retried card, and the name. */
  ghost predicate IsLastRetry(labels: seq<string>, token: string) {
    exists i :: 0 <= i < |labels| && labels[i] in {"retry-for:" + token, "retry:" + token}
                && forall k :: i < k < |labels| ==> !IsRetryText(labels[k])
  }

  /** The retry token of a card is what its last retry label names. */
  lemma {:induction false} RetryTokenIs(labels: seq<string>)
    ensures RetryToken(labels).Some? ==> IsLastRetry(labels, RetryToken(labels).value)
    ensures RetryToken(labels).None? ==> forall k :: 0 <= k < |labels| ==> !IsRetryText(labels[k])
  {
    if labels != [] {
      var n := |labels| - 1;
      var init, last := labels[..n], labels[n];
      RetryTokenIs(init);
      if IsRetryText(last) {
        assert last == (if "retry-for:" <= last then "retry-for:" else "retry:") + RetryToken(labels).value;
      } else if RetryToken(init).Some? {
        var token := RetryToken(init).value;
        var i :| 0 <= i < |init| && init[i] in {"retry-for:" + token, "retry:" + token}
                 && forall k :: i < k < |init| ==> !IsRetryText(init[k]);
        forall k | i < k < |labels| ensures !IsRetryText(labels[k]) {
          assert k < n ==> labels[k] == init[k];
        }
        assert labels[i] == init[i];
      } else {
        forall k | 0 <= k < |labels| ensures !IsRetryText(labels[k]) {
          assert k < n ==> labels[k] == init[k];
        }
      }
    }
  }

  lemma {:induction false} StripEnds(s: string)
    ensures RStripWhere(s, IsSpace) <= s
    ensures RStripWhere(s, IsSpace) != "" ==> !IsSpace(RStripWhere(s, IsSpace)[|RStripWhere(s, IsSpace)| - 1])
  {
    if s != [] && IsSpace(s[|s| - 1]) {
      StripEnds(s[..|s| - 1]);
    }
  }

  /** A bounded label has at most forty characters; one that fits is kept, a longer one is cut and ends in dots. */
  lemma BoundedLabelFits(text: string)
    ensures |BoundedLabel(text)| <= 40
    ensures |text| <= 40 ==> BoundedLabel(text) == text
    ensures |text| > 40 ==> exists kept: string ::
      kept <= text && |kept| <= 37 && BoundedLabel(text) == kept + ['.', '.', '.']
      && (|kept| > 0 ==> !IsSpace(kept[|kept| - 1]))
  {
    if |text| > 40 {
      StripEnds(text[..37]);
      assert "..." == ['.', '.', '.'];
    }
  }

  // ---------------------------------------------------------------- records

  /** A record counts as passed in any spelling of the word. */
  lemma PassedIff(item: ProofItem)
    ensures Passed(item) <==> item.Record? && Upper(item.status) == "PASSED"
  {
    if item.Record? && |item.status| == 6 {
      var low, up := Lower(item.status), Upper(item.status);
      forall i | 0 <= i < 6 ensures low[i] == "passed"[i] <==> up[i] == "PASSED"[i] {
      }
      assert low == "passed" <==> forall i :: 0 <= i < 6 ==> low[i] == "passed"[i];
      assert up == "PASSED" <==> forall i :: 0 <= i < 6 ==> up[i] == "PASSED"[i];
    }
  }

  // ---------------------------------------------------------------- failures

  /** The attempts that count. */
  function FailedAttempts(attempts: seq<Attempt>): set<nat> {
    set i: nat | i < |attempts| && attempts[i].status in {"failed", "blocked", "stopped"}
  }

  predicate FailsAtOnce(attempts: seq<Attempt>) {
    attempts != [] && attempts[0].status in {"failed", "blocked", "stopped"}
  }

  function Later(positions: set<nat>): set<nat> {
    set i | i in positions :: i + 1
  }

  lemma FailedSplit(attempts: seq<Attempt>)
    requires attempts != []
    ensures FailedAttempts(attempts)
         == (if FailsAtOnce(attempts) then {0} else {}) + Later(FailedAttempts(attempts[1..]))
  {
    forall i: nat ensures i in FailedAttempts(attempts)
                     <==> (i == 0 && FailsAtOnce(attempts)) || i in Later(FailedAttempts(attempts[1..]))
    {
      if 0 < i < |attempts| {
        assert attempts[i] == attempts[1..][i - 1];
        assert i - 1 in FailedAttempts(attempts[1..]) ==> i in Later(FailedAttempts(attempts[1..]));
      }
    }
  }

  lemma {:induction false} CountFailedIs(attempts: seq<Attempt>)
    ensures CountFailed(attempts) == |FailedAttempts(attempts)|
  {
    if attempts == [] {
      assert FailedAttempts(attempts) == {};
    } else {
      CountFailedIs(attempts[1..]);
      var rest := FailedAttempts(attempts[1..]);
      Shifted(rest, Later(rest));
      hide FailedAttempts;
      FailedSplit(attempts);
      assert 0 !in Later(rest);
    }
  }

  lemma {:induction false} Shifted(xs: set<nat>, ys: set<nat>)
    requires forall y :: y in ys <==> y > 0 && y - 1 in xs
    ensures |ys| == |xs|
    decreases |xs|
  {
    if xs == {} {
      assert ys == {};
    } else {
      var x :| x in xs;
      assert x + 1 in ys;
      Shifted(xs - {x}, ys - {x + 1});
    }
  }

  /** The reconciler's count of failures: the recorded number, or else the attempts that failed, one at the least. */
  lemma FailuresAre(card: Card)
    ensures card.metadata.failureCount.Some? ==> FailureCount(card) == card.metadata.failureCount.value
    ensures card.metadata.failureCount.None? && card.metadata.attempts.Some? ==>
      var failed := |FailedAttempts(card.metadata.attempts.value)|;
      FailureCount(card) == if failed > 0 then failed else 1
    ensures card.metadata.failureCount.None? && card.metadata.attempts.None? ==> FailureCount(card) == 1
  {
    hide FailedAttempts;
    if card.metadata.attempts.Some? {
      CountFailedIs(card.metadata.attempts.value);
    }
  }

  /** Evidence of a failure: a block, a recorded number above zero, or an attempt that failed. */
  lemma FailureEvidenceIff(card: Card)
    ensures HasFailureEvidence(card)
       <==> || card.status == Blocked
            || (card.metadata.failureCount.Some? && card.metadata.failureCount.value >= 1)
            || (card.metadata.attempts.Some?
                && exists i :: i in FailedAttempts(card.metadata.attempts.value))
  {
    if card.metadata.attempts.Some? {
      CountFailedIs(card.metadata.attempts.value);
    }
  }

  lemma LimitIs(card: Card, fallback: nat)
    ensures RetryLimit(card, fallback)
         == if card.metadata.maxRetries.Some? then card.metadata.maxRetries.value else fallback
  {
  }

  // ---------------------------------------------------------------- reasons

  /** The last text of the list that is not empty. */
  ghost predicate IsLastText(texts: seq<string>, text: string) {
    exists i :: 0 <= i < |texts| && texts[i] == text && |text| > 0 && forall k :: i < k < |texts| ==> |texts[k]| == 0
  }

  ghost predicate HasText(texts: seq<string>) {
    exists i :: 0 <= i < |texts| && |texts[i]| > 0
  }

  lemma EmptyTextAtEnd(texts: seq<string>, text: string)
    requires texts != [] && |texts[|texts| - 1]| == 0
    ensures HasText(texts[..|texts| - 1]) <==> HasText(texts)
    ensures IsLastText(texts[..|texts| - 1], text) ==> IsLastText(texts, text)
  {
    var n := |texts| - 1;
    var init := texts[..n];
    assert forall k :: 0 <= k < n ==> init[k] == texts[k];
    if IsLastText(init, text) {
      var i :| 0 <= i < n && init[i] == text && |text| > 0 && forall k :: i < k < n ==> |init[k]| == 0;
      forall k | i < k < |texts| ensures |texts[k]| == 0 {
        assert k < n ==> init[k] == texts[k];
      }
      assert texts[i] == text;
    }
  }

  lemma {:induction false} LastTextIs(texts: seq<string>)
    ensures HasText(texts) ==> IsLastText(texts, LastNonEmpty(texts))
    ensures !HasText(texts) ==> LastNonEmpty(texts) == ""
  {
    if texts != [] {
      var n := |texts| - 1;
      LastTextIs(texts[..n]);
      if texts[n] == "" {
        EmptyTextAtEnd(texts, LastNonEmpty(texts[..n]));
      } else {
        assert IsLastText(texts, texts[n]);
      }
    }
  }

  /** Why a card is blocked: what its worker said last; else the newest message of its log; else the error of its newest
      attempt that has one; else that nothing is known. */
  lemma ReasonIs(card: Card)
    ensures var m := card.metadata;
            if |m.protocolDetail| > 0 then BlockReason(card) == m.protocolDetail
            else if HasText(m.logs) then IsLastText(m.logs, BlockReason(card))
            else if HasText(AttemptErrors(m.attempts)) then IsLastText(AttemptErrors(m.attempts), BlockReason(card))
            else BlockReason(card) == UNSTRUCTURED_BLOCK
  {
    hide LastNonEmpty;
    hide AttemptErrors;
    LastTextIs(card.metadata.logs);
    LastTextIs(AttemptErrors(card.metadata.attempts));
    hide IsLastText;
    if HasText(card.metadata.logs) {
      LastIsText(card.metadata.logs, LastNonEmpty(card.metadata.logs));
    }
    if HasText(AttemptErrors(card.metadata.attempts)) {
      LastIsText(AttemptErrors(card.metadata.attempts), LastNonEmpty(AttemptErrors(card.metadata.attempts)));
    }
  }

  lemma LastIsText(texts: seq<string>, text: string)
    requires IsLastText(texts, text)
    ensures text != ""
  {
  }

  /** A final review counts as asked too early exactly if its reason has one of four phrases, in any case. */
  lemma EarlyReasonIff(reason: string)
    ensures IsStaleGateBlock(reason)
       <==> exists phrase :: phrase in {"without structured failure evidence", "stale", "remain ready", "not recorded"}
                             && Contains(Lower(reason), phrase)
  {
    hide Contains;
    hide Lower;
  }

  /** A card is cancelled exactly if a comment starts with the word and a colon, in any spelling. */
  lemma CancelledIff(card: Card)
    ensures IsCancelled(card)
       <==> exists i :: && 0 <= i < |card.metadata.comments| && |card.metadata.comments[i]| >= 10
                        && Upper(card.metadata.comments[i][..10]) == "CANCELLED:"
  {
    forall body: string
      ensures "CANCELLED:" <= Upper(body) <==> |body| >= 10 && Upper(body[..10]) == "CANCELLED:"
    {
      assert |body| >= 10 ==> Upper(body)[..10] == Upper(body[..10]);
    }
  }

  // ---------------------------------------------------------------- completions

  /** A completion is valid exactly with valid proof, and for a final review or a QA card of a profile with the live
      gate's consent, too; a missing gate consents unless it is required. */
  lemma CompletionIff(env: Env, card: Card)
    ensures HasValidCompletion(env, card)
       <==> && HasValidProof(env.policy, card)
            && (CardStage(card) == Some(FinalReview)
                || (CardStage(card) in {Some(Test), Some(UxReview)} && card.metadata.qaProfile != "") ==>
                  (env.validator.Live? && card.id in env.validator.accepts)
                  || (env.validator.NoValidator? && !env.validator.required))
  {
    hide HasValidProof;
    hide StageOfLabels;
  }

  /** Proof is a passed record; for a final review one whose note, or else whose label, names a commit behind the marker
      of the policy. */
  lemma ProofIff(policy: CompletionPolicy, card: Card)
    ensures HasValidProof(policy, card)
       <==> && LatestProof(card).Some?
            && var item := LatestProof(card).value;
               var marker := (if policy == OwnerApproval then "READY_FOR_OWNER:"
                              else if policy == AutoMerge then "AUTO_MERGE_ALLOWED:" else "CONTROL_PLANE_COMPLETE:");
               CardStage(card) == Some(FinalReview) ==>
                 ReadField(item.note, marker).Head?
                 || (ReadField(item.note, marker) in {NoMarker, BadHead} && ReadField(item.title, marker).Head?)
  {
    hide ReadField;
    hide StageOfLabels;
    hide LatestPassed;
  }

  /** The cards that vouch for a parent: itself, also by a short form of its id, and its retries. */
  ghost predicate Vouches(cards: seq<Card>, c: Card, parent: CardId) {
    parent <= c.id || Descends(TagsOf(cards), TagOf(c), parent)
  }

  ghost predicate VouchesForSome(cards: seq<Card>, c: Card, links: seq<CardId>) {
    exists n :: 0 <= n < |links| && Vouches(cards, c, links[n])
  }

  /** A finished final review of the merge's own workflow, with proof, that vouches for a link if there are any. */
  ghost predicate IsItsReview(env: Env, card: Card, cards: seq<Card>, c: Card) {
    && c.status == Done && CardStage(c) == Some(FinalReview) && HasValidProof(env.policy, c)
    && (WorkflowLabel(card).Some? ==> WorkflowLabel(c) == WorkflowLabel(card))
    && (|card.metadata.links| > 0 ==> VouchesForSome(cards, c, card.metadata.links))
  }

  /** A merge has its final review exactly if the board has one. */
  lemma MergePredecessorIff(env: Env, card: Card, cards: seq<Card>)
    ensures HasValidMergePredecessor(env, card, cards) <==> exists c :: c in cards && IsItsReview(env, card, cards, c)
  {
    hide HasValidProof;
    hide StageOfLabels;
    hide WorkflowLabel;
    hide StandsFor;
    hide VouchesForSome;
    var links := card.metadata.links;
    forall c ensures (exists p :: p in links && StandsFor(cards, c, p)) <==> VouchesForSome(cards, c, links) {
      LinksVouched(cards, c, links);
    }
  }

  lemma LinksVouched(cards: seq<Card>, c: Card, links: seq<CardId>)
    ensures (exists p :: p in links && StandsFor(cards, c, p)) <==> VouchesForSome(cards, c, links)
  {
    hide Descends;
    forall n | 0 <= n < |links| && Vouches(cards, c, links[n])
      ensures exists p :: p in links && StandsFor(cards, c, p)
    {
      assert links[n] in links && StandsFor(cards, c, links[n]);
    }
  }

  ghost predicate IsVouchedFor(env: Env, cards: seq<Card>, parent: CardId) {
    exists i :: 0 <= i < |cards| && cards[i].status == Done && HasValidCompletion(env, cards[i])
                && Vouches(cards, cards[i], parent)
  }

  /** The predecessors of a card are complete exactly if it has links and a finished card with a valid completion
      vouches for each of them. */
  lemma PredecessorsIff(env: Env, card: Card, cards: seq<Card>)
    ensures HasValidPredecessors(env, card, cards)
       <==> && |card.metadata.links| > 0
            && forall n :: 0 <= n < |card.metadata.links| ==> IsVouchedFor(env, cards, card.metadata.links[n])
  {
    hide HasValidCompletion;
    hide Descends;
    if HasValidPredecessors(env, card, cards) {
      forall n | 0 <= n < |card.metadata.links| ensures IsVouchedFor(env, cards, card.metadata.links[n]) {
        var p := card.metadata.links[n];
        assert p in card.metadata.links;
        var c :| c in cards && c.status == Done && HasValidCompletion(env, c) && StandsFor(cards, c, p);
        var i :| 0 <= i < |cards| && cards[i] == c;
      }
    }
    if forall n :: 0 <= n < |card.metadata.links| ==> IsVouchedFor(env, cards, card.metadata.links[n]) {
      forall p | p in card.metadata.links
        ensures exists c :: c in cards && c.status == Done && HasValidCompletion(env, c) && StandsFor(cards, c, p)
      {
        var n :| 0 <= n < |card.metadata.links| && card.metadata.links[n] == p;
        var i :| 0 <= i < |cards| && cards[i].status == Done && HasValidCompletion(env, cards[i])
                 && Vouches(cards, cards[i], p);
        assert cards[i] in cards && StandsFor(cards, cards[i], p);
      }
    }
  }

  // ---------------------------------------------------------------- counting

  /** The positions of the cards that are labelled as retries of a card. */
  function RetriesAt(cards: seq<Card>, source: CardId): set<nat> {
    set i: nat | i < |cards| && IsRetryFor(cards[i], source)
  }

  lemma {:induction false} RetriesAreCounted(cards: seq<Card>, source: CardId)
    ensures |RetriesOf(cards, source)| == |RetriesAt(cards, source)|
  {
    hide IsRetryFor;
    if cards == [] {
      assert RetriesAt(cards, source) == {};
    } else {
      var n := |cards| - 1;
      RetriesAreCounted(cards[..n], source);
      var last: set<nat> := if IsRetryFor(cards[n], source) then {n} else {};
      assert RetriesAt(cards, source) == RetriesAt(cards[..n], source) + last;
    }
  }

  /** The budget of a card is used up exactly when its retry depth and the retries it has reach its limit. */
  lemma ExhaustedIff(env: Env, card: Card, cards: seq<Card>)
    ensures RetryExhausted(env, card, cards)
       <==> RetryLimit(card, env.maxRetries) <= Depth(TagsOf(cards), TagOf(card)) + |RetriesAt(cards, card.id)|
  {
    hide RetriesAt;
    hide Depth;
    RetriesAreCounted(cards, card.id);
  }

  /** The positions of the cards that are labelled as recoveries of a card. */
  function RecoveriesAt(cards: seq<Card>, failed: CardId): set<nat> {
    set i: nat | i < |cards| && IsRecoveryFor(cards[i], failed)
  }

  lemma {:induction false} RecoveriesAreCounted(cards: seq<Card>, failed: CardId)
    ensures |RecoveriesOf(cards, failed)| == |RecoveriesAt(cards, failed)|
  {
    hide IsRecoveryFor;
    if cards == [] {
      assert RecoveriesAt(cards, failed) == {};
    } else {
      var n := |cards| - 1;
      RecoveriesAreCounted(cards[..n], failed);
      var last: set<nat> := if IsRecoveryFor(cards[n], failed) then {n} else {};
      assert RecoveriesAt(cards, failed) == RecoveriesAt(cards[..n], failed) + last;
    }
  }

  /** A recovery is open exactly if some card labelled as one is neither archived nor DONE nor BLOCKED. */
  lemma OpenRecoveryIff(cards: seq<Card>, failed: CardId)
    ensures HasOpenRecovery(cards, failed)
       <==> exists i :: && i in RecoveriesAt(cards, failed)
                        && !cards[i].metadata.archived && cards[i].status !in {Done, Blocked}
  {
    hide IsRecoveryFor;
    if HasOpenRecovery(cards, failed) {
      var c :| c in cards && IsOpen(c) && IsRecoveryFor(c, failed);
      var i: nat :| i < |cards| && cards[i] == c;
      assert i in RecoveriesAt(cards, failed);
    }
  }
}
