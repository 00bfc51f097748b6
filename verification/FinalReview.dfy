/**
 The three readers of a final-review proof: the reconciler (`Cards.HasValidProof`), the live
 completion gate and the merge gate.  Each looks at the newest passed record only; on text with one
 marker they read the same head.
 */
module FinalReview {
  import opened Wrappers
  import opened Text
  import opened Cards

  // ---------------------------------------------------------------- the two patterns

  /** The length of the longest run of hexadecimal digits from a position. */
  function HexRun(s: string, at: nat): (n: nat)
    requires at <= |s|
    ensures at + n <= |s| && (forall i :: at <= i < at + n ==> IsHex(s[i]))
    ensures at + n == |s| || !IsHex(s[at + n])
    decreases |s| - at
  {
    if at < |s| && IsHex(s[at]) then 1 + HexRun(s, at + 1) else 0
  }

  /** A group of 7 to 64 hexadecimal digits, of length `k`. */
  predicate IsGroup(s: string, at: nat, k: nat) {
    7 <= k <= 64 && at + k <= |s| && AllHex(s[at..at + k])
  }

  /** The tail of the merge gate's pattern: the group, then a blank or the end. */
  predicate IsMergeTail(s: string, at: nat, k: nat) {
    IsGroup(s, at, k) && (at + k == |s| || IsSpace(s[at + k]))
  }

  /** The tail of the completion gate's pattern: the group, then a word boundary. */
  predicate IsCompletionTail(s: string, at: nat, k: nat) {
    IsGroup(s, at, k) && (at + k == |s| || !IsWord(s[at + k]))
  }

  predicate HasMergeTail(s: string, at: nat) {
    exists k: nat | k <= 64 :: IsMergeTail(s, at, k)
  }

  predicate HasCompletionTail(s: string, at: nat) {
    exists k: nat | k <= 64 :: IsCompletionTail(s, at, k)
  }

  const MERGE_MARKER := "AUTO_MERGE_ALLOWED:"

  predicate MergeMatches(s: string, p: nat) {
    && OccursAt(s, MERGE_MARKER, p)
    && (p == 0 || IsSpace(s[p - 1]))
    && HasMergeTail(s, p + |MERGE_MARKER|)
  }

  predicate CompletionMatches(s: string, marker: string, p: nat) {
    && OccursAt(Upper(s), marker, p)
    && HasCompletionTail(s, p + |marker|)
  }

  /** The group is the whole run of digits, however greedy the match is. */
  lemma GroupIsRun(s: string, at: nat, k: nat)
    requires IsCompletionTail(s, at, k) || IsMergeTail(s, at, k)
    ensures k == HexRun(s, at)
  {
    assert forall i :: at <= i < at + k ==> s[i] == s[at..at + k][i - at];
  }

  /** `pattern.search`: the leftmost match at or after a position. */
  function FirstMerge(s: string, from: nat): (r: Option<nat>)
    ensures r.Some? ==> MergeMatches(s, r.value) && forall i :: from <= i < r.value ==> !MergeMatches(s, i)
    ensures r.None? ==> forall i :: from <= i < |s| ==> !MergeMatches(s, i)
    decreases |s| - from
  {
    if from >= |s| then None else if MergeMatches(s, from) then Some(from) else FirstMerge(s, from + 1)
  }

  function FirstCompletion(s: string, marker: string, from: nat): (r: Option<nat>)
    ensures r.Some? ==> CompletionMatches(s, marker, r.value)
    ensures r.Some? ==> forall i :: from <= i < r.value ==> !CompletionMatches(s, marker, i)
    ensures r.None? ==> forall i :: from <= i < |s| ==> !CompletionMatches(s, marker, i)
    decreases |s| - from
  {
    if from >= |s| then None else if CompletionMatches(s, marker, from) then Some(from)
    else FirstCompletion(s, marker, from + 1)
  }

  function GroupAt(s: string, at: nat): string
    requires at <= |s|
  {
    s[at..at + HexRun(s, at)]
  }

  /** `match.group(1).lower()` of the merge gate for one field. */
  function MergeHead(s: string): Option<string> {
    match FirstMerge(s, 0)
    case None => None
    case Some(p) => Some(Lower(GroupAt(s, p + |MERGE_MARKER|)))
  }

  /** `match.group(1)` of the completion gate for one field. */
  function CompletionHead(s: string, marker: string): Option<string> {
    match FirstCompletion(s, marker, 0)
    case None => None
    case Some(p) => Some(GroupAt(s, p + |marker|))
  }

  // ---------------------------------------------------------------- reading a card

  /** The first field of a record, note before label, in which a head is found. */
  function MergeHeadOf(item: ProofItem): Option<string>
    requires item.Record?
  {
    if MergeHead(item.note).Some? then MergeHead(item.note) else MergeHead(item.title)
  }

  function CompletionHeadOf(item: ProofItem, marker: string): Option<string>
    requires item.Record?
  {
    if CompletionHead(item.note, marker).Some? then CompletionHead(item.note, marker)
    else CompletionHead(item.title, marker)
  }

  predicate IsFinishedReview(card: Card) {
    card.status == Done && "stage:final_review" in card.labels
  }

  /** What `final_review_head` reads: the newest passed record of a finished review, nothing else. */
  function FinalReviewHead(card: Card): Option<string> {
    if !IsFinishedReview(card) || LatestProof(card).None? then None else MergeHeadOf(LatestProof(card).value)
  }

  function FinalReviewEvidence(policy: CompletionPolicy, card: Card): Option<string> {
    if LatestProof(card).None? then None else CompletionHeadOf(LatestProof(card).value, PolicyMarker(policy))
  }

  lemma LatestStep(proof: seq<ProofItem>, n: nat)
    requires n < |proof|
    ensures LatestPassed(proof[..n + 1]) == if Passed(proof[n]) then Some(proof[n]) else LatestPassed(proof[..n])
  {
    assert proof[..n + 1][..n] == proof[..n];
  }

  /** `final_review_head`: the loop over the reversed proof list. */
  method ReadMergeHead(card: Card) returns (head: Option<string>)
    ensures head == FinalReviewHead(card)
  {
    if card.status != Done || "stage:final_review" !in card.labels {
      return None;
    }
    if card.metadata.proof.None? {
      return None;
    }
    var proof := card.metadata.proof.value;
    assert proof[..|proof|] == proof;
    var n := |proof|;
    while n > 0
      invariant 0 <= n <= |proof| && LatestPassed(proof) == LatestPassed(proof[..n])
    {
      n := n - 1;
      LatestStep(proof, n);
      var item := proof[n];
      if item.Malformed? {
        continue;
      }
      if Lower(item.status) != "passed" {
        continue;
      }
      if MergeHead(item.note).Some? {
        return MergeHead(item.note);
      }
      return MergeHead(item.title);
    }
    head := None;
  }

  /** `_final_review_evidence`. */
  method ReadCompletionHead(policy: CompletionPolicy, card: Card) returns (head: Option<string>)
    ensures head == FinalReviewEvidence(policy, card)
  {
    var marker := PolicyMarker(policy);
    if card.metadata.proof.None? {
      return None;
    }
    var proof := card.metadata.proof.value;
    assert proof[..|proof|] == proof;
    var n := |proof|;
    while n > 0
      invariant 0 <= n <= |proof| && LatestPassed(proof) == LatestPassed(proof[..n])
    {
      n := n - 1;
      LatestStep(proof, n);
      var item := proof[n];
      if item.Malformed? {
        continue;
      }
      if Lower(item.status) != "passed" {
        continue;
      }
      if CompletionHead(item.note, marker).Some? {
        return CompletionHead(item.note, marker);
      }
      return CompletionHead(item.title, marker);
    }
    head := None;
  }

  // ---------------------------------------------------------------- history does not matter

  function WithProof(card: Card, proof: seq<ProofItem>): Card {
    card.(metadata := card.metadata.(proof := Some(proof)))
  }

  lemma {:induction false} LatestIgnoresHistory(older: seq<ProofItem>, proof: seq<ProofItem>)
    requires LatestPassed(proof).Some?
    ensures LatestPassed(older + proof) == LatestPassed(proof)
  {
    assert (older + proof)[..|older + proof| - 1] == older + proof[..|proof| - 1];
    if !Passed(proof[|proof| - 1]) {
      LatestIgnoresHistory(older, proof[..|proof| - 1]);
    }
  }

  /** Records older than a passed one never matter, to any of the three readers. */
  lemma HistoryNeverMatters(policy: CompletionPolicy, card: Card, older: seq<ProofItem>, proof: seq<ProofItem>)
    requires LatestPassed(proof).Some?
    ensures FinalReviewHead(WithProof(card, older + proof)) == FinalReviewHead(WithProof(card, proof))
    ensures FinalReviewEvidence(policy, WithProof(card, older + proof))
         == FinalReviewEvidence(policy, WithProof(card, proof))
    ensures HasValidProof(policy, WithProof(card, older + proof)) == HasValidProof(policy, WithProof(card, proof))
  {
    LatestIgnoresHistory(older, proof);
  }

  /** The marker occurs nowhere in the text, in any case. */
  predicate IsUnmarked(s: string, marker: string) {
    !Contains(Upper(s), marker)
  }

  lemma UnmarkedHasNoHead(s: string, policy: CompletionPolicy)
    requires IsUnmarked(s, PolicyMarker(policy))
    ensures CompletionHead(s, PolicyMarker(policy)).None?
    ensures policy == AutoMerge ==> MergeHead(s).None?
    ensures ReadField(s, PolicyMarker(policy)) == NoMarker
  {
    if policy == AutoMerge && FirstMerge(s, 0).Some? {
      MarkerInUpper(s, FirstMerge(s, 0).value);
    }
  }

  lemma MarkerInUpper(s: string, p: nat)
    requires OccursAt(s, MERGE_MARKER, p)
    ensures OccursAt(Upper(s), MERGE_MARKER, p)
  {
    assert Upper(s)[p..p + |MERGE_MARKER|] == Upper(s[p..p + |MERGE_MARKER|]);
    assert Upper(MERGE_MARKER) == MERGE_MARKER;
  }

  /** A newer passed record without the marker revokes the authorisation, in all three readers. */
  lemma NewerRecordRevokes(card: Card, proof: seq<ProofItem>, newer: ProofItem)
    requires Passed(newer) && IsUnmarked(newer.note, MERGE_MARKER) && IsUnmarked(newer.title, MERGE_MARKER)
    ensures FinalReviewHead(WithProof(card, proof + [newer])).None?
    ensures FinalReviewEvidence(AutoMerge, WithProof(card, proof + [newer])).None?
    ensures CardStage(card) == Some(WorkStage.FinalReview) ==>
      !HasValidProof(AutoMerge, WithProof(card, proof + [newer]))
  {
    assert PolicyMarker(AutoMerge) == MERGE_MARKER;
    UnmarkedHasNoHead(newer.note, AutoMerge);
    UnmarkedHasNoHead(newer.title, AutoMerge);
    assert LatestPassed(proof + [newer]) == Some(newer);
  }

  // ---------------------------------------------------------------- the readers agree

  /** The marker occurs at `p` and nowhere else, in any case. */
  ghost predicate OnlyMarkerAt(s: string, p: nat) {
    OccursAt(Upper(s), MERGE_MARKER, p) && forall q :: OccursAt(Upper(s), MERGE_MARKER, q) ==> q == p
  }

  lemma LStripKeeps(s: string, drop: char -> bool)
    requires s == "" || !drop(s[0])
    ensures LStripWhere(s, drop) == s
  {
  }

  lemma {:induction false} RStripStart(s: string, n: nat)
    requires n <= |s| && forall i :: 0 <= i < n ==> !IsSpace(s[i])
    ensures n <= |RStripWhere(s, IsSpace)| && RStripWhere(s, IsSpace) <= s
    decreases |s|
  {
    if s != [] && IsSpace(s[|s| - 1]) {
      RStripStart(s[..|s| - 1], n);
    }
  }

  lemma {:induction false} FirstWordIs(s: string, n: nat)
    requires n <= |s| && (forall i :: 0 <= i < n ==> !IsSpace(s[i])) && (n == |s| || IsSpace(s[n]))
    ensures FirstWord(s) == s[..n]
    decreases n
  {
    if n > 0 {
      FirstWordIs(s[1..], n - 1);
      assert s[..n] == [s[0]] + s[1..][..n - 1];
    }
  }

  lemma HexIsPlain(c: char)
    requires IsHex(c)
    ensures !IsSpace(c) && !IsQuotePunctuation(c) && IsWord(c)
  {
  }

  /** Reading the first word after the marker gives exactly the digits of the group. */
  lemma WordIsGroup(s: string, at: nat, k: nat)
    requires IsMergeTail(s, at, k)
    ensures FirstWord(Strip(s[at..])) == s[at..at + k]
    ensures RStripWhere(LStripWhere(s[at..at + k], IsQuotePunctuation), IsQuotePunctuation) == s[at..at + k]
  {
    var rest, group := s[at..], s[at..at + k];
    assert forall i :: 0 <= i < k ==> rest[i] == group[i];
    forall i | 0 <= i < k ensures !IsSpace(group[i]) && !IsQuotePunctuation(group[i]) {
      HexIsPlain(group[i]);
    }
    LStripKeeps(rest, IsSpace);
    LStripKeeps(group, IsQuotePunctuation);
    RStripStart(rest, k);
    var kept := RStripWhere(rest, IsSpace);
    if k < |kept| {
      assert kept[k] == rest[k] == s[at + k];
    }
    FirstWordIs(kept, k);
  }

  /** With one marker all three readers look at the same position. */
  lemma PositionsAgree(s: string, p: nat)
    requires OnlyMarkerAt(s, p) && MergeHead(s).Some?
    ensures FirstMerge(s, 0) == Some(p) && FirstCompletion(s, MERGE_MARKER, 0) == Some(p)
    ensures Find(Upper(s), MERGE_MARKER) == Some(p)
    ensures HasMergeTail(s, p + |MERGE_MARKER|)
  {
    MarkerInUpper(s, FirstMerge(s, 0).value);
    TailsAgree(s, p + |MERGE_MARKER|);
    assert CompletionMatches(s, MERGE_MARKER, p);
  }

  lemma TailsAgree(s: string, at: nat)
    requires HasMergeTail(s, at)
    ensures HasCompletionTail(s, at)
  {
    var k: nat :| k <= 64 && IsMergeTail(s, at, k);
    if at + k < |s| {
      SpaceIsNoWord(s[at + k]);
    }
    assert IsCompletionTail(s, at, k);
  }

  lemma GroupReadsAsHead(s: string, p: nat)
    requires Find(Upper(s), MERGE_MARKER) == Some(p) && HasMergeTail(s, p + |MERGE_MARKER|)
    ensures ReadField(s, MERGE_MARKER) == Head(GroupAt(s, p + |MERGE_MARKER|))
  {
    var at := p + |MERGE_MARKER|;
    var k: nat :| k <= 64 && IsMergeTail(s, at, k);
    GroupIsRun(s, at, k);
    WordIsGroup(s, at, k);
    RestIsNotBlank(s, at, k);
  }

  /** On a field with one marker, a head that the merge gate reads is read by the other two as well. */
  lemma FieldAgrees(s: string, p: nat)
    requires OnlyMarkerAt(s, p) && MergeHead(s).Some?
    ensures CompletionHead(s, MERGE_MARKER).Some? && Lower(CompletionHead(s, MERGE_MARKER).value) == MergeHead(s).value
    ensures ReadField(s, MERGE_MARKER) == Head(CompletionHead(s, MERGE_MARKER).value)
  {
    PositionsAgree(s, p);
    GroupReadsAsHead(s, p);
  }

  lemma SpaceIsNoWord(c: char)
    requires IsSpace(c)
    ensures !IsWord(c)
  {
  }

  lemma RestIsNotBlank(s: string, at: nat, k: nat)
    requires IsMergeTail(s, at, k)
    ensures Strip(s[at..]) != ""
  {
    WordIsGroup(s, at, k);
    assert FirstWord("") == "";
  }

  ghost predicate IsMarkedOnce(s: string) {
    exists p :: OnlyMarkerAt(s, p)
  }

  /** The card carries one marker in its newest passed record: in the note or in the label. */
  ghost predicate HasSingleMarker(item: ProofItem) {
    && item.Record?
    && ( || (IsMarkedOnce(item.note) && IsUnmarked(item.title, MERGE_MARKER))
         || (IsUnmarked(item.note, MERGE_MARKER) && IsMarkedOnce(item.title)))
  }

  /** Whatever the merge gate accepts, the completion gate and the reconciler accept with the same
      head up to case, if the newest passed record carries the marker once. */
  lemma ReadersAgree(card: Card)
    requires FinalReviewHead(card).Some? && HasSingleMarker(LatestProof(card).value)
    ensures FinalReviewEvidence(AutoMerge, card).Some?
            && Lower(FinalReviewEvidence(AutoMerge, card).value) == FinalReviewHead(card).value
    ensures ReadMarker(LatestProof(card).value, MERGE_MARKER) == Head(FinalReviewEvidence(AutoMerge, card).value)
    ensures HasValidProof(AutoMerge, card) && !ProofRaises(AutoMerge, card)
  {
    var item := LatestProof(card).value;
    assert PolicyMarker(AutoMerge) == MERGE_MARKER;
    if IsUnmarked(item.note, MERGE_MARKER) {
      UnmarkedHasNoHead(item.note, AutoMerge);
      var p :| OnlyMarkerAt(item.title, p);
      FieldAgrees(item.title, p);
    } else {
      var p :| OnlyMarkerAt(item.note, p);
      UnmarkedHasNoHead(item.title, AutoMerge);
      FieldAgrees(item.note, p);
    }
  }

  // ---------------------------------------------------------------- two markers in one field

  /** A sentence that names one head with a full stop and another one at its end. */
  function Sentence(a: string, b: string): string {
    MERGE_MARKER + a + ". " + MERGE_MARKER + b
  }

  lemma MarkersOfSentence(a: string, b: string, p: nat)
    requires IsGroup(a, 0, |a|) && IsGroup(b, 0, |b|) && OccursAt(Sentence(a, b), MERGE_MARKER, p)
    ensures p == 0 || p == |MERGE_MARKER| + |a| + 2
  {
    var s, m := Sentence(a, b), |MERGE_MARKER|;
    assert s[p + m - 1] == s[p..p + m][m - 1] == ':';
    assert a[0..|a|] == a && b[0..|b|] == b;
    assert forall i :: 0 <= i < |a| ==> IsHex(a[i]);
    assert forall i :: 0 <= i < |b| ==> IsHex(b[i]);
  }

  lemma TailsOfSentence(a: string, b: string)
    requires IsGroup(a, 0, |a|) && IsGroup(b, 0, |b|)
    ensures var s, m := Sentence(a, b), |MERGE_MARKER|;
            && OccursAt(s, MERGE_MARKER, 0) && OccursAt(s, MERGE_MARKER, m + |a| + 2)
            && s[m + |a|] == '.' && s[m + |a| + 1] == ' '
            && IsCompletionTail(s, m, |a|) && IsMergeTail(s, 2 * m + |a| + 2, |b|)
            && s[m..m + |a|] == a && s[2 * m + |a| + 2..] == b
  {
    var s, m := Sentence(a, b), |MERGE_MARKER|;
    assert a[0..|a|] == a && b[0..|b|] == b;
    assert s[m..m + |a|] == a && s[2 * m + |a| + 2..] == b && s[2 * m + |a| + 2..2 * m + |a| + 2 + |b|] == b;
    assert s[0..m] == MERGE_MARKER && s[m + |a| + 2..m + |a| + 2 + m] == MERGE_MARKER;
  }

  /** The full stop rules out the first marker for the merge gate. */
  lemma MergeMatchesSecondOnly(a: string, b: string, p: nat)
    requires IsGroup(a, 0, |a|) && IsGroup(b, 0, |b|) && MergeMatches(Sentence(a, b), p)
    ensures p == |MERGE_MARKER| + |a| + 2
  {
    var s, m := Sentence(a, b), |MERGE_MARKER|;
    MarkersOfSentence(a, b, p);
    TailsOfSentence(a, b);
    if p == 0 {
      var k: nat :| k <= 64 && IsMergeTail(s, m, k);
      GroupIsRun(s, m, k);
      GroupIsRun(s, m, |a|);
    }
  }

  lemma MergeMatchesSecond(a: string, b: string)
    requires IsGroup(a, 0, |a|) && IsGroup(b, 0, |b|)
    ensures MergeMatches(Sentence(a, b), |MERGE_MARKER| + |a| + 2)
  {
    TailsOfSentence(a, b);
    assert HasMergeTail(Sentence(a, b), 2 * |MERGE_MARKER| + |a| + 2);
  }

  lemma MergeReadsSecond(a: string, b: string)
    requires IsGroup(a, 0, |a|) && IsGroup(b, 0, |b|)
    ensures MergeHead(Sentence(a, b)) == Some(Lower(b))
  {
    var s, m := Sentence(a, b), |MERGE_MARKER|;
    var second := m + |a| + 2;
    MergeMatchesSecond(a, b);
    var p := FirstMerge(s, 0).value;
    MergeMatchesSecondOnly(a, b, p);
    TailsOfSentence(a, b);
    GroupIsRun(s, second + m, |b|);
    assert s[second + m..second + m + |b|] == b;
  }

  lemma CompletionReadsFirst(a: string, b: string)
    requires IsGroup(a, 0, |a|) && IsGroup(b, 0, |b|)
    ensures CompletionHead(Sentence(a, b), MERGE_MARKER) == Some(a)
  {
    hide Upper;
    hide IsMergeTail;
    var s, m := Sentence(a, b), |MERGE_MARKER|;
    TailsOfSentence(a, b);
    MarkerInUpper(s, 0);
    assert HasCompletionTail(s, m) && CompletionMatches(s, MERGE_MARKER, 0);
    GroupIsRun(s, m, |a|);
  }

  /** With two markers the gates can read different heads: the merge gate needs blanks around the
      marker, the completion gate only a word boundary after it. */
  lemma TwoMarkersDisagree(a: string, b: string)
    requires IsGroup(a, 0, |a|) && IsGroup(b, 0, |b|) && Lower(a) != Lower(b)
    ensures MergeHead(Sentence(a, b)) == Some(Lower(b)) && CompletionHead(Sentence(a, b), MERGE_MARKER) == Some(a)
  {
    MergeReadsSecond(a, b);
    CompletionReadsFirst(a, b);
  }
}
