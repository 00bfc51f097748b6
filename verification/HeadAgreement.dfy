/**
 Exactly when the three readers of a final-review record read the same head.

 The merge gate wants its marker in capitals, after a blank, and the head between the marker and a blank.
 The completion gate takes the first marker, in any case, with digits right behind it up to the end of a
 word.  The reconciler takes the first word after the first marker, without quotes and punctuation.
 */
module HeadAgreement {
  import opened Wrappers
  import opened Text
  import opened Cards
  import opened FinalReview

  // ---------------------------------------------------------------- the completion gate

  /** The match that the completion gate reads in a field. */
  ghost predicate IsFirstMatch(s: string, q: nat) {
    && CompletionMatches(s, MERGE_MARKER, q)
    && forall i :: 0 <= i < q ==> !CompletionMatches(s, MERGE_MARKER, i)
  }

  /** The digits right behind the marker at `q` are the head, up to case. */
  predicate NamesRun(s: string, q: nat, head: string) {
    q + |MERGE_MARKER| <= |s| && Lower(GroupAt(s, q + |MERGE_MARKER|)) == head
  }

  /** The first match of the completion gate, if it lies before `end`, names the head. */
  ghost predicate NoOtherRunBefore(s: string, end: nat, head: string) {
    forall q | 0 <= q < end && IsFirstMatch(s, q) :: NamesRun(s, q, head)
  }

  /** No looser marker, earlier in the field or in the note when the head is in the label, names another
      head first. */
  ghost predicate NoOtherRun(item: ProofItem, head: string)
    requires item.Record? && MergeHeadOf(item).Some?
  {
    if MergeHead(item.note).Some? then NoOtherRunBefore(item.note, FirstMerge(item.note, 0).value, head)
    else
      && NoOtherRunBefore(item.note, |item.note|, head)
      && ((forall q :: 0 <= q < |item.note| ==> !IsFirstMatch(item.note, q)) ==>
            NoOtherRunBefore(item.title, FirstMerge(item.title, 0).value, head))
  }

  lemma MergeIsCompletion(s: string, p: nat)
    requires MergeMatches(s, p)
    ensures CompletionMatches(s, MERGE_MARKER, p)
  {
    MarkerInUpper(s, p);
    TailsAgree(s, p + |MERGE_MARKER|);
  }

  lemma MatchFits(s: string, q: nat)
    requires CompletionMatches(s, MERGE_MARKER, q)
    ensures q + |MERGE_MARKER| < |s|
  {
  }

  /** What the completion gate reads in a field, by its first match. */
  lemma CompletionReads(s: string)
    ensures CompletionHead(s, MERGE_MARKER).None? <==> forall q :: 0 <= q < |s| ==> !IsFirstMatch(s, q)
    ensures forall q: nat | IsFirstMatch(s, q) ::
      q + |MERGE_MARKER| <= |s| && CompletionHead(s, MERGE_MARKER) == Some(GroupAt(s, q + |MERGE_MARKER|))
  {
    hide CompletionMatches;
    var r := FirstCompletion(s, MERGE_MARKER, 0);
    if r.Some? {
      MatchFits(s, r.value);
      assert IsFirstMatch(s, r.value);
    }
    forall q: nat | IsFirstMatch(s, q) ensures r == Some(q) {
      MatchFits(s, q);
    }
  }

  /** In a field with a merge head, the completion gate reads the same one exactly when no earlier match
      names another. */
  lemma FieldAgreesIff(s: string)
    requires MergeHead(s).Some?
    ensures CompletionHead(s, MERGE_MARKER).Some?
    ensures Lower(CompletionHead(s, MERGE_MARKER).value) == MergeHead(s).value
       <==> NoOtherRunBefore(s, FirstMerge(s, 0).value, MergeHead(s).value)
  {
    hide CompletionMatches;
    hide MergeMatches;
    var p := FirstMerge(s, 0).value;
    MergeIsCompletion(s, p);
    MatchFits(s, p);
    CompletionReads(s);
    var q := FirstCompletion(s, MERGE_MARKER, 0).value;
    assert IsFirstMatch(s, q) && q <= p;
    assert q < p ==> (NamesRun(s, q, MergeHead(s).value)
                      <==> Lower(CompletionHead(s, MERGE_MARKER).value) == MergeHead(s).value);
  }

  /** In a field that the merge gate passes over, whatever the completion gate reads is its first match. */
  lemma PassedOverIff(s: string, head: string)
    ensures CompletionHead(s, MERGE_MARKER).Some? ==>
      (Lower(CompletionHead(s, MERGE_MARKER).value) == head <==> NoOtherRunBefore(s, |s|, head))
    ensures CompletionHead(s, MERGE_MARKER).None? ==> NoOtherRunBefore(s, |s|, head)
  {
    hide CompletionMatches;
    CompletionReads(s);
    if CompletionHead(s, MERGE_MARKER).Some? {
      var q :| 0 <= q < |s| && IsFirstMatch(s, q);
      assert NamesRun(s, q, head) <==> Lower(CompletionHead(s, MERGE_MARKER).value) == head;
    }
  }

  /** Whenever the merge gate reads a head, the completion gate reads the same one up to case exactly when
      no looser marker names another head first. */
  lemma CompletionAgreesIff(card: Card)
    requires FinalReviewHead(card).Some?
    ensures FinalReviewEvidence(AutoMerge, card).Some?
    ensures Lower(FinalReviewEvidence(AutoMerge, card).value) == FinalReviewHead(card).value
       <==> NoOtherRun(LatestProof(card).value, FinalReviewHead(card).value)
  {
    hide CompletionHead;
    hide NoOtherRunBefore;
    var item := LatestProof(card).value;
    assert PolicyMarker(AutoMerge) == MERGE_MARKER;
    if MergeHead(item.note).Some? {
      FieldAgreesIff(item.note);
    } else {
      FieldAgreesIff(item.title);
      PassedOverIff(item.note, FinalReviewHead(card).value);
      CompletionReads(item.note);
    }
  }

  // ---------------------------------------------------------------- the reconciler

  /** The marker that the reconciler reads in a field. */
  ghost predicate IsFirstMarker(s: string, q: nat) {
    && OccursAt(Upper(s), MERGE_MARKER, q)
    && forall i :: 0 <= i < q ==> !OccursAt(Upper(s), MERGE_MARKER, i)
  }

  /** The first word after the marker at `q`, without quotes and punctuation around it. */
  function WordAfter(s: string, q: nat): string
    requires q + |MERGE_MARKER| <= |s|
  {
    RStripWhere(LStripWhere(FirstWord(Strip(s[q + |MERGE_MARKER|..])), IsQuotePunctuation), IsQuotePunctuation)
  }

  predicate NamesWord(s: string, q: nat, head: string) {
    q + |MERGE_MARKER| <= |s| && Lower(WordAfter(s, q)) == head
  }

  /** The reconciler finds no commit in the field and goes on, instead of raising. */
  ghost predicate PassesOver(s: string) {
    forall q | 0 <= q < |s| && IsFirstMarker(s, q) ::
      q + |MERGE_MARKER| <= |s| && Strip(s[q + |MERGE_MARKER|..]) != "" && !IsSha(WordAfter(s, q))
  }

  ghost predicate FirstWordNames(s: string, head: string) {
    exists q :: 0 <= q < |s| && IsFirstMarker(s, q) && NamesWord(s, q, head)
  }

  ghost predicate NoOtherWordBefore(s: string, end: nat, head: string) {
    forall q | 0 <= q < end && IsFirstMarker(s, q) :: NamesWord(s, q, head)
  }

  /** The first marker is followed by the head, or by no commit and the other field names the head. */
  ghost predicate NoOtherWord(item: ProofItem, head: string)
    requires item.Record? && MergeHeadOf(item).Some?
  {
    if MergeHead(item.note).Some? then
      || NoOtherWordBefore(item.note, FirstMerge(item.note, 0).value, head)
      || (PassesOver(item.note) && FirstWordNames(item.title, head))
    else
      || FirstWordNames(item.note, head)
      || (PassesOver(item.note) && NoOtherWordBefore(item.title, FirstMerge(item.title, 0).value, head))
  }

  /** What the reconciler reads in a field, by its first marker. */
  lemma FirstMarkerReads(s: string, q: nat)
    requires IsFirstMarker(s, q)
    ensures q + |MERGE_MARKER| <= |s| && Find(Upper(s), MERGE_MARKER) == Some(q)
    ensures ReadField(s, MERGE_MARKER)
         == if Strip(s[q + |MERGE_MARKER|..]) == "" then Raises
            else if IsSha(WordAfter(s, q)) then Head(WordAfter(s, q)) else BadHead
  {
    assert |Upper(s)| == |s|;
  }

  lemma NoMarkerReads(s: string)
    requires forall q :: 0 <= q < |s| ==> !IsFirstMarker(s, q)
    ensures ReadField(s, MERGE_MARKER) == NoMarker
  {
    var r := Find(Upper(s), MERGE_MARKER);
    if r.Some? {
      assert IsFirstMarker(s, r.value);
    }
  }

  lemma LowerKeepsHex(c: char)
    ensures IsHex(LowerChar(c)) == IsHex(c)
  {
  }

  /** A word that is a commit up to case is a commit. */
  lemma LowerKeepsSha(word: string, group: string)
    requires Lower(word) == Lower(group) && IsSha(group)
    ensures IsSha(word)
  {
    assert |Lower(word)| == |word| && |Lower(group)| == |group|;
    forall i | 0 <= i < |word| ensures IsHex(word[i]) {
      assert Lower(word)[i] == LowerChar(word[i]) && Lower(group)[i] == LowerChar(group[i]);
      LowerKeepsHex(word[i]);
      LowerKeepsHex(group[i]);
    }
  }

  /** The head of the merge gate comes from a commit in the text. */
  lemma MergeGroup(s: string, p: nat) returns (group: string)
    requires MergeMatches(s, p)
    ensures p + |MERGE_MARKER| < |s| && IsSha(group) && group == GroupAt(s, p + |MERGE_MARKER|)
  {
    var at := p + |MERGE_MARKER|;
    var k: nat :| k <= 64 && IsMergeTail(s, at, k);
    GroupIsRun(s, at, k);
    group := s[at..at + k];
  }

  /** The reconciler on a field, against a head that is a commit up to case. */
  lemma ReadsIff(s: string, head: string, group: string)
    requires IsSha(group) && head == Lower(group)
    ensures ReadField(s, MERGE_MARKER).Head? && Lower(ReadField(s, MERGE_MARKER).sha) == head
       <==> FirstWordNames(s, head)
    ensures !ReadField(s, MERGE_MARKER).Head? && !ReadField(s, MERGE_MARKER).Raises? <==> PassesOver(s)
  {
    hide ReadField;
    hide WordAfter;
    hide IsSha;
    if q :| 0 <= q < |s| && IsFirstMarker(s, q) {
      FirstMarkerReads(s, q);
      FirstMarkerIsOne(s, q);
      if NamesWord(s, q, head) {
        LowerKeepsSha(WordAfter(s, q), group);
        ShaNeedsText(s, q);
      }
    } else {
      NoMarkerReads(s);
    }
  }

  lemma FirstMarkerIsOne(s: string, q: nat)
    requires IsFirstMarker(s, q)
    ensures forall i :: 0 <= i && IsFirstMarker(s, i) ==> i == q
  {
  }

  lemma ShaNeedsText(s: string, q: nat)
    requires q + |MERGE_MARKER| <= |s| && IsSha(WordAfter(s, q))
    ensures Strip(s[q + |MERGE_MARKER|..]) != ""
  {
    assert FirstWord("") == "";
  }

  /** In a field with a merge head, the reconciler reads the same one exactly when no earlier marker is
      followed by another word. */
  lemma FieldReadsIff(s: string)
    requires MergeHead(s).Some?
    ensures ReadField(s, MERGE_MARKER).Head? && Lower(ReadField(s, MERGE_MARKER).sha) == MergeHead(s).value
       <==> NoOtherWordBefore(s, FirstMerge(s, 0).value, MergeHead(s).value)
  {
    hide ReadField;
    hide WordAfter;
    hide IsSha;
    hide MergeMatches;
    var p, head := FirstMerge(s, 0).value, MergeHead(s).value;
    var group := MergeGroup(s, p);
    ReadsIff(s, head, group);
    var q := FirstMarkerBefore(s, p);
    FirstMarkerIsOne(s, q);
    if q == p {
      FirstMarkerReads(s, q);
      MergeHasTail(s, p);
      GroupReadsAsHead(s, p);
    }
  }

  lemma MergeHasTail(s: string, p: nat)
    requires MergeMatches(s, p)
    ensures HasMergeTail(s, p + |MERGE_MARKER|)
  {
  }

  lemma FirstMarkerBefore(s: string, p: nat) returns (q: nat)
    requires MergeMatches(s, p)
    ensures q <= p && q < |s| && IsFirstMarker(s, q)
  {
    MarkerInUpper(s, p);
    q := Find(Upper(s), MERGE_MARKER).value;
  }

  /** Whenever the merge gate reads a head, the reconciler reads the same one up to case exactly when the
      first marker is followed by it, or by no commit while the other field names it. */
  lemma ReconcilerAgreesIff(card: Card)
    requires FinalReviewHead(card).Some?
    ensures var r := ReadMarker(LatestProof(card).value, MERGE_MARKER);
            (r.Head? && Lower(r.sha) == FinalReviewHead(card).value
             <==> NoOtherWord(LatestProof(card).value, FinalReviewHead(card).value))
  {
    hide ReadField;
    hide PassesOver;
    hide FirstWordNames;
    hide NoOtherWordBefore;
    hide MergeMatches;
    hide IsSha;
    var item := LatestProof(card).value;
    var head := FinalReviewHead(card).value;
    var field := if MergeHead(item.note).Some? then item.note else item.title;
    var group := MergeGroup(field, FirstMerge(field, 0).value);
    FieldReadsIff(field);
    ReadsIff(item.note, head, group);
    ReadsIff(item.title, head, group);
  }

  // ---------------------------------------------------------------- the converse

  /** A marker as the merge gate wants it: in capitals, after a blank, with the head up to the next blank. */
  ghost predicate StandsAlone(s: string, p: nat, head: string) {
    && OccursAt(s, MERGE_MARKER, p) && (p == 0 || IsSpace(s[p - 1]))
    && IsSha(head) && OccursAt(s, head, p + |MERGE_MARKER|)
    && (p + |MERGE_MARKER| + |head| == |s| || IsSpace(s[p + |MERGE_MARKER| + |head|]))
  }

  /** A head right behind the marker, up to the end of a word. */
  ghost predicate StandsBehind(s: string, p: nat, head: string) {
    && IsSha(head) && OccursAt(s, head, p + |MERGE_MARKER|)
    && (p + |MERGE_MARKER| + |head| == |s| || !IsWord(s[p + |MERGE_MARKER| + |head|]))
  }

  lemma AloneIsMerge(s: string, p: nat, head: string)
    requires StandsAlone(s, p, head)
    ensures MergeMatches(s, p) && GroupAt(s, p + |MERGE_MARKER|) == head
  {
    var at := p + |MERGE_MARKER|;
    assert IsMergeTail(s, at, |head|);
    GroupIsRun(s, at, |head|);
  }

  lemma MergeIsAlone(s: string, p: nat)
    requires MergeMatches(s, p)
    ensures p + |MERGE_MARKER| <= |s| && StandsAlone(s, p, GroupAt(s, p + |MERGE_MARKER|))
  {
    var group := MergeGroup(s, p);
    var at := p + |MERGE_MARKER|;
    var k: nat :| k <= 64 && IsMergeTail(s, at, k);
    GroupIsRun(s, at, k);
  }

  lemma BehindIsMatch(s: string, p: nat, head: string)
    requires StandsBehind(s, p, head)
    ensures HasCompletionTail(s, p + |MERGE_MARKER|) && GroupAt(s, p + |MERGE_MARKER|) == head
  {
    var at := p + |MERGE_MARKER|;
    assert IsCompletionTail(s, at, |head|);
    GroupIsRun(s, at, |head|);
  }

  lemma MatchIsBehind(s: string, p: nat)
    requires p + |MERGE_MARKER| <= |s| && HasCompletionTail(s, p + |MERGE_MARKER|)
    ensures StandsBehind(s, p, GroupAt(s, p + |MERGE_MARKER|))
  {
    var at := p + |MERGE_MARKER|;
    var k: nat :| k <= 64 && IsCompletionTail(s, at, k);
    GroupIsRun(s, at, k);
  }

  ghost predicate NothingAlone(s: string, end: nat) {
    forall p, head | 0 <= p < end :: !StandsAlone(s, p, head)
  }

  /** The first marker that stands alone is followed by the head, up to case. */
  ghost predicate AloneNames(s: string, head: string) {
    exists p, group :: 0 <= p && StandsAlone(s, p, group) && NothingAlone(s, p) && Lower(group) == head
  }

  lemma NothingAloneIff(s: string, end: nat)
    ensures NothingAlone(s, end) <==> forall p :: 0 <= p < end ==> !MergeMatches(s, p)
  {
    hide MergeMatches;
    hide StandsAlone;
    forall p: nat | p < end && MergeMatches(s, p) ensures !NothingAlone(s, end) {
      MergeIsAlone(s, p);
    }
    forall p: nat, head | p < end && StandsAlone(s, p, head) ensures MergeMatches(s, p) {
      AloneIsMerge(s, p, head);
    }
  }

  lemma MergeHeadIff(s: string, head: string)
    ensures MergeHead(s) == Some(head) <==> AloneNames(s, head)
    ensures MergeHead(s).None? <==> NothingAlone(s, |s|)
  {
    hide MergeMatches;
    hide StandsAlone;
    hide NothingAlone;
    NothingAloneIff(s, |s|);
    var r := FirstMerge(s, 0);
    if r.Some? {
      MergeIsAlone(s, r.value);
      NothingAloneIff(s, r.value);
    }
    if AloneNames(s, head) {
      var p, group :| 0 <= p && StandsAlone(s, p, group) && NothingAlone(s, p) && Lower(group) == head;
      AloneIsMerge(s, p, group);
      NothingAloneIff(s, p);
      AloneFits(s, p, group);
    }
  }

  lemma AloneFits(s: string, p: nat, head: string)
    requires StandsAlone(s, p, head)
    ensures p < |s|
  {
  }

  /** The merge gate reads a head, one that the reconciler has read or any other, exactly when it follows the
      first marker that stands alone, in the note or else in the label. */
  lemma MergeReadsIff(item: ProofItem, head: string)
    requires item.Record?
    ensures MergeHeadOf(item) == Some(head)
       <==> AloneNames(item.note, head)
            || (NothingAlone(item.note, |item.note|) && AloneNames(item.title, head))
  {
    hide MergeHead;
    hide AloneNames;
    hide NothingAlone;
    MergeHeadIff(item.note, head);
    MergeHeadIff(item.title, head);
  }

  // ---------------------------------------------------------------- one marker, read by the reconciler

  lemma {:induction false} StrippedWord(s: string)
    ensures RStripWhere(s, IsQuotePunctuation) <= s
    ensures forall i :: |RStripWhere(s, IsQuotePunctuation)| <= i < |s| ==> IsQuotePunctuation(s[i])
  {
    if s != [] && IsQuotePunctuation(s[|s| - 1]) {
      StrippedWord(s[..|s| - 1]);
    }
  }

  lemma {:induction false} FirstWordStarts(s: string)
    ensures FirstWord(s) <= s && (|FirstWord(s)| == |s| || IsSpace(s[|FirstWord(s)|]))
  {
    if s != [] && !IsSpace(s[0]) {
      FirstWordStarts(s[1..]);
    }
  }

  lemma {:induction false} RStripBlanks(s: string)
    ensures RStripWhere(s, IsSpace) <= s
    ensures forall i :: |RStripWhere(s, IsSpace)| <= i < |s| ==> IsSpace(s[i])
  {
    if s != [] && IsSpace(s[|s| - 1]) {
      RStripBlanks(s[..|s| - 1]);
    }
  }

  lemma PunctuationIsNoHex(c: char)
    requires IsQuotePunctuation(c) || IsSpace(c)
    ensures !IsHex(c)
  {
  }

  /** Digits right behind the marker that begin the word the reconciler reads are all of it. */
  lemma WordIsRun(s: string, q: nat)
    requires q + |MERGE_MARKER| < |s| && IsHex(s[q + |MERGE_MARKER|]) && IsSha(WordAfter(s, q))
    ensures GroupAt(s, q + |MERGE_MARKER|) == WordAfter(s, q)
  {
    var at := q + |MERGE_MARKER|;
    var rest := s[at..];
    assert rest[0] == s[at];
    LStripKeeps(rest, IsSpace);
    RStripBlanks(rest);
    var kept := RStripWhere(rest, IsSpace);
    FirstWordStarts(kept);
    var word := FirstWord(kept);
    RunOfWord(s, at, kept, word);
  }

  lemma RunOfWord(s: string, at: nat, kept: string, word: string)
    requires at < |s| && IsHex(s[at]) && kept <= s[at..] && word <= kept
    requires forall i :: |kept| <= i < |s[at..]| ==> IsSpace(s[at..][i])
    requires |word| == |kept| || IsSpace(kept[|word|])
    requires IsSha(RStripWhere(LStripWhere(word, IsQuotePunctuation), IsQuotePunctuation))
    ensures GroupAt(s, at) == RStripWhere(LStripWhere(word, IsQuotePunctuation), IsQuotePunctuation)
  {
    assert word == [] ==> LStripWhere(word, IsQuotePunctuation) == [];
    assert word != [] ==> word[0] == kept[0] == s[at..][0] == s[at];
    LStripKeeps(word, IsQuotePunctuation);
    StrippedWord(word);
    var sha := RStripWhere(word, IsQuotePunctuation);
    RunEnds(s, at, sha, word, kept);
  }

  lemma RunEnds(s: string, at: nat, sha: string, word: string, kept: string)
    requires at < |s| && kept <= s[at..] && word <= kept && sha <= word && IsSha(sha)
    requires forall i :: |kept| <= i < |s[at..]| ==> IsSpace(s[at..][i])
    requires |word| == |kept| || IsSpace(kept[|word|])
    requires forall i :: |sha| <= i < |word| ==> IsQuotePunctuation(word[i])
    ensures GroupAt(s, at) == sha
  {
    var n := |sha|;
    assert forall i :: 0 <= i < n ==> s[at + i] == s[at..][i] == kept[i] == word[i] == sha[i];
    if at + n < |s| {
      var c := s[at + n];
      assert c == s[at..][n];
      assert n < |word| ==> c == word[n];
      assert n == |word| < |kept| ==> c == kept[n];
      PunctuationIsNoHex(c);
    }
    assert forall i :: at <= i < at + n ==> IsHex(s[i]) by {
      assert forall i :: at <= i < at + n ==> s[i] == sha[i - at];
    }
    assert s[at..at + n] == sha;
  }

  lemma RunStarts(s: string, at: nat)
    requires HasCompletionTail(s, at)
    ensures at < |s| && IsHex(s[at])
  {
    var k: nat :| k <= 64 && IsCompletionTail(s, at, k);
    assert s[at] == s[at..at + k][0];
  }

  lemma FirstMarkerOnly(s: string, p: nat)
    requires OnlyMarkerAt(s, p)
    ensures IsFirstMarker(s, p) && p + |MERGE_MARKER| <= |s|
  {
    assert |Upper(s)| == |s|;
  }

  /** On a field with one marker whose head the reconciler reads, the merge gate reads it exactly when it
      stands alone, and the completion gate exactly when it stands right behind the marker. */
  lemma ReadHeadIsSharedIff(s: string, p: nat)
    requires OnlyMarkerAt(s, p) && ReadField(s, MERGE_MARKER).Head?
    ensures MergeHead(s).Some? <==> StandsAlone(s, p, ReadField(s, MERGE_MARKER).sha)
    ensures CompletionHead(s, MERGE_MARKER).Some? <==> StandsBehind(s, p, ReadField(s, MERGE_MARKER).sha)
  {
    hide StandsAlone;
    hide StandsBehind;
    FirstMarkerOnly(s, p);
    FirstMarkerReads(s, p);
    var at, sha := p + |MERGE_MARKER|, WordAfter(s, p);
    if HasCompletionTail(s, at) {
      RunStarts(s, at);
      WordIsRun(s, p);
    }
    MergeOfOnly(s, p, sha);
    CompletionOfOnly(s, p, sha);
  }

  lemma MergeOfOnly(s: string, p: nat, sha: string)
    requires OnlyMarkerAt(s, p) && p + |MERGE_MARKER| <= |s|
    requires HasCompletionTail(s, p + |MERGE_MARKER|) ==> GroupAt(s, p + |MERGE_MARKER|) == sha
    ensures MergeHead(s).Some? <==> StandsAlone(s, p, sha)
  {
    hide StandsAlone;
    hide MergeMatches;
    hide HasMergeTail;
    hide HasCompletionTail;
    hide GroupAt;
    if MergeHead(s).Some? {
      PositionsAgree(s, p);
      TailsAgree(s, p + |MERGE_MARKER|);
      MergeIsAlone(s, p);
    }
    if StandsAlone(s, p, sha) {
      AloneIsMerge(s, p, sha);
    }
  }

  lemma CompletionOfOnly(s: string, p: nat, sha: string)
    requires OnlyMarkerAt(s, p) && p + |MERGE_MARKER| <= |s|
    requires HasCompletionTail(s, p + |MERGE_MARKER|) ==> GroupAt(s, p + |MERGE_MARKER|) == sha
    ensures CompletionHead(s, MERGE_MARKER).Some? <==> StandsBehind(s, p, sha)
  {
    if CompletionHead(s, MERGE_MARKER).Some? {
      MatchIsBehind(s, p);
    }
    if StandsBehind(s, p, sha) {
      BehindIsMatch(s, p, sha);
      assert CompletionMatches(s, MERGE_MARKER, p);
    }
  }

  // ---------------------------------------------------------------- records on which the readers differ

  lemma MarkerThen(tail: string)
    requires ':' !in tail
    ensures OnlyMarkerAt(MERGE_MARKER + tail, 0)
  {
    var s, m := MERGE_MARKER + tail, |MERGE_MARKER|;
    assert s[0..m] == MERGE_MARKER;
    MarkerInUpper(s, 0);
    assert forall i :: m <= i < |s| ==> s[i] == tail[i - m] && s[i] in tail;
    forall q: nat | OccursAt(Upper(s), MERGE_MARKER, q) ensures q == 0 {
      assert Upper(s)[q + m - 1] == Upper(s)[q..q + m][m - 1] == ':';
    }
  }

  lemma GroupHasNoColon(a: string)
    requires IsSha(a)
    ensures ':' !in a && !IsSpace(a[0]) && !IsSpace(a[|a| - 1])
    ensures !IsQuotePunctuation(a[0]) && !IsQuotePunctuation(a[|a| - 1])
  {
  }

  lemma {:induction false} NoBlankIsWord(s: string)
    requires forall i :: 0 <= i < |s| ==> !IsSpace(s[i])
    ensures FirstWord(s) == s && Strip(s) == s
  {
    if s != [] {
      NoBlankIsWord(s[1..]);
    }
  }

  lemma ShaHasNoBlank(a: string)
    requires IsSha(a)
    ensures forall i :: 0 <= i < |a| ==> !IsSpace(a[i])
  {
  }

  /** The first marker decides, whatever text without a colon follows it. */
  lemma OnlyMarkerReads(tail: string, sha: string)
    requires ':' !in tail && IsSha(sha) && Strip(tail) != ""
    requires RStripWhere(LStripWhere(FirstWord(Strip(tail)), IsQuotePunctuation), IsQuotePunctuation) == sha
    ensures var s := MERGE_MARKER + tail;
            && ReadField(s, MERGE_MARKER) == Head(sha)
            && (MergeHead(s).Some? <==> StandsAlone(s, 0, sha))
            && (CompletionHead(s, MERGE_MARKER).Some? <==> StandsBehind(s, 0, sha))
  {
    hide StandsAlone;
    hide StandsBehind;
    hide IsSha;
    hide MergeHead;
    hide CompletionHead;
    var s := MERGE_MARKER + tail;
    MarkerThen(tail);
    FirstMarkerOnly(s, 0);
    FirstMarkerReads(s, 0);
    assert s[|MERGE_MARKER|..] == tail;
    ReadHeadIsSharedIff(s, 0);
  }

  lemma StopIsStripped(a: string)
    requires IsSha(a)
    ensures ':' !in a + "." && Strip(a + ".") == a + "." && FirstWord(a + ".") == a + "."
    ensures RStripWhere(LStripWhere(a + ".", IsQuotePunctuation), IsQuotePunctuation) == a
  {
    GroupHasNoColon(a);
    ShaHasNoBlank(a);
    NoBlankIsWord(a + ".");
    assert (a + ".")[..|a|] == a;
  }

  lemma FullStopStands(a: string)
    requires IsSha(a)
    ensures var s := MERGE_MARKER + (a + "."); StandsBehind(s, 0, a) && !StandsAlone(s, 0, a)
  {
    var s, m := MERGE_MARKER + (a + "."), |MERGE_MARKER|;
    assert s[m + |a|] == '.' && s[m..m + |a|] == a;
  }

  /** A head with a full stop behind it: read by the reconciler and the completion gate only. */
  lemma FullStopReads(a: string)
    requires IsSha(a)
    ensures var s := MERGE_MARKER + (a + ".");
            && MergeHead(s).None? && CompletionHead(s, MERGE_MARKER) == Some(a)
            && ReadField(s, MERGE_MARKER) == Head(a)
  {
    hide *;
    var s := MERGE_MARKER + (a + ".");
    StopIsStripped(a);
    MarkerThen(a + ".");
    FullStopStands(a);
    OnlyMarkerReads(a + ".", a);
    BehindIsMatch(s, 0, a);
    OnlyMatchReads(s, 0);
  }

  lemma OnlyMatchReads(s: string, p: nat)
    requires OnlyMarkerAt(s, p) && CompletionHead(s, MERGE_MARKER).Some?
    ensures p + |MERGE_MARKER| <= |s| && CompletionHead(s, MERGE_MARKER) == Some(GroupAt(s, p + |MERGE_MARKER|))
  {
  }

  /** A head right behind the marker and nothing else: read by all three. */
  lemma BareReads(a: string)
    requires IsSha(a)
    ensures MergeHead(MERGE_MARKER + a) == Some(Lower(a))
  {
    var s, m := MERGE_MARKER + a, |MERGE_MARKER|;
    assert s[0..m] == MERGE_MARKER && s[m..m + |a|] == a;
    AloneIsMerge(s, 0, a);
  }

  /** One marker in each field can suffice for a disagreement: the merge gate passes over the note because of
      its full stop and reads the label, while the other two read the note. */
  lemma FieldsDisagree(item: ProofItem, a: string, b: string)
    requires IsSha(a) && IsSha(b) && Lower(a) != Lower(b)
    requires item.Record? && item.note == MERGE_MARKER + (a + ".") && item.title == MERGE_MARKER + b
    ensures MergeHeadOf(item) == Some(Lower(b))
    ensures CompletionHeadOf(item, MERGE_MARKER) == Some(a) && ReadMarker(item, MERGE_MARKER) == Head(a)
  {
    FullStopReads(a);
    BareReads(b);
  }

  lemma BlankIsStripped(a: string)
    requires IsSha(a)
    ensures ':' !in " " + a && Strip(" " + a) == a && FirstWord(a) == a
    ensures RStripWhere(LStripWhere(a, IsQuotePunctuation), IsQuotePunctuation) == a
  {
    GroupHasNoColon(a);
    ShaHasNoBlank(a);
    NoBlankIsWord(a);
    assert (" " + a)[1..] == a;
  }

  /** A blank before the head: read by the reconciler, by neither gate. */
  lemma BlankHidesHead(a: string)
    requires IsSha(a)
    ensures var s := MERGE_MARKER + (" " + a);
            && ReadField(s, MERGE_MARKER) == Head(a)
            && MergeHead(s).None? && CompletionHead(s, MERGE_MARKER).None?
  {
    hide ReadField;
    hide MergeHead;
    hide CompletionHead;
    var s, m := MERGE_MARKER + (" " + a), |MERGE_MARKER|;
    BlankIsStripped(a);
    GroupHasNoColon(a);
    OnlyMarkerReads(" " + a, a);
    assert s[m] == ' ' && (m + |a| <= |s| ==> s[m..m + |a|][0] == s[m]);
  }
}
