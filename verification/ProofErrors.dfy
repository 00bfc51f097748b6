/**
 The one exception of the proof check: taking the first word after a final-review marker that nothing
 follows raises an `IndexError`.
 */
module ProofErrors {
  import opened Wrappers
  import opened Text
  import opened Cards

  datatype ProofError = IndexError

  predicate IsBlank(s: string) {
    forall i :: 0 <= i < |s| ==> IsSpace(s[i])
  }

  /** The first marker of the text, in any case, is followed by blanks only. */
  ghost predicate EndsAtMarker(text: string, marker: string) {
    exists at: nat ::
      && OccursAt(Upper(text), marker, at) && (forall i :: 0 <= i < at ==> !OccursAt(Upper(text), marker, i))
      && at + |marker| <= |text| && IsBlank(text[at + |marker|..])
  }

  lemma {:induction false} LStripEmptyIff(s: string)
    ensures LStripWhere(s, IsSpace) == "" <==> IsBlank(s)
  {
    if s != [] && IsSpace(s[0]) {
      LStripEmptyIff(s[1..]);
      assert forall i :: 0 < i < |s| ==> s[i] == s[1..][i - 1];
      assert IsBlank(s[1..]) ==> IsBlank(s);
      assert IsBlank(s) ==> IsBlank(s[1..]);
    }
  }

  lemma {:induction false} RStripKeepsFirst(s: string)
    requires s != [] && !IsSpace(s[0])
    ensures RStripWhere(s, IsSpace) != ""
  {
    if IsSpace(s[|s| - 1]) {
      RStripKeepsFirst(s[..|s| - 1]);
    }
  }

  lemma {:induction false} LStripStarts(s: string)
    ensures LStripWhere(s, IsSpace) != "" ==> !IsSpace(LStripWhere(s, IsSpace)[0])
  {
    if s != [] && IsSpace(s[0]) {
      LStripStarts(s[1..]);
    }
  }

  lemma StripEmptyIff(s: string)
    ensures Strip(s) == "" <==> IsBlank(s)
  {
    LStripEmptyIff(s);
    LStripStarts(s);
    if LStripWhere(s, IsSpace) != "" {
      RStripKeepsFirst(LStripWhere(s, IsSpace));
    }
  }

  /** Reading one field raises exactly when its first marker is followed by blanks only. */
  lemma FieldRaisesIff(text: string, marker: string)
    ensures ReadField(text, marker).Raises? <==> EndsAtMarker(text, marker)
  {
    var r := Find(Upper(text), marker);
    assert |Upper(text)| == |text|;
    if r.Some? {
      StripEmptyIff(text[r.value + |marker|..]);
    }
  }

  /** The proof check raises exactly for a final review whose newest passed record has a bare marker in its
      note, or no commit in its note and a bare marker in its label. */
  lemma ProofRaisesIff(policy: CompletionPolicy, card: Card)
    ensures ProofRaises(policy, card)
       <==> && CardStage(card) == Some(FinalReview) && LatestProof(card).Some?
            && var item, marker := LatestProof(card).value, PolicyMarker(policy);
               || EndsAtMarker(item.note, marker)
               || (!ReadField(item.note, marker).Head? && EndsAtMarker(item.title, marker))
  {
    if LatestProof(card).Some? {
      FieldRaisesIff(LatestProof(card).value.note, PolicyMarker(policy));
      FieldRaisesIff(LatestProof(card).value.title, PolicyMarker(policy));
    }
  }

  lemma MarkerIsUpper(policy: CompletionPolicy)
    ensures Upper(PolicyMarker(policy)) == PolicyMarker(policy)
  {
  }

  lemma BareFieldRaises(marker: string, blanks: string)
    requires Upper(marker) == marker && IsBlank(blanks)
    ensures EndsAtMarker(marker + blanks, marker)
  {
    var text := marker + blanks;
    assert Upper(text)[0..|marker|] == Upper(marker);
    assert text[0 + |marker|..] == blanks;
    assert OccursAt(Upper(text), marker, 0);
  }

  /** A note that is the marker and blanks raises, whatever the label says. */
  lemma BareMarkerRaises(policy: CompletionPolicy, card: Card, blanks: string)
    requires CardStage(card) == Some(FinalReview) && LatestProof(card).Some? && IsBlank(blanks)
    requires LatestProof(card).value.note == PolicyMarker(policy) + blanks
    ensures ProofRaises(policy, card)
  {
    hide PolicyMarker;
    hide ProofRaises;
    MarkerIsUpper(policy);
    BareFieldRaises(PolicyMarker(policy), blanks);
    ProofRaisesIff(policy, card);
  }

  // ---------------------------------------------------------------- the check itself

  predicate IsSilent(reading: FieldReading) {
    reading.NoMarker? || reading.BadHead?
  }

  lemma RaisingField(policy: CompletionPolicy, card: Card)
    requires CardStage(card) == Some(FinalReview) && LatestProof(card).Some?
    requires ReadMarker(LatestProof(card).value, PolicyMarker(policy)).Raises?
    ensures AnyRaises(policy, [card])
  {
    assert card in [card];
  }

  /** `_has_valid_proof`: the newest passed record, then its note and its label. */
  method CheckProof(policy: CompletionPolicy, card: Card) returns (r: Result<bool, ProofError>)
    ensures r == Verdict(policy, [card], HasValidProof(policy, card))
  {
    hide ReadField;
    var latest := LatestProof(card);
    if latest.None? {
      return Ok(false);
    }
    if CardStage(card) != Some(FinalReview) {
      return Ok(true);
    }
    var marker := PolicyMarker(policy);
    var fields := [latest.value.note, latest.value.title];
    for n := 0 to 2
      invariant n > 0 ==> IsSilent(ReadField(fields[0], marker))
      invariant n > 1 ==> IsSilent(ReadField(fields[1], marker))
    {
      var reading := ReadField(fields[n], marker);
      if reading.Raises? {
        RaisingField(policy, card);
        return Err(IndexError);
      }
      if reading.Head? {
        return Ok(true);
      }
    }
    r := Ok(false);
  }

  // ---------------------------------------------------------------- checks of many cards

  /** Some of the cards makes the proof check raise. */
  predicate AnyRaises(policy: CompletionPolicy, consulted: seq<Card>) {
    exists c | c in consulted :: ProofRaises(policy, c)
  }

  /** The outcome of an inspection that consults the proof of some cards: their first error, or a value. */
  function Verdict<T>(policy: CompletionPolicy, consulted: seq<Card>, value: T): Result<T, ProofError> {
    if AnyRaises(policy, consulted) then Err(IndexError) else Ok(value)
  }

  lemma AnyRaisesConcat(policy: CompletionPolicy, xs: seq<Card>, ys: seq<Card>)
    ensures AnyRaises(policy, xs + ys) <==> AnyRaises(policy, xs) || AnyRaises(policy, ys)
  {
  }

  lemma AnyRaisesNone(policy: CompletionPolicy)
    ensures !AnyRaises(policy, [])
  {
  }
}
