/**
 Cutting evidence sections into batches of bounded size: nothing is lost, no batch is empty or too
 long, every piece of content follows a marker that names its section, and the one way to stall.
 */
module Batching {
  import opened Wrappers

  datatype Section = Section(title: string, content: string)

  const BASELINE_BATCH_CHARS: nat := 24_000

  function Marker(s: Section, continued: bool): string {
    s.title + (if continued then " (continued)" else "") + "\n"
  }

  /** A marker is the title on a line of its own; in later batches it says that the section goes on. */
  lemma MarkersAre(s: Section)
    ensures Marker(s, false) == s.title + ['\n']
    ensures Marker(s, true) == s.title + " (continued)" + ['\n'] && |Marker(s, true)| == |Marker(s, false)| + 12
  {
  }

  // ---------------------------------------------------------------- the layout of batches

  /** A marker and the content that follows it. */
  datatype Piece = Piece(section: nat, continued: bool, text: string)

  ghost function Rendered(sections: seq<Section>, pieces: seq<Piece>): string
    requires forall p :: p in pieces ==> p.section < |sections|
  {
    if pieces == [] then ""
    else
      var last := pieces[|pieces| - 1];
      Rendered(sections, pieces[..|pieces| - 1]) + Marker(sections[last.section], last.continued) + last.text
  }

  /** What the pieces of a section add up to, in order. */
  ghost function ContentOf(pieces: seq<Piece>, section: nat): string {
    if pieces == [] then ""
    else
      var earlier := ContentOf(pieces[..|pieces| - 1], section);
      var last := pieces[|pieces| - 1];
      if last.section == section then earlier + last.text else earlier
  }

  ghost function Flattened(layout: seq<seq<Piece>>): seq<Piece> {
    if layout == [] then [] else Flattened(layout[..|layout| - 1]) + layout[|layout| - 1]
  }

  ghost predicate HasPiece(pieces: seq<Piece>, section: nat) {
    exists p :: p in pieces && p.section == section
  }

  /** Sections come in order, and exactly the first piece of each has the plain marker. */
  ghost predicate InOrderAt(pieces: seq<Piece>, i: nat)
    requires i < |pieces|
  {
    && (forall k :: 0 <= k < i ==> pieces[k].section <= pieces[i].section)
    && (pieces[i].continued <==> HasPiece(pieces[..i], pieces[i].section))
  }

  ghost predicate InOrder(pieces: seq<Piece>) {
    forall i :: 0 <= i < |pieces| ==> InOrderAt(pieces, i)
  }

  ghost predicate IsBatch(sections: seq<Section>, pieces: seq<Piece>, batch: string, limit: nat) {
    && (forall p :: p in pieces ==> p.section < |sections|)
    && batch == Rendered(sections, pieces)
    && 0 < |batch| <= limit
  }

  /** The batches are exactly the markers and pieces of the layout, each within the limit. */
  ghost predicate IsLayout(sections: seq<Section>, layout: seq<seq<Piece>>, batches: seq<string>, limit: nat) {
    && |layout| == |batches|
    && forall k :: 0 <= k < |batches| ==> IsBatch(sections, layout[k], batches[k], limit)
  }

  /** Nothing is lost: the pieces of every section add up to its content. */
  ghost predicate IsLossless(sections: seq<Section>, pieces: seq<Piece>) {
    && InOrder(pieces)
    && forall s :: 0 <= s < |sections| ==> HasPiece(pieces, s) && ContentOf(pieces, s) == sections[s].content
  }

  // ---------------------------------------------------------------- the state between two pieces

  /** `layout` and `open` describe `batches` and `current`; `pieces` lists all of them. */
  ghost predicate IsState(sections: seq<Section>, layout: seq<seq<Piece>>, open: seq<Piece>,
                          batches: seq<string>, current: string, limit: nat)
  {
    && IsLayout(sections, layout, batches, limit)
    && (forall p :: p in open ==> p.section < |sections|)
    && current == Rendered(sections, open) && |current| <= limit
    && (open == [] <==> current == "")
  }

  lemma ClosedBatch(sections: seq<Section>, layout: seq<seq<Piece>>, open: seq<Piece>,
                    batches: seq<string>, current: string, limit: nat)
    requires IsState(sections, layout, open, batches, current, limit) && current != ""
    ensures IsState(sections, layout + [open], [], batches + [current], "", limit)
    ensures Flattened(layout + [open]) == Flattened(layout) + open
  {
    assert (layout + [open])[..|layout|] == layout;
  }

  lemma AddedPiece(sections: seq<Section>, layout: seq<seq<Piece>>, open: seq<Piece>,
                   batches: seq<string>, current: string, limit: nat, p: Piece)
    requires IsState(sections, layout, open, batches, current, limit) && p.section < |sections|
    requires |current| + |Marker(sections[p.section], p.continued)| + |p.text| <= limit
    ensures IsState(sections, layout, open + [p], batches,
                    current + Marker(sections[p.section], p.continued) + p.text, limit)
  {
    assert (open + [p])[..|open|] == open;
    assert |Marker(sections[p.section], p.continued)| > 0;
  }

  /** Which pieces exist once the first `s` sections and `offset` characters of the next are placed. */
  ghost predicate IsPlaced(sections: seq<Section>, pieces: seq<Piece>, s: nat, offset: nat, continued: bool) {
    && s <= |sections| && InOrder(pieces)
    && (forall p :: p in pieces ==> p.section <= s)
    && (forall t :: 0 <= t < s ==> HasPiece(pieces, t) && ContentOf(pieces, t) == sections[t].content)
    && (s < |sections| ==> offset <= |sections[s].content| && ContentOf(pieces, s) == sections[s].content[..offset])
    && (HasPiece(pieces, s) <==> continued)
  }

  lemma {:induction false} NoPieceNoContent(pieces: seq<Piece>, s: nat)
    requires !HasPiece(pieces, s)
    ensures ContentOf(pieces, s) == ""
  {
    if pieces != [] {
      assert pieces[|pieces| - 1] in pieces;
      forall p | p in pieces[..|pieces| - 1] ensures p in pieces {
      }
      NoPieceNoContent(pieces[..|pieces| - 1], s);
    }
  }

  lemma PlacedPiece(sections: seq<Section>, pieces: seq<Piece>, s: nat, offset: nat, continued: bool, take: nat)
    requires s < |sections| && IsPlaced(sections, pieces, s, offset, continued)
    requires offset + take <= |sections[s].content|
    ensures IsPlaced(sections, pieces + [Piece(s, continued, sections[s].content[offset..offset + take])], s,
                     offset + take, true)
  {
    var p := Piece(s, continued, sections[s].content[offset..offset + take]);
    var more := pieces + [p];
    assert more[..|pieces|] == pieces && p in more;
    forall i | 0 <= i < |more| ensures InOrderAt(more, i) {
      assert more[..i] == pieces[..i];
      assert i < |pieces| ==> InOrderAt(pieces, i);
      assert i == |pieces| ==> forall k :: 0 <= k < i ==> pieces[k] in pieces;
    }
    forall t | 0 <= t < s ensures HasPiece(more, t) {
      assert HasPiece(pieces, t);
      var q :| q in pieces && q.section == t;
      assert q in more;
    }
    assert sections[s].content[..offset] + p.text == sections[s].content[..offset + take];
  }

  lemma SectionDone(sections: seq<Section>, pieces: seq<Piece>, s: nat)
    requires s < |sections| && IsPlaced(sections, pieces, s, |sections[s].content|, true)
    ensures IsPlaced(sections, pieces, s + 1, 0, false)
  {
    assert sections[s].content[..|sections[s].content|] == sections[s].content;
    assert !HasPiece(pieces, s + 1);
    NoPieceNoContent(pieces, s + 1);
  }

  /** A point in the loop over section `s`. */
  ghost predicate IsPoint(sections: seq<Section>, layout: seq<seq<Piece>>, open: seq<Piece>,
                          batches: seq<string>, current: string, limit: nat, s: nat, offset: nat, continued: bool)
  {
    && IsState(sections, layout, open, batches, current, limit)
    && IsPlaced(sections, Flattened(layout) + open, s, offset, continued)
  }

  lemma Closed(sections: seq<Section>, layout: seq<seq<Piece>>, open: seq<Piece>,
               batches: seq<string>, current: string, limit: nat, s: nat, offset: nat, continued: bool)
    requires IsPoint(sections, layout, open, batches, current, limit, s, offset, continued) && current != ""
    ensures IsPoint(sections, layout + [open], [], batches + [current], "", limit, s, offset, continued)
  {
    ClosedBatch(sections, layout, open, batches, current, limit);
    assert Flattened(layout + [open]) + [] == Flattened(layout) + open;
  }

  lemma Added(sections: seq<Section>, layout: seq<seq<Piece>>, open: seq<Piece>,
              batches: seq<string>, current: string, limit: nat, s: nat, offset: nat, continued: bool, take: nat)
    requires IsPoint(sections, layout, open, batches, current, limit, s, offset, continued)
    requires s < |sections| && offset + take <= |sections[s].content|
    requires |current| + |Marker(sections[s], continued)| + take <= limit
    ensures var text := sections[s].content[offset..offset + take];
            IsPoint(sections, layout, open + [Piece(s, continued, text)], batches,
                    current + Marker(sections[s], continued) + text, limit, s, offset + take, true)
  {
    var p := Piece(s, continued, sections[s].content[offset..offset + take]);
    AddedPiece(sections, layout, open, batches, current, limit, p);
    PlacedPiece(sections, Flattened(layout) + open, s, offset, continued, take);
    assert Flattened(layout) + open + [p] == Flattened(layout) + (open + [p]);
  }

  /** A piece that ends its batch. */
  lemma AddedAndClosed(sections: seq<Section>, layout: seq<seq<Piece>>, open: seq<Piece>,
                       batches: seq<string>, current: string, limit: nat, s: nat, offset: nat, continued: bool,
                       take: nat)
    requires IsPoint(sections, layout, open, batches, current, limit, s, offset, continued)
    requires s < |sections| && offset + take <= |sections[s].content|
    requires |current| + |Marker(sections[s], continued)| + take <= limit
    ensures var text := sections[s].content[offset..offset + take];
            IsPoint(sections, layout + [open + [Piece(s, continued, text)]], [],
                    batches + [current + Marker(sections[s], continued) + text], "", limit, s, offset + take, true)
  {
    Added(sections, layout, open, batches, current, limit, s, offset, continued, take);
    var text := sections[s].content[offset..offset + take];
    Closed(sections, layout, open + [Piece(s, continued, text)], batches,
           current + Marker(sections[s], continued) + text, limit, s, offset + take, true);
  }

  /** A piece that ends its section. */
  lemma AddedLast(sections: seq<Section>, layout: seq<seq<Piece>>, open: seq<Piece>,
                  batches: seq<string>, current: string, limit: nat, s: nat, offset: nat, continued: bool, take: nat)
    requires IsPoint(sections, layout, open, batches, current, limit, s, offset, continued)
    requires s < |sections| && offset + take == |sections[s].content|
    requires |current| + |Marker(sections[s], continued)| + take <= limit
    ensures var text := sections[s].content[offset..offset + take];
            IsPoint(sections, layout, open + [Piece(s, continued, text)], batches,
                    current + Marker(sections[s], continued) + text, limit, s + 1, 0, false)
  {
    Added(sections, layout, open, batches, current, limit, s, offset, continued, take);
    SectionDone(sections,
                Flattened(layout) + (open + [Piece(s, continued, sections[s].content[offset..offset + take])]), s);
  }

  // ---------------------------------------------------------------- the chunker

  /** The loop variables of one section. */
  datatype Loop = Loop(batches: seq<string>, current: string, offset: nat, continuation: bool)

  datatype Outcome = More(state: Loop) | Finished(batches: seq<string>, current: string) | Raised

  /** One iteration of the loop over a section. */
  function Iterate(s: Section, state: Loop, limit: nat): Outcome
    requires |state.current| <= limit && state.offset <= |s.content|
  {
    var marker := Marker(s, state.continuation);
    var flush := state.current != "" && |state.current| + |marker| > limit;
    if |marker| > limit then Raised
    else
      var current := (if flush then "" else state.current) + marker;
      var available := limit - |current|;
      var take := if |s.content| - state.offset <= available then |s.content| - state.offset else available;
      var full := current + s.content[state.offset..state.offset + take];
      var batches := if flush then state.batches + [state.current] else state.batches;
      if state.offset + take == |s.content| then Finished(batches, full)
      else More(Loop(batches + [full], "", state.offset + take, true))
  }

  ghost predicate IsLoopState(s: Section, state: Loop, limit: nat) {
    |state.current| <= limit && state.offset <= |s.content|
  }

  ghost function After(s: Section, state: Loop, limit: nat, n: nat): Outcome
    requires IsLoopState(s, state, limit)
    ensures After(s, state, limit, n).More? ==> IsLoopState(s, After(s, state, limit, n).state, limit)
  {
    if n == 0 then More(state)
    else
      match After(s, state, limit, n - 1)
      case More(state') => Iterate(s, state', limit)
      case other => other
  }

  /** Closing a full batch first does not change what an iteration does. */
  function Flushed(s: Section, state: Loop, limit: nat): Loop {
    if state.current != "" && |state.current| + |Marker(s, state.continuation)| > limit
    then state.(batches := state.batches + [state.current], current := "") else state
  }

  lemma FlushFirst(s: Section, state: Loop, limit: nat)
    requires IsLoopState(s, state, limit)
    ensures IsLoopState(s, Flushed(s, state, limit), limit)
    ensures Iterate(s, state, limit) == Iterate(s, Flushed(s, state, limit), limit)
  {
  }

  ghost predicate IsPointOf(sections: seq<Section>, s: nat, o: Outcome, limit: nat, layout: seq<seq<Piece>>,
                            open: seq<Piece>)
  {
    match o
    case More(next) =>
      IsPoint(sections, layout, open, next.batches, next.current, limit, s, next.offset, next.continuation)
    case Finished(batches, current) => IsPoint(sections, layout, open, batches, current, limit, s + 1, 0, false)
    case Raised => true
  }

  function TakeOf(s: Section, state: Loop, limit: nat): nat
    requires IsLoopState(s, state, limit) && |state.current| + |Marker(s, state.continuation)| <= limit
  {
    var available := limit - |state.current| - |Marker(s, state.continuation)|;
    if |s.content| - state.offset <= available then |s.content| - state.offset else available
  }

  lemma IterateWrites(s: Section, state: Loop, limit: nat)
    requires IsLoopState(s, state, limit) && |state.current| + |Marker(s, state.continuation)| <= limit
    ensures var end := state.offset + TakeOf(s, state, limit);
            var full := state.current + Marker(s, state.continuation) + s.content[state.offset..end];
            Iterate(s, state, limit) == if end == |s.content| then Finished(state.batches, full)
                                        else More(Loop(state.batches + [full], "", end, true))
  {
  }

  ghost function PieceOf(sections: seq<Section>, s: nat, state: Loop, limit: nat): Piece
    requires s < |sections| && IsLoopState(sections[s], state, limit)
    requires |state.current| + |Marker(sections[s], state.continuation)| <= limit
  {
    Piece(s, state.continuation, sections[s].content[state.offset..state.offset + TakeOf(sections[s], state, limit)])
  }

  ghost predicate CanWrite(sections: seq<Section>, s: nat, state: Loop, limit: nat, layout: seq<seq<Piece>>,
                           open: seq<Piece>)
  {
    && s < |sections|
    && IsPoint(sections, layout, open, state.batches, state.current, limit, s, state.offset, state.continuation)
    && |state.current| + |Marker(sections[s], state.continuation)| <= limit
  }

  lemma WriteLast(sections: seq<Section>, s: nat, state: Loop, limit: nat, layout: seq<seq<Piece>>, open: seq<Piece>)
    requires CanWrite(sections, s, state, limit, layout, open) && Iterate(sections[s], state, limit).Finished?
    ensures IsPointOf(sections, s, Iterate(sections[s], state, limit), limit, layout,
                      open + [PieceOf(sections, s, state, limit)])
  {
    IterateWrites(sections[s], state, limit);
    hide IsPoint;
    AddedLast(sections, layout, open, state.batches, state.current, limit, s, state.offset, state.continuation,
              TakeOf(sections[s], state, limit));
  }

  lemma WriteMore(sections: seq<Section>, s: nat, state: Loop, limit: nat, layout: seq<seq<Piece>>, open: seq<Piece>)
    requires CanWrite(sections, s, state, limit, layout, open) && Iterate(sections[s], state, limit).More?
    ensures IsPointOf(sections, s, Iterate(sections[s], state, limit), limit,
                      layout + [open + [PieceOf(sections, s, state, limit)]], [])
  {
    hide IsPoint;
    IterateWrites(sections[s], state, limit);
    AddedAndClosed(sections, layout, open, state.batches, state.current, limit, s, state.offset, state.continuation,
                   TakeOf(sections[s], state, limit));
  }

  /** The point that one iteration leads to, when the batch has room for the marker. */
  lemma WriteKeepsPoint(sections: seq<Section>, s: nat, state: Loop, limit: nat, layout: seq<seq<Piece>>,
                        open: seq<Piece>)
    returns (layout': seq<seq<Piece>>, open': seq<Piece>)
    requires CanWrite(sections, s, state, limit, layout, open)
    ensures IsPointOf(sections, s, Iterate(sections[s], state, limit), limit, layout', open')
  {
    IterateWrites(sections[s], state, limit);
    if Iterate(sections[s], state, limit).Finished? {
      WriteLast(sections, s, state, limit, layout, open);
      layout', open' := layout, open + [PieceOf(sections, s, state, limit)];
    } else {
      WriteMore(sections, s, state, limit, layout, open);
      layout', open' := layout + [open + [PieceOf(sections, s, state, limit)]], [];
    }
  }

  lemma {:induction false} RunKeepsPoint(sections: seq<Section>, s: nat, state: Loop, limit: nat, n: nat,
                                         layout: seq<seq<Piece>>, open: seq<Piece>)
    returns (layout': seq<seq<Piece>>, open': seq<Piece>)
    requires s < |sections| && IsPointOf(sections, s, More(state), limit, layout, open)
    ensures IsPointOf(sections, s, After(sections[s], state, limit, n), limit, layout', open')
  {
    layout', open' := layout, open;
    if n > 0 {
      layout', open' := RunKeepsPoint(sections, s, state, limit, n - 1, layout, open);
      var o := After(sections[s], state, limit, n - 1);
      if o.More? {
        layout', open' := StepKeepsPoint(sections, s, o.state, limit, layout', open');
      }
    }
  }

  lemma StepKeepsPoint(sections: seq<Section>, s: nat, state: Loop, limit: nat, layout: seq<seq<Piece>>,
                       open: seq<Piece>)
    returns (layout': seq<seq<Piece>>, open': seq<Piece>)
    requires s < |sections| && IsPointOf(sections, s, More(state), limit, layout, open)
    ensures IsPointOf(sections, s, Iterate(sections[s], state, limit), limit, layout', open')
  {
    layout', open' := layout, open;
    FlushFirst(sections[s], state, limit);
    if Flushed(sections[s], state, limit) != state {
      Closed(sections, layout, open, state.batches, state.current, limit, s, state.offset, state.continuation);
      layout', open' := layout + [open], [];
    }
    if |Marker(sections[s], state.continuation)| <= limit {
      layout', open' := WriteKeepsPoint(sections, s, Flushed(sections[s], state, limit), limit, layout', open');
    }
  }

  /** A limit that no continued marker meets exactly. */
  predicate Progresses(sections: seq<Section>, limit: nat) {
    forall s | s in sections :: |Marker(s, true)| != limit
  }

  /** The loop over one section; `None` is the `ValueError` for an oversized title. */
  method PlaceSection(s: Section, batches0: seq<string>, current0: string, limit: nat)
    returns (r: Option<(seq<string>, string)>)
    requires |current0| <= limit && |Marker(s, true)| != limit
    ensures r.Some? ==> |Marker(s, false)| <= limit
    ensures r.None? ==> |Marker(s, true)| > limit
    ensures exists n: nat :: After(s, Loop(batches0, current0, 0, false), limit, n)
                             == if r.Some? then Finished(r.value.0, r.value.1) else Raised
  {
    ghost var start, n: nat := Loop(batches0, current0, 0, false), 0;
    var batches, current := batches0, current0;
    var content := s.content;
    var offset: nat := 0;
    var continuation := false;
    while true
      invariant |current| <= limit && offset <= |content|
      invariant After(s, start, limit, n) == More(Loop(batches, current, offset, continuation))
      invariant continuation ==> current == "" && offset < |content| && |Marker(s, false)| <= limit
      decreases if continuation then 0 else 1, |content| - offset
    {
      ghost var next := Iterate(s, Loop(batches, current, offset, continuation), limit);
      n := n + 1;
      assert After(s, start, limit, n) == next;
      var marker := Marker(s, continuation);
      if current != "" && |current| + |marker| > limit {
        batches := batches + [current];
        current := "";
      }
      if |marker| > limit {
        return None;
      }
      current := current + marker;
      var available := limit - |current|;
      var take := if |content| - offset <= available then |content| - offset else available;
      current := current + content[offset..offset + take];
      offset := offset + take;
      if offset < |content| {
        batches := batches + [current];
        current := "";
        continuation := true;
      } else {
        return Some((batches, current));
      }
    }
  }

  /** `baseline_batches`.  With a limit that no continued marker meets exactly it terminates; it
      raises only for a title that does not fit, and otherwise the batches are within the limit, not
      empty, and hold the content of every section piece by piece behind its markers. */
  method BaselineBatches(sections: seq<Section>, limit: nat)
    returns (r: Option<seq<string>>, ghost layout: seq<seq<Piece>>)
    requires Progresses(sections, limit)
    ensures r.Some? ==> IsLayout(sections, layout, r.value, limit) && IsLossless(sections, Flattened(layout))
    ensures r.Some? ==> forall s :: s in sections ==> |Marker(s, false)| <= limit
    ensures r.None? ==> exists s :: s in sections && |Marker(s, true)| > limit
  {
    var batches: seq<string> := [];
    var current := "";
    layout := [];
    ghost var open: seq<Piece> := [];
    for s := 0 to |sections|
      invariant IsPoint(sections, layout, open, batches, current, limit, s, 0, false)
      invariant forall t :: 0 <= t < s ==> |Marker(sections[t], false)| <= limit
    {
      assert sections[s] in sections;
      var placed := PlaceSection(sections[s], batches, current, limit);
      ghost var n: nat :| After(sections[s], Loop(batches, current, 0, false), limit, n)
                          == if placed.Some? then Finished(placed.value.0, placed.value.1) else Raised;
      layout, open := RunKeepsPoint(sections, s, Loop(batches, current, 0, false), limit, n, layout, open);
      if placed.None? {
        return None, layout;
      }
      batches, current := placed.value.0, placed.value.1;
    }
    if current != "" {
      ClosedBatch(sections, layout, open, batches, current, limit);
      layout, batches := layout + [open], batches + [current];
    } else {
      assert Flattened(layout) + open == Flattened(layout);
    }
    r := Some(batches);
  }

  // ---------------------------------------------------------------- the stall

  /** The loop runs for ever. */
  ghost predicate Diverges(s: Section, state: Loop, limit: nat)
    requires IsLoopState(s, state, limit)
  {
    forall n :: After(s, state, limit, n).More?
  }

  /** Room for content behind the first marker of a section. */
  function FirstRoom(s: Section, current: string, limit: nat): int {
    if current != "" && |current| + |Marker(s, false)| > limit then limit - |Marker(s, false)|
    else limit - |current| - |Marker(s, false)|
  }

  lemma {:induction false} StuckOffset(s: Section, current: string, batches: seq<string>, limit: nat, n: nat)
    requires |current| <= limit && |Marker(s, true)| == limit && |s.content| > FirstRoom(s, current, limit)
    ensures var start := Loop(batches, current, 0, false);
            var o := After(s, start, limit, n);
            o.More? && (n > 0 ==> o.state.current == "" && o.state.continuation
                                  && o.state.offset == FirstRoom(s, current, limit)
                                  && |o.state.batches| >= |batches| + n)
  {
    if n > 0 {
      StuckOffset(s, current, batches, limit, n - 1);
    }
  }

  lemma {:induction false} ProgressUntil(s: Section, current: string, batches: seq<string>, limit: nat, n: nat)
    requires |current| <= limit && |Marker(s, true)| != limit
    ensures var o := After(s, Loop(batches, current, 0, false), limit, n);
            o.More? && n > 0 ==> o.state.current == "" && o.state.continuation
                                 && n - 1 <= o.state.offset < |s.content|
  {
    if n > 0 {
      ProgressUntil(s, current, batches, limit, n - 1);
    }
  }

  /** The loop over a section runs for ever, emitting markers without content, exactly when the
      continued marker is as long as the limit and the content does not fit behind the first marker. */
  lemma DivergesIff(s: Section, current: string, batches: seq<string>, limit: nat)
    requires |current| <= limit
    ensures Diverges(s, Loop(batches, current, 0, false), limit)
       <==> |Marker(s, true)| == limit && |s.content| > FirstRoom(s, current, limit)
  {
    var start := Loop(batches, current, 0, false);
    if |Marker(s, true)| == limit && |s.content| > FirstRoom(s, current, limit) {
      forall n: nat ensures After(s, start, limit, n).More? {
        StuckOffset(s, current, batches, limit, n);
      }
    } else if |Marker(s, true)| == limit {
      assert After(s, start, limit, 0) == More(start);
      assert !After(s, start, limit, 1).More?;
    } else {
      var n := |s.content| + 1;
      ProgressUntil(s, current, batches, limit, n);
      assert !After(s, start, limit, n).More?;
    }
  }

  /** At the limit of the program the chunker neither stalls nor raises on titles of ordinary length. */
  lemma OrdinaryTitlesFit(sections: seq<Section>)
    requires forall s :: s in sections ==> |s.title| < BASELINE_BATCH_CHARS - 13
    ensures Progresses(sections, BASELINE_BATCH_CHARS)
    ensures forall s :: s in sections ==> |Marker(s, true)| < BASELINE_BATCH_CHARS
  {
  }
}
