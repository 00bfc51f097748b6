/** The fragment of Python's `str` that the modelled code relies on, over ASCII case rules. */
module Text {
  import opened Wrappers

  function LowerChar(c: char): char {
    if 'A' <= c <= 'Z' then (c as int + 32) as char else c
  }

  function UpperChar(c: char): char {
    if 'a' <= c <= 'z' then (c as int - 32) as char else c
  }

  function Lower(s: string): string {
    seq(|s|, i requires 0 <= i < |s| => LowerChar(s[i]))
  }

  function Upper(s: string): string {
    seq(|s|, i requires 0 <= i < |s| => UpperChar(s[i]))
  }

  /** `str.isspace` and the regular-expression class `\s`, on ASCII. */
  predicate IsSpace(c: char) {
    c == ' ' || '\t' <= c <= '\r' || 0x1c <= c as int <= 0x1f
  }

  predicate IsHex(c: char) {
    '0' <= c <= '9' || 'a' <= c <= 'f' || 'A' <= c <= 'F'
  }

  /** A character that `\w` matches, on ASCII. */
  predicate IsWord(c: char) {
    '0' <= c <= '9' || 'a' <= c <= 'z' || 'A' <= c <= 'Z' || c == '_'
  }

  /** `str.lstrip()` for the characters in `drop`. */
  function LStripWhere(s: string, drop: char -> bool): (r: string) {
    if s != [] && drop(s[0]) then LStripWhere(s[1..], drop) else s
  }

  /** `str.rstrip()` for the characters in `drop`. */
  function RStripWhere(s: string, drop: char -> bool): (r: string) {
    if s != [] && drop(s[|s| - 1]) then RStripWhere(s[..|s| - 1], drop) else s
  }

  function Strip(s: string): string {
    RStripWhere(LStripWhere(s, IsSpace), IsSpace)
  }

  /** `s[:n]`, which Python clamps to the length of `s`. */
  function Take(s: string, n: nat): string {
    if |s| <= n then s else s[..n]
  }

  predicate OccursAt(s: string, needle: string, at: nat) {
    at + |needle| <= |s| && s[at..at + |needle|] == needle
  }

  /** The first occurrence of `needle` in `s` at or after `from`. */
  function FindFrom(s: string, needle: string, from: nat): (r: Option<nat>)
    ensures r.Some? ==> from <= r.value && OccursAt(s, needle, r.value)
    ensures r.Some? ==> forall i :: from <= i < r.value ==> !OccursAt(s, needle, i)
    ensures r.None? ==> forall i :: from <= i ==> !OccursAt(s, needle, i)
    decreases |s| - from
  {
    if from + |needle| > |s| then None
    else if OccursAt(s, needle, from) then Some(from)
    else FindFrom(s, needle, from + 1)
  }

  /** `str.find`, with `None` for -1. */
  function Find(s: string, needle: string): Option<nat> {
    FindFrom(s, needle, 0)
  }

  predicate Contains(s: string, needle: string) {
    Find(s, needle).Some?
  }
}
