/**
 * Line sanitisation of `Input::setUserInput`: the rejection of lines that
 * carry the escape character, and the trimming of spaces and tabs at both
 * ends of an accepted line.
 */
module Sanitize {
  import opened Wrappers

  /** The ASCII escape character 0x1B (`'\033'`), the start of terminal control sequences. */
  const ESC: char := '\U{1B}'

  /** A character of the set `" \t"` that the trim removes. */
  predicate IsBlank(c: char) {
    c == ' ' || c == '\t'
  }

  /** The line holds an escape character somewhere (`input.find('\033') != npos`). */
  predicate HasControlSignal(s: string): (b: bool)
    ensures b <==> exists i :: 0 <= i < |s| && s[i] == ESC
  {
    ESC in s
  }

  predicate AllBlank(s: string) {
    forall i :: 0 <= i < |s| ==> IsBlank(s[i])
  }

  /** Neither the first nor the last character is a space or a tab. */
  predicate IsTrimmed(s: string) {
    |s| == 0 || (!IsBlank(s[0]) && !IsBlank(s[|s| - 1]))
  }

  /** What an accepted line looks like once stored: trimmed, and free of escape characters. */
  predicate Sanitized(s: string) {
    IsTrimmed(s) && !HasControlSignal(s)
  }

  /** `s.find_first_not_of(" \t")`, with `None` for `npos`. */
  function FindFirstNotBlank(s: string): (r: Option<nat>)
    ensures r.Some? ==> r.value < |s| && !IsBlank(s[r.value])
    ensures r.Some? ==> forall j :: 0 <= j < r.value ==> IsBlank(s[j])
    ensures r.None? <==> AllBlank(s)
  {
    if s == [] then None
    else if !IsBlank(s[0]) then Some(0)
    else match FindFirstNotBlank(s[1..])
      case None => None
      case Some(k) => Some(k + 1)
  }

  /** `s.find_last_not_of(" \t")`, with `None` for `npos`. */
  function FindLastNotBlank(s: string): (r: Option<nat>)
    ensures r.Some? ==> r.value < |s| && !IsBlank(s[r.value])
    ensures r.Some? ==> forall j :: r.value < j < |s| ==> IsBlank(s[j])
    ensures r.None? <==> AllBlank(s)
  {
    if s == [] then None
    else if !IsBlank(s[|s| - 1]) then Some(|s| - 1)
    else FindLastNotBlank(s[..|s| - 1])
  }

  /**
   * The trim of an accepted line: the inclusive slice between the first and
   * the last character that is not a space or a tab, or "" when there is none.
   */
  function Trim(s: string): (r: string)
    ensures IsTrimmed(r)
    ensures r == [] <==> AllBlank(s)
    ensures forall c :: c in r ==> c in s
  {
    var start := FindFirstNotBlank(s);
    var end := FindLastNotBlank(s);
    if start.Some? then s[start.value..end.value + 1] else ""
  }

  /**
   * When the line has a character that is not blank, its trim is exactly the
   * slice from the first such character to the last one, interior kept verbatim.
   */
  lemma TrimIsSlice(s: string, start: nat, end: nat)
    requires start <= end < |s|
    requires !IsBlank(s[start]) && !IsBlank(s[end])
    requires forall j :: 0 <= j < start ==> IsBlank(s[j])
    requires forall j :: end < j < |s| ==> IsBlank(s[j])
    ensures Trim(s) == s[start..end + 1]
  {
  }

  /** Trimming is idempotent: a trimmed line is its own trim. */
  lemma TrimOfTrimmed(s: string)
    requires IsTrimmed(s)
    ensures Trim(s) == s
  {
  }

  lemma TrimIdempotent(s: string)
    ensures Trim(Trim(s)) == Trim(s)
  {
  }

  /** Padding a trimmed line with any spaces and tabs on either side is undone by the trim. */
  lemma TrimStripsPadding(left: string, t: string, right: string)
    requires AllBlank(left) && AllBlank(right) && IsTrimmed(t)
    ensures Trim(left + t + right) == t
  {
    var s := left + t + right;
    if |t| == 0 {
      assert s == left + right;
      assert AllBlank(s);
    } else {
      assert s[|left|] == t[0] && s[|left| + |t| - 1] == t[|t| - 1];
      TrimIsSlice(s, |left|, |left| + |t| - 1);
      assert s[|left|..|left| + |t|] == t;
    }
  }

  /** Conversely, every line is its trim with spaces and tabs around it. */
  lemma TrimDecomposes(s: string) returns (left: string, right: string)
    ensures AllBlank(left) && AllBlank(right)
    ensures s == left + Trim(s) + right
  {
    var first := FindFirstNotBlank(s);
    var last := FindLastNotBlank(s);
    if first.None? {
      left, right := s, "";
      assert s == left + Trim(s) + right;
    } else {
      left, right := s[..first.value], s[last.value + 1..];
      assert s == left + s[first.value..last.value + 1] + right;
    }
  }

  /** The example of a padded line: interior spacing survives. */
  lemma TrimExample()
    ensures Trim("  hello world  ") == "hello world"
  {
    TrimStripsPadding("  ", "hello world", "  ");
    assert "  " + "hello world" + "  " == "  hello world  ";
  }
}
