/**
 * The slice of Apple's Foundation library that the recipe app relies on.
 *
 * Parsers whose behaviour the app does not control (`URL(string:)`,
 * `UUID(uuidString:)`) are not interpreted: they are fields of a `Platform`
 * value that every operation using them takes as a parameter, so each
 * property proved here holds for every parser. String operations the app
 * uses for searching (`lowercased`, `split`, `contains`, `trimmingCharacters`,
 * `replacingOccurrences`) are given ASCII definitions.
 */
module Foundation {
  import opened Wrappers

  /** A parsed URL; the model knows it by its `absoluteString` only. */
  datatype Url = Url(absoluteString: string)

  /** The parsers of the platform, left uninterpreted. */
  datatype Platform = Platform(
    parseURL: string -> Option<Url>,  // URL(string:)
    isUUID: string -> bool            // UUID(uuidString:) != nil
  )

  // ---------------------------------------------------------------------------
  // Case mapping (ASCII approximation of `lowercased()`)

  function LowerChar(c: char): (r: char)
    ensures 'A' <= c <= 'Z' ==> r as int == c as int + 32
    ensures !('A' <= c <= 'Z') ==> r == c
  {
    if 'A' <= c <= 'Z' then (c as int + 32) as char else c
  }

  function Lower(s: string): (r: string)
    ensures |r| == |s|
    ensures forall i :: 0 <= i < |s| ==> r[i] == LowerChar(s[i])
  {
    if s == [] then [] else [LowerChar(s[0])] + Lower(s[1..])
  }

  /** Lowering distributes over concatenation. */
  lemma {:induction false} LowerAppend(a: string, b: string)
    ensures Lower(a + b) == Lower(a) + Lower(b)
  {
    if a == [] {
      assert a + b == b;
    } else {
      assert (a + b)[0] == a[0] && (a + b)[1..] == a[1..] + b;
      LowerAppend(a[1..], b);
      assert Lower(a + b) == [LowerChar(a[0])] + (Lower(a[1..]) + Lower(b));
    }
  }

  // ---------------------------------------------------------------------------
  // Substring search (`String.contains(_:)` with a string argument)

  /** `term` occurs in `text` starting at index `i`. */
  predicate OccursAt(text: string, term: string, i: nat)
  {
    i + |term| <= |text| && text[i..i + |term|] == term
  }

  function Contains(text: string, term: string): (r: bool)
    ensures r <==> exists i: nat :: OccursAt(text, term, i)
    decreases |text|
  {
    if |text| < |term| then
      assert forall i: nat :: !OccursAt(text, term, i);
      false
    else if text[..|term|] == term then
      assert OccursAt(text, term, 0);
      true
    else
      var r := Contains(text[1..], term);
      if r then
        var i: nat :| OccursAt(text[1..], term, i);
        assert text[1..][i..i + |term|] == text[i + 1..i + 1 + |term|];
        assert OccursAt(text, term, i + 1);
        true
      else
        forall i: nat | OccursAt(text, term, i) ensures false {
          if i > 0 {
            assert text[1..][i - 1..i - 1 + |term|] == text[i..i + |term|];
            assert OccursAt(text[1..], term, i - 1);
          }
        }
        false
  }

  // ---------------------------------------------------------------------------
  // Whitespace trimming (ASCII approximation of `.whitespacesAndNewlines`)

  predicate IsWhitespace(c: char)
  {
    c == ' ' || c == '\t' || c == '\n' || c == '\r' || c == '\U{000B}' || c == '\U{000C}'
  }

  function TrimStart(s: string): (r: string)
    ensures |r| <= |s| && r == s[|s| - |r|..]
    ensures forall k :: 0 <= k < |s| - |r| ==> IsWhitespace(s[k])
    ensures r == [] || !IsWhitespace(r[0])
  {
    if s != [] && IsWhitespace(s[0]) then
      var r := TrimStart(s[1..]);
      assert s[1..][|s| - 1 - |r|..] == s[|s| - |r|..];
      assert forall k :: 1 <= k < |s| - |r| ==> s[k] == s[1..][k - 1];
      r
    else
      s
  }

  function TrimEnd(s: string): (r: string)
    ensures |r| <= |s| && r == s[..|r|]
    ensures forall k :: |r| <= k < |s| ==> IsWhitespace(s[k])
    ensures r == [] || !IsWhitespace(r[|r| - 1])
  {
    if s != [] && IsWhitespace(s[|s| - 1]) then TrimEnd(s[..|s| - 1]) else s
  }

  /** `r` is the slice `s[i..j]`, and only whitespace lies outside it. */
  predicate WhitespaceAround(s: string, r: string, i: int, j: int)
  {
    && 0 <= i <= j <= |s| && r == s[i..j]
    && (forall k :: 0 <= k < i ==> IsWhitespace(s[k]))
    && (forall k :: j <= k < |s| ==> IsWhitespace(s[k]))
  }

  /**
   * Cutting whitespace off the front of `s`, leaving `t`, and then off the
   * back of `t`, leaving `r`, leaves a slice of `s` with whitespace around it.
   */
  lemma WhitespaceAroundBoth(s: string, t: string, r: string)
    requires |t| <= |s| && t == s[|s| - |t|..]
    requires forall k :: 0 <= k < |s| - |t| ==> IsWhitespace(s[k])
    requires |r| <= |t| && r == t[..|r|]
    requires forall k :: |r| <= k < |t| ==> IsWhitespace(t[k])
    ensures WhitespaceAround(s, r, |s| - |t|, |s| - |t| + |r|)
  {
    var i := |s| - |t|;
    forall k | i + |r| <= k < |s| ensures IsWhitespace(s[k]) {
      assert s[k] == t[k - i];
    }
  }

  /**
   * `trimmingCharacters(in: .whitespacesAndNewlines)`: the middle slice of
   * `s` left once the whitespace at both ends is cut off.
   */
  function Trim(s: string): (r: string)
    ensures exists i, j :: WhitespaceAround(s, r, i, j)
    ensures r == [] || (!IsWhitespace(r[0]) && !IsWhitespace(r[|r| - 1]))
  {
    var t := TrimStart(s);
    WhitespaceAroundBoth(s, t, TrimEnd(t));
    TrimEnd(t)
  }

  /** Text with no whitespace at either end is its own trimming. */
  lemma TrimmedAlready(s: string)
    requires s == [] || (!IsWhitespace(s[0]) && !IsWhitespace(s[|s| - 1]))
    ensures Trim(s) == s
  {
  }

  // ---------------------------------------------------------------------------
  // Replacing a one-character pattern (`replacingOccurrences(of:with:)`)

  function ReplaceChar(s: string, c: char, rep: string): (r: string)
    ensures c !in rep ==> c !in r
    ensures c !in s ==> r == s
    ensures |rep| == 1 ==> |r| == |s| && forall i :: 0 <= i < |s| ==> r[i] == (if s[i] == c then rep[0] else s[i])
  {
    if s == [] then []
    else (if s[0] == c then rep else [s[0]]) + ReplaceChar(s[1..], c, rep)
  }

  /** Replacing is done character by character, so it distributes over `+`. */
  lemma {:induction false} ReplaceCharAppend(a: string, b: string, c: char, rep: string)
    ensures ReplaceChar(a + b, c, rep) == ReplaceChar(a, c, rep) + ReplaceChar(b, c, rep)
  {
    if a == [] {
      assert a + b == b;
    } else {
      assert (a + b)[0] == a[0] && (a + b)[1..] == a[1..] + b;
      ReplaceCharAppend(a[1..], b, c, rep);
      var head, x, y := if a[0] == c then rep else [a[0]], ReplaceChar(a[1..], c, rep), ReplaceChar(b, c, rep);
      assert head + (x + y) == (head + x) + y;
    }
  }
}
