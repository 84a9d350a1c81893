/** ASCII models of the JavaScript string operations the content script uses:
    `trim`, `toLowerCase`, `includes`, `startsWith`, `substring(0, n)` and
    `split(/\s+/).filter(Boolean)`. */
module Strings {

  /** Whitespace as `trim` and `\s` see it, restricted to ASCII. */
  predicate IsWhite(c: char) {
    c == ' ' || c == '\t' || c == '\n' || c == '\r' || c == '\U{000B}' || c == '\U{000C}'
  }

  function LowerChar(c: char): char {
    if 'A' <= c <= 'Z' then (c as int + 32) as char else c
  }

  /** `toLowerCase` on ASCII letters; every other character is kept. */
  function Lower(s: string): (r: string)
    ensures |r| == |s|
    ensures forall i :: 0 <= i < |s| ==> r[i] == LowerChar(s[i])
  {
    seq(|s|, i requires 0 <= i < |s| => LowerChar(s[i]))
  }

  /** `s.substring(0, n)`: the first `n` characters, or all of `s` when it is shorter. */
  function Take(s: string, n: nat): (r: string)
    ensures |r| == if n < |s| then n else |s|
    ensures r == s[..|r|]
  {
    if n < |s| then s[..n] else s
  }

  predicate OccursAt(s: string, t: string, i: nat) {
    i + |t| <= |s| && s[i..i + |t|] == t
  }

  /** `s.includes(t)`. */
  predicate Contains(s: string, t: string) {
    exists i | 0 <= i <= |s| - |t| :: OccursAt(s, t, i)
  }

  predicate StartsWith(s: string, prefix: string) {
    |prefix| <= |s| && s[..|prefix|] == prefix
  }

  /** A needle holding a character the haystack lacks is not contained in it. */
  lemma MissingCharNotContained(s: string, t: string, c: char)
    requires c in t && c !in s
    ensures !Contains(s, t)
  {
  }

  /** Number of leading whitespace characters. */
  function LeadingWhite(s: string): (n: nat)
    ensures n <= |s|
    ensures forall i :: 0 <= i < n ==> IsWhite(s[i])
    ensures n == |s| || !IsWhite(s[n])
  {
    if |s| > 0 && IsWhite(s[0]) then 1 + LeadingWhite(s[1..]) else 0
  }

  /** Number of trailing whitespace characters. */
  function TrailingWhite(s: string): (n: nat)
    ensures n <= |s|
    ensures forall i :: |s| - n <= i < |s| ==> IsWhite(s[i])
    ensures n == |s| || !IsWhite(s[|s| - n - 1])
  {
    if |s| > 0 && IsWhite(s[|s| - 1]) then 1 + TrailingWhite(s[..|s| - 1]) else 0
  }

  /** `r` is the slice of `s` starting at `i` with only whitespace before
      and after it. */
  predicate BetweenWhite(s: string, r: string, i: nat) {
    && i + |r| <= |s|
    && r == s[i..i + |r|]
    && (forall k :: 0 <= k < i ==> IsWhite(s[k]))
    && (forall k :: i + |r| <= k < |s| ==> IsWhite(s[k]))
  }

  /** `s.trim()`: the slice of `s` between its leading and trailing whitespace. */
  function Trim(s: string): (r: string)
    ensures |r| <= |s|
    ensures r == "" || (!IsWhite(r[0]) && !IsWhite(r[|r| - 1]))
    ensures r == "" <==> forall i :: 0 <= i < |s| ==> IsWhite(s[i])
  {
    var lead := LeadingWhite(s);
    var rest := s[lead..];
    var r := rest[..|rest| - TrailingWhite(rest)];
    assert r == "" ==> lead == |s| by {
      if lead < |s| {
        assert !IsWhite(rest[0]);
        assert TrailingWhite(rest) < |rest|;
      }
    }
    r
  }

  /** What `trim` returns: the slice of `s` that only whitespace surrounds,
      and it neither starts nor ends with whitespace. */
  lemma TrimIsSlice(s: string)
    ensures exists i :: BetweenWhite(s, Trim(s), i)
  {
    var lead := LeadingWhite(s);
    var rest := s[lead..];
    var r := Trim(s);
    assert r == rest[..|rest| - TrailingWhite(rest)];
    forall k | lead + |r| <= k < |s|
      ensures IsWhite(s[k])
    {
      assert s[k] == rest[k - lead];
    }
    assert BetweenWhite(s, r, lead);
  }

  /** Trimming an already trimmed string changes nothing. */
  lemma TrimIdempotent(s: string)
    ensures Trim(Trim(s)) == Trim(s)
  {
    var t := Trim(s);
    assert LeadingWhite(t) == 0;
    assert TrailingWhite(t) == 0;
  }

  /** Length of the run of non-whitespace characters that `s` starts with. */
  function WordLen(s: string): (n: nat)
    ensures n <= |s|
    ensures forall i :: 0 <= i < n ==> !IsWhite(s[i])
    ensures n == |s| || IsWhite(s[n])
  {
    if |s| > 0 && !IsWhite(s[0]) then 1 + WordLen(s[1..]) else 0
  }

  /** Total length of a list of strings. */
  function TotalLen(ws: seq<string>): nat {
    if |ws| == 0 then 0 else |ws[0]| + TotalLen(ws[1..])
  }

  /** The non-whitespace characters of `s`, in order. */
  function NonWhite(s: string): string {
    if |s| == 0 then [] else (if IsWhite(s[0]) then [] else [s[0]]) + NonWhite(s[1..])
  }

  /** The strings of `ws` joined with nothing between them. */
  function Concat(ws: seq<string>): string {
    if |ws| == 0 then [] else ws[0] + Concat(ws[1..])
  }

  /** `w` occurs in `s` at `i` with whitespace or an end of `s` on each side. */
  predicate WordAt(s: string, w: string, i: nat) {
    && OccursAt(s, w, i)
    && (i == 0 || IsWhite(s[i - 1]))
    && (i + |w| == |s| || IsWhite(s[i + |w|]))
  }

  /** `w` occurs in `s` as a whole word. */
  predicate Delimited(s: string, w: string) {
    exists i: nat | i <= |s| :: WordAt(s, w, i)
  }

  /** A leading run of non-whitespace characters passes through `NonWhite` whole. */
  lemma {:induction false} NonWhitePrefix(s: string, n: nat)
    requires n <= |s|
    requires forall i :: 0 <= i < n ==> !IsWhite(s[i])
    ensures NonWhite(s) == s[..n] + NonWhite(s[n..])
  {
    if n == 0 {
      assert s[n..] == s;
    } else {
      NonWhitePrefix(s[1..], n - 1);
      assert s[1..][..n - 1] == s[1..n];
      assert s[1..][n - 1..] == s[n..];
      assert s[..n] == [s[0]] + s[1..n];
    }
  }

  /** `s.split(/\s+/).filter(Boolean)`: the maximal whitespace-free runs of `s`,
      in order. Together they are never longer than `s`. */
  function Words(s: string): (ws: seq<string>)
    ensures forall k :: 0 <= k < |ws| ==> |ws[k]| > 0
    ensures forall k :: 0 <= k < |ws| ==> forall i :: 0 <= i < |ws[k]| ==> !IsWhite(ws[k][i])
    ensures TotalLen(ws) <= |s|
    decreases |s|
  {
    if |s| == 0 then []
    else if IsWhite(s[0]) then Words(s[1..])
    else
      var n := WordLen(s);
      [s[..n]] + Words(s[n..])
  }

  /** The words joined are exactly the non-whitespace characters of `s`, in order. */
  lemma {:induction false} WordsJoinNonWhite(s: string)
    ensures Concat(Words(s)) == NonWhite(s)
    decreases |s|
  {
    if |s| == 0 {
    } else if IsWhite(s[0]) {
      WordsJoinNonWhite(s[1..]);
    } else {
      var n := WordLen(s);
      WordsJoinNonWhite(s[n..]);
      NonWhitePrefix(s, n);
      assert Words(s) == [s[..n]] + Words(s[n..]);
      assert Concat(Words(s)) == s[..n] + Concat(Words(s[n..]));
    }
  }

  /** A whole word of `s[1..]` is a whole word of `s` when `s` starts with whitespace. */
  lemma DelimitedAfterWhite(s: string, w: string)
    requires |s| > 0 && IsWhite(s[0]) && Delimited(s[1..], w)
    ensures Delimited(s, w)
  {
    var t := s[1..];
    var i: nat :| i <= |t| && WordAt(t, w, i);
    assert t[i..i + |w|] == s[i + 1..i + 1 + |w|];
    assert WordAt(s, w, i + 1);
  }

  /** A whole word of `s[n..]` that starts with a non-whitespace character is
      a whole word of `s` when `s[n]` is whitespace. */
  lemma DelimitedAfterSplit(s: string, n: nat, w: string)
    requires n < |s| && IsWhite(s[n]) && Delimited(s[n..], w)
    requires |w| > 0 && !IsWhite(w[0])
    ensures Delimited(s, w)
  {
    var t := s[n..];
    var i: nat :| i <= |t| && WordAt(t, w, i);
    assert t[i..i + |w|] == s[n + i..n + i + |w|];
    assert WordAt(s, w, n + i);
  }

  /** Each word sits in `s` between whitespace or an end of `s`. */
  lemma {:induction false} WordsDelimited(s: string)
    ensures forall k :: 0 <= k < |Words(s)| ==> Delimited(s, Words(s)[k])
    decreases |s|
  {
    if |s| == 0 {
    } else if IsWhite(s[0]) {
      var ws := Words(s[1..]);
      WordsDelimited(s[1..]);
      assert Words(s) == ws;
      forall k | 0 <= k < |ws|
        ensures Delimited(s, ws[k])
      {
        DelimitedAfterWhite(s, ws[k]);
      }
    } else {
      var n := WordLen(s);
      var rest := Words(s[n..]);
      WordsDelimited(s[n..]);
      assert Words(s) == [s[..n]] + rest;
      assert WordAt(s, s[..n], 0);
      forall k | 0 <= k < |rest|
        ensures Delimited(s, rest[k])
      {
        DelimitedAfterSplit(s, n, rest[k]);
      }
    }
  }
}
