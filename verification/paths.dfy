/** Conversation ids taken from the URL path (`getConversationId`). Each site's
    regular expression is modelled as a leftmost-match scan over an ASCII
    path: a literal, tried case-insensitively where the pattern has the `i`
    flag, followed by a greedy run of a character class. */
module Paths {
  import opened Common
  import opened Strings

  /** The character classes the patterns capture. */
  datatype CharClass =
    | IdChars          // [a-z0-9-] under the `i` flag
    | NoSlashQueryHash // [^\/?#]
    | NoSlash          // [^\/]

  predicate InClass(cls: CharClass, c: char) {
    match cls
    case IdChars => ('a' <= c <= 'z') || ('A' <= c <= 'Z') || ('0' <= c <= '9') || c == '-'
    case NoSlashQueryHash => c != '/' && c != '?' && c != '#'
    case NoSlash => c != '/'
  }

  /** Length of the maximal run of `cls` characters starting at `i` (a greedy `*`). */
  function RunLen(s: string, i: nat, cls: CharClass): (n: nat)
    requires i <= |s|
    ensures i + n <= |s|
    ensures forall k :: i <= k < i + n ==> InClass(cls, s[k])
    ensures i + n == |s| || !InClass(cls, s[i + n])
    decreases |s| - i
  {
    if i < |s| && InClass(cls, s[i]) then 1 + RunLen(s, i + 1, cls) else 0
  }

  /** The literal `lit` (written in lower case) occurs at `p`; with `ci` the
      path is compared case-insensitively. */
  predicate LitAt(s: string, p: nat, lit: string, ci: bool) {
    p + |lit| <= |s| && (if ci then Lower(s[p..p + |lit|]) else s[p..p + |lit|]) == lit
  }

  /** Alternative `lit` followed by at least one class character matches at `p`. */
  predicate AltMatches(s: string, p: nat, lit: string, cls: CharClass, ci: bool) {
    LitAt(s, p, lit, ci) && RunLen(s, p + |lit|, cls) > 0
  }

  /** Which alternative of `(lit_0|lit_1|...)(cls+)` matches exactly at `p`:
      they are tried in order and the first that matches wins. */
  function MatchAt(s: string, p: nat, lits: seq<string>, cls: CharClass, ci: bool, k: nat := 0): (r: Option<nat>)
    requires k <= |lits|
    ensures r.Some? ==> k <= r.value < |lits| && AltMatches(s, p, lits[r.value], cls, ci)
    ensures r.Some? ==> forall j :: k <= j < r.value ==> !AltMatches(s, p, lits[j], cls, ci)
    ensures r.None? ==> forall j :: k <= j < |lits| ==> !AltMatches(s, p, lits[j], cls, ci)
    decreases |lits| - k
  {
    if k == |lits| then None
    else if AltMatches(s, p, lits[k], cls, ci) then Some(k)
    else MatchAt(s, p, lits, cls, ci, k + 1)
  }

  /** `r` is the greedy run of `cls` characters that starts at `q`: it occurs
      there, consists of class characters, and the character after it (if
      any) is outside the class. */
  predicate GreedyRunAt(s: string, q: nat, r: string, cls: CharClass) {
    && q + |r| <= |s|
    && s[q..q + |r|] == r
    && (forall i :: 0 <= i < |r| ==> InClass(cls, r[i]))
    && (q + |r| == |s| || !InClass(cls, s[q + |r|]))
  }

  /** The group a match at `p` captures: the class run after the winning literal. */
  function CaptureAt(s: string, p: nat, lits: seq<string>, cls: CharClass, ci: bool): (r: string)
    requires MatchAt(s, p, lits, cls, ci).Some?
    ensures r != ""
    ensures Contains(s, r)
    ensures forall i :: 0 <= i < |r| ==> InClass(cls, r[i])
    ensures GreedyRunAt(s, p + |lits[MatchAt(s, p, lits, cls, ci).value]|, r, cls)
  {
    var lit := lits[MatchAt(s, p, lits, cls, ci).value];
    var start := p + |lit|;
    var r := s[start..start + RunLen(s, start, cls)];
    assert OccursAt(s, r, start);
    r
  }

  /** Position of the leftmost match of an unanchored pattern at or after `from`. */
  function Leftmost(s: string, lits: seq<string>, cls: CharClass, ci: bool, from: nat := 0): (r: Option<nat>)
    requires from <= |s|
    ensures r.Some? ==> from <= r.value <= |s| && MatchAt(s, r.value, lits, cls, ci).Some?
    ensures r.Some? ==> forall q :: from <= q < r.value ==> MatchAt(s, q, lits, cls, ci).None?
    ensures r.None? ==> forall q :: from <= q <= |s| ==> MatchAt(s, q, lits, cls, ci).None?
    decreases |s| - from
  {
    if MatchAt(s, from, lits, cls, ci).Some? then Some(from)
    else if from == |s| then None
    else Leftmost(s, lits, cls, ci, from + 1)
  }

  /** The captured group of the leftmost match, if the pattern matches at all. */
  function Search(s: string, lits: seq<string>, cls: CharClass, ci: bool): (r: Option<string>)
    ensures r.Some? ==> r.value != "" && Contains(s, r.value)
    ensures r.None? <==> forall q :: 0 <= q <= |s| ==> MatchAt(s, q, lits, cls, ci).None?
    ensures r.Some? ==> Leftmost(s, lits, cls, ci).Some?
    ensures r.Some? && Leftmost(s, lits, cls, ci).Some? ==>
      r.value == CaptureAt(s, Leftmost(s, lits, cls, ci).value, lits, cls, ci)
  {
    match Leftmost(s, lits, cls, ci)
    case Some(p) => Some(CaptureAt(s, p, lits, cls, ci))
    case None => None
  }

  /** The captured group of a pattern anchored at the start (`^`). */
  function MatchStart(s: string, lits: seq<string>, cls: CharClass, ci: bool): (r: Option<string>)
    ensures r.Some? ==> r.value != "" && Contains(s, r.value)
    ensures r.None? <==> MatchAt(s, 0, lits, cls, ci).None?
    ensures r.Some? ==> r.value == CaptureAt(s, 0, lits, cls, ci)
  {
    if MatchAt(s, 0, lits, cls, ci).Some? then Some(CaptureAt(s, 0, lits, cls, ci)) else None
  }

  /** Position of the leftmost occurrence of `lit` at or after `from`. */
  function IndexOf(s: string, from: nat, lit: string, ci: bool): (r: Option<nat>)
    requires from <= |s|
    ensures r.Some? ==> from <= r.value && LitAt(s, r.value, lit, ci)
    ensures r.Some? ==> forall q :: from <= q < r.value ==> !LitAt(s, q, lit, ci)
    ensures r.None? ==> forall q :: from <= q ==> !LitAt(s, q, lit, ci)
    decreases |s| - from
  {
    if LitAt(s, from, lit, ci) then Some(from)
    else if from == |s| then None
    else IndexOf(s, from + 1, lit, ci)
  }

  /** Where the Claude id starts: after `/chat` and its optional slash. */
  function AfterChat(s: string, p: nat): nat {
    if p + 5 < |s| && s[p + 5] == '/' then p + 6 else p + 5
  }

  /** `/\/chat\/?([a-z0-9-]*)/i`: matched at the first `/chat`; an optional
      slash, then a possibly empty id run. */
  function ClaudeCapture(s: string): (r: Option<string>)
    ensures r.None? <==> forall q :: !LitAt(s, q, "/chat", true)
    ensures r.Some? ==> Contains(s, r.value)
    ensures r.Some? <==> IndexOf(s, 0, "/chat", true).Some?
    ensures r.Some? && IndexOf(s, 0, "/chat", true).Some? ==>
      GreedyRunAt(s, AfterChat(s, IndexOf(s, 0, "/chat", true).value), r.value, IdChars)
  {
    match IndexOf(s, 0, "/chat", true)
    case None => None
    case Some(p) =>
      var q := AfterChat(s, p);
      var cap := s[q..q + RunLen(s, q, IdChars)];
      assert OccursAt(s, cap, q);
      Some(cap)
  }

  /** `path || 'root'`. */
  function PathOrRoot(path: string): (r: string)
    ensures r != ""
  {
    if path == "" then "root" else path
  }

  /** The id chosen from a capture: the captured group when there is one,
      otherwise the path, or `"root"` for an empty path. */
  predicate Picked(path: string, m: Option<string>, r: string) {
    (m.Some? ==> r == m.value) && (m.None? ==> r == PathOrRoot(path))
  }

  /** An empty capture counts as no capture (`m && m[1]`). */
  function NonEmpty(m: Option<string>): (r: Option<string>)
    ensures r.Some? <==> m.Some? && m.value != ""
    ensures r.Some? ==> r.value == m.value
  {
    if m.Some? && m.value != "" then m else None
  }

  /** `getConversationId` for the detected site key (`None` when no platform
      was detected): a per-site capture, else the path, else `"root"`. */
  function ConversationId(key: Option<string>, path: string): (r: string)
    ensures r != ""
    ensures path == "" ==> r == "root"
    ensures path != "" ==> Contains(path, r)
    ensures key == Some("chatgpt") ==> Picked(path, Search(path, ["/c/"], IdChars, true), r)
    ensures key == Some("claude") ==> Picked(path, NonEmpty(ClaudeCapture(path)), r)
    ensures key == Some("gemini") ==> Picked(path, Search(path, ["/app/"], NoSlashQueryHash, true), r)
    ensures key == Some("deepseek") ==> Picked(path, Search(path, ["/chat/", "/c/"], NoSlashQueryHash, true), r)
    ensures key == Some("perplexity") ==> Picked(path, MatchStart(path, ["/search/", "/q/"], NoSlash, true), r)
    ensures key !in {Some("chatgpt"), Some("claude"), Some("gemini"), Some("deepseek"), Some("perplexity")} ==>
      r == PathOrRoot(path)
  {
    var fallback := PathOrRoot(path);
    assert path != "" ==> OccursAt(path, path, 0);
    if key == Some("chatgpt") then
      PickCapture(path, Search(path, ["/c/"], IdChars, true))
    else if key == Some("claude") then
      match ClaudeCapture(path)
      case Some(c) => if c != "" then c else fallback
      case None => fallback
    else if key == Some("gemini") then
      PickCapture(path, Search(path, ["/app/"], NoSlashQueryHash, true))
    else if key == Some("deepseek") then
      PickCapture(path, Search(path, ["/chat/", "/c/"], NoSlashQueryHash, true))
    else if key == Some("perplexity") then
      PickCapture(path, MatchStart(path, ["/search/", "/q/"], NoSlash, true))
    else fallback
  }

  /** `m ? m[k] : path || 'root'` for a capture taken from `path`. */
  function PickCapture(path: string, m: Option<string>): (r: string)
    requires m.Some? ==> m.value != "" && Contains(path, m.value)
    ensures r != ""
    ensures m.Some? ==> r == m.value
    ensures m.None? ==> r == PathOrRoot(path)
  {
    match m
    case Some(c) => c
    case None => PathOrRoot(path)
  }

  /** A Claude chat path yields the id after `/chat/`. */
  lemma ClaudeChatId()
    ensures ConversationId(Some("claude"), "/chat/abc123") == "abc123"
  {
    var s := "/chat/abc123";
    assert LitAt(s, 0, "/chat", true);
    assert IndexOf(s, 0, "/chat", true) == Some(0);
    assert RunLen(s, 6, IdChars) == 6;
    assert s[6..12] == "abc123";
  }

  /** A ChatGPT conversation path yields the id after `/c/`, matched
      case-insensitively. */
  lemma ChatGptConversationId()
    ensures ConversationId(Some("chatgpt"), "/C/ab") == "ab"
  {
    var s := "/C/ab";
    assert LitAt(s, 0, "/c/", true) by {
      assert Lower(s[0..3]) == "/c/";
    }
    assert RunLen(s, 3, IdChars) == 2;
    assert MatchAt(s, 0, ["/c/"], IdChars, true) == Some(0);
    assert Leftmost(s, ["/c/"], IdChars, true) == Some(0);
    assert s[3..5] == "ab";
  }

  /** Claude's landing page `/new` has no `/chat`: the id is the path itself. */
  lemma ClaudeLandingUsesPath()
    ensures ConversationId(Some("claude"), "/new") == "/new"
  {
    var s := "/new";
    assert forall q :: !LitAt(s, q, "/chat", true);
  }
}
