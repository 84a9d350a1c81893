/** The in-memory prompt list and the operations that change it: manual
    capture (`addPrompt`), the DOM-scrape text pipeline (`scrapePrompts`),
    seeding from a Perplexity URL, and attaching a response preview to the
    last record. */
module Prompts {
  import opened Common
  import opened Strings
  import Paths

  /** An abstract reference to a live page element. */
  type Node = nat

  /** A prompt record. `element` is the live element (never persisted);
      `responsePreview` is `None` while JavaScript has it `undefined`. */
  datatype Prompt = Prompt(
    index: int,
    text: string,
    element: Option<Node>,
    timestamp: string,
    responsePreview: Option<string>)

  /** `p.responsePreview && p.responsePreview.length`. */
  predicate HasPreview(p: Prompt) {
    p.responsePreview.Some? && |p.responsePreview.value| > 0
  }

  predicate IndicesIncreasing(ps: seq<Prompt>) {
    forall i, j :: 0 <= i < j < |ps| ==> ps[i].index < ps[j].index
  }

  predicate TextsDistinct(ps: seq<Prompt>) {
    forall i, j :: 0 <= i < j < |ps| ==> ps[i].text != ps[j].text
  }

  predicate TextsBounded(ps: seq<Prompt>, previewLength: nat) {
    forall i :: 0 <= i < |ps| ==> |ps[i].text| <= previewLength
  }

  predicate HasText(ps: seq<Prompt>, t: string) {
    exists i :: 0 <= i < |ps| && ps[i].text == t
  }

  /** `(last?.index || 0) + 1`: a missing last record and a last index of 0
      both count as 0. */
  function NextIndex(ps: seq<Prompt>): (r: int)
    ensures |ps| == 0 ==> r == 1
    ensures |ps| > 0 && ps[|ps| - 1].index == 0 ==> r == 1
    ensures |ps| > 0 && ps[|ps| - 1].index != 0 ==> r == ps[|ps| - 1].index + 1
    ensures |ps| > 0 ==> r > ps[|ps| - 1].index
    ensures |ps| > 0 && ps[|ps| - 1].index >= 0 ==> r >= 1
  {
    if |ps| == 0 || ps[|ps| - 1].index == 0 then 1 else ps[|ps| - 1].index + 1
  }

  /** `addPrompt(text)` as written: the duplicate check compares stored texts
      with the trimmed but untruncated input, while the stored text is
      truncated to `previewLength`. */
  function AddPrompt(ps: seq<Prompt>, text: string, previewLength: nat, now: string): (r: seq<Prompt>)
    ensures Trim(text) == "" || HasText(ps, Trim(text)) ==> r == ps
    ensures Trim(text) != "" && !HasText(ps, Trim(text)) ==>
      && |r| == |ps| + 1
      && r[..|ps|] == ps
      && r[|ps|].index == (if |ps| == 0 || ps[|ps| - 1].index == 0 then 1 else ps[|ps| - 1].index + 1)
      && r[|ps|].text == Take(Trim(text), previewLength)
      && r[|ps|].element.None? && r[|ps|].responsePreview.None?
      && r[|ps|].timestamp == now
  {
    var t := Trim(text);
    if t == "" || HasText(ps, t) then ps
    else ps + [Prompt(NextIndex(ps), Take(t, previewLength), None, now, None)]
  }

  /** `addPrompt` keeps the record indices strictly increasing and every
      stored text within the preview length. */
  lemma AddPromptKeepsInvariants(ps: seq<Prompt>, text: string, previewLength: nat, now: string)
    requires IndicesIncreasing(ps) && TextsBounded(ps, previewLength)
    ensures IndicesIncreasing(AddPrompt(ps, text, previewLength, now))
    ensures TextsBounded(AddPrompt(ps, text, previewLength, now), previewLength)
  {
  }

  /** The duplicate check misses a text longer than the preview length: the
      same submission captured twice (the document-level and the input-level
      Enter listeners both call `addPrompt`) is stored twice. */
  lemma AddPromptDuplicatesLongText(now: string)
    ensures AddPrompt(AddPrompt([], "abc", 2, now), "abc", 2, now)
      == [Prompt(1, "ab", None, now, None), Prompt(2, "ab", None, now, None)]
    ensures !TextsDistinct(AddPrompt(AddPrompt([], "abc", 2, now), "abc", 2, now))
  {
    assert Trim("abc") == "abc" by {
      assert LeadingWhite("abc") == 0;
      assert TrailingWhite("abc") == 0;
    }
    assert Take("abc", 2) == "ab";
    var once := AddPrompt([], "abc", 2, now);
    assert once == [Prompt(1, "ab", None, now, None)];
    assert !HasText(once, "abc");
  }

  /** `addPrompt` with the duplicate check made against the text that would
      be stored. */
  function AddPromptFixed(ps: seq<Prompt>, text: string, previewLength: nat, now: string): (r: seq<Prompt>)
    ensures TextsDistinct(ps) ==> TextsDistinct(r)
    ensures IndicesIncreasing(ps) ==> IndicesIncreasing(r)
    ensures Trim(text) == "" || HasText(ps, Take(Trim(text), previewLength)) ==> r == ps
    ensures Trim(text) != "" && !HasText(ps, Take(Trim(text), previewLength)) ==>
      r == ps + [Prompt(NextIndex(ps), Take(Trim(text), previewLength), None, now, None)]
  {
    var t := Take(Trim(text), previewLength);
    if Trim(text) == "" || HasText(ps, t) then ps
    else ps + [Prompt(NextIndex(ps), t, None, now, None)]
  }

  /** With the corrected check, capturing the same text a second time changes nothing. */
  lemma AddPromptFixedIdempotent(ps: seq<Prompt>, text: string, previewLength: nat, now: string)
    ensures AddPromptFixed(AddPromptFixed(ps, text, previewLength, now), text, previewLength, now)
      == AddPromptFixed(ps, text, previewLength, now)
  {
    var r := AddPromptFixed(ps, text, previewLength, now);
    if r != ps {
      assert r[|ps|].text == Take(Trim(text), previewLength);
      assert HasText(r, Take(Trim(text), previewLength));
    }
  }

  /** As written, capturing a text twice is harmless only when the trimmed
      text fits in the preview length. */
  lemma AddPromptIdempotentWhenShort(ps: seq<Prompt>, text: string, previewLength: nat, now: string)
    requires |Trim(text)| <= previewLength
    ensures AddPrompt(AddPrompt(ps, text, previewLength, now), text, previewLength, now)
      == AddPrompt(ps, text, previewLength, now)
  {
    var r := AddPrompt(ps, text, previewLength, now);
    if r != ps {
      assert r[|ps|].text == Trim(text);
      assert HasText(r, Trim(text));
    }
  }

  // ----- scrapePrompts -----

  /** A matched user message: its element and the text content of its text
      element (or of itself when it has none). */
  datatype Message = Message(node: Node, text: string)

  /** `text.trim().substring(0, previewLength)`. */
  function Clean(raw: string, previewLength: nat): (r: string)
    ensures |r| <= previewLength
    ensures |r| == Min(previewLength, |Trim(raw)|) && r == Trim(raw)[..|r|]
  {
    Take(Trim(raw), previewLength)
  }

  /** The messages with their texts cleaned, in DOM order. */
  function CleanAll(msgs: seq<Message>, previewLength: nat): (r: seq<Message>)
    ensures |r| == |msgs|
    ensures forall j :: 0 <= j < |msgs| ==>
      r[j].node == msgs[j].node && r[j].text == Clean(msgs[j].text, previewLength)
  {
    seq(|msgs|, j requires 0 <= j < |msgs| => Message(msgs[j].node, Clean(msgs[j].text, previewLength)))
  }

  /** The record `scrapePrompts` builds for the (cleaned) message at DOM position `j`. */
  function RecordFor(cs: seq<Message>, j: nat, now: string): Prompt
    requires j < |cs|
  {
    Prompt(j + 1, cs[j].text, Some(cs[j].node), now, None)
  }

  /** Position `j` survives the filter: its cleaned text is non-empty and no
      earlier position has the same cleaned text. */
  predicate FirstSeen(cs: seq<Message>, j: nat)
    requires j < |cs|
  {
    cs[j].text != "" && forall k :: 0 <= k < j ==> cs[k].text != cs[j].text
  }

  /** The reference result of the scrape pipeline over the first `n` cleaned
      messages: the records of the first-seen positions, in DOM order. */
  function Kept(cs: seq<Message>, n: nat, now: string): seq<Prompt>
    requires n <= |cs|
  {
    if n == 0 then []
    else Kept(cs, n - 1, now) + (if FirstSeen(cs, n - 1) then [RecordFor(cs, n - 1, now)] else [])
  }

  /** A kept record comes from a first-seen position among the first `n`: it
      carries that position + 1 as index and that position's cleaned text. */
  predicate KeptFrom(cs: seq<Message>, n: nat, p: Prompt) {
    && 1 <= p.index <= n <= |cs|
    && p.text == cs[p.index - 1].text
    && FirstSeen(cs, p.index - 1)
    && p.responsePreview.None?
  }

  lemma {:induction false} KeptRecords(cs: seq<Message>, n: nat, now: string)
    requires n <= |cs|
    ensures forall k :: 0 <= k < |Kept(cs, n, now)| ==> KeptFrom(cs, n, Kept(cs, n, now)[k])
  {
    if n > 0 {
      KeptRecords(cs, n - 1, now);
      var prev := Kept(cs, n - 1, now);
      var r := Kept(cs, n, now);
      forall k | 0 <= k < |r|
        ensures KeptFrom(cs, n, r[k])
      {
        if k < |prev| {
          assert r[k] == prev[k];
          assert KeptFrom(cs, n - 1, prev[k]);
        }
      }
    }
  }

  /** Appending the record of a first-seen position keeps the invariants. */
  lemma AppendFirstSeen(cs: seq<Message>, n: nat, now: string, prev: seq<Prompt>)
    requires n < |cs| && FirstSeen(cs, n)
    requires forall k :: 0 <= k < |prev| ==> KeptFrom(cs, n, prev[k])
    requires IndicesIncreasing(prev) && TextsDistinct(prev)
    ensures IndicesIncreasing(prev + [RecordFor(cs, n, now)])
    ensures TextsDistinct(prev + [RecordFor(cs, n, now)])
  {
    var rec := RecordFor(cs, n, now);
    forall k | 0 <= k < |prev|
      ensures prev[k].index < rec.index && prev[k].text != rec.text
    {
      assert KeptFrom(cs, n, prev[k]);
    }
  }

  /** The scrape result keeps the session invariants: indices strictly
      increasing, texts non-empty and pairwise distinct, no response previews. */
  lemma {:induction false} KeptInvariants(cs: seq<Message>, n: nat, now: string)
    requires n <= |cs|
    ensures IndicesIncreasing(Kept(cs, n, now)) && TextsDistinct(Kept(cs, n, now))
    ensures forall k :: 0 <= k < |Kept(cs, n, now)| ==>
      Kept(cs, n, now)[k].text != "" && Kept(cs, n, now)[k].responsePreview.None?
  {
    KeptRecords(cs, n, now);
    if n > 0 {
      KeptInvariants(cs, n - 1, now);
      KeptRecords(cs, n - 1, now);
      if FirstSeen(cs, n - 1) {
        AppendFirstSeen(cs, n - 1, now, Kept(cs, n - 1, now));
      }
    }
  }

  lemma {:induction false} KeptPrefix(cs: seq<Message>, m: nat, n: nat, now: string)
    requires m <= n <= |cs|
    ensures Kept(cs, m, now) <= Kept(cs, n, now)
    decreases n - m
  {
    if m < n {
      KeptPrefix(cs, m, n - 1, now);
    }
  }

  /** Every message with a non-empty cleaned text has that text in the scrape
      result: the first occurrence of each text is kept. */
  lemma {:induction false} KeptCovers(cs: seq<Message>, n: nat, now: string, j: nat)
    requires j < n <= |cs| && cs[j].text != ""
    ensures HasText(Kept(cs, n, now), cs[j].text)
  {
    var r := Kept(cs, n, now);
    if FirstSeen(cs, j) {
      KeptPrefix(cs, j + 1, n, now);
      var rj := Kept(cs, j + 1, now);
      assert rj[|rj| - 1].text == cs[j].text;
      assert r[|rj| - 1] == rj[|rj| - 1];
    } else {
      var k :| 0 <= k < j && cs[k].text == cs[j].text;
      KeptCovers(cs, n, now, k);
    }
  }

  /** The `seen` set after the first `n` messages: their non-empty texts. */
  function Seen(cs: seq<Message>, n: nat): set<string>
    requires n <= |cs|
  {
    if n == 0 then {}
    else Seen(cs, n - 1) + (if cs[n - 1].text != "" then {cs[n - 1].text} else {})
  }

  /** A text is in `seen` exactly when it is non-empty and some earlier
      message has it. */
  lemma {:induction false} SeenMeans(cs: seq<Message>, n: nat, t: string)
    requires n <= |cs|
    ensures t in Seen(cs, n) <==> t != "" && exists j :: 0 <= j < n && cs[j].text == t
  {
    if n > 0 {
      SeenMeans(cs, n - 1, t);
      if t != "" && cs[n - 1].text == t {
        assert t in Seen(cs, n);
      }
    }
  }

  /** The loop's test `text && !seen.has(text)` is exactly `FirstSeen`. */
  lemma FirstSeenIffUnseen(cs: seq<Message>, i: nat)
    requires i < |cs|
    ensures (cs[i].text != "" && cs[i].text !in Seen(cs, i)) <==> FirstSeen(cs, i)
  {
    SeenMeans(cs, i, cs[i].text);
  }

  /** The loop of `scrapePrompts` over the cleaned messages: a record for
      each message whose text is non-empty and not yet in the `seen` set. */
  method KeepFirstSeen(cs: seq<Message>, now: string) returns (r: seq<Prompt>)
    ensures r == Kept(cs, |cs|, now)
  {
    var seen: set<string> := {};
    r := [];
    var i := 0;
    while i < |cs|
      invariant 0 <= i <= |cs|
      invariant seen == Seen(cs, i)
      invariant r == Kept(cs, i, now)
    {
      var text := cs[i].text;
      FirstSeenIffUnseen(cs, i);
      if text != "" && text !in seen {
        r := r + [RecordFor(cs, i, now)];
      }
      if text != "" {
        seen := seen + {text};
      }
      i := i + 1;
    }
  }

  /** `scrapePrompts`: on Perplexity the list is only seeded from the URL;
      with an empty user-message selector it is left alone; otherwise it is
      replaced by one record per matched message, indexed by DOM position,
      with empty and repeated cleaned texts dropped. */
  method ScrapePrompts(ps: seq<Prompt>, key: Option<string>, userMessage: string, msgs: seq<Message>,
                       path: string, decode: string -> Option<string>, previewLength: nat, now: string)
    returns (r: seq<Prompt>)
    ensures key == Some("perplexity") ==> r == SeedFromUrl(ps, path, decode, previewLength, now)
    ensures key != Some("perplexity") && userMessage == "" ==> r == ps
    ensures key != Some("perplexity") && userMessage != "" ==> r == Kept(CleanAll(msgs, previewLength), |msgs|, now)
  {
    if key == Some("perplexity") {
      return SeedFromUrl(ps, path, decode, previewLength, now);
    }
    if userMessage == "" {
      return ps;
    }
    r := KeepFirstSeen(CleanAll(msgs, previewLength), now);
  }

  /** What a scrape leaves: increasing DOM-position indices, distinct
      non-empty texts within the preview length, no previews, and every
      message's non-empty cleaned text represented. */
  lemma ScrapeResult(msgs: seq<Message>, previewLength: nat, now: string)
    ensures var r := Kept(CleanAll(msgs, previewLength), |msgs|, now);
      && IndicesIncreasing(r) && TextsDistinct(r) && TextsBounded(r, previewLength)
      && (forall k :: 0 <= k < |r| ==> r[k].text != "" && r[k].responsePreview.None?)
      && (forall j :: 0 <= j < |msgs| && Clean(msgs[j].text, previewLength) != "" ==>
            HasText(r, Clean(msgs[j].text, previewLength)))
  {
    var cs := CleanAll(msgs, previewLength);
    var r := Kept(cs, |msgs|, now);
    KeptInvariants(cs, |msgs|, now);
    KeptRecords(cs, |msgs|, now);
    forall k | 0 <= k < |r|
      ensures |r[k].text| <= previewLength
    {
      assert KeptFrom(cs, |msgs|, r[k]);
    }
    forall j | 0 <= j < |msgs| && Clean(msgs[j].text, previewLength) != ""
      ensures HasText(r, Clean(msgs[j].text, previewLength))
    {
      KeptCovers(cs, |msgs|, now, j);
    }
  }

  // ----- seeding from a Perplexity URL -----

  /** `.replace(/-/g, ' ')`: every dash read as a space. */
  function Undash(s: string): (r: string)
    ensures |r| == |s|
    ensures forall i :: 0 <= i < |s| ==> r[i] == (if s[i] == '-' then ' ' else s[i])
  {
    seq(|s|, i requires 0 <= i < |s| => if s[i] == '-' then ' ' else s[i])
  }

  /** The query a Perplexity path seeds: the slug of `/search/<slug>` or
      `/q/<slug>` (case-sensitive), passed through `decodeURIComponent` (the
      `decode` parameter, `None` when it throws), dashes read as spaces,
      trimmed; nothing when that leaves the empty string. */
  function SeededText(path: string, decode: string -> Option<string>): (r: Option<string>)
    ensures Paths.MatchStart(path, ["/search/", "/q/"], Paths.NoSlash, false).None? ==> r.None?
    ensures r.Some? ==> r.value != "" && '-' !in r.value && Trim(r.value) == r.value
    ensures r.Some? ==> Paths.MatchStart(path, ["/search/", "/q/"], Paths.NoSlash, false).Some?
    ensures var m := Paths.MatchStart(path, ["/search/", "/q/"], Paths.NoSlash, false);
      r.Some? <==> m.Some? && decode(m.value).Some? && Trim(Undash(decode(m.value).value)) != ""
    ensures var m := Paths.MatchStart(path, ["/search/", "/q/"], Paths.NoSlash, false);
      r.Some? && m.Some? && decode(m.value).Some? ==> r.value == Trim(Undash(decode(m.value).value))
  {
    match Paths.MatchStart(path, ["/search/", "/q/"], Paths.NoSlash, false)
    case None => None
    case Some(slug) =>
      match decode(slug)
      case None => None
      case Some(d) =>
        var t := Trim(Undash(d));
        if t == "" then None
        else
          TrimIdempotent(Undash(d));
          assert '-' !in t by {
            UndashedTrimHasNoDash(d, |t|);
            assert Take(Trim(t), |t|) == t;
          }
          Some(t)
  }

  /** `seedPromptFromUrlForPerplexity`: the seeded query, if any, goes
      through `addPrompt` as written. */
  function SeedFromUrl(ps: seq<Prompt>, path: string, decode: string -> Option<string>,
                       previewLength: nat, now: string): (r: seq<Prompt>)
    ensures SeededText(path, decode).None? ==> r == ps
    ensures |ps| <= |r| <= |ps| + 1 && r[..|ps|] == ps
    ensures |r| == |ps| + 1 ==>
      && SeededText(path, decode).Some?
      && r[|ps|].text == Take(SeededText(path, decode).value, previewLength)
      && '-' !in r[|ps|].text
    ensures SeededText(path, decode).Some? ==> r == AddPrompt(ps, SeededText(path, decode).value, previewLength, now)
    ensures SeededText(path, decode).Some? && !HasText(ps, SeededText(path, decode).value) ==>
      |r| == |ps| + 1 && r[|ps|].index == NextIndex(ps)
  {
    match SeededText(path, decode)
    case None => ps
    case Some(t) =>
      var r := AddPrompt(ps, t, previewLength, now);
      assert |r| == |ps| + 1 ==> '-' !in r[|ps|].text by {
        if |r| == |ps| + 1 {
          assert r[|ps|].text == Take(t, previewLength);
          assert forall k :: 0 <= k < |Take(t, previewLength)| ==> Take(t, previewLength)[k] == t[k];
        }
      }
      r
  }

  /** Reloading a Perplexity page on the same URL does not seed its query
      twice, provided the query fits in the preview length. */
  lemma SeedFromUrlIdempotentWhenShort(ps: seq<Prompt>, path: string, decode: string -> Option<string>,
                                       previewLength: nat, now: string)
    requires SeededText(path, decode).Some? ==> |SeededText(path, decode).value| <= previewLength
    ensures SeedFromUrl(SeedFromUrl(ps, path, decode, previewLength, now), path, decode, previewLength, now)
      == SeedFromUrl(ps, path, decode, previewLength, now)
  {
    match SeededText(path, decode)
    case None =>
    case Some(t) =>
      AddPromptIdempotentWhenShort(ps, t, previewLength, now);
  }

  /** A decoder that leaves the slug as it is (a slug with no escapes). */
  function Verbatim(s: string): Option<string> {
    Some(s)
  }

  /** `/search/abc` seeds the query `abc`. */
  lemma SearchAbcSeedsAbc()
    ensures SeededText("/search/abc", Verbatim) == Some("abc")
  {
    var path := "/search/abc";
    assert Paths.LitAt(path, 0, "/search/", false) by {
      assert path[0..8] == "/search/";
    }
    assert Paths.RunLen(path, 8, Paths.NoSlash) == 3;
    assert Paths.MatchAt(path, 0, ["/search/", "/q/"], Paths.NoSlash, false) == Some(0);
    assert path[8..11] == "abc";
    assert Undash("abc") == "abc";
    assert Trim("abc") == "abc" by {
      assert LeadingWhite("abc") == 0;
      assert TrailingWhite("abc") == 0;
    }
  }

  /** A query longer than the preview length is stored again on every seed:
      `/search/abc` seeded twice with preview length 2 leaves two records. */
  lemma SeedFromUrlDuplicatesLongSlug(now: string)
    ensures SeedFromUrl(SeedFromUrl([], "/search/abc", Verbatim, 2, now), "/search/abc", Verbatim, 2, now)
      == [Prompt(1, "ab", None, now, None), Prompt(2, "ab", None, now, None)]
  {
    SearchAbcSeedsAbc();
    var once := SeedFromUrl([], "/search/abc", Verbatim, 2, now);
    assert once == AddPrompt([], "abc", 2, now);
    assert SeedFromUrl(once, "/search/abc", Verbatim, 2, now) == AddPrompt(once, "abc", 2, now);
    AddPromptDuplicatesLongText(now);
  }

  lemma UndashedTrimHasNoDash(d: string, n: nat)
    ensures '-' !in Take(Trim(Trim(Undash(d))), n)
  {
    var u := Undash(d);
    var t := Trim(Trim(u));
    var lead := LeadingWhite(u);
    var rest := u[lead..];
    var t1 := rest[..|rest| - TrailingWhite(rest)];
    assert '-' !in u;
    assert '-' !in t1;
    TrimIdempotent(u);
  }

  // ----- response previews -----

  /** The preview step shared by `attachPerplexityResponseToLastPrompt` and
      `attachPlatformResponseAndAnchor`: the last record gets the scraped
      snippet, cut to the preview length, unless it already has a non-empty
      preview or the snippet is empty. */
  function AttachPreview(ps: seq<Prompt>, snippet: string, previewLength: nat): (r: seq<Prompt>)
    ensures |r| == |ps|
    ensures |ps| > 0 ==> r[..|ps| - 1] == ps[..|ps| - 1]
    ensures |ps| == 0 || HasPreview(ps[|ps| - 1]) || snippet == "" ==> r == ps
    ensures |ps| > 0 && !HasPreview(ps[|ps| - 1]) && snippet != "" ==>
      && r[|ps| - 1].responsePreview == Some(Take(snippet, previewLength))
      && r[|ps| - 1].(responsePreview := None) == ps[|ps| - 1].(responsePreview := None)
  {
    if |ps| == 0 then ps
    else
      var last := ps[|ps| - 1];
      if HasPreview(last) || snippet == "" then ps
      else ps[|ps| - 1 := last.(responsePreview := Some(Take(snippet, previewLength)))]
  }

  /** `attachPerplexityResponseToLastPrompt` (preview part): only on Perplexity. */
  function AttachPerplexityResponse(key: Option<string>, ps: seq<Prompt>, snippet: string, previewLength: nat): (r: seq<Prompt>)
    ensures key != Some("perplexity") ==> r == ps
    ensures key == Some("perplexity") ==> r == AttachPreview(ps, snippet, previewLength)
  {
    if key == Some("perplexity") then AttachPreview(ps, snippet, previewLength) else ps
  }

  /** `attachPlatformResponseAndAnchor` (preview part): only on DeepSeek and Gemini. */
  function AttachPlatformResponse(key: Option<string>, ps: seq<Prompt>, snippet: string, previewLength: nat): (r: seq<Prompt>)
    ensures key != Some("deepseek") && key != Some("gemini") ==> r == ps
    ensures key == Some("deepseek") || key == Some("gemini") ==> r == AttachPreview(ps, snippet, previewLength)
  {
    if key == Some("deepseek") || key == Some("gemini") then AttachPreview(ps, snippet, previewLength) else ps
  }

  /** The text the platform answer finder is asked to locate after attaching:
      `last.responsePreview || last.text`. */
  function AnchorQuery(last: Prompt): (q: string)
    ensures HasPreview(last) ==> q == last.responsePreview.value
    ensures !HasPreview(last) ==> q == last.text
  {
    if HasPreview(last) then last.responsePreview.value else last.text
  }

  /** Once a preview is attached, attaching again leaves the list unchanged,
      whatever the second snippet is. */
  lemma AttachPreviewSettles(ps: seq<Prompt>, s1: string, s2: string, previewLength: nat)
    requires |ps| > 0 && (HasPreview(ps[|ps| - 1]) || s1 != "")
    ensures AttachPreview(AttachPreview(ps, s1, previewLength), s2, previewLength)
      == AttachPreview(ps, s1, previewLength)
  {
    var once := AttachPreview(ps, s1, previewLength);
    var last := once[|once| - 1];
    if !HasPreview(last) && s2 != "" {
      assert previewLength == 0 || |s1| == 0;
      assert last.responsePreview == Some("");
      assert Take(s2, previewLength) == "";
      assert last.(responsePreview := Some("")) == last;
    }
  }

  /** Attached previews respect the preview-length bound, and attaching keeps
      the session invariants of the list. */
  lemma AttachPreviewKeepsInvariants(ps: seq<Prompt>, snippet: string, previewLength: nat)
    requires IndicesIncreasing(ps) && TextsDistinct(ps) && TextsBounded(ps, previewLength)
    ensures var r := AttachPreview(ps, snippet, previewLength);
      IndicesIncreasing(r) && TextsDistinct(r) && TextsBounded(r, previewLength)
      && (|ps| > 0 && !HasPreview(ps[|ps| - 1]) && snippet != "" ==>
            |r[|r| - 1].responsePreview.value| <= previewLength)
  {
    var r := AttachPreview(ps, snippet, previewLength);
    if |ps| > 0 {
      forall i | 0 <= i < |ps|
        ensures r[i].index == ps[i].index && r[i].text == ps[i].text
      {
        if i < |ps| - 1 {
          assert r[i] == r[..|ps| - 1][i];
        }
      }
    }
  }
}
