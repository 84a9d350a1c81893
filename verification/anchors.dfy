/** Locating the page element for a prompt or an answer. The DOM is reduced
    to candidate lists: each candidate is its trimmed text content, with its
    document-relative top where the finder compares positions. Every finder
    turns its candidates into keys and then runs the same selection loop. */
module Anchors {
  import opened Common
  import opened Strings
  import opened Overlap

  /** A candidate with its vertical position and its trimmed text. */
  datatype Candidate = Candidate(text: string, top: int)

  /** A candidate's key: skipped by the finder's filters, or scored. */
  datatype Scored = Skip | Scored(score: nat, top: int)

  /** Key `x` wins over key `y`: `os > bestScore || (os === bestScore && top > bestTop)`. */
  predicate Beats(x: Scored, y: Scored)
    requires x.Scored? && y.Scored?
  {
    x.score > y.score || (x.score == y.score && x.top > y.top)
  }

  /** Position `b` is the selection's answer: no key beats it, and it beats
      every scored key before it (so among equal keys the first one wins). */
  predicate IsBest(ks: seq<Scored>, b: nat) {
    && b < |ks| && ks[b].Scored?
    && (forall i :: 0 <= i < |ks| && ks[i].Scored? ==> !Beats(ks[i], ks[b]))
    && (forall i :: 0 <= i < b && ks[i].Scored? ==> Beats(ks[b], ks[i]))
  }

  /** At most one position is the answer. */
  lemma IsBestUnique(ks: seq<Scored>, b1: nat, b2: nat)
    requires IsBest(ks, b1) && IsBest(ks, b2)
    ensures b1 == b2
  {
  }

  /** The selection loop of the answer finders, with `bestScore` and
      `bestTop` starting at -1. */
  method SelectBest(ks: seq<Scored>) returns (best: Option<nat>)
    ensures best.None? <==> forall i :: 0 <= i < |ks| ==> ks[i].Skip?
    ensures best.Some? ==> IsBest(ks, best.value)
  {
    best := None;
    var bestScore: int := -1;
    var bestTop: int := -1;
    var i := 0;
    while i < |ks|
      invariant 0 <= i <= |ks|
      invariant best.None? ==> bestScore == -1 && forall j :: 0 <= j < i ==> ks[j].Skip?
      invariant best.Some? ==> best.value < i && ks[best.value].Scored?
      invariant best.Some? ==> bestScore == ks[best.value].score && bestTop == ks[best.value].top
      invariant best.Some? ==> forall j :: 0 <= j < i && ks[j].Scored? ==> !Beats(ks[j], ks[best.value])
      invariant best.Some? ==> forall j :: 0 <= j < best.value && ks[j].Scored? ==> Beats(ks[best.value], ks[j])
    {
      match ks[i] {
        case Skip =>
        case Scored(os, top) =>
          if os > bestScore || (os == bestScore && top > bestTop) {
            best := Some(i);
            bestScore := os;
            bestTop := top;
          }
      }
      i := i + 1;
    }
  }

  // ----- Perplexity -----

  /** `Math.min(60, Math.floor(short.length * 0.35))`, in exact arithmetic:
      for the lengths that occur (at most 180) the only length where the
      floating-point product rounds below the exact one is 180, where the
      minimum is 60 either way. */
  function Threshold(n: nat): (t: nat)
    ensures t <= 60 && t <= n
    ensures 100 * t <= 35 * n
    ensures t == 60 || 35 * n < 100 * (t + 1)
  {
    Min(60, (35 * n) / 100)
  }

  /** `snippet.slice(0, Math.min(k, snippet.length))` of the trimmed snippet. */
  function Short(text: string, k: nat): (r: string)
    ensures |r| <= k && |r| <= |Trim(text)|
    ensures |r| == Min(k, |Trim(text)|)
    ensures r == Trim(text)[..|r|]
  {
    Take(Trim(text), k)
  }

  /** A Perplexity candidate is scored unless its text is empty or its overlap
      with the short snippet is below the threshold. */
  function PerplexityKey(short: string, c: Candidate): (k: Scored)
    ensures k.Scored? <==> c.text != "" && OverlapScore(short, c.text) >= Threshold(|short|)
    ensures k.Scored? ==> k.score == OverlapScore(short, c.text) && k.top == c.top
  {
    if c.text == "" then Skip
    else
      var os := OverlapScore(short, c.text);
      if os < Threshold(|short|) then Skip else Scored(os, c.top)
  }

  function PerplexityKeys(short: string, cs: seq<Candidate>): (ks: seq<Scored>)
    ensures |ks| == |cs|
    ensures forall i :: 0 <= i < |cs| ==> ks[i] == PerplexityKey(short, cs[i])
  {
    seq(|cs|, i requires 0 <= i < |cs| => PerplexityKey(short, cs[i]))
  }

  /** `findPerplexityAnswerElement`: the best candidate by overlap with the
      first 180 characters of the snippet, then by position lower on the page;
      no answer for an empty snippet. */
  method FindPerplexityAnswer(text: string, cs: seq<Candidate>) returns (r: Option<nat>)
    ensures Trim(text) == "" ==> r.None?
    ensures Trim(text) != "" ==> var short := Short(text, 180);
      && (r.None? <==> forall i :: 0 <= i < |cs| ==> PerplexityKey(short, cs[i]).Skip?)
      && (r.Some? ==> IsBest(PerplexityKeys(short, cs), r.value))
    ensures r.Some? ==>
      && r.value < |cs| && cs[r.value].text != ""
      && OverlapScore(Short(text, 180), cs[r.value].text) >= Threshold(|Short(text, 180)|)
  {
    if Trim(text) == "" {
      return None;
    }
    var ks := PerplexityKeys(Short(text, 180), cs);
    r := SelectBest(ks);
  }

  // ----- DeepSeek -----

  /** A DeepSeek message: the class of its role element (or of itself), the
      lower-cased author attribute, the trimmed text of its content element,
      and its top. */
  datatype DeepseekMessage = DeepseekMessage(roleClass: string, author: string, content: string, top: int)

  /** `/w/i.test(s)` for a lower-case word `w`. */
  predicate HasWord(s: string, w: string) {
    Contains(Lower(s), w)
  }

  /** The finder's assistant test: an assistant, model or bot author, an
      assistant role class, or a role class that does not say user. */
  predicate IsAssistant(m: DeepseekMessage) {
    || HasWord(m.author, "assistant") || HasWord(m.author, "model") || HasWord(m.author, "bot")
    || HasWord(m.roleClass, "assistant") || !HasWord(m.roleClass, "user")
  }

  /** Only assistant messages with at least 60 characters of text are scored. */
  function DeepseekKey(short: string, m: DeepseekMessage): (k: Scored)
    ensures k.Scored? <==> IsAssistant(m) && |m.content| >= 60
    ensures k.Scored? ==> k.score == OverlapScore(short, m.content) && k.top == m.top
  {
    if !IsAssistant(m) || m.content == "" || |m.content| < 60 then Skip
    else Scored(OverlapScore(short, m.content), m.top)
  }

  function DeepseekKeys(short: string, ms: seq<DeepseekMessage>): (ks: seq<Scored>)
    ensures |ks| == |ms|
    ensures forall i :: 0 <= i < |ms| ==> ks[i] == DeepseekKey(short, ms[i])
  {
    seq(|ms|, i requires 0 <= i < |ms| => DeepseekKey(short, ms[i]))
  }

  /** `findDeepseekAnswerElement`: the best long assistant message by overlap
      with the first 160 characters of the snippet, then by position. An empty
      snippet is not rejected: every message then scores 0 and the lowest
      long assistant message wins. */
  method FindDeepseekAnswer(text: string, ms: seq<DeepseekMessage>) returns (r: Option<nat>)
    ensures r.None? <==> forall i :: 0 <= i < |ms| ==> !IsAssistant(ms[i]) || |ms[i].content| < 60
    ensures r.Some? ==> IsBest(DeepseekKeys(Short(text, 160), ms), r.value)
    ensures r.Some? ==> r.value < |ms| && IsAssistant(ms[r.value]) && |ms[r.value].content| >= 60
  {
    var ks := DeepseekKeys(Short(text, 160), ms);
    r := SelectBest(ks);
  }

  // ----- Gemini -----

  /** A candidate list with a fallback: the selectors' matches, or the
      fallback elements (every paragraph and division) when those match
      nothing. Used by the Gemini answer search and the Perplexity snippet. */
  function OrFallback<T>(primary: seq<T>, fallback: seq<T>): (r: seq<T>)
    ensures |primary| > 0 ==> r == primary
    ensures |primary| == 0 ==> r == fallback
  {
    if |primary| > 0 then primary else fallback
  }

  /** Only candidates with at least 60 characters of text are scored. */
  function LongKey(short: string, c: Candidate): (k: Scored)
    ensures k.Scored? <==> |c.text| >= 60
    ensures k.Scored? ==> k.score == OverlapScore(short, c.text) && k.top == c.top
  {
    if c.text == "" || |c.text| < 60 then Skip else Scored(OverlapScore(short, c.text), c.top)
  }

  function LongKeys(short: string, cs: seq<Candidate>): (ks: seq<Scored>)
    ensures |ks| == |cs|
    ensures forall i :: 0 <= i < |cs| ==> ks[i] == LongKey(short, cs[i])
  {
    seq(|cs|, i requires 0 <= i < |cs| => LongKey(short, cs[i]))
  }

  /** `findGeminiAnswerElement`: the best long candidate by overlap with the
      first 160 characters of the snippet, then by position. */
  method FindGeminiAnswer(text: string, primary: seq<Candidate>, fallback: seq<Candidate>) returns (r: Option<nat>)
    ensures var cs := OrFallback(primary, fallback);
      && (r.None? <==> forall i :: 0 <= i < |cs| ==> |cs[i].text| < 60)
      && (r.Some? ==> IsBest(LongKeys(Short(text, 160), cs), r.value) && |cs[r.value].text| >= 60)
  {
    var cs := OrFallback(primary, fallback);
    r := SelectBest(LongKeys(Short(text, 160), cs));
  }

  // ----- answer snippets -----

  /** No text before `j` has 60 characters. */
  predicate FirstAt(ts: seq<string>, j: nat) {
    forall i :: 0 <= i < j && i < |ts| ==> |ts[i]| < 60
  }

  /** No text after `j` has 60 characters. */
  predicate LastAt(ts: seq<string>, j: nat) {
    forall i :: j < i < |ts| ==> |ts[i]| < 60
  }

  /** Position of the first text of at least 60 characters at or after `from`. */
  function FirstLong(ts: seq<string>, from: nat): (r: Option<nat>)
    requires from <= |ts|
    ensures r.None? <==> forall i :: from <= i < |ts| ==> |ts[i]| < 60
    ensures r.Some? ==> from <= r.value < |ts| && |ts[r.value]| >= 60
    ensures r.Some? ==> forall i :: from <= i < r.value ==> |ts[i]| < 60
    decreases |ts| - from
  {
    if from == |ts| then None
    else if |ts[from]| >= 60 then Some(from)
    else FirstLong(ts, from + 1)
  }

  /** Position of the last text of at least 60 characters among the first `n`. */
  function LastLong(ts: seq<string>, n: nat): (r: Option<nat>)
    requires n <= |ts|
    ensures r.None? <==> forall i :: 0 <= i < n ==> |ts[i]| < 60
    ensures r.Some? ==> r.value < n && |ts[r.value]| >= 60
    ensures r.Some? ==> forall i :: r.value < i < n ==> |ts[i]| < 60
  {
    if n == 0 then None
    else if |ts[n - 1]| >= 60 then Some(n - 1)
    else LastLong(ts, n - 1)
  }

  /** `scrapePerplexityAnswerSnippet`: the first text block of at least 60
      characters (from the answer selectors, else from every paragraph and
      division), or the empty string. */
  function PerplexitySnippet(primary: seq<string>, fallback: seq<string>): (r: string)
    ensures var ts := OrFallback(primary, fallback);
      && (r == "" <==> forall i :: 0 <= i < |ts| ==> |ts[i]| < 60)
      && (r != "" ==> exists j :: 0 <= j < |ts| && r == ts[j] && |r| >= 60 && FirstAt(ts, j))
  {
    var ts := OrFallback(primary, fallback);
    match FirstLong(ts, 0)
    case None => ""
    case Some(j) => ts[j]
  }

  /** A DeepSeek message as the snippet scraper sees it: the class of its
      role element (or of itself) and its trimmed content text. */
  datatype RoleText = RoleText(roleClass: string, content: string)

  /** The scraper's assistant test, which looks at the role class only. */
  predicate ScraperAssistant(m: RoleText) {
    HasWord(m.roleClass, "assistant") || !HasWord(m.roleClass, "user")
  }

  /** The texts the DeepSeek scraper accepts: non-assistant messages read as
      empty. */
  function AssistantTexts(ms: seq<RoleText>): (ts: seq<string>)
    ensures |ts| == |ms|
    ensures forall i :: 0 <= i < |ms| ==> ts[i] == (if ScraperAssistant(ms[i]) then ms[i].content else "")
  {
    seq(|ms|, i requires 0 <= i < |ms| => if ScraperAssistant(ms[i]) then ms[i].content else "")
  }

  /** `scrapeDeepseekAnswerSnippet`: the last assistant message with at least
      60 characters of text, or the empty string. */
  function DeepseekSnippet(ms: seq<RoleText>): (r: string)
    ensures r == "" <==> forall i :: 0 <= i < |ms| ==> !ScraperAssistant(ms[i]) || |ms[i].content| < 60
    ensures r != "" ==>
      exists j :: 0 <= j < |ms| && r == ms[j].content && ScraperAssistant(ms[j]) && |r| >= 60
        && LastAt(AssistantTexts(ms), j)
  {
    var ts := AssistantTexts(ms);
    match LastLong(ts, |ts|)
    case None => ""
    case Some(j) => ts[j]
  }

  /** `scrapeGeminiAnswerSnippet`: the last candidate text of at least 60
      characters, or the empty string. */
  function GeminiSnippet(primary: seq<string>, fallback: seq<string>): (r: string)
    ensures var ts := OrFallback(primary, fallback);
      && (r == "" <==> forall i :: 0 <= i < |ts| ==> |ts[i]| < 60)
      && (r != "" ==> exists j :: 0 <= j < |ts| && r == ts[j] && |r| >= 60 && LastAt(ts, j))
  {
    var ts := OrFallback(primary, fallback);
    match LastLong(ts, |ts|)
    case None => ""
    case Some(j) => ts[j]
  }

  // ----- locating a prompt's own element -----

  /** The ChatGPT and Claude test: the message contains the snippet, or the
      snippet contains the message's first 50 characters. */
  predicate MessageMatches(snippet: string, t: string) {
    Contains(t, snippet) || Contains(snippet, Take(t, 50))
  }

  /** Position of the first non-empty message at or after `from` that matches. */
  function FirstMatching(snippet: string, ts: seq<string>, from: nat): (r: Option<nat>)
    requires from <= |ts|
    ensures r.None? <==> forall i :: from <= i < |ts| ==> ts[i] == "" || !MessageMatches(snippet, ts[i])
    ensures r.Some? ==> from <= r.value < |ts| && ts[r.value] != "" && MessageMatches(snippet, ts[r.value])
    ensures r.Some? ==> forall i :: from <= i < r.value ==> ts[i] == "" || !MessageMatches(snippet, ts[i])
    decreases |ts| - from
  {
    if from == |ts| then None
    else if ts[from] != "" && MessageMatches(snippet, ts[from]) then Some(from)
    else FirstMatching(snippet, ts, from + 1)
  }

  /** The generic search's score for one candidate; empty texts are passed over. */
  function GenericScore(snippet: string, t: string): (o: Option<nat>)
    ensures t == "" <==> o.None?
    ensures o.Some? ==> o.value == OverlapScore(snippet, t)
  {
    if t == "" then None else Some(OverlapScore(snippet, t))
  }

  /** The candidate is good enough to stop at: `score >= snippet.length * 0.8`. */
  predicate GoodEnough(score: nat, n: nat) {
    5 * score >= 4 * n
  }

  /** The generic search loop over the candidates' scores: it keeps the first
      candidate of strictly greatest positive score, and stops at the first
      candidate whose score reaches four fifths of the snippet length. */
  method EarlyExit(os: seq<Option<nat>>, n: nat) returns (r: Option<nat>)
    ensures (exists g :: 0 <= g < |os| && os[g].Some? && GoodEnough(os[g].value, n)) ==>
      r.Some? && r.value < |os| && os[r.value].Some? && GoodEnough(os[r.value].value, n)
      && forall i :: 0 <= i < r.value && os[i].Some? ==> !GoodEnough(os[i].value, n)
    ensures (forall g :: 0 <= g < |os| && os[g].Some? ==> !GoodEnough(os[g].value, n)) ==>
      && (r.None? <==> forall i :: 0 <= i < |os| && os[i].Some? ==> os[i].value == 0)
      && (r.Some? ==>
            && r.value < |os| && os[r.value].Some? && os[r.value].value > 0
            && (forall i :: 0 <= i < |os| && os[i].Some? ==> os[i].value <= os[r.value].value)
            && (forall i :: 0 <= i < r.value && os[i].Some? ==> os[i].value < os[r.value].value))
  {
    r := None;
    var bestScore := 0;
    var i := 0;
    while i < |os|
      invariant 0 <= i <= |os|
      invariant forall j :: 0 <= j < i && os[j].Some? ==> !GoodEnough(os[j].value, n)
      invariant r.None? ==> bestScore == 0 && forall j :: 0 <= j < i && os[j].Some? ==> os[j].value == 0
      invariant r.Some? ==> r.value < i && os[r.value].Some? && bestScore == os[r.value].value > 0
      invariant r.Some? ==> forall j :: 0 <= j < i && os[j].Some? ==> os[j].value <= bestScore
      invariant r.Some? ==> forall j :: 0 <= j < r.value && os[j].Some? ==> os[j].value < bestScore
    {
      match os[i] {
        case None =>
        case Some(score) =>
          if score > bestScore {
            bestScore := score;
            r := Some(i);
          }
          if GoodEnough(score, n) {
            return Some(i);
          }
      }
      i := i + 1;
    }
  }

  /** A candidate the generic search stops at: non-empty, with an overlap of
      at least four fifths of the snippet length. */
  predicate StopsAt(snippet: string, c: string) {
    c != "" && GoodEnough(OverlapScore(snippet, c), |snippet|)
  }

  /** `findElementForPromptText`: nothing for an empty snippet; on ChatGPT and
      Claude the first user message that matches; elsewhere the generic
      overlap search over the container's candidates, which stops at the
      first good-enough candidate and otherwise keeps the first candidate of
      greatest positive overlap. */
  method FindElementForPromptText(key: Option<string>, text: string, messages: seq<string>, candidates: seq<string>)
    returns (r: Option<nat>)
    ensures Trim(text) == "" ==> r.None?
    ensures Trim(text) != "" && (key == Some("chatgpt") || key == Some("claude")) ==>
      r == FirstMatching(Trim(text), messages, 0)
    ensures Trim(text) != "" && key != Some("chatgpt") && key != Some("claude") ==>
      && (r.Some? ==>
            && r.value < |candidates| && candidates[r.value] != ""
            && OverlapScore(Trim(text), candidates[r.value]) > 0)
      && (r.None? ==> forall i :: 0 <= i < |candidates| ==> OverlapScore(Trim(text), candidates[i]) == 0)
    ensures Trim(text) != "" && key != Some("chatgpt") && key != Some("claude")
            && (exists g :: 0 <= g < |candidates| && StopsAt(Trim(text), candidates[g])) ==>
      && r.Some? && r.value < |candidates| && StopsAt(Trim(text), candidates[r.value])
      && forall i :: 0 <= i < r.value ==> !StopsAt(Trim(text), candidates[i])
    ensures Trim(text) != "" && key != Some("chatgpt") && key != Some("claude")
            && (forall g :: 0 <= g < |candidates| ==> !StopsAt(Trim(text), candidates[g])) ==>
      && (r.None? <==> forall i :: 0 <= i < |candidates| ==> OverlapScore(Trim(text), candidates[i]) == 0)
      && (r.Some? ==>
            && r.value < |candidates|
            && (forall i :: 0 <= i < |candidates| && candidates[i] != "" ==>
                  OverlapScore(Trim(text), candidates[i]) <= OverlapScore(Trim(text), candidates[r.value]))
            && (forall i :: 0 <= i < r.value && candidates[i] != "" ==>
                  OverlapScore(Trim(text), candidates[i]) < OverlapScore(Trim(text), candidates[r.value])))
  {
    var snippet := Trim(text);
    if snippet == "" {
      return None;
    }
    if key == Some("chatgpt") || key == Some("claude") {
      return FirstMatching(snippet, messages, 0);
    }
    var os := seq(|candidates|, i requires 0 <= i < |candidates| => GenericScore(snippet, candidates[i]));
    assert forall i :: 0 <= i < |candidates| ==>
      (os[i].Some? && GoodEnough(os[i].value, |snippet|)) == StopsAt(snippet, candidates[i]);
    r := EarlyExit(os, |snippet|);
    forall i | 0 <= i < |candidates| && candidates[i] == ""
      ensures OverlapScore(snippet, candidates[i]) == 0
    {
    }
  }
}
