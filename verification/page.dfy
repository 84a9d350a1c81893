/** Page-level rules of the content script: the header offset used when
    centring a scrolled element, and the test that decides whether a batch
    of DOM mutations triggers a re-scrape. Element geometry and computed
    styles are inputs. */
module Page {
  import opened Common

  // ----- header offset -----

  /** A header candidate as `_computeHeaderOffset` inspects it: whether it is
      visible (display, visibility and opacity above 0.05), its computed
      position, and its rectangle's top and rounded height. */
  datatype HeaderCandidate = HeaderCandidate(visible: bool, position: string, top: int, height: int)

  /** A visible fixed or sticky element in the top 20 pixels whose height is
      between 40 and 140. */
  predicate Admissible(c: HeaderCandidate) {
    && c.visible
    && (c.position == "fixed" || c.position == "sticky")
    && c.top <= 20
    && 40 <= c.height <= 140
  }

  /** `_computeHeaderOffset` over the first `n` candidates: the greatest
      admissible height, or 0 when none is admissible. */
  function HeaderOffset(cs: seq<HeaderCandidate>, n: nat): (h: int)
    requires n <= |cs|
    ensures h == 0 <==> forall i :: 0 <= i < n ==> !Admissible(cs[i])
    ensures h != 0 ==> 40 <= h <= 140 && exists i :: 0 <= i < n && Admissible(cs[i]) && cs[i].height == h
    ensures forall i :: 0 <= i < n && Admissible(cs[i]) ==> cs[i].height <= h
  {
    if n == 0 then 0
    else
      var h := HeaderOffset(cs, n - 1);
      var c := cs[n - 1];
      if Admissible(c) && c.height > h then c.height else h
  }

  /** The offset kept for a platform when no header is detected. */
  function PlatformOffset(key: Option<string>): (r: int)
    ensures key == Some("perplexity") ==> r == 72
    ensures key == Some("deepseek") ==> r == 64
    ensures key == Some("gemini") ==> r == 80
    ensures key != Some("perplexity") && key != Some("deepseek") && key != Some("gemini") ==> r == 0
  {
    if key == Some("perplexity") then 72
    else if key == Some("deepseek") then 64
    else if key == Some("gemini") then 80
    else 0
  }

  /** `getHeaderOffset`: the detected header height when positive, otherwise
      the platform's fixed offset. */
  function GetHeaderOffset(key: Option<string>, cs: seq<HeaderCandidate>): (r: int)
    ensures (exists i :: 0 <= i < |cs| && Admissible(cs[i])) ==>
      && 40 <= r <= 140
      && (exists i :: 0 <= i < |cs| && Admissible(cs[i]) && cs[i].height == r)
      && (forall i :: 0 <= i < |cs| && Admissible(cs[i]) ==> cs[i].height <= r)
    ensures (forall i :: 0 <= i < |cs| ==> !Admissible(cs[i])) ==> r == PlatformOffset(key)
    ensures 0 <= r <= 140
  {
    var dynamic := HeaderOffset(cs, |cs|);
    if dynamic > 0 then dynamic else PlatformOffset(key)
  }

  /** The platforms with a fixed fallback never get a zero offset. */
  lemma FallbackPlatformsOffsetPositive(key: Option<string>, cs: seq<HeaderCandidate>)
    requires key == Some("perplexity") || key == Some("deepseek") || key == Some("gemini")
    ensures GetHeaderOffset(key, cs) >= 40
  {
  }

  // ----- the mutation trigger -----

  datatype MutationKind = ChildList | Attributes | CharacterData

  /** An added node: whether it is an element, whether it matches the
      user-message selector, and whether a descendant does. */
  datatype AddedNode = AddedNode(isElement: bool, matchesSelf: bool, matchesDescendant: bool)

  datatype Mutation = Mutation(kind: MutationKind, added: seq<AddedNode>)

  /** An added node that announces a new user message. */
  predicate Announces(userSel: string, n: AddedNode) {
    n.isElement && userSel != "" && (n.matchesSelf || n.matchesDescendant)
  }

  /** A child-list mutation that added an announcing node. */
  predicate Triggers(userSel: string, m: Mutation) {
    m.kind == ChildList && exists j :: 0 <= j < |m.added| && Announces(userSel, m.added[j])
  }

  /** The observer callback's `shouldUpdate`. The inner `break` only leaves
      the current mutation's node list and later mutations are still
      examined, which does not change the outcome. */
  method ShouldUpdate(userSel: string, ms: seq<Mutation>) returns (update: bool)
    ensures update <==> exists i :: 0 <= i < |ms| && Triggers(userSel, ms[i])
  {
    update := false;
    var i := 0;
    while i < |ms|
      invariant 0 <= i <= |ms|
      invariant update <==> exists k :: 0 <= k < i && Triggers(userSel, ms[k])
    {
      if ms[i].kind == ChildList {
        var nodes := ms[i].added;
        var j := 0;
        while j < |nodes| && !(nodes[j].isElement && userSel != "" && (nodes[j].matchesSelf || nodes[j].matchesDescendant))
          invariant 0 <= j <= |nodes|
          invariant forall q :: 0 <= q < j ==> !Announces(userSel, nodes[q])
        {
          j := j + 1;
        }
        if j < |nodes| {
          update := true;
        }
      }
      i := i + 1;
    }
  }

  /** A capture-only site (empty user-message selector) is never re-scraped
      by the observer. */
  lemma CaptureOnlyNeverTriggers(ms: seq<Mutation>)
    ensures forall i :: 0 <= i < |ms| ==> !Triggers("", ms[i])
  {
  }
}
