/** The text overlap scorer (`_overlapScore`): a three-tier integer score of
    how much of a needle `a` is found in a haystack `b`, compared in lower case. */
module Overlap {
  import opened Common
  import opened Strings

  /** Length of the needle prefix the second tier looks for. */
  const PrefixLen := 60

  predicate NoDup(ws: seq<string>) {
    forall i, j :: 0 <= i < j < |ws| ==> ws[i] != ws[j]
  }

  /** The words of `ws` not in `seen`, each once, in first-seen order: the
      iteration order of `new Set(words)`. */
  function Distinct(ws: seq<string>, seen: set<string>): (r: seq<string>)
    ensures NoDup(r)
    ensures forall w :: w in r <==> w in ws && w !in seen
    ensures TotalLen(r) <= TotalLen(ws)
    ensures forall i, j, q :: 0 <= i < j < |r| && 0 <= q < |ws| && ws[q] == r[j] ==>
      exists p :: 0 <= p < q && ws[p] == r[i]
  {
    if |ws| == 0 then []
    else if ws[0] in seen then Distinct(ws[1..], seen)
    else [ws[0]] + Distinct(ws[1..], seen + {ws[0]})
  }

  /** Summed length of the words of `ds` that also occur in `other`. */
  function SharedLen(ds: seq<string>, other: seq<string>): (n: nat)
    ensures n <= TotalLen(ds)
  {
    if |ds| == 0 then 0
    else (if ds[0] in other then |ds[0]| else 0) + SharedLen(ds[1..], other)
  }

  /** The bag-of-words tier: the summed lengths of the distinct words of `s1`
      that are also words of `s2`. */
  function WordScore(s1: string, s2: string): (n: nat)
    ensures n <= |s1|
  {
    SharedLen(Distinct(Words(s1), {}), Words(s2))
  }

  /** `_overlapScore(a, b)`. */
  function OverlapScore(a: string, b: string): (r: nat)
    ensures a == "" || b == "" ==> r == 0
    ensures a != "" && b != "" && Contains(Lower(b), Lower(a)) ==> r == |a|
    ensures (a != "" && b != "" && !Contains(Lower(b), Lower(a))
             && Contains(Lower(b), Lower(a)[..Min(PrefixLen, |a|)])) ==> r == Min(PrefixLen, |a|)
    ensures (a != "" && b != "" && !Contains(Lower(b), Lower(a))
             && !Contains(Lower(b), Lower(a)[..Min(PrefixLen, |a|)])) ==> r == WordScore(Lower(a), Lower(b))
    ensures r <= |a|
  {
    var s1 := Lower(a);
    var s2 := Lower(b);
    if s1 == "" || s2 == "" then 0
    else if Contains(s2, s1) then |s1|
    else
      var prefix := s1[..Min(PrefixLen, |s1|)];
      if Contains(s2, prefix) then |prefix|
      else WordScore(s1, s2)
  }

  // ----- the word tier as a set sum -----

  ghost function Pick(s: set<string>): string
    requires s != {}
  {
    var w :| w in s; w
  }

  /** Summed length of the words in a set: the reference meaning of the word tier. */
  ghost function SetLen(s: set<string>): nat
    decreases |s|
  {
    if s == {} then 0 else var w := Pick(s); |w| + SetLen(s - {w})
  }

  lemma {:induction false} SetLenRemove(s: set<string>, x: string)
    requires x in s
    ensures SetLen(s) == |x| + SetLen(s - {x})
    decreases |s|
  {
    var w := Pick(s);
    if w != x {
      SetLenRemove(s - {w}, x);
      SetLenRemove(s - {x}, w);
      assert s - {w} - {x} == s - {x} - {w};
    }
  }

  /** Words common to both texts, as sets. */
  ghost function CommonWords(s1: string, s2: string): set<string> {
    set w | w in Words(s1) && w in Words(s2)
  }

  lemma {:induction false} SharedLenIsSetLen(ds: seq<string>, other: seq<string>)
    requires NoDup(ds)
    ensures SharedLen(ds, other) == SetLen(set w | w in ds && w in other)
  {
    var s := set w | w in ds && w in other;
    if |ds| > 0 {
      var rest := ds[1..];
      assert NoDup(rest);
      SharedLenIsSetLen(rest, other);
      var t := set w | w in rest && w in other;
      if ds[0] in other {
        assert ds[0] !in rest;
        SetLenRemove(s, ds[0]);
        assert s - {ds[0]} == t;
      } else {
        assert s == t;
      }
    } else {
      assert s == {};
    }
  }

  /** The word tier is the summed length of the words the two texts share,
      each counted once. */
  lemma WordScoreIsCommonWords(s1: string, s2: string)
    ensures WordScore(s1, s2) == SetLen(CommonWords(s1, s2))
  {
    var ds := Distinct(Words(s1), {});
    SharedLenIsSetLen(ds, Words(s2));
    assert (set w | w in ds && w in Words(s2)) == CommonWords(s1, s2);
  }

  /** The word tier is symmetric in its two texts. */
  lemma WordScoreSymmetric(s1: string, s2: string)
    ensures WordScore(s1, s2) == WordScore(s2, s1)
  {
    WordScoreIsCommonWords(s1, s2);
    WordScoreIsCommonWords(s2, s1);
    assert CommonWords(s1, s2) == CommonWords(s2, s1);
  }

  /** Once neither containment tier applies in either direction, the whole
      score is symmetric. */
  lemma OverlapSymmetricInWordTier(a: string, b: string)
    requires a != "" && b != ""
    requires !Contains(Lower(b), Lower(a)) && !Contains(Lower(b), Lower(a)[..Min(PrefixLen, |a|)])
    requires !Contains(Lower(a), Lower(b)) && !Contains(Lower(a), Lower(b)[..Min(PrefixLen, |b|)])
    ensures OverlapScore(a, b) == OverlapScore(b, a)
  {
    WordScoreSymmetric(Lower(a), Lower(b));
  }

  /** A needle of at most 60 characters never scores by the prefix tier: its
      prefix is the whole needle. */
  lemma ShortNeedleSkipsPrefixTier(a: string, b: string)
    requires 0 < |a| <= PrefixLen && b != ""
    requires !Contains(Lower(b), Lower(a))
    ensures OverlapScore(a, b) == WordScore(Lower(a), Lower(b))
  {
    assert Lower(a)[..Min(PrefixLen, |a|)] == Lower(a);
  }

  /** The containment tiers are not symmetric: "ab" is inside "xaby" but not
      the other way round, and the two texts share no word. */
  lemma OverlapAsymmetric()
    ensures OverlapScore("ab", "xaby") == 2
    ensures OverlapScore("xaby", "ab") == 0
  {
    assert Lower("ab") == "ab";
    assert Lower("xaby") == "xaby";
    assert OccursAt("xaby", "ab", 1);
    assert Lower("xaby")[..Min(PrefixLen, 4)] == "xaby";
    assert WordLen("xaby") == 4;
    assert Words("xaby") == ["xaby"];
    assert WordLen("ab") == 2;
    assert "ab"[..2] == "ab" && "ab"[2..] == "";
    assert Words("") == [];
    assert Words("ab") == ["ab"];
    assert Distinct(["xaby"], {}) == ["xaby"];
  }
}
