/** Per-conversation history in extension storage: the storage key, the
    projection `saveHistory` writes, and the exact-key load with its fallback
    to the longest list stored for the same site (`loadHistory`,
    `migrateHistoryKeys`). */
module History {
  import opened Common
  import opened Strings
  import opened Prompts

  /** A record as persisted. A field JSON drops (an `undefined` preview) or an
      older version never wrote comes back missing: `None`. */
  datatype Persisted = Persisted(
    index: Option<int>,
    text: Option<string>,
    timestamp: Option<string>,
    responsePreview: Option<string>)

  /** A stored value: a list of records, or anything that is not an array. */
  datatype Stored = List(items: seq<Persisted>) | Other

  /** The whole storage area as `get(null)` enumerates it: key/value entries
      in enumeration order, keys distinct. */
  type Entries = seq<(string, Stored)>

  predicate KeysDistinct(es: Entries) {
    forall i, j :: 0 <= i < j < |es| ==> es[i].0 != es[j].0
  }

  const KeyPrefix := "promptpath:history:"

  /** `this.currentLLM?.key || 'unknown'`. */
  function SiteKey(site: Option<string>): (r: string)
    ensures r != ""
    ensures site.Some? && site.value != "" ==> r == site.value
  {
    if site.Some? && site.value != "" then site.value else "unknown"
  }

  /** The prefix shared by every history key of one site. */
  function SitePrefix(site: Option<string>): string {
    KeyPrefix + SiteKey(site) + ":"
  }

  /** `getStorageKey`: the site prefix followed by the conversation id. */
  function StorageKey(site: Option<string>, convId: string): (k: string)
    ensures StartsWith(k, SitePrefix(site))
    ensures k[|SitePrefix(site)|..] == convId
  {
    SitePrefix(site) + convId
  }

  /** Two conversations of one site never share a key. */
  lemma StorageKeyInjective(site: Option<string>, c1: string, c2: string)
    requires StorageKey(site, c1) == StorageKey(site, c2)
    ensures c1 == c2
  {
    assert c1 == StorageKey(site, c1)[|SitePrefix(site)|..];
  }

  /** `result[key]` of `get([key])`: the value under `k`, if any. */
  function Lookup(es: Entries, k: string): (r: Option<Stored>)
    ensures r.None? <==> forall i :: 0 <= i < |es| ==> es[i].0 != k
    ensures r.Some? ==> exists i :: 0 <= i < |es| && es[i] == (k, r.value)
  {
    if |es| == 0 then None
    else if es[0].0 == k then Some(es[0].1)
    else
      var r := Lookup(es[1..], k);
      assert r.Some? ==> exists i :: 0 <= i < |es[1..]| && es[1..][i] == (k, r.value);
      r
  }

  /** `set({[k]: v})`: an existing entry is overwritten in place, a new key
      is appended. */
  function Put(es: Entries, k: string, v: Stored): (r: Entries)
    ensures |r| == |es| || |r| == |es| + 1
    ensures forall i :: 0 <= i < |es| ==> r[i].0 == es[i].0
    ensures forall i :: 0 <= i < |es| && es[i].0 != k ==> r[i] == es[i]
    ensures |r| == |es| + 1 ==> r[|es|] == (k, v)
  {
    if |es| == 0 then [(k, v)]
    else if es[0].0 == k then [(k, v)] + es[1..]
    else [es[0]] + Put(es[1..], k, v)
  }

  /** After a write, reading the same key returns what was written. */
  lemma {:induction false} LookupPut(es: Entries, k: string, v: Stored)
    ensures Lookup(Put(es, k, v), k) == Some(v)
  {
    if |es| > 0 && es[0].0 != k {
      LookupPut(es[1..], k, v);
      assert Put(es, k, v)[1..] == Put(es[1..], k, v);
    }
  }

  /** A write leaves every other key reading as before. */
  lemma {:induction false} LookupPutOther(es: Entries, k: string, v: Stored, other: string)
    requires other != k
    ensures Lookup(Put(es, k, v), other) == Lookup(es, other)
  {
    if |es| > 0 && es[0].0 != k {
      LookupPutOther(es[1..], k, v, other);
      assert Put(es, k, v)[1..] == Put(es[1..], k, v);
    }
  }

  /** A write keeps the keys distinct. */
  lemma PutKeepsKeysDistinct(es: Entries, k: string, v: Stored)
    requires KeysDistinct(es)
    ensures KeysDistinct(Put(es, k, v))
  {
    var r := Put(es, k, v);
    if |r| == |es| + 1 {
      forall i | 0 <= i < |es|
        ensures es[i].0 != k
      {
        if es[i].0 == k {
          PutOverwrites(es, k, v, i);
        }
      }
    }
  }

  lemma {:induction false} PutOverwrites(es: Entries, k: string, v: Stored, i: nat)
    requires i < |es| && es[i].0 == k
    ensures |Put(es, k, v)| == |es|
  {
    if es[0].0 != k {
      PutOverwrites(es[1..], k, v, i - 1);
    }
  }

  /** `saveHistory`'s payload: each record without its element. */
  function Project(p: Prompt): Persisted {
    Persisted(Some(p.index), Some(p.text), Some(p.timestamp), p.responsePreview)
  }

  /** `saveHistory`: the projected list is written under the current key. */
  function SaveHistory(es: Entries, site: Option<string>, convId: string, ps: seq<Prompt>): (r: Entries)
    ensures Lookup(r, StorageKey(site, convId)) == Some(List(seq(|ps|, i requires 0 <= i < |ps| => Project(ps[i]))))
    ensures forall k :: k != StorageKey(site, convId) ==> Lookup(r, k) == Lookup(es, k)
  {
    var key := StorageKey(site, convId);
    var v := List(seq(|ps|, i requires 0 <= i < |ps| => Project(ps[i])));
    LookupPut(es, key, v);
    forall k | k != key
      ensures Lookup(Put(es, key, v), k) == Lookup(es, k)
    {
      LookupPutOther(es, key, v, k);
    }
    Put(es, key, v)
  }

  /** The load-side mapping: missing fields default to position + 1, the
      empty text and the current time; the element is unset. */
  function Restore(items: seq<Persisted>, now: string): (r: seq<Prompt>)
    ensures |r| == |items|
    ensures forall i :: 0 <= i < |items| ==>
      && r[i].index == items[i].index.GetOr(i + 1)
      && r[i].text == items[i].text.GetOr("")
      && r[i].timestamp == items[i].timestamp.GetOr(now)
      && r[i].responsePreview == items[i].responsePreview
      && r[i].element.None?
  {
    seq(|items|, i requires 0 <= i < |items| =>
      Prompt(items[i].index.GetOr(i + 1), items[i].text.GetOr(""), None,
             items[i].timestamp.GetOr(now), items[i].responsePreview))
  }

  /** `Array.isArray(v) && v.length`. */
  predicate NonEmptyList(v: Stored) {
    v.List? && |v.items| > 0
  }

  /** Entry `i` is a fallback candidate: its key has the prefix and it holds
      a non-empty list. */
  predicate Candidate(es: Entries, prefix: string, i: nat)
    requires i < |es|
  {
    StartsWith(es[i].0, prefix) && NonEmptyList(es[i].1)
  }

  /** The fallback scan over the first `n` entries: the first candidate of
      greatest length (a later one replaces the best only when strictly
      longer). */
  function Longest(es: Entries, prefix: string, n: nat): (r: Option<nat>)
    requires n <= |es|
    ensures r.None? <==> forall j :: 0 <= j < n ==> !Candidate(es, prefix, j)
    ensures r.Some? ==> r.value < n && Candidate(es, prefix, r.value)
    ensures r.Some? ==> forall j :: 0 <= j < n && Candidate(es, prefix, j) ==>
      |es[j].1.items| <= |es[r.value].1.items|
    ensures r.Some? ==> forall j :: 0 <= j < r.value && Candidate(es, prefix, j) ==>
      |es[j].1.items| < |es[r.value].1.items|
  {
    if n == 0 then None
    else
      var b := Longest(es, prefix, n - 1);
      if Candidate(es, prefix, n - 1) && (b.None? || |es[n - 1].1.items| > |es[b.value].1.items|)
      then Some(n - 1)
      else b
  }

  /** The outcome of a load: the prompt list and the storage area afterwards. */
  datatype Loaded = Loaded(prompts: seq<Prompt>, entries: Entries)

  /** The fallback shared by `loadHistory` and `migrateHistoryKeys`: adopt the
      longest list stored under the site prefix and write it back under the
      current key; with no candidate nothing changes. */
  function Fallback(ps: seq<Prompt>, es: Entries, site: Option<string>, convId: string, now: string): (r: Loaded)
    ensures Longest(es, SitePrefix(site), |es|).None? ==> r == Loaded(ps, es)
    ensures Longest(es, SitePrefix(site), |es|).Some? ==>
      var best := es[Longest(es, SitePrefix(site), |es|).value].1.items;
      && r.prompts == Restore(best, now)
      && Lookup(r.entries, StorageKey(site, convId)) == Some(List(best))
      && forall k :: k != StorageKey(site, convId) ==> Lookup(r.entries, k) == Lookup(es, k)
  {
    match Longest(es, SitePrefix(site), |es|)
    case None => Loaded(ps, es)
    case Some(i) =>
      var key := StorageKey(site, convId);
      var best := es[i].1;
      LookupPut(es, key, best);
      assert forall k :: k != key ==> Lookup(Put(es, key, best), k) == Lookup(es, k) by {
        forall k | k != key
          ensures Lookup(Put(es, key, best), k) == Lookup(es, k)
        {
          LookupPutOther(es, key, best, k);
        }
      }
      Loaded(Restore(best.items, now), Put(es, key, best))
  }

  /** `loadHistory`: a non-empty list under the exact key is restored and
      storage is left alone; otherwise the site fallback applies. */
  function LoadHistory(ps: seq<Prompt>, es: Entries, site: Option<string>, convId: string, now: string): (r: Loaded)
    ensures var saved := Lookup(es, StorageKey(site, convId));
      saved.Some? && NonEmptyList(saved.value) ==> r == Loaded(Restore(saved.value.items, now), es)
    ensures var saved := Lookup(es, StorageKey(site, convId));
      !(saved.Some? && NonEmptyList(saved.value)) ==> r == Fallback(ps, es, site, convId, now)
  {
    match Lookup(es, StorageKey(site, convId))
    case Some(v) =>
      if NonEmptyList(v) then Loaded(Restore(v.items, now), es)
      else Fallback(ps, es, site, convId, now)
    case None => Fallback(ps, es, site, convId, now)
  }

  /** `migrateHistoryKeys`: nothing to do when the exact key already holds a
      non-empty list; otherwise the same fallback as `loadHistory`. */
  function MigrateHistoryKeys(ps: seq<Prompt>, es: Entries, site: Option<string>, convId: string, now: string): (r: Loaded)
    ensures var cur := Lookup(es, StorageKey(site, convId));
      cur.Some? && NonEmptyList(cur.value) ==> r == Loaded(ps, es)
    ensures var cur := Lookup(es, StorageKey(site, convId));
      !(cur.Some? && NonEmptyList(cur.value)) ==> r == LoadHistory(ps, es, site, convId, now)
  {
    var cur := Lookup(es, StorageKey(site, convId));
    if cur.Some? && NonEmptyList(cur.value) then Loaded(ps, es)
    else Fallback(ps, es, site, convId, now)
  }

  /** Save then load on the same key gives back every record's index, text,
      timestamp and preview, with the element unset; nothing is written. */
  lemma SaveLoadRoundTrip(es: Entries, site: Option<string>, convId: string,
                          ps: seq<Prompt>, other: seq<Prompt>, now: string)
    requires |ps| > 0
    ensures var saved := SaveHistory(es, site, convId, ps);
      LoadHistory(other, saved, site, convId, now)
        == Loaded(seq(|ps|, i requires 0 <= i < |ps| => ps[i].(element := None)), saved)
  {
    var saved := SaveHistory(es, site, convId, ps);
    var items := seq(|ps|, i requires 0 <= i < |ps| => Project(ps[i]));
    assert Lookup(saved, StorageKey(site, convId)) == Some(List(items));
    var r := Restore(items, now);
    assert forall i :: 0 <= i < |ps| ==> r[i] == ps[i].(element := None);
  }

  /** The current conversation's own key always passes the fallback's prefix
      filter, so a stored non-empty list under it is a fallback candidate. */
  lemma ExactKeyIsCandidate(es: Entries, site: Option<string>, convId: string, i: nat)
    requires i < |es| && es[i].0 == StorageKey(site, convId) && NonEmptyList(es[i].1)
    ensures Candidate(es, SitePrefix(site), i)
  {
  }

  /** Loading twice gives the same prompt list as loading once: whatever the
      first load adopts, it leaves readable under the exact key. */
  lemma LoadTwiceSamePrompts(ps: seq<Prompt>, es: Entries, site: Option<string>, convId: string, now: string)
    ensures var once := LoadHistory(ps, es, site, convId, now);
      LoadHistory(once.prompts, once.entries, site, convId, now) == once
  {
    var key := StorageKey(site, convId);
    var saved := Lookup(es, key);
    if !(saved.Some? && NonEmptyList(saved.value)) {
      var b := Longest(es, SitePrefix(site), |es|);
      if b.Some? {
        var once := LoadHistory(ps, es, site, convId, now);
        var best := es[b.value].1;
        assert Lookup(once.entries, key) == Some(best);
        assert once.entries == Put(es, key, best);
        LookupPut(es, key, best);
      }
    }
  }

  /** A site that has stored nothing leaves the prompt list and the storage
      as they were. */
  lemma NoCandidateKeepsPrompts(ps: seq<Prompt>, es: Entries, site: Option<string>, convId: string, now: string)
    requires forall i :: 0 <= i < |es| ==> !Candidate(es, SitePrefix(site), i)
    ensures LoadHistory(ps, es, site, convId, now) == Loaded(ps, es)
    ensures MigrateHistoryKeys(ps, es, site, convId, now) == Loaded(ps, es)
  {
    var key := StorageKey(site, convId);
    var saved := Lookup(es, key);
    if saved.Some? && NonEmptyList(saved.value) {
      var i :| 0 <= i < |es| && es[i] == (key, saved.value);
      ExactKeyIsCandidate(es, site, convId, i);
      assert false;
    }
  }
}
