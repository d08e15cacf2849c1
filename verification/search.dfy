/** Reading from the index: `_chunked`, `_load_ids`, `search_by_key`,
    `get_cache_key` and `search` of `JIRARedisIndex` (index.py:185-232,
    246-294). */
module Retrieval {
  import opened Wrappers
  import opened Text
  import opened Ordering
  import opened Primitives
  import opened SortedSets
  import opened Store
  import opened Indexer

  // ---------------------------------------------------------------------
  // _chunked
  // ---------------------------------------------------------------------

  /** The chunks laid end to end. */
  function Flatten<T>(chunks: seq<seq<T>>): seq<T>
    decreases |chunks|
  {
    if |chunks| == 0 then [] else chunks[0] + Flatten(chunks[1..])
  }

  /** `_chunked(xs, n)` (index.py:185-190): groups of `n` in order, the last
      one cut short; nothing at all when `n <= 0` (the zip then has no
      iterators) or when `xs` is empty. */
  function Chunked<T>(xs: seq<T>, n: int): (r: seq<seq<T>>)
    ensures n <= 0 ==> r == []
    ensures n > 0 ==> Flatten(r) == xs
    ensures forall i | 0 <= i < |r| :: 0 < |r[i]| <= n
    ensures forall i | 0 <= i < |r| - 1 :: |r[i]| == n
    decreases |xs|
  {
    if n <= 0 || |xs| == 0 then []
    else if |xs| <= n then [xs]
    else
      var rest := Chunked(xs[n..], n);
      assert xs == xs[..n] + xs[n..];
      [xs[..n]] + rest
  }

  // ---------------------------------------------------------------------
  // _load_ids
  // ---------------------------------------------------------------------

  /** The payloads of the ids that have one, in id order: the reference
      meaning of loading ids. */
  function Present(p: map<string, Doc>, ids: seq<string>): seq<Doc>
    decreases |ids|
  {
    if |ids| == 0 then []
    else (if ids[0] in p then [p[ids[0]]] else []) + Present(p, ids[1..])
  }

  lemma {:induction false} PresentConcat(p: map<string, Doc>, a: seq<string>, b: seq<string>)
    ensures Present(p, a + b) == Present(p, a) + Present(p, b)
    decreases |a|
  {
    if |a| > 0 {
      assert (a + b)[1..] == a[1..] + b;
      PresentConcat(p, a[1..], b);
    } else {
      assert a + b == b;
    }
  }

  /** Every loaded payload belongs to one of the ids, and there are never
      more payloads than ids. */
  lemma {:induction false} PresentFrom(p: map<string, Doc>, ids: seq<string>)
    ensures |Present(p, ids)| <= |ids|
    ensures forall d | d in Present(p, ids) :: exists i | 0 <= i < |ids| :: ids[i] in p && p[ids[i]] == d
    decreases |ids|
  {
    if |ids| > 0 {
      PresentFrom(p, ids[1..]);
      forall d | d in Present(p, ids) ensures exists i | 0 <= i < |ids| :: ids[i] in p && p[ids[i]] == d {
        if ids[0] in p && d == p[ids[0]] {
        } else {
          assert d in Present(p, ids[1..]);
          var i :| 0 <= i < |ids[1..]| && ids[1..][i] in p && p[ids[1..][i]] == d;
          assert ids[i + 1] == ids[1..][i];
        }
      }
    }
  }

  /** An id with a payload has it loaded. */
  lemma {:induction false} PresentHas(p: map<string, Doc>, ids: seq<string>, id: string)
    requires id in ids && id in p
    ensures p[id] in Present(p, ids)
    decreases |ids|
  {
    if ids[0] != id {
      assert id in ids[1..];
      PresentHas(p, ids[1..], id);
    }
  }

  /** The first `n` elements, or all of them when there are fewer. */
  function Take<T>(s: seq<T>, n: nat): (r: seq<T>)
    ensures |r| <= n && |r| <= |s|
    ensures s == r + s[|r|..]
  {
    if |s| <= n then s else s[..n]
  }

  /** The inner loop of index.py:207-219 over one chunk's payloads: skip
      missing ones, append the rest, stop as soon as a truthy `cap` is
      reached. Returns the data so far and whether it stopped. */
  function Scan(p: map<string, Doc>, chunk: seq<string>, cap: int, data: seq<Doc>): (r: (seq<Doc>, bool))
    requires cap > 0 ==> |data| < cap
    ensures cap > 0 ==> r.0 == Take(data + Present(p, chunk), cap) && (r.1 <==> |data + Present(p, chunk)| >= cap)
    ensures cap <= 0 ==> r.0 == data + Present(p, chunk) && !r.1
    decreases |chunk|
  {
    if |chunk| == 0 then
      assert data + Present(p, chunk) == data;
      (data, false)
    else if chunk[0] !in p then
      Scan(p, chunk[1..], cap, data)
    else
      var d := data + [p[chunk[0]]];
      assert data + Present(p, chunk) == d + Present(p, chunk[1..]);
      if cap != 0 && |d| == cap then
        assert Take(d + Present(p, chunk[1..]), cap) == d;
        (d, true)
      else Scan(p, chunk[1..], cap, d)
  }

  /** The outer loop of index.py:206-221 over the chunks. */
  function ScanChunks(p: map<string, Doc>, chunks: seq<seq<string>>, cap: int, data: seq<Doc>): (r: seq<Doc>)
    requires cap > 0 ==> |data| < cap
    ensures cap > 0 ==> r == Take(data + Present(p, Flatten(chunks)), cap)
    ensures cap <= 0 ==> r == data + Present(p, Flatten(chunks))
    decreases |chunks|
  {
    if |chunks| == 0 then
      assert data + Present(p, Flatten(chunks)) == data;
      data
    else
      var scanned := Scan(p, chunks[0], cap, data);
      PresentConcat(p, chunks[0], Flatten(chunks[1..]));
      assert data + Present(p, Flatten(chunks)) == (data + Present(p, chunks[0])) + Present(p, Flatten(chunks[1..]));
      if scanned.1 then
        TakeLonger(data + Present(p, chunks[0]), Present(p, Flatten(chunks[1..])), cap);
        scanned.0
      else ScanChunks(p, chunks[1..], cap, scanned.0)
  }

  lemma TakeLonger<T>(a: seq<T>, b: seq<T>, n: nat)
    requires |a| >= n
    ensures Take(a + b, n) == Take(a, n)
  {
    assert (a + b)[..n] == a[..n];
  }

  /** `_load_ids(id_list, limit, data_key)` (index.py:192-221): the payloads
      of the ids that have one, in id order, at most `limit` of them when
      `limit` is a positive number, none when it is zero or negative (no
      chunks are formed) and all when it is `None`. */
  function LoadIds(st: Store, ids: seq<string>, limit: Option<int>, src: Source): (r: seq<Doc>)
    ensures |ids| == 0 ==> r == []
    ensures limit.None? ==> r == Present(Payloads(st, src), ids)
    ensures limit.Some? && limit.value <= 0 ==> r == []
    ensures limit.Some? && limit.value > 0 ==> r == Take(Present(Payloads(st, src), ids), limit.value)
  {
    if |ids| == 0 then []
    else
      match limit
      case None =>
        assert Flatten([ids]) == ids;
        assert [] + Present(Payloads(st, src), ids) == Present(Payloads(st, src), ids);
        ScanChunks(Payloads(st, src), [ids], 0, [])
      case Some(n) =>
        var p := Payloads(st, src);
        var chunks := Chunked(ids, n);
        var r := ScanChunks(p, chunks, n, []);
        assert n > 0 ==> r == Take(Present(p, ids), n) by {
          if n > 0 {
            assert Flatten(chunks) == ids;
            assert [] + Present(p, ids) == Present(p, ids);
          }
        }
        r
  }

  /** Loading never yields more than asked, and only stored payloads of the
      given ids. */
  lemma LoadIdsBounded(st: Store, ids: seq<string>, limit: Option<int>, src: Source)
    ensures limit.Some? && limit.value > 0 ==> |LoadIds(st, ids, limit, src)| <= limit.value
    ensures |LoadIds(st, ids, limit, src)| <= |ids|
    ensures forall d | d in LoadIds(st, ids, limit, src) ::
      exists i | 0 <= i < |ids| :: ids[i] in Payloads(st, src) && Payloads(st, src)[ids[i]] == d
  {
    var all := Present(Payloads(st, src), ids);
    PresentFrom(Payloads(st, src), ids);
    var r := LoadIds(st, ids, limit, src);
    assert forall d | d in r :: d in all by {
      if limit.Some? && limit.value > 0 {
        assert all == r + all[|r|..];
      }
    }
  }

  // ---------------------------------------------------------------------
  // search_by_key
  // ---------------------------------------------------------------------

  /** The stop index `limit or -1` passed to ZRANGE (index.py:231, 290). */
  function RangeStop(limit: Option<int>): int {
    match limit
    case None => -1
    case Some(n) => if n == 0 then -1 else n
  }

  /** `search_by_key(key, data_key, limit)` (index.py:226-232): the members
      of `k:<key>` in rank order up to position `limit` inclusive, loaded. */
  function SearchByKey(st: Store, key: string, limit: Option<int>, src: Source): (r: seq<Doc>)
    ensures limit.Some? && limit.value > 0 ==> |r| <= limit.value
    ensures forall d | d in r ::
      exists m | m in Members(st, KeySet(key)) :: m in Payloads(st, src) && Payloads(st, src)[m] == d
  {
    var ids := ZRange(Members(st, KeySet(key)), 0, RangeStop(limit));
    LoadIdsBounded(st, ids, limit, src);
    LoadIds(st, ids, limit, src)
  }

  /** With a positive limit `n`, `search_by_key` ranges over the first
      `n + 1` members of `k:<key>` in rank order (the stop index is
      inclusive) and returns the first `n` of their payloads; ranked
      members without a payload still use up places in the range. */
  lemma SearchByKeyLimit(st: Store, key: string, n: int, src: Source)
    requires n > 0
    ensures var ranked := ZRange(Members(st, KeySet(key)), 0, -1);
      SearchByKey(st, key, Some(n), src) == Take(Present(Payloads(st, src), Take(ranked, n + 1)), n)
  {
    var z := Members(st, KeySet(key));
    ZRangeAll(z);
    ZRangeHead(z, n);
  }

  /** When the first `n` ranked members all have payloads, the limited
      search returns the first `n` payloads the unlimited one does. */
  lemma SearchByKeyLimitPrefix(st: Store, key: string, n: int, src: Source)
    requires n > 0
    requires var ranked := ZRange(Members(st, KeySet(key)), 0, -1);
      forall i | 0 <= i < |ranked| && i < n :: ranked[i] in Payloads(st, src)
    ensures SearchByKey(st, key, Some(n), src) == Take(SearchByKey(st, key, None, src), n)
  {
    var ranked := ZRange(Members(st, KeySet(key)), 0, -1);
    SearchByKeyLimit(st, key, n, src);
    TakePresentPrefix(Payloads(st, src), ranked, n);
  }

  /** Loading one id past `n` and keeping `n` payloads gives the first `n`
      payloads of all the ids, when the first `n` ids have payloads. */
  lemma TakePresentPrefix(p: map<string, Doc>, ids: seq<string>, n: nat)
    requires forall i | 0 <= i < |ids| && i < n :: ids[i] in p
    ensures Take(Present(p, Take(ids, n + 1)), n) == Take(Present(p, ids), n)
  {
    if |ids| > n {
      PresentAll(p, ids[..n]);
      assert Take(ids, n + 1)[..n] == ids[..n];
      TakePresentHead(p, Take(ids, n + 1), n);
      TakePresentHead(p, ids, n);
    }
  }

  /** When the first `n` ids have payloads, the first `n` payloads are theirs. */
  lemma TakePresentHead(p: map<string, Doc>, ids: seq<string>, n: nat)
    requires n <= |ids| && |Present(p, ids[..n])| == n
    ensures Take(Present(p, ids), n) == Present(p, ids[..n])
  {
    assert ids == ids[..n] + ids[n..];
    PresentConcat(p, ids[..n], ids[n..]);
    TakeLonger(Present(p, ids[..n]), Present(p, ids[n..]), n);
  }

  /** Ranked members without a payload crowd out later ones: when none of
      the first `n + 1` has a payload, the limited search finds nothing,
      even if later members have payloads the unlimited search returns. */
  lemma SearchByKeyLimitCrowded(st: Store, key: string, n: int, src: Source)
    requires n > 0
    requires var ranked := ZRange(Members(st, KeySet(key)), 0, -1);
      forall i | 0 <= i < |ranked| && i <= n :: ranked[i] !in Payloads(st, src)
    ensures SearchByKey(st, key, Some(n), src) == []
  {
    var ranked := ZRange(Members(st, KeySet(key)), 0, -1);
    SearchByKeyLimit(st, key, n, src);
    PresentNone(Payloads(st, src), Take(ranked, n + 1));
  }

  /** Ids none of which has a payload load nothing. */
  lemma {:induction false} PresentNone(p: map<string, Doc>, ids: seq<string>)
    requires forall i | 0 <= i < |ids| :: ids[i] !in p
    ensures Present(p, ids) == []
    decreases |ids|
  {
    if |ids| > 0 {
      PresentNone(p, ids[1..]);
    }
  }

  /** Ids that all have payloads load one payload each. */
  lemma {:induction false} PresentAll(p: map<string, Doc>, ids: seq<string>)
    requires forall i | 0 <= i < |ids| :: ids[i] in p
    ensures |Present(p, ids)| == |ids|
    decreases |ids|
  {
    if |ids| > 0 {
      PresentAll(p, ids[1..]);
    }
  }

  /** Without a limit, every member of `k:<key>` that has a payload is found. */
  lemma SearchByKeyFinds(st: Store, key: string, member: string, src: Source)
    requires member in Members(st, KeySet(key)) && member in Payloads(st, src)
    ensures Payloads(st, src)[member] in SearchByKey(st, key, None, src)
  {
    var z := Members(st, KeySet(key));
    ZRangeAll(z);
    PresentHas(Payloads(st, src), ZRange(z, 0, -1), member);
  }

  /** Searching by the whole lower-cased key without a limit finds an issue
      right after it is indexed. */
  lemma IndexThenSearchByKey(st: Store, issue: Issue, src: Source)
    requires !TitleUnchanged(st, issue)
    ensures issue.key in Payloads(Index(st, issue), src)
    ensures Payloads(Index(st, issue), src)[issue.key] in SearchByKey(Index(st, issue), Lower(issue.key), None, src)
  {
    IndexHasWholeKey(st, issue);
    IndexThenGetByKey(st, issue);
    SearchByKeyFinds(Index(st, issue), Lower(issue.key), issue.key, src);
  }

  // ---------------------------------------------------------------------
  // get_cache_key
  // ---------------------------------------------------------------------

  function KeyOrder(): (string, string) -> bool {
    (a, b) => StrLess(a, b)
  }

  lemma KeyOrderIsStrictTotal(s: set<string>)
    ensures StrictTotalOn(KeyOrder(), s)
  {
    forall x | x in s ensures !StrLess(x, x) {
      StrLessIrreflexive(x);
    }
    forall x, y | x in s && y in s && x != y ensures StrLess(x, y) || StrLess(y, x) {
      StrLessTotal(x, y);
    }
    forall x, y, w | x in s && y in s && w in s && StrLess(x, y) && StrLess(y, w) ensures StrLess(x, w) {
      StrLessTransitive(x, y, w);
    }
  }

  /** `sorted(boosts.items())`: the pairs of the map in key order. */
  function SortedPairs(b: map<string, real>): (r: seq<(string, real)>)
    ensures |r| == |b|
    ensures forall i | 0 <= i < |r| :: r[i].0 in b && r[i].1 == b[r[i].0]
    ensures forall k | k in b :: (k, b[k]) in r
    ensures forall i, j | 0 <= i < j < |r| :: StrLess(r[i].0, r[j].0)
  {
    KeyOrderIsStrictTotal(b.Keys);
    var ks := SortBy(b.Keys, KeyOrder());
    PairsOfSorted(ks, b);
    PairsOf(ks, b)
  }

  /** The keys `ks`, each paired with its value in `b`. */
  function PairsOf(ks: seq<string>, b: map<string, real>): (r: seq<(string, real)>)
    requires forall i | 0 <= i < |ks| :: ks[i] in b
    ensures |r| == |ks|
    ensures forall i | 0 <= i < |r| :: r[i] == (ks[i], b[ks[i]])
  {
    seq(|ks|, i requires 0 <= i < |ks| => (ks[i], b[ks[i]]))
  }

  /** Pairing the keys of `b` sorted by `StrLess` gives the sorted pairs. */
  lemma PairsOfSorted(ks: seq<string>, b: map<string, real>)
    requires |ks| == |b.Keys|
    requires forall x | x in b.Keys :: x in ks
    requires forall i | 0 <= i < |ks| :: ks[i] in b.Keys
    requires StrictlySorted(KeyOrder(), ks)
    ensures forall i | 0 <= i < |ks| :: ks[i] in b
    ensures var r := PairsOf(ks, b);
      && |r| == |b|
      && (forall i | 0 <= i < |r| :: r[i].0 in b && r[i].1 == b[r[i].0])
      && (forall k | k in b :: (k, b[k]) in r)
      && (forall i, j | 0 <= i < j < |r| :: StrLess(r[i].0, r[j].0))
  {
    var r := PairsOf(ks, b);
    assert |b.Keys| == |b|;
    forall i, j | 0 <= i < j < |r| ensures StrLess(r[i].0, r[j].0) {
      assert KeyOrder()(ks[i], ks[j]);
    }
    forall k | k in b ensures (k, b[k]) in r {
      var i := IndexOf(ks, k);
      assert r[i] == (k, b[k]);
    }
  }

  /** A position of `x` in `s`. */
  function IndexOf<T(==)>(s: seq<T>, x: T): (i: nat)
    requires x in s
    ensures i < |s| && s[i] == x
    decreases |s|
  {
    if s[0] == x then 0 else 1 + IndexOf(s[1..], x)
  }

  /** `get_cache_key(phrases, boosts)` (index.py:246-252): the terms joined
      with `|` in the order given, the boosts as sorted pairs. */
  function CacheKeyOf(terms: seq<string>, boosts: map<string, real>): (r: ZKey)
    ensures r.CacheSet? && r.terms == Join("|", terms)
    ensures r.boosts == SortedPairs(boosts)
  {
    CacheSet(Join("|", terms), SortedPairs(boosts))
  }

  /** The cache key determines the boosts it was built with, whatever order
      they came in. */
  lemma CacheKeyDeterminesBoosts(t1: seq<string>, b1: map<string, real>, t2: seq<string>, b2: map<string, real>)
    requires CacheKeyOf(t1, b1) == CacheKeyOf(t2, b2)
    ensures b1 == b2
  {
    SortedPairsDetermine(b1, b2);
  }

  lemma SortedPairsDetermine(b1: map<string, real>, b2: map<string, real>)
    requires SortedPairs(b1) == SortedPairs(b2)
    ensures b1 == b2
  {
    PairsDetermine(SortedPairs(b1), b1, b2);
  }

  /** `r` lists exactly the pairs of `b`. */
  ghost predicate Lists(r: seq<(string, real)>, b: map<string, real>) {
    && (forall i | 0 <= i < |r| :: r[i].0 in b && r[i].1 == b[r[i].0])
    && (forall k | k in b :: (k, b[k]) in r)
  }

  lemma PairsDetermine(r: seq<(string, real)>, b1: map<string, real>, b2: map<string, real>)
    requires Lists(r, b1) && Lists(r, b2)
    ensures b1 == b2
  {
    forall k | k in b1 ensures k in b2 && b2[k] == b1[k] {
      var i :| 0 <= i < |r| && r[i] == (k, b1[k]);
      assert r[i].0 in b2 && r[i].1 == b2[r[i].0];
    }
    forall k | k in b2 ensures k in b1 {
      var i :| 0 <= i < |r| && r[i] == (k, b2[k]);
      assert r[i].0 in b1;
    }
    assert b1.Keys == b2.Keys;
  }

  // ---------------------------------------------------------------------
  // search
  // ---------------------------------------------------------------------

  /** What `search` returns: an id list (`return_id_list`) or payloads. */
  datatype Answer = Ids(ids: seq<string>) | Docs(docs: seq<Doc>)

  /** The store after a search and its answer, or the error it raised. */
  datatype SearchOutcome = SearchOutcome(store: Store, answer: Result<Answer, Error>)

  /** The boosts `search` works with (index.py:263-268): with `autoboost`,
      the stored boosts of every key the caller gave no boost for. */
  function EffectiveBoosts(st: Store, explicit: map<string, real>, autoboost: bool): (r: map<string, real>)
    ensures forall k | k in explicit :: k in r && r[k] == explicit[k]
    ensures autoboost ==> forall k | k in st.boosts && k !in explicit :: k in r && r[k] == st.boosts[k]
    ensures forall k | k in r :: k in explicit || (autoboost && k in st.boosts)
  {
    if autoboost then st.boosts + explicit else explicit
  }

  /** The set `search` ranges over (index.py:270-273): the permanent phrase
      set for one unboosted term, the cache set otherwise. */
  function TargetKey(terms: seq<string>, boosts: map<string, real>): (r: ZKey)
    requires |terms| > 0
    ensures r.PhraseSet? <==> |terms| == 1 && |boosts| == 0
    ensures r.PhraseSet? ==> r.prefix == terms[0]
    ensures r.CacheSet? ==> r == CacheKeyOf(terms, boosts)
  {
    if |terms| == 1 && |boosts| == 0 then PhraseSet(terms[0]) else CacheKeyOf(terms, boosts)
  }

  /** The phrase sets of the terms, in order. */
  function TermSets(st: Store, terms: seq<string>): (r: seq<ZSet>)
    ensures |r| == |terms|
    ensures forall i | 0 <= i < |terms| :: r[i] == Members(st, PhraseSet(terms[i]))
  {
    seq(|terms|, i requires 0 <= i < |terms| => Members(st, PhraseSet(terms[i])))
  }

  /** index.py:274-276: the cache set is built, as the summed intersection of
      the terms' phrase sets, only when it does not exist; an empty
      intersection stores nothing. */
  function BuildCache(st: Store, key: ZKey, terms: seq<string>): (r: Store)
    requires key.CacheSet?
    ensures key in st.zsets ==> r == st
    ensures key !in st.zsets ==> Members(r, key) == Intersect(TermSets(st, terms))
    ensures forall y | y != key :: Members(r, y) == Members(st, y) && (y in r.zsets <==> y in st.zsets)
    ensures r == st.(zsets := r.zsets)
    ensures Valid(st) ==> Valid(r)
  {
    if key in st.zsets then st
    else
      var meet := Intersect(TermSets(st, terms));
      if |meet| == 0 then st else st.(zsets := st.zsets[key := meet])
  }

  /** A member is rescaled when it is non-empty and has a boost (index.py:282). */
  predicate Boosted(boosts: map<string, real>, m: string) {
    m != "" && m in boosts
  }

  /** The score `m` gets when rescaled: `score * (1 / boost)` (index.py:283). */
  function Rescaled(z: ZSet, boosts: map<string, real>, m: string): real
    requires m in z && Boosted(boosts, m) && boosts[m] != 0.0
  {
    Divide(z[m], boosts[m])
  }

  /** The ZADDs of index.py:280-286 for the members `ms` of `z`, as the map
      of members whose score changes to their new score; a zero boost
      raises before the pipeline runs. */
  function RescaleChanges(z: ZSet, boosts: map<string, real>, ms: seq<string>): (r: Result<map<string, real>, Error>)
    requires forall i | 0 <= i < |ms| :: ms[i] in z
    ensures r.Err? <==> exists i | 0 <= i < |ms| :: Boosted(boosts, ms[i]) && boosts[ms[i]] == 0.0
    ensures r.Ok? ==> forall m | m in r.value ::
      m in ms && Boosted(boosts, m) && r.value[m] == Rescaled(z, boosts, m) && r.value[m] != z[m]
    ensures r.Ok? ==> forall i | 0 <= i < |ms| && Boosted(boosts, ms[i]) && Rescaled(z, boosts, ms[i]) != z[ms[i]] ::
      ms[i] in r.value
    decreases |ms|
  {
    if |ms| == 0 then Ok(map[])
    else
      var m := ms[0];
      if Boosted(boosts, m) && boosts[m] == 0.0 then Err(ZeroDivision)
      else
        match RescaleChanges(z, boosts, ms[1..])
        case Err(e) => Err(e)
        case Ok(rest) =>
          if Boosted(boosts, m) && Rescaled(z, boosts, m) != z[m] then Ok(rest[m := Rescaled(z, boosts, m)])
          else Ok(rest)
  }

  /** Over all of a set's members, the changes are exactly the boosted
      members whose score moves, and a zero boost anywhere raises. */
  lemma RescaleChangesOfSet(z: ZSet, boosts: map<string, real>)
    ensures var r := RescaleChanges(z, boosts, Ordered(z));
      && (r.Err? <==> exists m | m in z :: Boosted(boosts, m) && boosts[m] == 0.0)
      && (r.Ok? ==> forall m | m in r.value :: m in z && Boosted(boosts, m) && r.value[m] == Rescaled(z, boosts, m))
      && (r.Ok? ==> forall m | m in z && Boosted(boosts, m) && Rescaled(z, boosts, m) != z[m] :: m in r.value)
  {
    var ms := Ordered(z);
    var r := RescaleChanges(z, boosts, ms);
    if r.Err? {
      var i :| 0 <= i < |ms| && Boosted(boosts, ms[i]) && boosts[ms[i]] == 0.0;
      assert ms[i] in z;
    } else {
      forall m | m in z ensures !(Boosted(boosts, m) && boosts[m] == 0.0) {
        var i := IndexOf(ms, m);
      }
      forall m | m in z && Boosted(boosts, m) && Rescaled(z, boosts, m) != z[m] ensures m in r.value {
        var i := IndexOf(ms, m);
      }
    }
  }

  /** Pipelined ZADDs of the new scores `changes` to members of `key`. */
  function ApplyChanges(st: Store, key: ZKey, changes: map<string, real>): (r: Store)
    requires changes.Keys <= Members(st, key).Keys
    ensures r == st.(zsets := r.zsets)
    ensures forall y | y != key :: Members(r, y) == Members(st, y) && (y in r.zsets <==> y in st.zsets)
    ensures Members(r, key).Keys == Members(st, key).Keys && (key in r.zsets <==> key in st.zsets)
    ensures forall m | m in Members(st, key) ::
      Members(r, key)[m] == if m in changes then changes[m] else Members(st, key)[m]
    ensures Valid(st) ==> Valid(r)
  {
    if |changes| == 0 then st
    else
      assert key in st.zsets by {
        var m :| m in changes;
      }
      st.(zsets := st.zsets[key := Members(st, key) + changes])
  }

  /** The rescale of the set `key` (index.py:278-288): every boosted member's
      score is multiplied by the reciprocal of its boost. */
  function Rescale(st: Store, key: ZKey, boosts: map<string, real>): (r: Result<Store, Error>)
    ensures r.Err? <==> exists m | m in Members(st, key) :: Boosted(boosts, m) && boosts[m] == 0.0
    ensures r.Ok? ==> r.value == st.(zsets := r.value.zsets)
    ensures r.Ok? ==> forall y | y != key :: Members(r.value, y) == Members(st, y) && (y in r.value.zsets <==> y in st.zsets)
    ensures r.Ok? ==> Members(r.value, key).Keys == Members(st, key).Keys && (key in r.value.zsets <==> key in st.zsets)
    ensures r.Ok? ==> forall m | m in Members(st, key) ::
      Members(r.value, key)[m] == if Boosted(boosts, m) then Rescaled(Members(st, key), boosts, m) else Members(st, key)[m]
    ensures r.Ok? && Valid(st) ==> Valid(r.value)
  {
    var z := Members(st, key);
    RescaleChangesOfSet(z, boosts);
    match RescaleChanges(z, boosts, Ordered(z))
    case Err(e) => Err(e)
    case Ok(changes) => Ok(ApplyChanges(st, key, changes))
  }

  /** The writes `search` makes before it ranges (index.py:270-288): the
      store after the cache build, and the store after the rescale or the
      error the rescale raised. */
  datatype Prepared = Prepared(built: Store, rescaled: Result<Store, Error>)

  function Prepare(st: Store, terms: seq<string>, bs: map<string, real>): (r: Prepared)
    requires |terms| > 0
    ensures r.built == st.(zsets := r.built.zsets)
    ensures forall y: ZKey | !y.CacheSet? :: Members(r.built, y) == Members(st, y) && (y in r.built.zsets <==> y in st.zsets)
    ensures r.rescaled.Ok? ==> r.rescaled.value == st.(zsets := r.rescaled.value.zsets)
    ensures r.rescaled.Ok? ==> forall y: ZKey | !y.CacheSet? ::
      Members(r.rescaled.value, y) == Members(st, y) && (y in r.rescaled.value.zsets <==> y in st.zsets)
    ensures Valid(st) ==> Valid(r.built) && (r.rescaled.Ok? ==> Valid(r.rescaled.value))
  {
    var key := TargetKey(terms, bs);
    var built := if key.CacheSet? then BuildCache(st, key, terms) else st;
    Prepared(built, if |bs| > 0 then Rescale(built, key, bs) else Ok(built))
  }

  /** The final ZRANGE, and the load unless ids were asked for (index.py:290-294). */
  function AnswerFrom(after: Store, key: ZKey, src: Source, limit: Option<int>, returnIds: bool): (r: Answer)
    ensures r.Ids? <==> returnIds
    ensures r.Ids? ==> forall i, j | 0 <= i < j < |r.ids| :: r.ids[i] != r.ids[j]
    ensures r.Docs? && limit.Some? && limit.value > 0 ==> |r.docs| <= limit.value
  {
    var ids := ZRange(Members(after, key), 0, RangeStop(limit));
    LoadIdsBounded(after, ids, limit, src);
    if returnIds then Ids(ids) else Docs(LoadIds(after, ids, limit, src))
  }

  /** `search(phrase, data_key, limit, boosts, autoboost,
      return_id_list)` (index.py:254-294). */
  function Search(st: Store, phrase: string, src: Source, limit: Option<int>, boosts: map<string, real>, autoboost: bool, returnIds: bool): (out: SearchOutcome)
    ensures out.store == st.(zsets := out.store.zsets)
    ensures forall y: ZKey | !y.CacheSet? :: Members(out.store, y) == Members(st, y) && (y in out.store.zsets <==> y in st.zsets)
    ensures Valid(st) ==> Valid(out.store)
    ensures out.answer.Ok? ==> (out.answer.value.Ids? <==> returnIds)
    ensures out.answer.Ok? && returnIds ==>
      forall i, j | 0 <= i < j < |out.answer.value.ids| :: out.answer.value.ids[i] != out.answer.value.ids[j]
    ensures out.answer.Ok? && !returnIds && limit.Some? && limit.value > 0 ==> |out.answer.value.docs| <= limit.value
  {
    var terms := CleanPhrase(phrase);
    if |terms| == 0 then SearchOutcome(st, Ok(if returnIds then Ids([]) else Docs([])))
    else
      var bs := EffectiveBoosts(st, boosts, autoboost);
      var prep := Prepare(st, terms, bs);
      match prep.rescaled
      case Err(e) => SearchOutcome(prep.built, Err(e))
      case Ok(after) => SearchOutcome(after, Ok(AnswerFrom(after, TargetKey(terms, bs), src, limit, returnIds)))
  }

  /** A phrase with no searchable word returns nothing and writes nothing. */
  lemma SearchEmptyPhrase(st: Store, phrase: string, src: Source, limit: Option<int>, boosts: map<string, real>, autoboost: bool, returnIds: bool)
    requires CleanPhrase(phrase) == []
    ensures var out := Search(st, phrase, src, limit, boosts, autoboost, returnIds);
      out.store == st && out.answer == Ok(if returnIds then Ids([]) else Docs([]))
  {
  }

  /** One term and no boosts: `s:<term>` is read directly and nothing is written. */
  lemma SearchSingleTerm(st: Store, phrase: string, src: Source, limit: Option<int>, boosts: map<string, real>, autoboost: bool)
    requires |CleanPhrase(phrase)| == 1 && |EffectiveBoosts(st, boosts, autoboost)| == 0
    ensures var out := Search(st, phrase, src, limit, boosts, autoboost, true);
      && out.store == st
      && out.answer == Ok(Ids(ZRange(Members(st, PhraseSet(CleanPhrase(phrase)[0])), 0, RangeStop(limit))))
  {
  }

  /** Without boosts, several terms are answered from the cache set, which
      (built now or earlier) is left as found or becomes the summed
      intersection of the terms' phrase sets. */
  lemma SearchUnboostedCache(st: Store, phrase: string, src: Source, limit: Option<int>)
    requires |CleanPhrase(phrase)| > 1
    ensures var terms := CleanPhrase(phrase);
      var key := CacheKeyOf(terms, map[]);
      var out := Search(st, phrase, src, limit, map[], false, true);
      && out.answer == Ok(Ids(ZRange(Members(out.store, key), 0, RangeStop(limit))))
      && (key in st.zsets ==> out.store == st)
      && (key !in st.zsets ==> Members(out.store, key) == Intersect(TermSets(st, terms)))
  {
  }

  /** Rescaling divides a boosted member's score by its boost. */
  lemma RescaleDivides(st: Store, key: ZKey, bs: map<string, real>, m: string)
    requires forall x | x in Members(st, key) :: !(Boosted(bs, x) && bs[x] == 0.0)
    requires m in Members(st, key) && Boosted(bs, m)
    ensures Rescale(st, key, bs).Ok?
    ensures m in Members(Rescale(st, key, bs).value, key)
    ensures Members(Rescale(st, key, bs).value, key)[m] == Divide(Members(st, key)[m], bs[m])
    ensures key in Rescale(st, key, bs).value.zsets <==> key in st.zsets
  {
    var r := Rescale(st, key, bs);
    assert r.Ok?;
    var z := Members(st, key);
    var z' := Members(r.value, key);
    assert forall x | x in z :: z'[x] == if Boosted(bs, x) then Rescaled(z, bs, x) else z[x];
  }

  /** With boosts, an existing cache set is not rebuilt but rescaled again:
      each boosted member's score is divided by its boost once more. */
  lemma SearchRescalesExistingCache(st: Store, phrase: string, src: Source, limit: Option<int>, boosts: map<string, real>, autoboost: bool, returnIds: bool, m: string)
    requires |CleanPhrase(phrase)| > 0
    requires var bs := EffectiveBoosts(st, boosts, autoboost);
      |bs| > 0 && CacheKeyOf(CleanPhrase(phrase), bs) in st.zsets
    requires var bs := EffectiveBoosts(st, boosts, autoboost);
      forall x | x in Members(st, CacheKeyOf(CleanPhrase(phrase), bs)) :: !(Boosted(bs, x) && bs[x] == 0.0)
    requires var bs := EffectiveBoosts(st, boosts, autoboost);
      m in Members(st, CacheKeyOf(CleanPhrase(phrase), bs)) && Boosted(bs, m)
    ensures var bs := EffectiveBoosts(st, boosts, autoboost);
      var key := CacheKeyOf(CleanPhrase(phrase), bs);
      var out := Search(st, phrase, src, limit, boosts, autoboost, returnIds);
      && out.answer.Ok? && key in out.store.zsets && m in Members(out.store, key)
      && Members(out.store, key)[m] == Divide(Members(st, key)[m], bs[m])
  {
    var terms := CleanPhrase(phrase);
    var bs := EffectiveBoosts(st, boosts, autoboost);
    var key := CacheKeyOf(terms, bs);
    assert TargetKey(terms, bs) == key;
    var prep := Prepare(st, terms, bs);
    assert prep.built == st;
    assert prep.rescaled == Rescale(st, key, bs);
    RescaleDivides(st, key, bs, m);
  }

  /** With boosts and no cache set yet (the path a query takes once the
      boosts have changed), the cache set is built as the summed
      intersection of the terms' phrase sets, every boosted member's score
      is then divided by its boost, and the ids are that set's range. */
  lemma SearchBoostedFreshCache(st: Store, phrase: string, src: Source, limit: Option<int>, boosts: map<string, real>, autoboost: bool)
    requires |CleanPhrase(phrase)| > 0
    requires var bs := EffectiveBoosts(st, boosts, autoboost);
      |bs| > 0 && CacheKeyOf(CleanPhrase(phrase), bs) !in st.zsets
    requires var bs := EffectiveBoosts(st, boosts, autoboost);
      forall x | x in Intersect(TermSets(st, CleanPhrase(phrase))) :: !(Boosted(bs, x) && bs[x] == 0.0)
    ensures var terms := CleanPhrase(phrase);
      var bs := EffectiveBoosts(st, boosts, autoboost);
      var key := CacheKeyOf(terms, bs);
      var inter := Intersect(TermSets(st, terms));
      var out := Search(st, phrase, src, limit, boosts, autoboost, true);
      && out.answer == Ok(Ids(ZRange(Members(out.store, key), 0, RangeStop(limit))))
      && Members(out.store, key).Keys == inter.Keys
      && forall x | x in inter ::
           Members(out.store, key)[x] == if Boosted(bs, x) then Divide(inter[x], bs[x]) else inter[x]
  {
    var terms := CleanPhrase(phrase);
    var bs := EffectiveBoosts(st, boosts, autoboost);
    var key := CacheKeyOf(terms, bs);
    assert TargetKey(terms, bs) == key;
    var prep := Prepare(st, terms, bs);
    assert prep.built == BuildCache(st, key, terms);
    assert Members(prep.built, key) == Intersect(TermSets(st, terms));
    assert prep.rescaled == Rescale(prep.built, key, bs);
  }

  /** Two identical boosted searches against an existing cache set divide a
      boosted member's score by its boost twice: the rescale compounds. */
  lemma SearchCompounds(st: Store, phrase: string, src: Source, limit: Option<int>, boosts: map<string, real>, m: string)
    requires |CleanPhrase(phrase)| > 0 && |boosts| > 0
    requires CacheKeyOf(CleanPhrase(phrase), boosts) in st.zsets
    requires forall x | x in boosts :: boosts[x] != 0.0
    requires m in Members(st, CacheKeyOf(CleanPhrase(phrase), boosts)) && Boosted(boosts, m)
    ensures var key := CacheKeyOf(CleanPhrase(phrase), boosts);
      var once := Search(st, phrase, src, limit, boosts, false, true).store;
      var twice := Search(once, phrase, src, limit, boosts, false, true).store;
      m in Members(twice, key) && Members(twice, key)[m] == Divide(Divide(Members(st, key)[m], boosts[m]), boosts[m])
  {
    var key := CacheKeyOf(CleanPhrase(phrase), boosts);
    assert EffectiveBoosts(st, boosts, false) == boosts;
    SearchRescalesExistingCache(st, phrase, src, limit, boosts, false, true, m);
    var once := Search(st, phrase, src, limit, boosts, false, true).store;
    assert EffectiveBoosts(once, boosts, false) == boosts;
    assert key in once.zsets && m in Members(once, key);
    SearchRescalesExistingCache(once, phrase, src, limit, boosts, false, true, m);
  }

  /** A zero boost on a member of the ranged set raises, after the cache set
      has been built. */
  lemma SearchZeroBoostRaises(st: Store, phrase: string, src: Source, limit: Option<int>, boosts: map<string, real>, autoboost: bool, returnIds: bool)
    requires |CleanPhrase(phrase)| > 0
    requires var bs := EffectiveBoosts(st, boosts, autoboost);
      |bs| > 0 && CacheKeyOf(CleanPhrase(phrase), bs) in st.zsets
    ensures var bs := EffectiveBoosts(st, boosts, autoboost);
      var key := CacheKeyOf(CleanPhrase(phrase), bs);
      var out := Search(st, phrase, src, limit, boosts, autoboost, returnIds);
      out.answer.Err? <==> exists x | x in Members(st, key) :: Boosted(bs, x) && bs[x] == 0.0
  {
  }

  /** `ZRANGE 0 limit` is inclusive, so an id search with a positive limit
      returns up to `limit + 1` ids: exactly that many when the set has them. */
  lemma SearchIdsLimit(st: Store, phrase: string, src: Source, n: nat, boosts: map<string, real>, autoboost: bool)
    requires n > 0
    ensures var out := Search(st, phrase, src, Some(n), boosts, autoboost, true);
      out.answer.Ok? ==> |out.answer.value.ids| <= n + 1
    ensures var out := Search(st, phrase, src, Some(n), boosts, autoboost, true);
      (out.answer.Ok? && |CleanPhrase(phrase)| > 0
       && |Members(out.store, TargetKey(CleanPhrase(phrase), EffectiveBoosts(st, boosts, autoboost)))| > n)
      ==> |out.answer.value.ids| == n + 1
  {
    var out := Search(st, phrase, src, Some(n), boosts, autoboost, true);
    if out.answer.Ok? && |CleanPhrase(phrase)| > 0 {
      var key := TargetKey(CleanPhrase(phrase), EffectiveBoosts(st, boosts, autoboost));
      ZRangeHead(Members(out.store, key), n);
    }
  }

  /** The terms are not sorted into the cache key: the same words in another
      order name another cache set, although the intersection stored there
      is the same. */
  lemma CacheKeyTermOrder(st: Store, boosts: map<string, real>)
    ensures CacheKeyOf(["x", "y"], boosts) != CacheKeyOf(["y", "x"], boosts)
    ensures Intersect(TermSets(st, ["x", "y"])) == Intersect(TermSets(st, ["y", "x"]))
  {
    assert Join("|", ["x", "y"]) == "x|y";
    assert Join("|", ["y", "x"]) == "y|x";
    var a := Intersect(TermSets(st, ["x", "y"]));
    var b := Intersect(TermSets(st, ["y", "x"]));
    assert TermSets(st, ["x", "y"])[..1] == [Members(st, PhraseSet("x"))];
    assert TermSets(st, ["y", "x"])[..1] == [Members(st, PhraseSet("y"))];
    assert a.Keys == b.Keys;
    forall k | k in a ensures a[k] == b[k] {
      assert SumScores(TermSets(st, ["x", "y"]), k) == SumScores(TermSets(st, ["y", "x"]), k);
    }
  }
}
