/** The Redis database the index lives in, as one immutable value: the four
    hashes `jri:d`, `jri:s`, `jri:t`, `jri:b`, the sorted sets `jri:s:<p>`,
    `jri:k:<p>` and `jri:c:<terms>:<boosts>`, and whatever else the database
    holds outside the `jri:` namespace. The commands are single-threaded
    state-to-state functions. */
module Store {
  import opened Wrappers
  import opened SortedSets

  /** A stored JSON document. The text is opaque; `key` is the one field the
      model reads back (`v['key']` in app.py:129). */
  datatype Doc = Doc(key: string, json: string)

  /** The parts of an upstream issue the index reads: `key`, the assignee's
      name when there is an assignee, the status name, the summary, the raw
      payload and the small projection (`jira_issue_to_smalldata`, opaque). */
  datatype Issue = Issue(
    key: string,
    assignee: Option<string>,
    status: string,
    summary: string,
    raw: Doc,
    small: Doc)

  /** Names of the sorted sets: `jri:s:<prefix>` (phrase search),
      `jri:k:<prefix>` (key search) and `jri:c:<terms>:<boosts>` (search
      cache; `terms` is the `|`-joined cleaned words, `boosts` the boost pairs
      sorted by key). */
  datatype ZKey =
    | PhraseSet(prefix: string)
    | KeySet(prefix: string)
    | CacheSet(terms: string, boosts: seq<(string, real)>)

  /** Which payload hash a lookup reads: `jri:d` (full) or `jri:s` (small). */
  datatype Source = Full | Small

  datatype Store = Store(
    data: map<string, Doc>,        // jri:d   key -> raw issue JSON
    small: map<string, Doc>,       // jri:s   key -> small projection JSON
    titles: map<string, string>,   // jri:t   key -> stored title
    boosts: map<string, real>,     // jri:b   key -> boost multiplier
    zsets: map<ZKey, ZSet>,        // every sorted set of the namespace
    other: map<string, string>)    // keys outside the jri: namespace

  const Empty: Store := Store(map[], map[], map[], map[], map[], map[])

  /** Redis removes a sorted set once it is empty, so none is ever stored empty. */
  ghost predicate Valid(st: Store) {
    forall z | z in st.zsets :: |st.zsets[z]| > 0
  }

  /** The hash a request reads: the raw one when its `full` flag is truthy,
      the small one otherwise (app.py:45, 125, 193). */
  function SourceOf(full: bool): Source {
    if full then Full else Small
  }

  /** The hash a payload lookup reads. */
  function Payloads(st: Store, src: Source): map<string, Doc> {
    match src
    case Full => st.data
    case Small => st.small
  }

  /** The members of sorted set `z` (an absent set reads as empty). */
  function Members(st: Store, z: ZKey): ZSet {
    if z in st.zsets then st.zsets[z] else map[]
  }

  /** `ZADD z score m`: adds `m` or overwrites its score. */
  function ZAdd(st: Store, z: ZKey, m: string, score: real): (r: Store)
    ensures Members(r, z) == Members(st, z)[m := score]
    ensures forall y | y != z :: Members(r, y) == Members(st, y) && (y in r.zsets <==> y in st.zsets)
    ensures Valid(st) ==> Valid(r)
    ensures r == st.(zsets := r.zsets)
  {
    st.(zsets := st.zsets[z := Members(st, z)[m := score]])
  }

  /** `DEL z`. */
  function Delete(st: Store, z: ZKey): (r: Store)
    ensures z !in r.zsets
    ensures forall y | y != z :: Members(r, y) == Members(st, y) && (y in r.zsets <==> y in st.zsets)
    ensures Valid(st) ==> Valid(r)
    ensures r == st.(zsets := r.zsets)
  {
    st.(zsets := st.zsets - {z})
  }

  /** `ZREM z m`; the set disappears when its last member goes. */
  function ZRem(st: Store, z: ZKey, m: string): (r: Store)
    ensures Members(r, z) == Members(st, z) - {m}
    ensures forall y | y != z :: Members(r, y) == Members(st, y) && (y in r.zsets <==> y in st.zsets)
    ensures Valid(st) ==> Valid(r)
    ensures r == st.(zsets := r.zsets)
  {
    var rest := Members(st, z) - {m};
    if |rest| == 0 then st.(zsets := st.zsets - {z}) else st.(zsets := st.zsets[z := rest])
  }

  // ---------------------------------------------------------------------
  // Batches of ZADDs for one member, later writes winning
  // ---------------------------------------------------------------------

  /** One `ZADD <set> <member> <score>` of a batch. */
  type Write = (ZKey, real)

  /** Some write of `ws` targets `z`. */
  predicate WritesTo(ws: seq<Write>, z: ZKey) {
    exists i | 0 <= i < |ws| :: ws[i].0 == z
  }

  /** The score of the last write of `ws` that targets `z`. */
  function LastScore(ws: seq<Write>, z: ZKey): real
    requires WritesTo(ws, z)
    decreases |ws|
  {
    var n := |ws| - 1;
    if ws[n].0 == z then ws[n].1
    else
      assert WritesTo(ws[..n], z) by {
        var i :| 0 <= i < |ws| && ws[i].0 == z;
        assert i < n && ws[..n][i] == ws[i];
      }
      LastScore(ws[..n], z)
  }

  /** Executes the ZADDs of `ws` for member `m`, in order. */
  function ApplyWrites(st: Store, m: string, ws: seq<Write>): Store
    decreases |ws|
  {
    if |ws| == 0 then st
    else
      var n := |ws| - 1;
      ZAdd(ApplyWrites(st, m, ws[..n]), ws[n].0, m, ws[n].1)
  }

  /** After a batch, a set that was written holds `m` with the score of the
      last write to it and is otherwise unchanged; every other set is untouched. */
  lemma WritesToSplit(ws: seq<Write>, z: ZKey)
    requires |ws| > 0
    ensures WritesTo(ws, z) <==> WritesTo(ws[..|ws| - 1], z) || ws[|ws| - 1].0 == z
  {
    var n := |ws| - 1;
    if WritesTo(ws, z) && ws[n].0 != z {
      var i :| 0 <= i < |ws| && ws[i].0 == z;
      assert ws[..n][i] == ws[i];
    }
    if WritesTo(ws[..n], z) {
      var i :| 0 <= i < n && ws[..n][i].0 == z;
      assert ws[i] == ws[..n][i];
    }
  }

  lemma WritesToConcat(a: seq<Write>, b: seq<Write>, z: ZKey)
    ensures WritesTo(a + b, z) <==> WritesTo(a, z) || WritesTo(b, z)
  {
    if WritesTo(a + b, z) {
      var i :| 0 <= i < |a + b| && (a + b)[i].0 == z;
      if i < |a| {
        assert a[i] == (a + b)[i];
      } else {
        assert b[i - |a|] == (a + b)[i];
      }
    }
    if WritesTo(a, z) {
      var i :| 0 <= i < |a| && a[i].0 == z;
      assert (a + b)[i] == a[i];
    }
    if WritesTo(b, z) {
      var i :| 0 <= i < |b| && b[i].0 == z;
      assert (a + b)[|a| + i] == b[i];
    }
  }

  /** A batch only touches sorted sets and keeps them non-empty. */
  lemma {:induction false} ApplyWritesFrame(st: Store, m: string, ws: seq<Write>)
    ensures ApplyWrites(st, m, ws) == st.(zsets := ApplyWrites(st, m, ws).zsets)
    ensures Valid(st) ==> Valid(ApplyWrites(st, m, ws))
    decreases |ws|
  {
    if |ws| > 0 {
      ApplyWritesFrame(st, m, ws[..|ws| - 1]);
    }
  }

  /** A set no write targets is untouched by the batch. */
  lemma {:induction false} ApplyWritesUnwritten(st: Store, m: string, ws: seq<Write>, z: ZKey)
    requires !WritesTo(ws, z)
    ensures Members(ApplyWrites(st, m, ws), z) == Members(st, z)
    ensures z in ApplyWrites(st, m, ws).zsets <==> z in st.zsets
    decreases |ws|
  {
    if |ws| > 0 {
      WritesToSplit(ws, z);
      ApplyWritesUnwritten(st, m, ws[..|ws| - 1], z);
    }
  }

  /** A set some write targets ends up holding `m` with the score of the last
      write to it, its other members unchanged. */
  lemma {:induction false} ApplyWritesLastWins(st: Store, m: string, ws: seq<Write>, z: ZKey)
    requires WritesTo(ws, z)
    ensures Members(ApplyWrites(st, m, ws), z) == Members(st, z)[m := LastScore(ws, z)]
    decreases |ws|
  {
    var n := |ws| - 1;
    WritesToSplit(ws, z);
    if ws[n].0 != z {
      ApplyWritesLastWins(st, m, ws[..n], z);
    } else if WritesTo(ws[..n], z) {
      ApplyWritesLastWins(st, m, ws[..n], z);
    } else {
      ApplyWritesUnwritten(st, m, ws[..n], z);
    }
  }

  // ---------------------------------------------------------------------
  // The visit `remove` makes to one sorted set
  // ---------------------------------------------------------------------

  /** index.py:159-163 and 166-178: if `ZRANGE z 1 2` is empty the whole set
      is deleted, otherwise only `m` is removed from it. The test is written
      as the set's size; `ZRangeOneTwo` proves the two agree. */
  function Visit(st: Store, z: ZKey, m: string): (r: Store)
    ensures |Members(st, z)| <= 1 ==> z !in r.zsets
    ensures |Members(st, z)| > 1 ==> Members(r, z) == Members(st, z) - {m} && z in r.zsets
    ensures forall y | y != z :: Members(r, y) == Members(st, y) && (y in r.zsets <==> y in st.zsets)
    ensures Valid(st) ==> Valid(r)
    ensures r == st.(zsets := r.zsets)
  {
    if |Members(st, z)| <= 1 then Delete(st, z) else ZRem(st, z, m)
  }

  /** A visit leaves every other set as it was. */
  lemma VisitElsewhere(st: Store, z: ZKey, m: string, y: ZKey)
    requires y != z
    ensures Members(Visit(st, z, m), y) == Members(st, y)
    ensures y in Visit(st, z, m).zsets <==> y in st.zsets
  {
  }

  /** Visits the sets `zs` in order. */
  function VisitAll(st: Store, zs: seq<ZKey>, m: string): Store
    decreases |zs|
  {
    if |zs| == 0 then st
    else
      var n := |zs| - 1;
      Visit(VisitAll(st, zs[..n], m), zs[n], m)
  }

  /** `ZSet` `a` keeps some members of `b` with their scores. */
  ghost predicate SubSet(a: ZSet, b: ZSet) {
    forall x | x in a :: x in b && a[x] == b[x]
  }

  /** Visiting only touches sorted sets and keeps them non-empty. */
  lemma {:induction false} VisitAllFrame(st: Store, zs: seq<ZKey>, m: string)
    ensures VisitAll(st, zs, m) == st.(zsets := VisitAll(st, zs, m).zsets)
    ensures Valid(st) ==> Valid(VisitAll(st, zs, m))
    decreases |zs|
  {
    if |zs| > 0 {
      VisitAllFrame(st, zs[..|zs| - 1], m);
    }
  }

  /** A set that is not visited is untouched. */
  lemma {:induction false} VisitAllUnvisited(st: Store, zs: seq<ZKey>, m: string, z: ZKey)
    requires z !in zs
    ensures Members(VisitAll(st, zs, m), z) == Members(st, z)
    ensures z in VisitAll(st, zs, m).zsets <==> z in st.zsets
    decreases |zs|
  {
    if |zs| > 0 {
      var n := |zs| - 1;
      assert zs == zs[..n] + [zs[n]];
      VisitAllUnvisited(st, zs[..n], m, z);
      VisitElsewhere(VisitAll(st, zs[..n], m), zs[n], m, z);
    }
  }

  /** Every set only loses members: those it keeps have their old scores. */
  lemma {:induction false} VisitAllShrinks(st: Store, zs: seq<ZKey>, m: string, z: ZKey)
    ensures SubSet(Members(VisitAll(st, zs, m), z), Members(st, z))
    decreases |zs|
  {
    if |zs| > 0 {
      VisitAllShrinks(st, zs[..|zs| - 1], m, z);
    }
  }

  /** A visited set no longer holds `m` (whether it was emptied or only lost `m`). */
  lemma {:induction false} VisitAllRemoves(st: Store, zs: seq<ZKey>, m: string, z: ZKey)
    requires z in zs
    ensures m !in Members(VisitAll(st, zs, m), z)
    decreases |zs|
  {
    var n := |zs| - 1;
    if zs[n] != z {
      assert zs == zs[..n] + [zs[n]];
      assert z in zs[..n];
      VisitAllRemoves(st, zs[..n], m, z);
    }
  }

  /** A set that keeps only members of another is no larger. */
  lemma SubSetSize(a: ZSet, b: ZSet)
    requires SubSet(a, b)
    ensures |a| <= |b|
  {
    KeysSize(a.Keys, b.Keys);
    assert |a| == |a.Keys| && |b| == |b.Keys|;
  }

  lemma {:induction false} KeysSize(a: set<string>, b: set<string>)
    requires a <= b
    ensures |a| <= |b|
    decreases |a|
  {
    if a != {} {
      var x :| x in a;
      KeysSize(a - {x}, b - {x});
    }
  }

  /** A visited set that held at most one member is gone afterwards, whoever
      that member was. */
  lemma {:induction false} VisitAllSmallGone(st: Store, zs: seq<ZKey>, m: string, z: ZKey)
    requires z in zs && |Members(st, z)| <= 1
    ensures z !in VisitAll(st, zs, m).zsets
    decreases |zs|
  {
    var n := |zs| - 1;
    var mid := VisitAll(st, zs[..n], m);
    VisitAllShrinks(st, zs[..n], m, z);
    SubSetSize(Members(mid, z), Members(st, z));
    if zs[n] != z {
      assert zs == zs[..n] + [zs[n]];
      assert z in zs[..n];
      VisitAllSmallGone(st, zs[..n], m, z);
    }
  }

  /** What `n` visits leave of a set `s` for member `m`: each visit decides
      on the set as the earlier ones left it, so once it is gone it stays
      gone, and a second visit deletes a set the first one shrank to one
      member. Absent stands for a deleted set. */
  function AfterVisits(s: ZSet, m: string, n: nat): Option<ZSet> {
    if n == 0 then Some(s)
    else if n == 1 then (if |s| <= 1 then None else Some(s - {m}))
    else if |s - {m}| <= 1 then None else Some(s - {m})
  }

  /** Visiting the sets `zs` leaves each set `z` as `AfterVisits` says for
      the number of times `z` occurs in `zs`. */
  lemma {:induction false} VisitAllTimes(st: Store, zs: seq<ZKey>, m: string, z: ZKey)
    ensures var after := AfterVisits(Members(st, z), m, multiset(zs)[z]);
      var r := VisitAll(st, zs, m);
      && (after.None? ==> z !in r.zsets)
      && (after.Some? && multiset(zs)[z] > 0 ==> z in r.zsets)
      && (after.Some? ==> Members(r, z) == after.value)
    decreases |zs|
  {
    if |zs| > 0 {
      var n := |zs| - 1;
      VisitAllTimes(st, zs[..n], m, z);
      assert zs == zs[..n] + [zs[n]];
      var s := Members(st, z);
      var mid := VisitAll(st, zs[..n], m);
      if zs[n] == z {
        VisitAgain(mid, s, m, z, multiset(zs[..n])[z]);
      } else {
        VisitElsewhere(mid, zs[n], m, z);
      }
    }
  }

  /** One more visit to `z`, on a store holding what `k` visits left of `s`. */
  lemma VisitAgain(mid: Store, s: ZSet, m: string, z: ZKey, k: nat)
    requires AfterVisits(s, m, k).None? ==> z !in mid.zsets
    requires AfterVisits(s, m, k).Some? ==> Members(mid, z) == AfterVisits(s, m, k).value
    ensures var after := AfterVisits(s, m, k + 1);
      && (after.None? ==> z !in Visit(mid, z, m).zsets)
      && (after.Some? ==> z in Visit(mid, z, m).zsets && Members(Visit(mid, z, m), z) == after.value)
  {
    RemoveOneSize(s, m);
    RemoveOneSize(s - {m}, m);
    assert s - {m} - {m} == s - {m};
  }

  /** Taking one member out never grows a set, and shrinks it by one when
      the member was in it. */
  lemma RemoveOneSize(s: ZSet, m: string)
    ensures |s - {m}| <= |s|
    ensures m in s ==> |s - {m}| == |s| - 1
    ensures m !in s ==> s - {m} == s
  {
    assert (s - {m}).Keys == s.Keys - {m};
    assert |s - {m}| == |(s - {m}).Keys| && |s| == |s.Keys|;
  }

  // ---------------------------------------------------------------------
  // Stores that hold the same index
  // ---------------------------------------------------------------------

  /** `a` and `b` hold the same index: the same four hashes, the same keys
      outside the namespace, and the same phrase and key sets. Only their
      search caches may differ. */
  ghost predicate SameIndex(a: Store, b: Store) {
    && a.data == b.data && a.small == b.small && a.titles == b.titles
    && a.boosts == b.boosts && a.other == b.other
    && forall y: ZKey | !y.CacheSet? :: Members(a, y) == Members(b, y) && (y in a.zsets <==> y in b.zsets)
  }

  /** The same batch of ZADDs on two stores holding the same index leaves
      them holding the same index. */
  lemma {:induction false} ApplyWritesSame(a: Store, b: Store, m: string, ws: seq<Write>)
    requires SameIndex(a, b)
    ensures SameIndex(ApplyWrites(a, m, ws), ApplyWrites(b, m, ws))
    decreases |ws|
  {
    if |ws| > 0 {
      ApplyWritesSame(a, b, m, ws[..|ws| - 1]);
    }
  }

  /** The same visits on two stores holding the same index leave them
      holding the same index: each visit's test reads only the visited set. */
  lemma {:induction false} VisitAllSame(a: Store, b: Store, zs: seq<ZKey>, m: string)
    requires SameIndex(a, b)
    ensures SameIndex(VisitAll(a, zs, m), VisitAll(b, zs, m))
    decreases |zs|
  {
    if |zs| > 0 {
      VisitAllSame(a, b, zs[..|zs| - 1], m);
    }
  }
}
