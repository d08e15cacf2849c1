/** Writing to the index: `index`, `store_issue_data`, `remove`, `boost`,
    `flush`, `is_stored` and `get_by_key` of `JIRARedisIndex` (index.py:62-183,
    234-244, 296-301). */
module Indexer {
  import opened Wrappers
  import opened Text
  import opened Primitives
  import opened SortedSets
  import opened Store

  // ---------------------------------------------------------------------
  // index / store_issue_data
  // ---------------------------------------------------------------------

  /** The title `index` computes: assignee name (when there is an assignee),
      status name and summary, separated by spaces (index.py:107-110). */
  function Title(issue: Issue): string {
    match issue.assignee
    case Some(name) => name + " " + issue.status + " " + issue.summary
    case None => issue.status + " " + issue.summary
  }

  /** `is_stored(key)`: the raw hash holds the key (index.py:141-142). */
  predicate IsStored(st: Store, key: string) {
    key in st.data
  }

  /** `store_issue_data`: writes the raw payload and the small projection, and
      the summary (not the computed title) as the title when asked
      (index.py:144-152). */
  function StoreData(st: Store, issue: Issue, storeTitle: bool): Store {
    st.(data := st.data[issue.key := issue.raw],
        small := st.small[issue.key := issue.small],
        titles := if storeTitle then st.titles[issue.key := issue.summary] else st.titles)
  }

  /** The score base of key prefixes, `self._offset` (index.py:33). */
  function KeyScore(i: nat): real {
    (Offset() - i) as real
  }

  /** The fixed phrase-search score of key prefixes, `_offset * _offset` (index.py:129). */
  function KeyPhraseScore(): real {
    (Offset() * Offset()) as real
  }

  /** The ZADDs of index.py:127-129 for the prefixes `keys` of the lower-cased
      key: position `i` goes to `k:<p>` with `27^20 - i` and to `s:<p>` with `27^40`. */
  function KeyWrites(member: string, keys: seq<string>): seq<Write>
    decreases |keys|
  {
    if |keys| == 0 then []
    else
      var n := |keys| - 1;
      KeyWrites(member, keys[..n]) + [(KeySet(keys[n]), KeyScore(n)), (PhraseSet(keys[n]), KeyPhraseScore())]
  }

  /** The score of word `j` of the title (index.py:134-135). */
  function WordScore(word: string, j: nat, titleScore: int): real {
    ((ScoreKey(word) + Offset()) * (j + 1) + titleScore) as real
  }

  /** The ZADDs of index.py:136-137 for word `j`: each of its prefixes' `s:<p>`. */
  function WordGroup(word: string, j: nat, titleScore: int): seq<Write> {
    var ps := AutocompleteKeys(word);
    seq(|ps|, i requires 0 <= i < |ps| => (PhraseSet(ps[i]), WordScore(word, j, titleScore)))
  }

  /** The ZADDs of index.py:133-137 for the cleaned title words, in order. */
  function WordWrites(words: seq<string>, titleScore: int): seq<Write>
    decreases |words|
  {
    if |words| == 0 then []
    else
      var n := |words| - 1;
      WordWrites(words[..n], titleScore) + WordGroup(words[n], n, titleScore)
  }

  /** Every ZADD `index` issues for `key` under `title`, in pipeline order. */
  function IndexWrites(key: string, title: string): seq<Write> {
    KeyWrites(key, AutocompleteKeys(Lower(key))) + WordWrites(CleanPhrase(title), ScoreKey(CreateKey(title)))
  }

  /** `index` skips re-indexing: the key is stored and its stored title equals
      the computed title (index.py:112-117). */
  predicate TitleUnchanged(st: Store, issue: Issue) {
    IsStored(st, issue.key) && issue.key in st.titles && st.titles[issue.key] == Title(issue)
  }

  /** The store `index` writes its batch onto: a stored key is first removed. */
  function Cleared(st: Store, key: string): Store {
    if IsStored(st, key) then Remove(st, key) else st
  }

  /** `index(issue)` (index.py:105-139). */
  function Index(st: Store, issue: Issue): Store {
    if TitleUnchanged(st, issue) then StoreData(st, issue, false)
    else ApplyWrites(StoreData(Cleared(st, issue.key), issue, true), issue.key, IndexWrites(issue.key, Title(issue)))
  }

  // ---------------------------------------------------------------------
  // remove
  // ---------------------------------------------------------------------

  /** The phrase sets of every prefix of every word, word by word (index.py:157-159). */
  function WordVisits(words: seq<string>): seq<ZKey>
    decreases |words|
  {
    if |words| == 0 then []
    else
      var n := |words| - 1;
      var ps := AutocompleteKeys(words[n]);
      WordVisits(words[..n]) + seq(|ps|, i requires 0 <= i < |ps| => PhraseSet(ps[i]))
  }

  /** `k:<p>` then `s:<p>` for every prefix `p` (index.py:165-178). */
  function KeyVisits(keys: seq<string>): seq<ZKey>
    decreases |keys|
  {
    if |keys| == 0 then []
    else
      var n := |keys| - 1;
      KeyVisits(keys[..n]) + [KeySet(keys[n]), PhraseSet(keys[n])]
  }

  /** The sorted sets `remove` visits, in order: the prefixes of the words of
      the stored title, then the prefixes of the key exactly as given. */
  function RemoveVisits(storedTitle: string, key: string): seq<ZKey> {
    WordVisits(CleanPhrase(storedTitle)) + KeyVisits(AutocompleteKeys(key))
  }

  /** The title `remove` reads: the stored one, or '' (index.py:155). */
  function StoredTitle(st: Store, key: string): string {
    if key in st.titles then st.titles[key] else ""
  }

  /** `remove(key)` (index.py:154-183). */
  function Remove(st: Store, key: string): Store {
    var swept := VisitAll(st, RemoveVisits(StoredTitle(st, key), key), key);
    swept.(data := swept.data - {key},
           small := swept.small - {key},
           titles := swept.titles - {key},
           boosts := swept.boosts - {key})
  }

  /** `z` is one of the sets `remove` visits for `key` under stored title `t`. */
  ghost predicate Visited(t: string, key: string, z: ZKey) {
    || (z.PhraseSet? && exists w | w in CleanPhrase(t) :: z.prefix in AutocompleteKeys(w))
    || ((z.KeySet? || z.PhraseSet?) && z.prefix in AutocompleteKeys(key))
  }

  lemma {:induction false} WordVisitsMembers(words: seq<string>, z: ZKey)
    ensures z in WordVisits(words) <==> z.PhraseSet? && exists w | w in words :: z.prefix in AutocompleteKeys(w)
    decreases |words|
  {
    if |words| > 0 {
      var n := |words| - 1;
      WordVisitsMembers(words[..n], z);
      var ps := AutocompleteKeys(words[n]);
      var group := seq(|ps|, i requires 0 <= i < |ps| => PhraseSet(ps[i]));
      assert z in group <==> z.PhraseSet? && z.prefix in ps by {
        if z.PhraseSet? && z.prefix in ps {
          var i :| 0 <= i < |ps| && ps[i] == z.prefix;
          assert group[i] == z;
        }
      }
      assert words == words[..n] + [words[n]];
    }
  }

  lemma {:induction false} KeyVisitsMembers(keys: seq<string>, z: ZKey)
    ensures z in KeyVisits(keys) <==> (z.KeySet? || z.PhraseSet?) && z.prefix in keys
    decreases |keys|
  {
    if |keys| > 0 {
      var n := |keys| - 1;
      KeyVisitsMembers(keys[..n], z);
      assert keys == keys[..n] + [keys[n]];
    }
  }

  lemma RemoveVisitsMembers(t: string, key: string, z: ZKey)
    ensures z in RemoveVisits(t, key) <==> Visited(t, key, z)
  {
    WordVisitsMembers(CleanPhrase(t), z);
    KeyVisitsMembers(AutocompleteKeys(key), z);
  }

  /** `remove(key)`: the key leaves the four hashes and every visited sorted
      set; every visited set keeps only members it had, with their scores
      (a set with at most one member is deleted even when that member is
      another issue); sets not visited and every other hash entry are
      unchanged. */
  lemma RemoveEffect(st: Store, key: string)
    ensures var r := Remove(st, key);
      && r.data == st.data - {key} && r.small == st.small - {key}
      && r.titles == st.titles - {key} && r.boosts == st.boosts - {key}
      && r.other == st.other
    ensures forall z | Visited(StoredTitle(st, key), key, z) :: key !in Members(Remove(st, key), z)
    ensures forall z :: SubSet(Members(Remove(st, key), z), Members(st, z))
    ensures forall z | !Visited(StoredTitle(st, key), key, z) ::
      Members(Remove(st, key), z) == Members(st, z)
    ensures Valid(st) ==> Valid(Remove(st, key))
  {
    RemoveHashes(st, key);
    VisitAllFrame(st, RemoveVisits(StoredTitle(st, key), key), key);
    var r := Remove(st, key);
    forall z | Visited(StoredTitle(st, key), key, z) ensures key !in Members(r, z) {
      RemoveSet(st, key, z);
    }
    forall z ensures SubSet(Members(r, z), Members(st, z)) {
      RemoveSet(st, key, z);
    }
    forall z | !Visited(StoredTitle(st, key), key, z) ensures Members(r, z) == Members(st, z) {
      RemoveSet(st, key, z);
    }
  }

  /** What `remove` leaves of one sorted set `z`. */
  ghost predicate RemoveKeeps(st: Store, key: string, z: ZKey) {
    var after := Members(Remove(st, key), z);
    && (Visited(StoredTitle(st, key), key, z) ==> key !in after)
    && SubSet(after, Members(st, z))
    && (!Visited(StoredTitle(st, key), key, z) ==> after == Members(st, z))
  }

  lemma RemoveSet(st: Store, key: string, z: ZKey)
    ensures RemoveKeeps(st, key, z)
  {
    var vs := RemoveVisits(StoredTitle(st, key), key);
    assert Members(Remove(st, key), z) == Members(VisitAll(st, vs, key), z);
    RemoveVisitsMembers(StoredTitle(st, key), key, z);
    VisitAllShrinks(st, vs, key, z);
    if Visited(StoredTitle(st, key), key, z) {
      VisitAllRemoves(st, vs, key, z);
    } else {
      VisitAllUnvisited(st, vs, key, z);
    }
  }

  // ---------------------------------------------------------------------
  // Which writes `index` makes, and which one wins
  // ---------------------------------------------------------------------

  lemma {:induction false} LastScoreAppend(a: seq<Write>, b: seq<Write>, z: ZKey)
    requires WritesTo(a + b, z)
    ensures WritesTo(b, z) ==> LastScore(a + b, z) == LastScore(b, z)
    ensures !WritesTo(b, z) ==> WritesTo(a, z) && LastScore(a + b, z) == LastScore(a, z)
    decreases |b|
  {
    if |b| == 0 {
      assert a + b == a;
    } else {
      var n := |b| - 1;
      assert (a + b)[..|a + b| - 1] == a + b[..n];
      WritesToSplit(b, z);
      WritesToSplit(a + b, z);
      if b[n].0 != z {
        LastScoreAppend(a, b[..n], z);
      }
    }
  }

  /** In the key writes, `k:<keys[i]>` is last written with `27^20 - i`
      (the prefixes being distinct), `s:<p>` is written exactly for the
      prefixes, always with `27^40`, and nothing else is written. */
  lemma {:induction false} KeyWritesFacts(member: string, keys: seq<string>)
    requires forall i, j | 0 <= i < j < |keys| :: keys[i] != keys[j]
    ensures forall i | 0 <= i < |keys| ::
      WritesTo(KeyWrites(member, keys), KeySet(keys[i])) && LastScore(KeyWrites(member, keys), KeySet(keys[i])) == KeyScore(i)
    ensures forall p | p in keys ::
      WritesTo(KeyWrites(member, keys), PhraseSet(p)) && LastScore(KeyWrites(member, keys), PhraseSet(p)) == KeyPhraseScore()
    ensures forall z | WritesTo(KeyWrites(member, keys), z) :: (z.KeySet? || z.PhraseSet?) && z.prefix in keys
    decreases |keys|
  {
    if |keys| > 0 {
      var n := |keys| - 1;
      var pre := keys[..n];
      KeyWritesFacts(member, pre);
      var a := KeyWrites(member, pre);
      var b: seq<Write> := [(KeySet(keys[n]), KeyScore(n)), (PhraseSet(keys[n]), KeyPhraseScore())];
      var ws := KeyWrites(member, keys);
      assert ws == a + b;
      assert forall z :: WritesTo(b, z) <==> z == KeySet(keys[n]) || z == PhraseSet(keys[n]) by {
        forall z ensures WritesTo(b, z) <==> z == KeySet(keys[n]) || z == PhraseSet(keys[n]) {
          if z == KeySet(keys[n]) { assert b[0].0 == z; }
          if z == PhraseSet(keys[n]) { assert b[1].0 == z; }
        }
      }
      forall i | 0 <= i < |keys|
        ensures WritesTo(ws, KeySet(keys[i])) && LastScore(ws, KeySet(keys[i])) == KeyScore(i)
      {
        WritesToConcat(a, b, KeySet(keys[i]));
        if i == n {
          LastScoreAppend(a, b, KeySet(keys[n]));
          assert b[..1] == [b[0]];
        } else {
          assert keys[i] == pre[i] && keys[i] != keys[n];
          LastScoreAppend(a, b, KeySet(keys[i]));
        }
      }
      forall p | p in keys
        ensures WritesTo(ws, PhraseSet(p)) && LastScore(ws, PhraseSet(p)) == KeyPhraseScore()
      {
        WritesToConcat(a, b, PhraseSet(p));
        if p == keys[n] {
          LastScoreAppend(a, b, PhraseSet(p));
        } else {
          assert p in pre by {
            var i :| 0 <= i < |keys| && keys[i] == p;
            assert i < n && pre[i] == p;
          }
          LastScoreAppend(a, b, PhraseSet(p));
        }
      }
      forall z | WritesTo(ws, z) ensures (z.KeySet? || z.PhraseSet?) && z.prefix in keys {
        WritesToConcat(a, b, z);
        if WritesTo(a, z) {
          assert z.prefix in pre;
        }
      }
    }
  }

  /** `p` occurs among the prefixes of word `j` and of no later word. */
  ghost predicate LastWordWith(words: seq<string>, p: string, j: int) {
    0 <= j < |words| && p in AutocompleteKeys(words[j])
    && forall k | j < k < |words| :: p !in AutocompleteKeys(words[k])
  }

  /** Some word of `words` has `p` among its prefixes. */
  ghost predicate SomeWordWith(words: seq<string>, p: string) {
    exists j | 0 <= j < |words| :: p in AutocompleteKeys(words[j])
  }

  lemma WordGroupTargets(word: string, j: nat, ts: int, z: ZKey)
    ensures WritesTo(WordGroup(word, j, ts), z) <==> z.PhraseSet? && z.prefix in AutocompleteKeys(word)
  {
    var ps := AutocompleteKeys(word);
    if z.PhraseSet? && z.prefix in ps {
      var i :| 0 <= i < |ps| && ps[i] == z.prefix;
      assert WordGroup(word, j, ts)[i].0 == z;
    }
  }

  /** The word writes touch exactly the phrase sets of the words' prefixes. */
  lemma {:induction false} WordWritesTargets(words: seq<string>, ts: int, z: ZKey)
    ensures WritesTo(WordWrites(words, ts), z) <==> z.PhraseSet? && SomeWordWith(words, z.prefix)
    decreases |words|
  {
    if |words| > 0 {
      var n := |words| - 1;
      var pre := words[..n];
      WordWritesTargets(pre, ts, z);
      WordGroupTargets(words[n], n, ts, z);
      WritesToConcat(WordWrites(pre, ts), WordGroup(words[n], n, ts), z);
      if z.PhraseSet? && SomeWordWith(words, z.prefix) {
        var j :| 0 <= j < |words| && z.prefix in AutocompleteKeys(words[j]);
        if j < n {
          assert pre[j] == words[j];
        }
      }
      if z.PhraseSet? && SomeWordWith(pre, z.prefix) {
        var j :| 0 <= j < |pre| && z.prefix in AutocompleteKeys(pre[j]);
        assert pre[j] == words[j];
      }
    }
  }

  /** Within one word's group every write carries the word's score. */
  lemma WordGroupLast(word: string, j: nat, ts: int, p: string)
    requires p in AutocompleteKeys(word)
    ensures WritesTo(WordGroup(word, j, ts), PhraseSet(p))
    ensures LastScore(WordGroup(word, j, ts), PhraseSet(p)) == WordScore(word, j, ts)
  {
    var g := WordGroup(word, j, ts);
    WordGroupTargets(word, j, ts, PhraseSet(p));
    LastScoreOfUniform(g, PhraseSet(p), WordScore(word, j, ts));
  }

  /** `s:<p>` is last written with the score of the last word having prefix `p`. */
  lemma {:induction false} WordWritesLast(words: seq<string>, ts: int, p: string, j: int)
    requires LastWordWith(words, p, j)
    ensures WritesTo(WordWrites(words, ts), PhraseSet(p))
    ensures LastScore(WordWrites(words, ts), PhraseSet(p)) == WordScore(words[j], j, ts)
    decreases |words|
  {
    var n := |words| - 1;
    var pre := words[..n];
    var a := WordWrites(pre, ts);
    var b := WordGroup(words[n], n, ts);
    assert WordWrites(words, ts) == a + b;
    if j == n {
      WordGroupLast(words[n], n, ts, p);
      WritesToConcat(a, b, PhraseSet(p));
      LastScoreAppend(a, b, PhraseSet(p));
    } else {
      assert LastWordWith(pre, p, j) by {
        forall k | j < k < |pre| ensures p !in AutocompleteKeys(pre[k]) {
          assert pre[k] == words[k];
        }
      }
      WordWritesLast(pre, ts, p, j);
      assert pre[j] == words[j];
      WordGroupTargets(words[n], n, ts, PhraseSet(p));
      WritesToConcat(a, b, PhraseSet(p));
      LastScoreAppend(a, b, PhraseSet(p));
    }
  }

  /** When every write carries the same score, the last one does too. */
  lemma {:induction false} LastScoreOfUniform(ws: seq<Write>, z: ZKey, s: real)
    requires WritesTo(ws, z)
    requires forall i | 0 <= i < |ws| :: ws[i].1 == s
    ensures LastScore(ws, z) == s
    decreases |ws|
  {
    var n := |ws| - 1;
    if ws[n].0 != z {
      WritesToSplit(ws, z);
      LastScoreOfUniform(ws[..n], z, s);
    }
  }

  // ---------------------------------------------------------------------
  // What `index` leaves behind
  // ---------------------------------------------------------------------

  /** The sorted sets `index` writes `key` into under `title`: the key and
      phrase sets of every prefix of the lower-cased key, and the phrase sets
      of every prefix of every cleaned title word. */
  ghost predicate Indexed(key: string, title: string, z: ZKey) {
    || ((z.KeySet? || z.PhraseSet?) && z.prefix in AutocompleteKeys(Lower(key)))
    || (z.PhraseSet? && SomeWordWith(CleanPhrase(title), z.prefix))
  }

  lemma IndexWritesTargets(key: string, title: string, z: ZKey)
    ensures WritesTo(IndexWrites(key, title), z) <==> Indexed(key, title, z)
  {
    var ks := AutocompleteKeys(Lower(key));
    AutocompleteKeysDistinct(Lower(key));
    KeyWritesFacts(key, ks);
    WordWritesTargets(CleanPhrase(title), ScoreKey(CreateKey(title)), z);
    WritesToConcat(KeyWrites(key, ks), WordWrites(CleanPhrase(title), ScoreKey(CreateKey(title))), z);
    if z.KeySet? && z.prefix in ks {
      var i :| 0 <= i < |ks| && ks[i] == z.prefix;
    }
  }

  /** `title` is strictly longer than the summary it ends with. */
  lemma TitleLonger(issue: Issue)
    ensures |Title(issue)| > |issue.summary|
  {
  }

  /** The hashes after `index`: both payloads are written; the summary is
      stored as the title unless re-indexing was skipped; a re-indexed stored
      issue loses its boost (through `remove`); nothing outside the namespace
      changes. */
  lemma IndexHashes(st: Store, issue: Issue)
    ensures var r := Index(st, issue);
      && r.data == st.data[issue.key := issue.raw]
      && r.small == st.small[issue.key := issue.small]
      && r.titles == (if TitleUnchanged(st, issue) then st.titles else st.titles[issue.key := issue.summary])
      && r.boosts == (if IsStored(st, issue.key) && !TitleUnchanged(st, issue) then st.boosts - {issue.key} else st.boosts)
      && r.other == st.other
    ensures Valid(st) ==> Valid(Index(st, issue))
  {
    if !TitleUnchanged(st, issue) {
      ReindexPayloads(st, issue);
      ReindexRest(st, issue);
    }
  }

  lemma ReindexPayloads(st: Store, issue: Issue)
    requires !TitleUnchanged(st, issue)
    ensures var r := Index(st, issue);
      && r.data == st.data[issue.key := issue.raw]
      && r.small == st.small[issue.key := issue.small]
      && r.titles == st.titles[issue.key := issue.summary]
  {
    var key := issue.key;
    var cleared := Cleared(st, key);
    ClearedHashes(st, key);
    var base := StoreData(cleared, issue, true);
    var r := ApplyWrites(base, key, IndexWrites(key, Title(issue)));
    assert r == Index(st, issue);
    ApplyWritesFrame(base, key, IndexWrites(key, Title(issue)));
    assert r.data == cleared.data[key := issue.raw];
    assert r.small == cleared.small[key := issue.small];
    assert r.titles == cleared.titles[key := issue.summary];
    PutAfterRemove(st.data, key, issue.raw);
    PutAfterRemove(st.small, key, issue.small);
    PutAfterRemove(st.titles, key, issue.summary);
  }

  lemma PutAfterRemove<V>(m: map<string, V>, k: string, v: V)
    ensures (m - {k})[k := v] == m[k := v]
  {
  }

  lemma ReindexRest(st: Store, issue: Issue)
    requires !TitleUnchanged(st, issue)
    ensures var r := Index(st, issue);
      && r.boosts == (if IsStored(st, issue.key) then st.boosts - {issue.key} else st.boosts)
      && r.other == st.other
    ensures Valid(st) ==> Valid(Index(st, issue))
  {
    var key := issue.key;
    ClearedHashes(st, key);
    ApplyWritesFrame(StoreData(Cleared(st, key), issue, true), key, IndexWrites(key, Title(issue)));
  }

  /** The store `index` writes onto: a stored key's hash entries are gone. */
  lemma ClearedHashes(st: Store, key: string)
    ensures var c := Cleared(st, key);
      && c.data == (if IsStored(st, key) then st.data - {key} else st.data)
      && c.small == (if IsStored(st, key) then st.small - {key} else st.small)
      && c.titles == (if IsStored(st, key) then st.titles - {key} else st.titles)
      && c.boosts == (if IsStored(st, key) then st.boosts - {key} else st.boosts)
      && c.other == st.other
    ensures Valid(st) ==> Valid(Cleared(st, key))
  {
    if IsStored(st, key) {
      RemoveEffect(st, key);
    }
  }

  /** When the stored title equals the computed one only the payloads are
      rewritten: no sorted set, title or boost changes. */
  lemma IndexUnchangedTitle(st: Store, issue: Issue)
    requires TitleUnchanged(st, issue)
    ensures Index(st, issue).zsets == st.zsets
    ensures Index(st, issue).titles == st.titles && Index(st, issue).boosts == st.boosts
  {
  }

  /** Because the summary, not the computed title, is stored, re-indexing an
      issue right after indexing it is never skipped. */
  lemma IndexNeverSkipsItsOwnTitle(st: Store, issue: Issue)
    requires !TitleUnchanged(st, issue)
    ensures !TitleUnchanged(Index(st, issue), issue)
  {
    IndexHashes(st, issue);
    TitleLonger(issue);
  }

  /** Every prefix of the lower-cased key holds the key in its key set with
      `27^20 - i` for the `i`-th prefix. */
  lemma IndexKeyPrefixes(st: Store, issue: Issue)
    requires !TitleUnchanged(st, issue)
    ensures var ks := AutocompleteKeys(Lower(issue.key));
      forall i | 0 <= i < |ks| ::
        Members(Index(st, issue), KeySet(ks[i])) == Members(Cleared(st, issue.key), KeySet(ks[i]))[issue.key := KeyScore(i)]
  {
    var key := issue.key;
    var ks := AutocompleteKeys(Lower(key));
    var words := CleanPhrase(Title(issue));
    var ts := ScoreKey(CreateKey(Title(issue)));
    var base := StoreData(Cleared(st, key), issue, true);
    AutocompleteKeysDistinct(Lower(key));
    KeyWritesFacts(key, ks);
    forall i | 0 <= i < |ks|
      ensures Members(Index(st, issue), KeySet(ks[i])) == Members(Cleared(st, key), KeySet(ks[i]))[key := KeyScore(i)]
    {
      var z := KeySet(ks[i]);
      WordWritesTargets(words, ts, z);
      WritesToConcat(KeyWrites(key, ks), WordWrites(words, ts), z);
      LastScoreAppend(KeyWrites(key, ks), WordWrites(words, ts), z);
      ApplyWritesLastWins(base, key, IndexWrites(key, Title(issue)), z);
    }
  }

  /** In particular the whole lower-cased key's key set holds the key. */
  lemma IndexHasWholeKey(st: Store, issue: Issue)
    requires !TitleUnchanged(st, issue)
    ensures issue.key in Members(Index(st, issue), KeySet(Lower(issue.key)))
  {
    var ks := AutocompleteKeys(Lower(issue.key));
    IndexKeyPrefixes(st, issue);
    assert ks[|ks| - 1] == Lower(issue.key);
  }

  /** A prefix of the lower-cased key that no title word starts with holds the
      key in its phrase set with the fixed score `27^40`. */
  lemma IndexKeyPhrase(st: Store, issue: Issue, p: string)
    requires !TitleUnchanged(st, issue)
    requires p in AutocompleteKeys(Lower(issue.key)) && !SomeWordWith(CleanPhrase(Title(issue)), p)
    ensures Members(Index(st, issue), PhraseSet(p)) == Members(Cleared(st, issue.key), PhraseSet(p))[issue.key := KeyPhraseScore()]
  {
    var key := issue.key;
    var ks := AutocompleteKeys(Lower(key));
    var words := CleanPhrase(Title(issue));
    var ts := ScoreKey(CreateKey(Title(issue)));
    var z := PhraseSet(p);
    AutocompleteKeysDistinct(Lower(key));
    KeyWritesFacts(key, ks);
    WordWritesTargets(words, ts, z);
    WritesToConcat(KeyWrites(key, ks), WordWrites(words, ts), z);
    LastScoreAppend(KeyWrites(key, ks), WordWrites(words, ts), z);
    ApplyWritesLastWins(StoreData(Cleared(st, key), issue, true), key, IndexWrites(key, Title(issue)), z);
  }

  /** A prefix of a title word holds the key in its phrase set with the score
      of the last word carrying that prefix: the word's own score plus
      `27^20`, times its position plus one, plus the whole title's score. */
  lemma IndexWordPrefix(st: Store, issue: Issue, p: string, j: int)
    requires !TitleUnchanged(st, issue)
    requires LastWordWith(CleanPhrase(Title(issue)), p, j)
    ensures var words := CleanPhrase(Title(issue));
      Members(Index(st, issue), PhraseSet(p))
        == Members(Cleared(st, issue.key), PhraseSet(p))[issue.key := WordScore(words[j], j, ScoreKey(CreateKey(Title(issue))))]
  {
    var key := issue.key;
    var ks := AutocompleteKeys(Lower(key));
    var words := CleanPhrase(Title(issue));
    var ts := ScoreKey(CreateKey(Title(issue)));
    var z := PhraseSet(p);
    WordWritesLast(words, ts, p, j);
    WritesToConcat(KeyWrites(key, ks), WordWrites(words, ts), z);
    LastScoreAppend(KeyWrites(key, ks), WordWrites(words, ts), z);
    ApplyWritesLastWins(StoreData(Cleared(st, key), issue, true), key, IndexWrites(key, Title(issue)), z);
  }

  /** Sorted sets `index` does not write are left as `remove` left them. */
  lemma IndexUntouched(st: Store, issue: Issue, z: ZKey)
    requires !TitleUnchanged(st, issue)
    requires !Indexed(issue.key, Title(issue), z)
    ensures Members(Index(st, issue), z) == Members(Cleared(st, issue.key), z)
  {
    IndexWritesTargets(issue.key, Title(issue), z);
    ApplyWritesUnwritten(StoreData(Cleared(st, issue.key), issue, true), issue.key, IndexWrites(issue.key, Title(issue)), z);
  }

  // ---------------------------------------------------------------------
  // What `remove` misses and what it takes with it
  // ---------------------------------------------------------------------

  /** `index` writes the prefixes of the lower-cased key but `remove` visits
      the prefixes of the key as given: a key-set prefix that only the
      lower-cased key has still holds the issue after it is removed. */
  lemma RemoveMissesLowercasePrefixes(st: Store, issue: Issue, p: string)
    requires !TitleUnchanged(st, issue)
    requires p in AutocompleteKeys(Lower(issue.key)) && p !in AutocompleteKeys(issue.key)
    ensures issue.key in Members(Remove(Index(st, issue), issue.key), KeySet(p))
  {
    var ks := AutocompleteKeys(Lower(issue.key));
    var i :| 0 <= i < |ks| && ks[i] == p;
    IndexKeyPrefixes(st, issue);
    var r := Index(st, issue);
    RemoveSet(r, issue.key, KeySet(p));
    assert !Visited(StoredTitle(r, issue.key), issue.key, KeySet(p));
  }

  /** For instance, issue `A` indexed and then removed stays in `k:a`. */
  lemma RemoveResidueExample(st: Store, issue: Issue)
    requires issue.key == "A" && !TitleUnchanged(st, issue)
    ensures "A" in Members(Remove(Index(st, issue), "A"), KeySet("a"))
  {
    assert Lower("A") == "a";
    AutocompleteKeysMembers("a", "a");
    AutocompleteKeysMembers("A", "a");
    RemoveMissesLowercasePrefixes(st, issue, "a");
  }

  /** Any visited sorted set holding at most one member is deleted, even when
      that member is another issue. */
  lemma RemoveDropsSmallSets(st: Store, key: string, z: ZKey)
    requires Visited(StoredTitle(st, key), key, z) && |Members(st, z)| <= 1
    ensures z !in Remove(st, key).zsets
  {
    var vs := RemoveVisits(StoredTitle(st, key), key);
    RemoveVisitsMembers(StoredTitle(st, key), key, z);
    VisitAllSmallGone(st, vs, key, z);
  }

  /** For instance, removing `A` (stored title `x`) drops `B` from `s:x`
      when `B` was its only member. */
  lemma RemoveDropsOtherIssueExample(st: Store)
    requires "A" in st.titles && st.titles["A"] == "x"
    requires Members(st, PhraseSet("x")) == map["B" := 1.0]
    ensures "B" !in Members(Remove(st, "A"), PhraseSet("x"))
  {
    assert CleanWord("x");
    CleanPhraseOfCleanWord("x");
    AutocompleteKeysMembers("x", "x");
    assert Visited("x", "A", PhraseSet("x"));
    assert |map["B" := 1.0]| == 1;
    RemoveDropsSmallSets(st, "A", PhraseSet("x"));
  }

  /** `remove` decides on each visit, against the set as the earlier visits
      left it: a sorted set visited `n` times ends as `AfterVisits` says. */
  lemma RemoveTimes(st: Store, key: string, z: ZKey)
    ensures var after := AfterVisits(Members(st, z), key, multiset(RemoveVisits(StoredTitle(st, key), key))[z]);
      && (after.None? ==> z !in Remove(st, key).zsets)
      && (after.Some? ==> Members(Remove(st, key), z) == after.value)
  {
    VisitAllTimes(st, RemoveVisits(StoredTitle(st, key), key), key, z);
  }

  /** A set `remove` visits once and that has more than one member loses
      exactly `key` and keeps its other members with their scores. */
  lemma RemoveVisitedOnce(st: Store, key: string, z: ZKey)
    requires multiset(RemoveVisits(StoredTitle(st, key), key))[z] == 1 && |Members(st, z)| > 1
    ensures z in Remove(st, key).zsets && Members(Remove(st, key), z) == Members(st, z) - {key}
  {
    RemoveTimes(st, key, z);
    VisitAllTimes(st, RemoveVisits(StoredTitle(st, key), key), key, z);
  }

  /** For instance, removing `A` under a stored title whose words are
      `x x` (the title "x x" itself, by `CleanTwice`) visits `s:x` twice:
      the first visit takes `A` out of {A, B}, and the second finds one
      member left and deletes the set, so `B` is lost too. */
  lemma RemoveDoubleVisitExample(st: Store)
    requires "A" in st.titles && CleanPhrase(st.titles["A"]) == ["x", "x"]
    requires Members(st, PhraseSet("x")) == map["A" := 1.0, "B" := 2.0]
    ensures PhraseSet("x") !in Remove(st, "A").zsets
  {
    TwiceVisited(st.titles["A"]);
    var s := map["A" := 1.0, "B" := 2.0];
    assert s - {"A"} == map["B" := 2.0];
    assert |map["B" := 2.0]| == 1;
    RemoveTimes(st, "A", PhraseSet("x"));
  }

  /** A title with the word `x` twice makes `remove` visit `s:x` twice. */
  lemma TwiceVisited(t: string)
    requires CleanPhrase(t) == ["x", "x"]
    ensures multiset(RemoveVisits(t, "A"))[PhraseSet("x")] >= 2
  {
    assert AutocompleteKeys("x") == ["x"];
    var words := CleanPhrase(t);
    assert words[..1] == ["x"];
    assert WordVisits(words[..1]) == [PhraseSet("x")];
    assert WordVisits(words) == [PhraseSet("x"), PhraseSet("x")];
  }

  /** The title "x x" cleans to the word `x` twice. */
  lemma CleanTwice()
    ensures CleanPhrase("x x") == ["x", "x"]
  {
    assert CleanWord("x");
    CleanPhraseOfCleanWord("x");
    CleanPhraseConcat("x", "x");
    assert "x" + " " + "x" == "x x";
  }

  // ---------------------------------------------------------------------
  // index and remove read no search cache
  // ---------------------------------------------------------------------

  /** `remove` reads only the hashes and the phrase and key sets, so on two
      stores holding the same index it leaves them holding the same index. */
  lemma RemoveSame(a: Store, b: Store, key: string)
    requires SameIndex(a, b)
    ensures SameIndex(Remove(a, key), Remove(b, key))
  {
    var zs := RemoveVisits(StoredTitle(a, key), key);
    assert zs == RemoveVisits(StoredTitle(b, key), key);
    VisitAllSame(a, b, zs, key);
    DropKeySame(VisitAll(a, zs, key), VisitAll(b, zs, key), key);
  }

  /** Deleting a key from the four hashes keeps two stores holding the same
      index. */
  lemma DropKeySame(a: Store, b: Store, key: string)
    requires SameIndex(a, b)
    ensures SameIndex(
      a.(data := a.data - {key}, small := a.small - {key}, titles := a.titles - {key}, boosts := a.boosts - {key}),
      b.(data := b.data - {key}, small := b.small - {key}, titles := b.titles - {key}, boosts := b.boosts - {key}))
  {
  }

  /** Likewise for `index`: its skip test reads the stored title, and its
      batch lands on what `remove` left. */
  lemma IndexSame(a: Store, b: Store, issue: Issue)
    requires SameIndex(a, b)
    ensures SameIndex(Index(a, issue), Index(b, issue))
  {
    if !TitleUnchanged(a, issue) {
      var key := issue.key;
      var ca, cb := Cleared(a, key), Cleared(b, key);
      if IsStored(a, key) {
        RemoveSame(a, b, key);
      }
      assert SameIndex(ca, cb);
      ApplyWritesSame(StoreData(ca, issue, true), StoreData(cb, issue, true), key, IndexWrites(key, Title(issue)));
    }
  }

  // ---------------------------------------------------------------------
  // get_by_key, boost, flush
  // ---------------------------------------------------------------------

  /** `get_by_key(key, data_key)` (index.py:234-244): the stored payload, if any. */
  function GetByKey(st: Store, key: string, src: Source): (r: Option<Doc>)
    ensures r.Some? <==> key in Payloads(st, src)
    ensures r.Some? ==> r.value == Payloads(st, src)[key]
  {
    if key in Payloads(st, src) then Some(Payloads(st, src)[key]) else None
  }

  /** After `index`, `get_by_key` returns what was written. */
  lemma IndexThenGetByKey(st: Store, issue: Issue)
    ensures GetByKey(Index(st, issue), issue.key, Full) == Some(issue.raw)
    ensures GetByKey(Index(st, issue), issue.key, Small) == Some(issue.small)
    ensures IsStored(Index(st, issue), issue.key)
  {
    IndexHashes(st, issue);
  }

  /** After `remove`, `get_by_key` finds nothing; other keys are unaffected. */
  lemma RemoveThenGetByKey(st: Store, key: string, other: string, src: Source)
    requires other != key
    ensures GetByKey(Remove(st, key), key, src) == None
    ensures GetByKey(Remove(st, key), other, src) == GetByKey(st, other, src)
  {
    RemoveHashes(st, key);
    assert Payloads(Remove(st, key), src) == Payloads(st, src) - {key};
  }

  /** The hashes after `remove`: the key is gone from all four. */
  lemma RemoveHashes(st: Store, key: string)
    ensures var r := Remove(st, key);
      && r.data == st.data - {key} && r.small == st.small - {key}
      && r.titles == st.titles - {key} && r.boosts == st.boosts - {key}
      && r.other == st.other
  {
    VisitAllFrame(st, RemoveVisits(StoredTitle(st, key), key), key);
  }

  /** The default multiplier of `boost`, 1.1. */
  const DefaultBoost: real := 1.1

  /** The boost `boost` starts from: the stored one, 1.0 when there is none
      (index.py:297-298). */
  function CurrentBoost(st: Store, key: string): real {
    if key in st.boosts then st.boosts[key] else 1.0
  }

  /** `x * (1 / d)` in exact arithmetic, as `boost` (index.py:300) and the
      search rescale (index.py:283) compute it. */
  function Divide(x: real, d: real): real
    requires d != 0.0
  {
    x * (1.0 / d)
  }

  lemma DivideUndoesMul(x: real, m: real)
    requires m != 0.0
    ensures Divide(x * m, m) == x
  {
    assert (x * m) * (1.0 / m) == x * (m * (1.0 / m));
  }

  lemma MulGrows(a: real, m: real)
    requires a > 0.0 && m > 1.0
    ensures a * m > a
  {
    assert a * m - a == a * (m - 1.0);
  }

  lemma DivideShrinks(x: real, m: real)
    requires x > 0.0 && m > 1.0
    ensures 0.0 < Divide(x, m) < x
  {
    var q := 1.0 / m;
    assert 0.0 < q < 1.0;
    PositiveProduct(x, q);
    PositiveProduct(x, 1.0 - q);
    assert x - x * q == x * (1.0 - q);
  }

  lemma PositiveProduct(a: real, b: real)
    requires a > 0.0 && b > 0.0
    ensures a * b > 0.0
  {
  }

  /** `boost(key, multiplier, negative)` (index.py:296-301). A negative boost
      divides, and dividing by zero raises. */
  function Boost(st: Store, key: string, multiplier: real, negative: bool): (r: Result<Store, Error>)
    ensures r.Err? <==> negative && multiplier == 0.0
    ensures r.Ok? ==> r.value == st.(boosts := r.value.boosts)
    ensures r.Ok? ==> r.value.boosts.Keys == st.boosts.Keys + {key}
    ensures r.Ok? ==> forall k | k in st.boosts && k != key :: r.value.boosts[k] == st.boosts[k]
    ensures r.Ok? && !negative ==> r.value.boosts[key] == CurrentBoost(st, key) * multiplier
    ensures r.Ok? && negative ==> r.value.boosts[key] == Divide(CurrentBoost(st, key), multiplier)
  {
    if negative && multiplier == 0.0 then Err(ZeroDivision)
    else
      var factor := if negative then 1.0 / multiplier else multiplier;
      Ok(st.(boosts := st.boosts[key := CurrentBoost(st, key) * factor]))
  }

  /** A negative boost by the same multiplier undoes a positive one. */
  lemma BoostThenUnboost(st: Store, key: string, multiplier: real)
    requires multiplier != 0.0
    ensures Boost(st, key, multiplier, false).Ok?
    ensures var up := Boost(st, key, multiplier, false).value;
      Boost(up, key, multiplier, true).Ok? && Boost(up, key, multiplier, true).value.boosts[key] == CurrentBoost(st, key)
  {
    var up := Boost(st, key, multiplier, false).value;
    assert CurrentBoost(up, key) == CurrentBoost(st, key) * multiplier;
    DivideUndoesMul(CurrentBoost(st, key), multiplier);
  }

  /** With a positive stored boost and a multiplier above one, a boost
      raises the value, a second boost raises it further, and a negative
      boost lowers it. */
  lemma BoostMonotone(st: Store, key: string, multiplier: real)
    requires multiplier > 1.0 && CurrentBoost(st, key) > 0.0
    ensures Boost(st, key, multiplier, false).value.boosts[key] > CurrentBoost(st, key)
    ensures var once := Boost(st, key, multiplier, false).value;
      Boost(once, key, multiplier, false).value.boosts[key] > once.boosts[key]
    ensures Boost(st, key, multiplier, true).value.boosts[key] < CurrentBoost(st, key)
  {
    var cur := CurrentBoost(st, key);
    MulGrows(cur, multiplier);
    var once := Boost(st, key, multiplier, false).value;
    assert CurrentBoost(once, key) == cur * multiplier;
    MulGrows(cur * multiplier, multiplier);
    DivideShrinks(cur, multiplier);
  }

  /** `flush(everything)` (index.py:62-71): FLUSHDB empties the whole
      database; otherwise every key of the `jri:` namespace is deleted. */
  function Flush(st: Store, everything: bool): (r: Store)
    ensures r.data == map[] && r.small == map[] && r.titles == map[] && r.boosts == map[]
    ensures forall z :: Members(r, z) == map[]
    ensures everything ==> r.other == map[]
    ensures !everything ==> r.other == st.other
  {
    if everything then Empty else Empty.(other := st.other)
  }

  /** After a flush nothing is stored and every sorted set reads empty. */
  lemma FlushForgets(st: Store, everything: bool, key: string, src: Source)
    ensures GetByKey(Flush(st, everything), key, src) == None
    ensures !IsStored(Flush(st, everything), key)
    ensures Valid(Flush(st, everything))
  {
  }
}
