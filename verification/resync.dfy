/** The chat command `resync jiracache cache` (commands.py:35-80): a guard
    that refuses a second run while one is going, around `resync_iter`,
    which wipes the index, then pages through every upstream issue 250 at
    a time, indexing each page and re-running the clients' queries after
    it. The upstream answers are a parameter: the k-th element of `pages`
    is what the k-th `search_issues` call returns or raises. */
module Resync {
  import opened Wrappers
  import opened Store
  import opened Indexer
  import opened Connections

  /** `max_result`: the page size and the step of `startAt` (commands.py:64). */
  const PageSize: nat := 250

  /** One upstream page: the issues, or the error the call raised. */
  type Page = Result<seq<Issue>, Error>

  /** What the command says to the user who asked for it. */
  datatype Reply =
    | AlreadySyncing
    | Starting
    | SyncedSoFar(count: nat)
    | Failed(error: Error)
    | Done

  /** The answer to the k-th fetch; past the given pages, an empty one. */
  function PageAt(pages: seq<Page>, k: nat): Page {
    if k < |pages| then pages[k] else Ok([])
  }

  /** The issues of the k-th page; none for an error. */
  function PageIssues(pages: seq<Page>, k: nat): seq<Issue> {
    match PageAt(pages, k)
    case Ok(issues) => issues
    case Err(_) => []
  }

  /** The k-th fetch returns issues, so the loop indexes them and goes on. */
  predicate Loaded(pages: seq<Page>, k: nat) {
    PageAt(pages, k).Ok? && |PageAt(pages, k).value| > 0
  }

  /** How many pages from `from` on are loaded before the first empty or
      failed one. */
  function LeadingPages(pages: seq<Page>, from: nat): (n: nat)
    ensures from + n <= |pages| || n == 0
    decreases |pages| - from
  {
    if from < |pages| && Loaded(pages, from) then 1 + LeadingPages(pages, from + 1) else 0
  }

  /** The leading pages are exactly the loaded run: each of them is loaded
      and the page after them is not. */
  lemma {:induction false} LeadingPagesRun(pages: seq<Page>, from: nat)
    ensures forall j | from <= j < from + LeadingPages(pages, from) :: Loaded(pages, j)
    ensures !Loaded(pages, from + LeadingPages(pages, from))
    decreases |pages| - from
  {
    if from < |pages| && Loaded(pages, from) {
      LeadingPagesRun(pages, from + 1);
    }
  }

  /** Up to the end of the leading run, a page is loaded exactly when it
      lies inside the run. */
  lemma LeadingPagesAt(pages: seq<Page>, k: nat)
    requires k <= LeadingPages(pages, 0)
    ensures Loaded(pages, k) <==> k < LeadingPages(pages, 0)
  {
    LeadingPagesRun(pages, 0);
  }

  /** The keys of a list of issues. */
  function KeysOf(issues: seq<Issue>): set<string> {
    set i | 0 <= i < |issues| :: issues[i].key
  }

  /** The keys on the first `n` pages. */
  function Fetched(pages: seq<Page>, n: nat): set<string> {
    if n == 0 then {} else Fetched(pages, n - 1) + KeysOf(PageIssues(pages, n - 1))
  }

  /** A key was fetched when it is the key of some issue on one of the
      first `n` pages. */
  lemma {:induction false} FetchedMeans(pages: seq<Page>, n: nat, key: string)
    ensures key in Fetched(pages, n) <==>
      exists j, i | 0 <= j < n && 0 <= i < |PageIssues(pages, j)| :: PageIssues(pages, j)[i].key == key
  {
    if n > 0 {
      FetchedMeans(pages, n - 1, key);
      if key in KeysOf(PageIssues(pages, n - 1)) {
        var i :| 0 <= i < |PageIssues(pages, n - 1)| && PageIssues(pages, n - 1)[i].key == key;
        assert PageIssues(pages, n - 1)[i].key == key;
      }
    }
  }

  /** `for issue in issues: index(issue)` (commands.py:74-75). */
  function IndexAll(st: Store, issues: seq<Issue>): Store
    decreases |issues|
  {
    if |issues| == 0 then st else Index(IndexAll(st, issues[..|issues| - 1]), issues[|issues| - 1])
  }

  /** Indexing one issue adds its key to the raw payloads, and only it. */
  lemma IndexAddsKey(st: Store, issue: Issue)
    ensures Index(st, issue).data.Keys == st.data.Keys + {issue.key}
    ensures Index(st, issue).other == st.other
  {
    IndexHashes(st, issue);
  }

  lemma KeysOfSnoc(issues: seq<Issue>)
    requires |issues| > 0
    ensures KeysOf(issues) == KeysOf(issues[..|issues| - 1]) + {issues[|issues| - 1].key}
  {
    var n := |issues| - 1;
    assert forall i | 0 <= i < n :: issues[..n][i] == issues[i];
  }

  /** Indexing a page stores every issue's payloads and adds no other key. */
  lemma {:induction false} IndexAllKeys(st: Store, issues: seq<Issue>)
    ensures IndexAll(st, issues).data.Keys == st.data.Keys + KeysOf(issues)
    ensures IndexAll(st, issues).other == st.other
    decreases |issues|
  {
    if |issues| > 0 {
      var n := |issues| - 1;
      IndexAllKeys(st, issues[..n]);
      IndexAddsKey(IndexAll(st, issues[..n]), issues[n]);
      KeysOfSnoc(issues);
    }
  }

  /** Indexing the same issues on two stores holding the same index leaves
      them holding the same index. */
  lemma {:induction false} IndexAllSame(a: Store, b: Store, issues: seq<Issue>)
    requires SameIndex(a, b)
    ensures SameIndex(IndexAll(a, issues), IndexAll(b, issues))
    decreases |issues|
  {
    if |issues| > 0 {
      var n := |issues| - 1;
      IndexAllSame(a, b, issues[..n]);
      IndexSame(IndexAll(a, issues[..n]), IndexAll(b, issues[..n]), issues[n]);
    }
  }

  /** Every issue of the first `n` pages indexed in order, page by page: the
      index `resync_iter` builds when nothing else runs. */
  function IndexPages(st: Store, pages: seq<Page>, n: nat): Store {
    if n == 0 then st else IndexAll(IndexPages(st, pages, n - 1), PageIssues(pages, n - 1))
  }

  /** A page without issues adds nothing to the index. */
  lemma IndexPagesNoIssues(st: Store, pages: seq<Page>, k: nat)
    requires PageIssues(pages, k) == []
    ensures IndexPages(st, pages, k + 1) == IndexPages(st, pages, k)
  {
  }

  /** A store holding the index of the first `k` pages, with page `k`'s
      issues indexed on it (and caches changed), holds that of `k + 1`. */
  lemma IndexPagesStep(cur: Store, next: Store, st: Store, pages: seq<Page>, k: nat)
    requires SameIndex(cur, IndexPages(st, pages, k))
    requires SameIndex(next, IndexAll(cur, PageIssues(pages, k)))
    ensures SameIndex(next, IndexPages(st, pages, k + 1))
  {
    IndexAllSame(cur, IndexPages(st, pages, k), PageIssues(pages, k));
  }

  /** The store after the first `k` pages: apart from search caches, their
      in-order index on `base`, holding exactly the fetched keys. */
  ghost predicate Synced(st: Store, base: Store, pages: seq<Page>, k: nat) {
    && SameIndex(st, IndexPages(base, pages, k))
    && st.data.Keys == Fetched(pages, k) && st.other == map[]
  }

  /** Indexing page `k` on top of the first `k` pages gives the first `k + 1`. */
  lemma SyncedStep(cur: Store, next: Store, base: Store, pages: seq<Page>, k: nat)
    requires Synced(cur, base, pages, k)
    requires SameIndex(next, IndexAll(cur, PageIssues(pages, k)))
    requires next.data.Keys == cur.data.Keys + KeysOf(PageIssues(pages, k)) && next.other == cur.other
    ensures Synced(next, base, pages, k + 1)
  {
    IndexPagesStep(cur, next, base, pages, k);
  }

  /** One round of the loop after a non-empty page (commands.py:74-78):
      index its issues, then re-run the clients' queries. */
  method SyncPage(st: Store, reg: Registry, order: seq<ConnId>, issues: seq<Issue>)
    returns (st2: Store, r: Registry, failed: Option<Error>)
    requires Wf(reg) && Enumerates(order, reg.clients)
    ensures r.clients == reg.clients && r.next == reg.next && r.conns.Keys == reg.conns.Keys
    ensures Wf(r)
    ensures SameIndex(st2, IndexAll(st, issues))
    ensures st2.data.Keys == st.data.Keys + KeysOf(issues) && st2.other == st.other
  {
    IndexAllKeys(st, issues);
    st2, r, failed := TriggerUpdate(IndexAll(st, issues), reg, order);
  }

  /** One pass of the loop body (commands.py:64-80) over page `k`: an error
      page ends the run with its error, an empty page ends it cleanly, and
      otherwise the page is indexed, `trigger_update` runs, and the loop goes
      on unless a re-query failed. */
  method SyncRound(st: Store, reg: Registry, order: seq<ConnId>, pages: seq<Page>, k: nat, ghost base: Store)
    returns (st2: Store, r: Registry, stop: bool, triggered: bool, failed: Option<Error>)
    requires Wf(reg) && Enumerates(order, reg.clients)
    requires Synced(st, base, pages, k) && k <= LeadingPages(pages, 0)
    ensures r.clients == reg.clients && r.next == reg.next && r.conns.Keys == reg.conns.Keys
    ensures Wf(r)
    ensures Synced(st2, base, pages, k + 1)
    ensures triggered <==> Loaded(pages, k)
    ensures triggered ==> k < LeadingPages(pages, 0)
    ensures !stop <==> triggered && failed.None?
    ensures stop && failed.None? <==> PageAt(pages, k) == Ok([])
    ensures stop && failed.None? ==> k == LeadingPages(pages, 0)
    ensures PageAt(pages, k).Err? ==> failed == Some(PageAt(pages, k).error)
  {
    var page := PageAt(pages, k);
    LeadingPagesAt(pages, k);
    if page.Err? || |page.value| == 0 {
      IndexPagesNoIssues(base, pages, k);
      assert KeysOf(PageIssues(pages, k)) == {};
      return st, reg, true, false, if page.Err? then Some(page.error) else None;
    }
    var fail;
    st2, r, fail := SyncPage(st, reg, order, page.value);
    SyncedStep(st, st2, base, pages, k);
    return st2, r, fail.Some?, true, fail;
  }

  /** The start of `resync_iter` (commands.py:66-67): flush the whole
      database, then re-run the clients' queries on the empty index. */
  method FlushAndTrigger(st: Store, reg: Registry, order: seq<ConnId>)
    returns (st2: Store, r: Registry, failed: Option<Error>)
    requires Wf(reg) && Enumerates(order, reg.clients)
    ensures r.clients == reg.clients && r.next == reg.next && r.conns.Keys == reg.conns.Keys
    ensures Wf(r)
    ensures SameIndex(st2, Flush(st, true))
  {
    st2, r, failed := TriggerUpdate(Flush(st, true), reg, order);
  }

  /** What the loop of `resync_iter` has done when it stops: fetched at
      `startAt` 0, 250, ... up to the first page that is not loaded, yielded
      250, 500, ... once per loaded page, run `trigger_update` after each
      loaded page, and ended cleanly exactly when that page is empty. */
  ghost predicate Ran(st: Store, base: Store, pages: seq<Page>, fetches: seq<nat>, counts: seq<nat>, triggers: nat, failed: Option<Error>) {
    && |counts| <= LeadingPages(pages, 0)
    && (forall j | 0 <= j < |counts| :: counts[j] == PageSize * (j + 1))
    && (forall j | 0 <= j < |fetches| :: fetches[j] == PageSize * j)
    && |fetches| == |counts| + 1
    && (triggers == |counts| || (failed.Some? && triggers == |counts| + 1))
    && Synced(st, base, pages, |fetches|)
    && (failed.None? <==> PageAt(pages, |counts|) == Ok([]))
    && (failed.None? ==> |counts| == LeadingPages(pages, 0) && triggers == |counts|)
    && (PageAt(pages, |counts|).Err? ==> failed == Some(PageAt(pages, |counts|).error))
  }

  /** The loop of `resync_iter` (commands.py:69-80) from the first fetch on,
      over a store holding the flushed index `base`: the store and registry
      it leaves, the `startAt` of every fetch, the counts it yielded, how
      many times it ran `trigger_update`, and the error that ended it, if
      one did. */
  method SyncPages(st: Store, reg: Registry, order: seq<ConnId>, pages: seq<Page>, ghost base: Store)
    returns (st2: Store, r: Registry, fetches: seq<nat>, counts: seq<nat>, triggers: nat, failed: Option<Error>)
    requires Wf(reg) && Enumerates(order, reg.clients)
    requires Synced(st, base, pages, 0)
    ensures Wf(r) && r.clients == reg.clients && r.next == reg.next && r.conns.Keys == reg.conns.Keys
    ensures Ran(st2, base, pages, fetches, counts, triggers, failed)
  {
    st2, r := st, reg;
    fetches := [];
    counts := [];
    triggers := 0;
    var offset: nat := 0;
    var k: nat := 0;
    while true
      invariant k <= LeadingPages(pages, 0) && offset == PageSize * k
      invariant Wf(r) && r.clients == reg.clients && r.next == reg.next && r.conns.Keys == reg.conns.Keys
      invariant |counts| == k && forall j | 0 <= j < k :: counts[j] == PageSize * (j + 1)
      invariant |fetches| == k && forall j | 0 <= j < k :: fetches[j] == PageSize * j
      invariant Synced(st2, base, pages, k)
      invariant triggers == k
      decreases LeadingPages(pages, 0) - k
    {
      fetches := fetches + [offset];
      var stop, triggered;
      st2, r, stop, triggered, failed := SyncRound(st2, r, order, pages, k, base);
      if triggered {
        triggers := triggers + 1;
      }
      if stop {
        return;
      }
      offset := offset + PageSize;
      k := k + 1;
      counts := counts + [offset];
    }
  }

  /** What `resync_iter` (commands.py:61-80) leaves behind: the store and
      registry, the `startAt` of every fetch, the counts it yielded, how
      many times it ran `trigger_update`, and the error that ended it, if
      one did. */
  method ResyncIter(st: Store, reg: Registry, order: seq<ConnId>, pages: seq<Page>)
    returns (st2: Store, r: Registry, fetches: seq<nat>, counts: seq<nat>, triggers: nat, failed: Option<Error>)
    requires Wf(reg) && Enumerates(order, reg.clients)
    ensures r.clients == reg.clients && r.next == reg.next && r.conns.Keys == reg.conns.Keys
    ensures |counts| <= LeadingPages(pages, 0)
    ensures forall j | 0 <= j < |counts| :: counts[j] == PageSize * (j + 1)
    ensures forall j | 0 <= j < |fetches| :: fetches[j] == PageSize * j
    ensures |fetches| == |counts| || |fetches| == |counts| + 1
    ensures triggers == |counts| + 1 || (failed.Some? && triggers == |counts| + 2)
    ensures SameIndex(st2, IndexPages(Flush(st, true), pages, |fetches|))
    ensures st2.data.Keys == Fetched(pages, |fetches|)
    ensures st2.other == map[]
    ensures failed.None? <==> |fetches| == |counts| + 1 && PageAt(pages, |counts|) == Ok([])
    ensures failed.None? ==> |counts| == LeadingPages(pages, 0) && triggers == |counts| + 1
    ensures |fetches| == |counts| + 1 && PageAt(pages, |counts|).Err? ==> failed == Some(PageAt(pages, |counts|).error)
  {
    st2, r, failed := FlushAndTrigger(st, reg, order);
    if failed.Some? {
      return st2, r, [], [], 1, failed;
    }
    var t;
    st2, r, fetches, counts, t, failed := SyncPages(st2, r, order, pages, Flush(st, true));
    triggers := t + 1;
  }

  /** `resync(message)` (commands.py:38-58): refused while `syncing` is
      set; otherwise `syncing` is set for the run and cleared however it
      ends, and the user is told it started, each count the run yields, and then
      either that it is done or the error that stopped it. */
  method Resync(syncing: bool, st: Store, reg: Registry, order: seq<ConnId>, pages: seq<Page>)
    returns (syncingAfter: bool, st2: Store, r: Registry, replies: seq<Reply>)
    requires Wf(reg) && Enumerates(order, reg.clients)
    ensures syncing ==> syncingAfter && st2 == st && r == reg && replies == [AlreadySyncing]
    ensures !syncing ==> !syncingAfter
    ensures !syncing ==> |replies| >= 2 && replies[0] == Starting
    ensures !syncing ==> forall j | 1 <= j < |replies| - 1 :: replies[j] == SyncedSoFar(PageSize * j)
    ensures !syncing ==> replies[|replies| - 1] == Done || replies[|replies| - 1].Failed?
    ensures !syncing && replies[|replies| - 1] == Done ==>
      && |replies| - 2 == LeadingPages(pages, 0)
      && st2.data.Keys == Fetched(pages, LeadingPages(pages, 0))
      && SameIndex(st2, IndexPages(Flush(st, true), pages, LeadingPages(pages, 0)))
    ensures !syncing && PageAt(pages, LeadingPages(pages, 0)).Err? ==> replies[|replies| - 1].Failed?
  {
    if syncing {
      return syncing, st, reg, [AlreadySyncing];
    }
    replies := [Starting];
    syncingAfter := true;
    var fetches, counts, triggers, failed;
    st2, r, fetches, counts, triggers, failed := ResyncIter(st, reg, order, pages);
    var i := 0;
    while i < |counts|
      invariant 0 <= i <= |counts|
      invariant |replies| == i + 1 && replies[0] == Starting
      invariant forall j | 1 <= j < |replies| :: replies[j] == SyncedSoFar(PageSize * j)
    {
      replies := replies + [SyncedSoFar(counts[i])];
      i := i + 1;
    }
    LeadingPagesRun(pages, 0);
    match failed {
      case Some(e) =>
        replies := replies + [Failed(e)];
      case None =>
        assert Fetched(pages, |fetches|) == Fetched(pages, |counts|);
        IndexPagesNoIssues(Flush(st, true), pages, |counts|);
        replies := replies + [Done];
    }
    syncingAfter := false;
  }
}
