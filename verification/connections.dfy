/** The websocket half of the server (app.py:74-162, 190-195): the registry
    of connections, what each connection remembers, the `query` and `get`
    commands, and the fan-out of `publish_updated_issue` and
    `trigger_update`. Writing to a socket appends a message to the
    connection's outbox; the JSON framing of the messages is left out. */
module Connections {
  import opened Wrappers
  import opened Text
  import opened Store
  import opened Indexer
  import opened Retrieval

  /** Identifies one websocket connection. */
  type ConnId = nat

  /** The `s` field a client sends with a command and gets back, as opaque JSON text. */
  type Tag = string

  /** One entry of a query result: the bare id of an issue the client was
      already sent, or the payload of one it was not. */
  datatype Item = Known(id: string) | Unseen(doc: Doc)

  /** What the server writes to a socket. */
  datatype Message =
    | QueryReply(items: seq<Item>, tag: Tag)              // `{r, s}` answering `query`
    | GetReply(issue: Option<Doc>, echo: Option<Tag>)     // `{r, s}` answering `get`
    | Update(small: Doc)                                  // `{c: 'update', i}`
    | UpdateRaw(raw: Doc)                                 // `{c: 'updateraw', i}`
    | UpdateSearch(items: seq<Item>, query: string)       // `{c: 'updatesearch', i, q}`

  /** The state of one `Connection` object. */
  datatype Conn = Conn(
    sentIds: set<string>,           // ids whose payload the client holds
    lastRequested: Option<string>,  // the key of the last `get`
    lastQuery: Option<string>,      // the text of the last `query`
    outbox: seq<Message>)           // everything written to the socket, in order

  /** A connection as `__init__` leaves it (app.py:77-81). */
  const NewConn: Conn := Conn({}, None, None, [])

  /** Every live connection object, and the class-level set `clients` of
      those that receive fan-out. `stop` and `stop_all` only take
      connections out of `clients`; the objects live on with their socket. */
  datatype Registry = Registry(conns: map<ConnId, Conn>, clients: set<ConnId>, next: ConnId)

  /** The clients are live connections, and `next` names no live connection. */
  ghost predicate Wf(reg: Registry) {
    && reg.clients <= reg.conns.Keys
    && forall id | id in reg.conns :: id < reg.next
  }

  // ---------------------------------------------------------------------
  // Registry lifecycle
  // ---------------------------------------------------------------------

  /** `Connection(ws)` (app.py:77-82): a new connection with nothing sent,
      nothing requested and no query, added to `clients`. */
  function Connect(reg: Registry): (r: (Registry, ConnId))
    requires Wf(reg)
    ensures Wf(r.0)
    ensures r.1 !in reg.conns
    ensures r.0.conns == reg.conns[r.1 := NewConn]
    ensures r.0.clients == reg.clients + {r.1}
  {
    (Registry(reg.conns[reg.next := NewConn], reg.clients + {reg.next}, reg.next + 1), reg.next)
  }

  /** `stop()` (app.py:84-85): `clients.discard(self)`. */
  function Stop(reg: Registry, id: ConnId): (r: Registry)
    ensures Wf(reg) ==> Wf(r)
    ensures r.clients == reg.clients - {id} && r.conns == reg.conns
  {
    reg.(clients := reg.clients - {id})
  }

  /** `stop_all()` (app.py:87-89): `clients.clear()`. */
  function StopAll(reg: Registry): (r: Registry)
    ensures Wf(reg) ==> Wf(r)
    ensures r.clients == {} && r.conns == reg.conns
  {
    reg.(clients := {})
  }

  /** A connection that stops leaves the clients as they were before it
      connected; stopping only ever removes the one connection, and only
      when it was a client. */
  lemma ConnectThenStop(reg: Registry)
    requires Wf(reg)
    ensures var (r, id) := Connect(reg);
      Stop(r, id).clients == reg.clients && id in Stop(r, id).conns && Stop(r, id).conns[id] == NewConn
  {
    var (r, id) := Connect(reg);
    assert id !in reg.clients;
  }

  /** After `stop_all` no one is a client, and stopping again changes nothing. */
  lemma StopAllThenStop(reg: Registry, id: ConnId)
    ensures Stop(StopAll(reg), id) == StopAll(reg)
    ensures Stop(Stop(reg, id), id) == Stop(reg, id)
  {
  }

  // ---------------------------------------------------------------------
  // query
  // ---------------------------------------------------------------------

  /** `[id for id in ids if id not in sent]` (app.py:127). */
  function Unsent(ids: seq<string>, sent: set<string>): (r: seq<string>)
    ensures forall x :: x in r <==> x in ids && x !in sent
    decreases |ids|
  {
    if |ids| == 0 then []
    else (if ids[0] in sent then [] else [ids[0]]) + Unsent(ids[1..], sent)
  }

  /** `{v['key']: v for v in docs}` (app.py:129): each document under its
      own `key` field, a later one winning. */
  function ByKey(docs: seq<Doc>): (r: map<string, Doc>)
    ensures forall k | k in r :: r[k].key == k && r[k] in docs
    ensures forall i | 0 <= i < |docs| :: docs[i].key in r
    decreases |docs|
  {
    if |docs| == 0 then map[]
    else
      var n := |docs| - 1;
      var r := ByKey(docs[..n])[docs[n].key := docs[n]];
      assert forall i | 0 <= i < n :: docs[..n][i] == docs[i];
      r
  }

  /** The loop of app.py:133-139: an id already sent stays a bare id, an
      unsent id with a loaded payload becomes that payload and counts as
      sent from then on, any other id is dropped. Returns the items and the
      sent set afterwards. */
  function Deliver(ids: seq<string>, sent: set<string>, found: map<string, Doc>): (r: (seq<Item>, set<string>))
    decreases |ids|
  {
    if |ids| == 0 then ([], sent)
    else if ids[0] in sent then
      var rest := Deliver(ids[1..], sent, found);
      ([Known(ids[0])] + rest.0, rest.1)
    else if ids[0] in found then
      var rest := Deliver(ids[1..], sent + {ids[0]}, found);
      ([Unseen(found[ids[0]])] + rest.0, rest.1)
    else Deliver(ids[1..], sent, found)
  }

  /** The entry one id contributes, judged against the ids sent before the query. */
  function ItemFor(id: string, sent: set<string>, found: map<string, Doc>): seq<Item> {
    if id in sent then [Known(id)] else if id in found then [Unseen(found[id])] else []
  }

  /** The reference meaning of a query result: id by id, in search order. */
  function Expected(ids: seq<string>, sent: set<string>, found: map<string, Doc>): (r: seq<Item>)
    ensures forall x :: Known(x) in r <==> x in ids && x in sent
    ensures forall x | x in ids && x !in sent && x in found :: Unseen(found[x]) in r
    ensures forall it | it in r && it.Unseen? :: exists x | x in ids :: x !in sent && x in found && found[x] == it.doc
    ensures |r| <= |ids|
    decreases |ids|
  {
    if |ids| == 0 then []
    else
      var rest := Expected(ids[1..], sent, found);
      assert forall x | x in ids[1..] :: x in ids;
      assert forall x | x in ids :: x == ids[0] || x in ids[1..];
      ItemFor(ids[0], sent, found) + rest
  }

  /** Adding to the sent set an id that does not occur changes nothing. */
  lemma {:induction false} ExpectedIgnores(ids: seq<string>, sent: set<string>, x: string, found: map<string, Doc>)
    requires x !in ids
    ensures Expected(ids, sent + {x}, found) == Expected(ids, sent, found)
    decreases |ids|
  {
    if |ids| > 0 {
      assert x !in ids[1..];
      ExpectedIgnores(ids[1..], sent, x, found);
    }
  }

  /** For distinct ids (search results always are), the loop's running sent
      set makes no difference: its items are the reference items, and the
      ids sent afterwards are those before plus every id with a payload. */
  lemma {:induction false} DeliverPerId(ids: seq<string>, sent: set<string>, found: map<string, Doc>)
    requires Distinct(ids)
    ensures Deliver(ids, sent, found).0 == Expected(ids, sent, found)
    ensures Deliver(ids, sent, found).1 == sent + (set x | x in ids && x in found)
    decreases |ids|
  {
    if |ids| > 0 {
      var x := ids[0];
      var tail := ids[1..];
      DistinctTail(ids);
      SentStep(ids, sent, found);
      if x in sent {
        DeliverPerId(tail, sent, found);
        assert sent + {x} == sent;
      } else if x in found {
        DeliverPerId(tail, sent + {x}, found);
        ExpectedIgnores(tail, sent, x, found);
      } else {
        DeliverPerId(tail, sent, found);
      }
    }
  }

  /** No id occurs twice. */
  ghost predicate Distinct<T>(s: seq<T>) {
    forall i, j | 0 <= i < j < |s| :: s[i] != s[j]
  }

  lemma DistinctTail<T>(s: seq<T>)
    requires |s| > 0 && Distinct(s)
    ensures Distinct(s[1..]) && s[0] !in s[1..]
  {
    var tail := s[1..];
    forall i, j | 0 <= i < j < |tail| ensures tail[i] != tail[j] {
      assert tail[i] == s[i + 1] && tail[j] == s[j + 1];
    }
    forall i | 0 <= i < |tail| ensures tail[i] != s[0] {
      assert tail[i] == s[i + 1];
    }
  }

  /** Splitting off the first id of the ids with a payload. */
  lemma SentStep(ids: seq<string>, sent: set<string>, found: map<string, Doc>)
    requires |ids| > 0
    ensures sent + (set x | x in ids && x in found)
      == (if ids[0] in found then sent + {ids[0]} else sent) + (set x | x in ids[1..] && x in found)
  {
    var a := sent + (set x | x in ids && x in found);
    var b := (if ids[0] in found then sent + {ids[0]} else sent) + (set x | x in ids[1..] && x in found);
    assert forall y :: y in ids <==> y == ids[0] || y in ids[1..] by {
      assert ids == [ids[0]] + ids[1..];
    }
    forall y | y in a ensures y in b {
    }
    forall y | y in b ensures y in a {
    }
  }

  /** The id search `query` runs (app.py:126): limit 50, stored boosts
      applied, ids returned. */
  function QuerySearch(st: Store, q: string, src: Source): SearchOutcome {
    Search(st, q, src, Some(50), map[], true, true)
  }

  /** The store after a query, the connection after it, and what `query`
      returned (`None` when it sent its answer instead) or the error the
      search raised. */
  datatype QueryOutcome = QueryOutcome(store: Store, conn: Conn, result: Result<Option<seq<Item>>, Error>)

  /** `query(query, full, seq)` (app.py:124-148). */
  function Query(st: Store, c: Conn, q: string, full: bool, tag: Option<Tag>): (out: QueryOutcome)
    ensures SameIndex(out.store, st)
    ensures out.result.Err? <==> QuerySearch(st, q, SourceOf(full)).answer.Err?
    ensures out.result.Err? ==> out.conn == c && out.result.error == QuerySearch(st, q, SourceOf(full)).answer.error
    ensures out.result.Ok? ==>
      && out.conn.lastQuery == Some(q) && out.conn.lastRequested == c.lastRequested
      && c.sentIds <= out.conn.sentIds
    ensures out.result.Ok? && tag.Some? ==>
      && out.result.value.None?
      && |out.conn.outbox| == |c.outbox| + 1 && out.conn.outbox[..|c.outbox|] == c.outbox
      && out.conn.outbox[|c.outbox|].QueryReply? && out.conn.outbox[|c.outbox|].tag == tag.value
    ensures out.result.Ok? && tag.None? ==> out.result.value.Some? && out.conn.outbox == c.outbox
  {
    var src := SourceOf(full);
    var found := QuerySearch(st, q, src);
    match found.answer
    case Err(e) => QueryOutcome(found.store, c, Err(e))
    case Ok(a) => Respond(found.store, c, a.ids, q, src, tag)
  }

  /** app.py:127-148, once the search has found `ids`: load the unsent
      ones, build the result, record the query, and send or return it. */
  function Respond(st: Store, c: Conn, ids: seq<string>, q: string, src: Source, tag: Option<Tag>): (out: QueryOutcome)
    ensures out.store == st && out.result.Ok?
    ensures out.conn.lastQuery == Some(q) && out.conn.lastRequested == c.lastRequested
    ensures c.sentIds <= out.conn.sentIds
    ensures tag.Some? ==>
      && out.result.value.None?
      && |out.conn.outbox| == |c.outbox| + 1 && out.conn.outbox[..|c.outbox|] == c.outbox
      && out.conn.outbox[|c.outbox|].QueryReply? && out.conn.outbox[|c.outbox|].tag == tag.value
    ensures tag.None? ==> out.result.value.Some? && out.conn.outbox == c.outbox
  {
    var loaded := LoadIds(st, Unsent(ids, c.sentIds), None, src);
    var d := Deliver(ids, c.sentIds, ByKey(loaded));
    DeliverGrows(ids, c.sentIds, ByKey(loaded));
    var after := c.(sentIds := d.1, lastQuery := Some(q));
    if tag.Some? then
      QueryOutcome(st, after.(outbox := c.outbox + [QueryReply(d.0, tag.value)]), Ok(None))
    else QueryOutcome(st, after, Ok(Some(d.0)))
  }

  lemma {:induction false} DeliverGrows(ids: seq<string>, sent: set<string>, found: map<string, Doc>)
    ensures sent <= Deliver(ids, sent, found).1
    decreases |ids|
  {
    if |ids| > 0 {
      if ids[0] in sent {
        DeliverGrows(ids[1..], sent, found);
      } else if ids[0] in found {
        DeliverGrows(ids[1..], sent + {ids[0]}, found);
      } else {
        DeliverGrows(ids[1..], sent, found);
      }
    }
  }

  /** The items a query produced: the ones it returned, or the ones it sent. */
  function Answered(out: QueryOutcome, c: Conn): seq<Item>
    requires out.result.Ok?
  {
    match out.result.value
    case Some(items) => items
    case None => if |out.conn.outbox| > |c.outbox| && out.conn.outbox[|c.outbox|].QueryReply? then out.conn.outbox[|c.outbox|].items else []
  }

  /** Every stored payload carries its own id in its `key` field, as issues
      fetched from upstream do. */
  ghost predicate SelfKeyed(p: map<string, Doc>) {
    forall k | k in p :: p[k].key == k
  }

  /** Indexing an issue whose payloads carry its key keeps the hashes self-keyed. */
  lemma IndexKeepsSelfKeyed(st: Store, issue: Issue)
    requires issue.raw.key == issue.key && issue.small.key == issue.key
    requires SelfKeyed(st.data) && SelfKeyed(st.small)
    ensures SelfKeyed(Index(st, issue).data) && SelfKeyed(Index(st, issue).small)
  {
    IndexHashes(st, issue);
  }

  /** On a self-keyed store, the payloads found for the unsent ids are
      exactly the stored payloads of those ids. */
  lemma LoadedByKey(p: map<string, Doc>, ids: seq<string>, sent: set<string>)
    requires SelfKeyed(p)
    ensures var found := ByKey(Present(p, Unsent(ids, sent)));
      forall x | x in ids && x !in sent :: (x in found <==> x in p) && (x in p ==> found[x] == p[x])
  {
    var unsent := Unsent(ids, sent);
    var docs := Present(p, unsent);
    var found := ByKey(docs);
    PresentFrom(p, unsent);
    forall x | x in ids && x !in sent
      ensures (x in found <==> x in p) && (x in p ==> found[x] == p[x])
    {
      if x in p {
        PresentHas(p, unsent, x);
        var i :| 0 <= i < |docs| && docs[i] == p[x];
        assert docs[i].key == x;
      }
      if x in found {
        var i :| 0 <= i < |unsent| && unsent[i] in p && p[unsent[i]] == found[x];
        assert unsent[i] == x;
      }
    }
  }

  /** Items only depend on the payloads of the ids not yet sent. */
  lemma {:induction false} ExpectedAgree(ids: seq<string>, sent: set<string>, f: map<string, Doc>, g: map<string, Doc>)
    requires forall x | x in ids && x !in sent :: (x in f <==> x in g) && (x in f ==> f[x] == g[x])
    ensures Expected(ids, sent, f) == Expected(ids, sent, g)
    decreases |ids|
  {
    if |ids| > 0 {
      assert forall x | x in ids[1..] :: x in ids;
      ExpectedAgree(ids[1..], sent, f, g);
    }
  }

  /** What a query answers, on a self-keyed store: for each id the search
      found, in order, a bare id when it was sent before, its stored payload
      when it was not, nothing when it has no payload; and the ids with a
      payload are recorded as sent. */
  lemma QueryDelivers(st: Store, c: Conn, q: string, full: bool, tag: Option<Tag>)
    requires SelfKeyed(Payloads(st, SourceOf(full)))
    requires QuerySearch(st, q, SourceOf(full)).answer.Ok?
    ensures var ids := QuerySearch(st, q, SourceOf(full)).answer.value.ids;
      var out := Query(st, c, q, full, tag);
      && out.result.Ok?
      && Answered(out, c) == Expected(ids, c.sentIds, Payloads(st, SourceOf(full)))
      && out.conn.sentIds == c.sentIds + (set x | x in ids && x in Payloads(st, SourceOf(full)))
  {
    var src := SourceOf(full);
    var found := QuerySearch(st, q, src);
    var ids := found.answer.value.ids;
    assert Payloads(found.store, src) == Payloads(st, src);
    assert Query(st, c, q, full, tag) == Respond(found.store, c, ids, q, src, tag);
    RespondDelivers(found.store, c, ids, q, src, tag);
  }

  /** `Respond` on distinct ids and a self-keyed store. */
  lemma RespondDelivers(st: Store, c: Conn, ids: seq<string>, q: string, src: Source, tag: Option<Tag>)
    requires SelfKeyed(Payloads(st, src))
    requires Distinct(ids)
    ensures var out := Respond(st, c, ids, q, src, tag);
      && Answered(out, c) == Expected(ids, c.sentIds, Payloads(st, src))
      && out.conn.sentIds == c.sentIds + (set x | x in ids && x in Payloads(st, src))
  {
    var p := Payloads(st, src);
    var loaded := LoadIds(st, Unsent(ids, c.sentIds), None, src);
    assert loaded == Present(p, Unsent(ids, c.sentIds));
    var dict := ByKey(loaded);
    RespondIs(st, c, ids, q, src, tag);
    LoadedByKey(p, ids, c.sentIds);
    DeliverPerId(ids, c.sentIds, dict);
    ExpectedAgree(ids, c.sentIds, dict, p);
    SentAgree(ids, c.sentIds, dict, p);
  }

  /** The sent set only depends on which unsent ids have a payload. */
  lemma SentAgree(ids: seq<string>, sent: set<string>, f: map<string, Doc>, g: map<string, Doc>)
    requires forall x | x in ids && x !in sent :: x in f <==> x in g
    ensures sent + (set x | x in ids && x in f) == sent + (set x | x in ids && x in g)
  {
    var a := sent + (set x | x in ids && x in f);
    var b := sent + (set x | x in ids && x in g);
    forall x | x in a ensures x in b {
    }
    forall x | x in b ensures x in a {
    }
  }

  lemma RespondIs(st: Store, c: Conn, ids: seq<string>, q: string, src: Source, tag: Option<Tag>)
    ensures var d := Deliver(ids, c.sentIds, ByKey(LoadIds(st, Unsent(ids, c.sentIds), None, src)));
      var out := Respond(st, c, ids, q, src, tag);
      Answered(out, c) == d.0 && out.conn.sentIds == d.1
  {
  }

  // ---------------------------------------------------------------------
  // get
  // ---------------------------------------------------------------------

  /** The `get` command (app.py:190-200): the payload stored under the
      upper-cased key is sent back, and that key becomes the last requested. */
  function Get(st: Store, c: Conn, key: string, full: bool, tag: Option<Tag>): (r: Conn)
    ensures r.lastRequested == Some(Upper(key))
    ensures r.sentIds == c.sentIds && r.lastQuery == c.lastQuery
    ensures |r.outbox| == |c.outbox| + 1 && r.outbox[..|c.outbox|] == c.outbox
    ensures r.outbox[|c.outbox|] == GetReply(GetByKey(st, Upper(key), SourceOf(full)), tag)
  {
    var issue := GetByKey(st, Upper(key), SourceOf(full));
    c.(lastRequested := Some(Upper(key)), outbox := c.outbox + [GetReply(issue, tag)])
  }

  // ---------------------------------------------------------------------
  // publish_updated_issue
  // ---------------------------------------------------------------------

  /** `did_send_key(key)` (app.py:97-98). */
  predicate DidSendKey(c: Conn, key: string) {
    key in c.sentIds
  }

  /** `is_last_requested_key(key)` (app.py:100-101). */
  predicate IsLastRequestedKey(c: Conn, key: string) {
    c.lastRequested == Some(key)
  }

  /** The messages one client gets for an updated issue: `update` when it
      was sent the key, then `updateraw` when it last requested the key. */
  function Notices(c: Conn, raw: Doc, small: Doc): seq<Message> {
    (if DidSendKey(c, raw.key) then [Update(small)] else [])
    + (if IsLastRequestedKey(c, raw.key) then [UpdateRaw(raw)] else [])
  }

  /** `order` lists every client exactly once: the iteration order of the
      `clients` set, which the model leaves open. */
  ghost predicate Enumerates(order: seq<ConnId>, clients: set<ConnId>) {
    && (forall i | 0 <= i < |order| :: order[i] in clients)
    && (forall id | id in clients :: id in order)
    && (forall i, j | 0 <= i < j < |order| :: order[i] != order[j])
  }

  /** A client after it got its notices. */
  function Notified(c: Conn, raw: Doc, small: Doc): Conn {
    c.(outbox := c.outbox + Notices(c, raw, small))
  }

  /** Some client in `ids` was sent the key. */
  ghost predicate AnySent(reg: Registry, ids: seq<ConnId>, key: string) {
    exists id | id in ids && id in reg.conns :: DidSendKey(reg.conns[id], key)
  }

  lemma PrefixStep<T>(s: seq<T>, k: nat)
    requires k < |s|
    ensures forall x :: x in s[..k + 1] <==> x in s[..k] || x == s[k]
  {
    assert s[..k + 1] == s[..k] + [s[k]];
  }

  /** `publish_updated_issue(raw, small)` (app.py:103-122): every client gets
      its notices, everyone else nothing; the `update` payload is serialised
      once, and only when some client was sent the key. */
  method PublishUpdatedIssue(reg: Registry, order: seq<ConnId>, raw: Doc, small: Doc)
    returns (r: Registry, serialised: nat)
    requires Wf(reg) && Enumerates(order, reg.clients)
    ensures r.clients == reg.clients && r.next == reg.next && r.conns.Keys == reg.conns.Keys
    ensures forall id | id in reg.clients ::
      r.conns[id] == reg.conns[id].(outbox := reg.conns[id].outbox + Notices(reg.conns[id], raw, small))
    ensures forall id | id in reg.conns && id !in reg.clients :: r.conns[id] == reg.conns[id]
    ensures serialised <= 1
    ensures serialised == 1 <==> exists id | id in reg.clients :: DidSendKey(reg.conns[id], raw.key)
  {
    r := reg;
    serialised := 0;
    var k := 0;
    while k < |order|
      invariant 0 <= k <= |order|
      invariant r.clients == reg.clients && r.next == reg.next && r.conns.Keys == reg.conns.Keys
      invariant forall id | id in reg.conns ::
        r.conns[id] == if id in order[..k] then Notified(reg.conns[id], raw, small) else reg.conns[id]
      invariant serialised == if AnySent(reg, order[..k], raw.key) then 1 else 0
    {
      var id := order[k];
      var c := r.conns[id];
      var box := c.outbox;
      if DidSendKey(c, raw.key) {
        if serialised == 0 {
          serialised := 1;
        }
        box := box + [Update(small)];
      }
      if IsLastRequestedKey(c, raw.key) {
        box := box + [UpdateRaw(raw)];
      }
      PrefixStep(order, k);
      assert id !in order[..k];
      assert c.(outbox := box) == Notified(reg.conns[id], raw, small);
      ghost var before := r;
      r := r.(conns := r.conns[id := c.(outbox := box)]);
      forall x | x in reg.conns
        ensures r.conns[x] == if x in order[..k + 1] then Notified(reg.conns[x], raw, small) else reg.conns[x]
      {
        if x != id {
          assert r.conns[x] == before.conns[x];
        }
      }
      k := k + 1;
    }
    assert order[..k] == order;
  }

  // ---------------------------------------------------------------------
  // trigger_update
  // ---------------------------------------------------------------------

  /** `not client.last_query`: no query yet, or the empty one. */
  predicate HasQuery(c: Conn) {
    c.lastQuery.Some? && c.lastQuery.value != ""
  }

  /** `c2` is `c` after a re-query on store `st`: the same query and
      requested key, and exactly one more message, an `updatesearch`
      carrying the query and the items `query(last_query, False)` returned
      on `st`, with the sent ids as that query recorded them. */
  ghost predicate Requeried(st: Store, c: Conn, c2: Conn) {
    && HasQuery(c)
    && c2.lastQuery == c.lastQuery && c2.lastRequested == c.lastRequested
    && c.sentIds <= c2.sentIds
    && |c2.outbox| == |c.outbox| + 1 && c2.outbox[..|c.outbox|] == c.outbox
    && c2.outbox[|c.outbox|].UpdateSearch? && c2.outbox[|c.outbox|].query == c.lastQuery.value
    && var q := c.lastQuery.value;
      var out := Query(st, c, q, false, None);
      && out.result.Ok?
      && c2.outbox[|c.outbox|].items == Answered(out, c) && c2.sentIds == out.conn.sentIds
  }

  /** What a re-query sends, on a self-keyed store: for each id the search
      found on the small payloads, in order, a bare id when it was sent
      before, its payload when it was not, nothing when it has none; and
      the ids with a payload are recorded as sent. */
  lemma RequeriedDelivers(st: Store, c: Conn, c2: Conn)
    requires Requeried(st, c, c2) && SelfKeyed(Payloads(st, SourceOf(false)))
    ensures var q := c.lastQuery.value;
      var ids := QuerySearch(st, q, SourceOf(false)).answer.value.ids;
      var p := Payloads(st, SourceOf(false));
      && QuerySearch(st, q, SourceOf(false)).answer.Ok?
      && c2.outbox[|c.outbox|].items == Expected(ids, c.sentIds, p)
      && c2.sentIds == c.sentIds + (set x | x in ids && x in p)
  {
    QueryDelivers(st, c, c.lastQuery.value, false, None);
  }

  /** One client of `trigger_update` (app.py:153-162): re-run its last query
      on the small payloads and send the result as `updatesearch`. */
  function Requery(st: Store, c: Conn): (out: QueryOutcome)
    requires HasQuery(c)
    ensures SameIndex(out.store, st)
    ensures out.result.Err? ==> out.conn == c
    ensures out.result.Ok? ==> Requeried(st, c, out.conn)
  {
    var q := c.lastQuery.value;
    var out := Query(st, c, q, false, None);
    match out.result
    case Err(e) => out
    case Ok(r) =>
      var items := r.GetOr([]);
      out.(conn := out.conn.(outbox := out.conn.outbox + [UpdateSearch(items, q)]))
  }

  /** `Requery` as a step of the fan-out loop. */
  method RequeryStep(st: Store, c: Conn) returns (out: QueryOutcome)
    requires HasQuery(c)
    ensures SameIndex(out.store, st)
    ensures out.result.Err? ==> out.conn == c
    ensures out.result.Ok? ==> Requeried(st, c, out.conn)
  {
    out := Requery(st, c);
  }

  /** The `k`-th client of a repetition-free order is none of those before it. */
  lemma NextInOrder(order: seq<ConnId>, k: nat)
    requires k < |order| && forall i, j | 0 <= i < j < |order| :: order[i] != order[j]
    ensures order[k] !in order[..k]
    ensures forall i | 0 <= i < k :: order[i] != order[k]
    ensures forall x | x in order[..k + 1] :: x in order[..k] || x == order[k]
  {
    assert order[..k + 1] == order[..k] + [order[k]];
  }

  /** The fan-out moving past `order[k]`: that connection, when it has a
      query, is re-queried on a store `s` holding the same index as `st`,
      and every other one keeps its progress. */
  lemma FanOutStep(st: Store, s: Store, before: map<ConnId, Conn>, conns: map<ConnId, Conn>, order: seq<ConnId>, k: nat, c2: Conn)
    requires k < |order| && order[k] in before && conns.Keys == before.Keys
    requires forall i, j | 0 <= i < j < |order| :: order[i] != order[j]
    requires FannedOut(st, before, conns, order[..k])
    requires HasQuery(conns[order[k]]) ==> SameIndex(s, st) && Requeried(s, conns[order[k]], c2)
    requires !HasQuery(conns[order[k]]) ==> c2 == conns[order[k]]
    ensures FannedOut(st, before, conns[order[k] := c2], order[..k + 1])
  {
    NextInOrder(order, k);
    assert HasQuery(conns[order[k]]) ==> RequeriedOn(st, conns[order[k]], c2);
  }

  /** The fan-out stopped at `order[k]`: the clients without a query and
      the connections that are no client are as they were, and every client
      is either as it was or re-queried. */
  lemma FanOutSoFar(st: Store, reg: Registry, conns: map<ConnId, Conn>, order: seq<ConnId>, k: nat)
    requires k <= |order| && conns.Keys == reg.conns.Keys && reg.clients <= reg.conns.Keys
    requires FannedOut(st, reg.conns, conns, order[..k])
    requires Enumerates(order, reg.clients)
    ensures forall id | id in reg.conns && (id !in reg.clients || !HasQuery(reg.conns[id])) :: conns[id] == reg.conns[id]
    ensures forall id | id in reg.clients :: conns[id] == reg.conns[id] || RequeriedOn(st, reg.conns[id], conns[id])
    ensures forall id | id in reg.conns :: Extends(reg.conns[id].outbox, conns[id].outbox)
  {
    forall id | id in reg.conns && id in order[..k] ensures id in reg.clients {
      var i :| 0 <= i < k && order[..k][i] == id;
      assert order[i] == id;
    }
  }

  /** The fan-out reached the end of the order: every client with a query
      is re-queried. */
  lemma FanOutDone(st: Store, reg: Registry, conns: map<ConnId, Conn>, order: seq<ConnId>)
    requires conns.Keys == reg.conns.Keys && reg.clients <= reg.conns.Keys
    requires FannedOut(st, reg.conns, conns, order)
    requires Enumerates(order, reg.clients)
    ensures forall id | id in reg.clients && HasQuery(reg.conns[id]) :: RequeriedOn(st, reg.conns[id], conns[id])
  {
  }

  /** One turn of the fan-out loop (app.py:153-162), on `order[k]`: a client
      with a query is re-queried on the current store; a search that raises
      stops the loop with the registry as it was. */
  method FanOutNext(st: Store, st2: Store, reg: Registry, r: Registry, order: seq<ConnId>, k: nat)
    returns (st3: Store, r2: Registry, failed: Option<Error>)
    requires k < |order| && Enumerates(order, reg.clients) && reg.clients <= reg.conns.Keys
    requires SameIndex(st2, st)
    requires r.clients == reg.clients && r.next == reg.next && r.conns.Keys == reg.conns.Keys
    requires FannedOut(st, reg.conns, r.conns, order[..k])
    ensures SameIndex(st3, st)
    ensures failed.Some? ==> r2 == r
    ensures r2.clients == reg.clients && r2.next == reg.next && r2.conns.Keys == reg.conns.Keys
    ensures failed.None? ==> FannedOut(st, reg.conns, r2.conns, order[..k + 1])
  {
    var id := order[k];
    var c := r.conns[id];
    var c2 := c;
    st3, r2, failed := st2, r, None;
    if HasQuery(c) {
      st3, c2, failed := RequeryAt(st, st2, reg.conns, r.conns, order, k);
      if failed.Some? {
        return;
      }
    } else {
      FanOutStep(st, st2, reg.conns, r.conns, order, k, c2);
    }
    r2 := r.(conns := r.conns[id := c2]);
  }

  /** The re-query of `order[k]` in the fan-out, on the current store. */
  method RequeryAt(st: Store, st2: Store, before: map<ConnId, Conn>, conns: map<ConnId, Conn>, order: seq<ConnId>, k: nat)
    returns (st3: Store, c2: Conn, failed: Option<Error>)
    requires k < |order| && order[k] in before && conns.Keys == before.Keys
    requires forall i, j | 0 <= i < j < |order| :: order[i] != order[j]
    requires FannedOut(st, before, conns, order[..k])
    requires SameIndex(st2, st) && HasQuery(conns[order[k]])
    ensures SameIndex(st3, st)
    ensures failed.None? ==> FannedOut(st, before, conns[order[k] := c2], order[..k + 1])
  {
    var out := RequeryStep(st2, conns[order[k]]);
    st3, c2 := out.store, out.conn;
    if out.result.Err? {
      return st3, c2, Some(out.result.error);
    }
    failed := None;
    FanOutStep(st, st2, before, conns, order, k, c2);
  }

  /** `trigger_update()` (app.py:150-162): every client with a query is
      re-queried, in iteration order; the first search that raises ends the
      fan-out, leaving the clients before it re-queried and the rest as
      they were. Only search caches change. */
  method TriggerUpdate(st: Store, reg: Registry, order: seq<ConnId>)
    returns (st2: Store, r: Registry, failed: Option<Error>)
    requires Wf(reg) && Enumerates(order, reg.clients)
    ensures SameIndex(st2, st)
    ensures r.clients == reg.clients && r.next == reg.next && r.conns.Keys == reg.conns.Keys
    ensures forall id | id in reg.conns && (id !in reg.clients || !HasQuery(reg.conns[id])) :: r.conns[id] == reg.conns[id]
    ensures failed.None? ==> forall id | id in reg.clients && HasQuery(reg.conns[id]) :: RequeriedOn(st, reg.conns[id], r.conns[id])
    ensures forall id | id in reg.clients :: r.conns[id] == reg.conns[id] || RequeriedOn(st, reg.conns[id], r.conns[id])
    ensures forall id | id in reg.conns :: Extends(reg.conns[id].outbox, r.conns[id].outbox)
  {
    st2 := st;
    r := reg;
    failed := None;
    var k := 0;
    while k < |order|
      invariant 0 <= k <= |order|
      invariant SameIndex(st2, st)
      invariant r.clients == reg.clients && r.next == reg.next && r.conns.Keys == reg.conns.Keys
      invariant FannedOut(st, reg.conns, r.conns, order[..k])
    {
      var r2;
      st2, r2, failed := FanOutNext(st, st2, reg, r, order, k);
      if failed.Some? {
        FanOutSoFar(st, reg, r.conns, order, k);
        return;
      }
      r := r2;
      k := k + 1;
    }
    assert order[..k] == order;
    FanOutSoFar(st, reg, r.conns, order, k);
    FanOutDone(st, reg, r.conns, order);
  }

  /** `b` is `a` with more messages after it. */
  predicate Extends(a: seq<Message>, b: seq<Message>) {
    |a| <= |b| && b[..|a|] == a
  }

  /** How far the fan-out has got: the connections in `done` with a query
      are re-queried, and every other one is as it was. */
  ghost predicate FannedOut(st: Store, before: map<ConnId, Conn>, conns: map<ConnId, Conn>, done: seq<ConnId>) {
    && before.Keys <= conns.Keys
    && forall id | id in before :: Progressed(st, before[id], conns[id], id in done)
  }

  /** Where the fan-out has got to for one connection: once its turn has
      come, a connection with a query is re-queried; otherwise it is as it
      was. */
  ghost predicate Progressed(st: Store, c: Conn, c2: Conn, reached: bool) {
    if reached && HasQuery(c) then RequeriedOn(st, c, c2) else c2 == c
  }

  /** `c2` is `c` re-queried on a store that differs from `st` at most in
      its search caches, as the fan-out leaves each client: earlier
      clients' searches may have rebuilt or rescaled caches since. */
  ghost predicate RequeriedOn(st: Store, c: Conn, c2: Conn) {
    exists s {:trigger Requeried(s, c, c2)} :: SameIndex(s, st) && Requeried(s, c, c2)
  }


  // ---------------------------------------------------------------------
  // update_issue
  // ---------------------------------------------------------------------

  /** What a client is sent about an updated issue depends on the two
      things it remembers, each on its own: the small payload when it was
      sent the key, the raw one when it asked for the key last. */
  lemma NoticesContents(c: Conn, raw: Doc, small: Doc)
    ensures Update(small) in Notices(c, raw, small) <==> DidSendKey(c, raw.key)
    ensures UpdateRaw(raw) in Notices(c, raw, small) <==> IsLastRequestedKey(c, raw.key)
    ensures |Notices(c, raw, small)| <= 2
  {
    var first := if DidSendKey(c, raw.key) then [Update(small)] else [];
    var second := if IsLastRequestedKey(c, raw.key) then [UpdateRaw(raw)] else [];
    assert Notices(c, raw, small) == first + second;
    assert UpdateRaw(raw) !in first && Update(small) !in second;
  }

  /** After `get`, the client is sent the raw payload of an update exactly
      when the updated key is the requested one upper-cased. */
  lemma GetThenNotice(st: Store, c: Conn, key: string, full: bool, tag: Option<Tag>, raw: Doc, small: Doc)
    ensures UpdateRaw(raw) in Notices(Get(st, c, key, full, tag), raw, small) <==> raw.key == Upper(key)
    ensures Update(small) in Notices(Get(st, c, key, full, tag), raw, small) <==> Update(small) in Notices(c, raw, small)
  {
    NoticesContents(c, raw, small);
    NoticesContents(Get(st, c, key, full, tag), raw, small);
  }

  /** `update_issue(key)` (app.py:221-229), the task the issue tracker's
      webhook starts: the fetched issue is indexed and boosted by the
      default factor, its payloads are published to the clients, and the
      clients' queries are re-run. A failed fetch ends the task before it
      writes anything; `failed` is the error that ended it, if any. */
  method UpdateIssue(st: Store, reg: Registry, order: seq<ConnId>, fetched: Result<Issue, Error>)
    returns (st2: Store, r: Registry, failed: Option<Error>)
    requires Wf(reg) && Enumerates(order, reg.clients)
    ensures fetched.Err? ==> st2 == st && r == reg && failed == Some(fetched.error)
    ensures r.clients == reg.clients && r.next == reg.next && r.conns.Keys == reg.conns.Keys
    ensures forall id | id in reg.conns && id !in reg.clients :: r.conns[id] == reg.conns[id]
    ensures fetched.Ok? ==>
      var issue := fetched.value;
      && GetByKey(st2, issue.key, Full) == Some(issue.raw)
      && GetByKey(st2, issue.key, Small) == Some(issue.small)
      && issue.key in st2.boosts
      && st2.boosts[issue.key] ==
           (if IsStored(st, issue.key) && !TitleUnchanged(st, issue) then 1.0 else CurrentBoost(st, issue.key)) * DefaultBoost
    ensures fetched.Ok? ==> forall id | id in reg.clients ::
      var told := Notified(reg.conns[id], fetched.value.raw, fetched.value.small).outbox;
      |told| <= |r.conns[id].outbox| && r.conns[id].outbox[..|told|] == told
  {
    if fetched.Err? {
      return st, reg, Some(fetched.error);
    }
    var issue := fetched.value;
    var indexed := Index(st, issue);
    IndexThenGetByKey(st, issue);
    IndexHashes(st, issue);
    var boosted := Boost(indexed, issue.key, DefaultBoost, false);
    var published, _ := PublishUpdatedIssue(reg, order, issue.raw, issue.small);
    assert Wf(published);
    st2, r, failed := TriggerUpdate(boosted.value, published, order);
    assert GetByKey(st2, issue.key, Full) == GetByKey(indexed, issue.key, Full);
    assert GetByKey(st2, issue.key, Small) == GetByKey(indexed, issue.key, Small);
  }
}
