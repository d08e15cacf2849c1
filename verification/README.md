# jiracache, modelled in Dafny

jiracache keeps a search index of issue-tracker tickets in Redis and pushes
live updates to browser clients over websockets. This project models its
core as pure Dafny functions and small methods over an immutable value of
the database, and proves properties of them.

- **Scoring primitives** (`primitives.dfy`, module `Primitives`):
  - `score_key`, the base-27 rank of a string;
  - `autocomplete_keys`, the prefix expansion;
  - `clean_phrase` and `create_key`, the phrase normaliser.
- **The database** (`store.dfy`, module `Store`; `zset.dfy`, module `SortedSets`):
  - the four hashes `jri:d`, `jri:s`, `jri:t` and `jri:b`;
  - the sorted sets `jri:s:<p>`, `jri:k:<p>` and `jri:c:<terms>:<boosts>`, with real scores;
  - everything outside the `jri:` namespace, as one opaque map;
  - the Redis commands the index issues (`ZADD`, `ZREM`, `DEL`, `ZRANGE`, `ZINTERSTORE`, `HSET`, `HDEL`, `FLUSHDB`). `ZRANGE` ranks members by (score, member) and includes both ends.
- **Writing to the index** (`index.dfy`, module `Indexer`): `index`, `is_stored`, `store_issue_data`, `remove`, `boost`, `get_by_key` and `flush`.
- **Reading from the index** (`search.dfy`, module `Retrieval`): `_chunked`, `_load_ids`, `search_by_key`, `get_cache_key` and `search`.
- **The websocket server** (`connections.dfy`, module `Connections`):
  - the `Connection` registry: `__init__`, `stop` and `stop_all`;
  - the per-connection state: `did_send_key` and `is_last_requested_key`;
  - the `query` and `get` commands;
  - the fan-outs `publish_updated_issue` and `trigger_update`;
  - `update_issue`, the task a webhook starts.
- **The HTTP routes** (`routes.dfy`, module `Routes`): the three routes, including the `limit` argument of `/search/key`. The argument is parsed as Python 2's `int` parses a string, then clamped to [1, 50].
- **The resync chat command** (`resync.dfy`, module `Resync`):
  - the `syncing` guard;
  - the paging loop of `resync_iter`, which steps by 250.

Helpers live in `wrappers.dfy` (`Option`, `Result`, the `Error` type), in
`ordering.dfy` (character-wise string order, and a sort over a strict total
order) and in `text.dfy` (ASCII case mapping, whitespace splitting, joining).

The model follows the code as written, including behaviours a reader might
not expect:

- `index` compares the title it computes (assignee, status, summary) with the stored title. The stored title is only the summary (index.py:107-115, 149). So re-indexing the same issue is never skipped. A different issue under the key is skipped only when the stored summary happens to spell its computed title.
- `index` writes the prefixes of the lower-cased key (index.py:127). `remove` visits the prefixes of the key exactly as given (index.py:165), so an upper-case key leaves its lower-case key sets behind. For this reason no lemma claims that `index` followed by `remove` leaves nothing behind.
- `remove` decides on each visit, against the set as the earlier visits left it (index.py:160, 168, 175). If `ZRANGE 1 2` is empty, the set has at most one member, and the whole set is deleted, whoever that member is. A set is visited once per word prefix and key prefix that names it, so a set visited twice can be shrunk to one member and then deleted: removing an issue titled `x x` from `s:x` holding it and one other issue drops the other issue too.
- `search_by_key` with a limit `n` ranges over the first `n + 1` ranked members and keeps the first `n` that have payloads (index.py:230-232). Members without a payload, such as the ones `remove` leaves behind, use up places, so fewer than `n` payloads can come back while more are stored.
- `get_cache_key` sorts the boost pairs but joins the terms in the order given (index.py:248-251). The terms are not sorted.
- `ZRANGE 0 limit` is inclusive, so `search(..., return_id_list=True)` returns up to `limit + 1` ids (index.py:290).
- An existing cache set is not rebuilt (index.py:274). It is rescaled again on every boosted search, so the division by a boost compounds.

## Model

| member | source | states |
|---|---|---|
| Primitives.Digit | index.py:40-46 | every digit `score_key` uses lies in 1..27; the letters 'a'..'z' give 2..27; positions past the end give 1 |
| Primitives.ScoreKeyOrder | index.py:35-48 | when two strings first differ in digit `i < max_size`, their scores are ordered as those digits are, because the lower positions add up to less than one unit of position `i` |
| Primitives.ScoreKeyTruncates | index.py:35-48 | the score depends only on the first `max_size` characters |
| Primitives.ScoreKeySamePrefix | index.py:35-48 | two strings that agree on the first `max_size` characters score the same |
| Primitives.ScoreFromBounds | index.py:40-47 | the weighted digits from position `i` on lie between all-ones and all-27s |
| Primitives.AutocompleteKeys | index.py:57-60 | a non-empty `w` yields exactly `len(w)` strings, the i-th is `w[:i+1]`, and the last is `w`; the empty string yields `[""]` |
| Primitives.AutocompleteKeysDistinct | index.py:57-60 | no prefix is yielded twice |
| Primitives.AutocompleteKeysMembers | index.py:57-60 | `p` is yielded iff `p` is `w` or a non-empty prefix of `w` |
| Primitives.CleanPhraseWords | index.py:50-52 | every cleaned word is non-empty, holds only `[a-z0-9_-]` and is not a stop word |
| Primitives.DropStopWordsMembers | index.py:52 | the words kept are words of the input and are not stop words |
| Primitives.DropStopWordsConcat | index.py:52 | dropping stop words works word by word, so the surviving words keep their order |
| Primitives.CleanPhraseConcat | index.py:50-52 | cleaning two parts joined by a space gives the two cleanings concatenated |
| Primitives.CleanPhraseOfJoin | index.py:50-55 | joining clean words with spaces and cleaning again gives the same words back |
| Primitives.CleanPhraseOfCreateKey | index.py:50-55 | `clean_phrase(create_key(p)) == clean_phrase(p)` |
| SortedSets.ZRange | index.py:290 | `ZRANGE` returns distinct members of the set in strictly increasing (score, member) order, no more than the set holds |
| SortedSets.ZRangeOneTwo | index.py:160 | `ZRANGE z 1 2` is empty iff the set has at most one member |
| SortedSets.ZRangeAll | index.py:231 | `ZRANGE z 0 -1` is the whole set in rank order |
| SortedSets.Intersect | index.py:275 | `ZINTERSTORE` keeps the members present in every input set, with the sum of their scores |
| Store.ZAdd | index.py:128-137 | `ZADD` sets one member's score and changes no other set |
| Store.ZRem | index.py:163 | `ZREM` removes one member; a set left empty disappears; no other set changes |
| Store.Delete | index.py:161 | `DEL` removes the whole set and no other |
| Store.ApplyWritesLastWins | index.py:122-139 | in a pipelined batch of `ZADD`s, the last write to a set and member decides its score |
| Store.VisitAllRemoves | index.py:157-178 | after `remove` has visited a set, the key is not in it |
| Store.VisitAllSmallGone | index.py:160-161 | a visited set with at most one member is deleted |
| Store.VisitAllTimes | index.py:157-178 | a set visited `n` times is, after the visits, what `n` visits in a row leave: each visit deletes the set when it has at most one member and otherwise takes the member out, so a set survives two or more visits only when at least two other members remain |
| Indexer.IndexHashes | index.py:105-152 | `index` writes both payloads; it writes the summary as the title only when it re-indexes; the boost is dropped only when a stored issue is re-indexed; nothing outside `jri:` changes |
| Indexer.IndexUnchangedTitle | index.py:112-117 | when the stored title equals the computed title, only the payloads are rewritten; no sorted set, title or boost changes |
| Indexer.IndexNeverSkipsItsOwnTitle | index.py:107-115 | once an issue is re-indexed, the stored summary differs from the computed title, so indexing it again re-indexes it again |
| Indexer.IndexKeyPrefixes | index.py:127-128 | on a re-index, the `i`-th prefix of the lower-cased key has the key in `k:<p>` with score `27^20 - i`, on top of what `remove` left |
| Indexer.IndexHasWholeKey | index.py:127-128 | the whole lower-cased key's key set holds the key |
| Indexer.IndexKeyPhrase | index.py:129 | a key prefix that starts no title word has the key in `s:<p>` with score `27^40` |
| Indexer.IndexWordPrefix | index.py:131-137 | a prefix of title word `j` has the key in `s:<p>` with `(score_key(w) + 27^20) * (j + 1) + score_key(create_key(title))`, the last word with that prefix winning |
| Indexer.IndexUntouched | index.py:120-139 | a set `index` does not write stays as `remove` left it |
| Indexer.IndexWritesTargets | index.py:127-137 | the batch writes exactly the key's `k:` and `s:` prefix sets and the `s:` sets of the title words' prefixes |
| Indexer.IndexThenGetByKey | index.py:234-244 | after `index`, `get_by_key` returns the raw payload and the small projection, and the key is stored |
| Indexer.RemoveSame | index.py:154-183 | `remove` reads only the hashes and the phrase and key sets: on two stores that agree on those, it leaves them agreeing, whatever their search caches hold |
| Indexer.IndexSame | index.py:105-139 | `index` likewise reads no search cache: on two stores that agree on the hashes and the phrase and key sets, it leaves them agreeing |
| Indexer.RemoveEffect | index.py:154-183 | `remove` deletes the key from the four hashes and from every visited set; every set only shrinks; sets it does not visit are unchanged |
| Indexer.RemoveTimes | index.py:157-181 | a set visited `n` times ends as each visit leaves it in turn: unchanged for no visit; for one visit, deleted when it had at most one member and otherwise exactly the key taken out; for more, the key taken out and the set deleted once at most one member is left |
| Indexer.RemoveVisitedOnce | index.py:157-163 | a set visited once that has more than one member loses exactly the key and keeps every other member with its score |
| Indexer.RemoveDoubleVisitExample | index.py:157-163 | under a title whose words are `x x`, removing `A` from `s:x` = {A, B} deletes the set, so `B` is lost |
| Indexer.CleanTwice | index.py:50-52 | the title `x x` cleans to the word `x` twice |
| Indexer.RemoveVisitsMembers | index.py:155-178 | `remove` visits the `s:` sets of the stored title's word prefixes and the `k:` and `s:` sets of the key's prefixes as given, and no other set |
| Indexer.RemoveDropsSmallSets | index.py:160-176 | a visited set with at most one member is deleted, even when that member is another issue |
| Indexer.RemoveDropsOtherIssueExample | index.py:157-161 | removing `A` with stored title `x` drops issue `B` from `s:x` when `B` was its only member |
| Indexer.RemoveMissesLowercasePrefixes | index.py:165 | a prefix of the lower-cased key that is not a prefix of the key as given still holds the issue after `remove` |
| Indexer.RemoveResidueExample | index.py:165 | issue `A`, indexed and then removed, is still in `k:a` |
| Indexer.RemoveThenGetByKey | index.py:180-183 | after `remove`, `get_by_key` finds nothing for the key and the same as before for every other key |
| Indexer.GetByKey | index.py:234-244 | the result is present iff the hash holds the key, and is then the stored payload |
| Indexer.Boost | index.py:296-301 | the new boost is `(old or 1.0) * m`, or divided by `m` when negative; dividing by zero raises; only `b[key]` changes |
| Indexer.BoostThenUnboost | index.py:296-301 | a negative boost by the same `m` restores the old value |
| Indexer.BoostMonotone | index.py:296-301 | with `m > 1` and a positive current boost, each boost strictly raises the value, and a negative boost strictly lowers it |
| Indexer.Flush | index.py:62-71 | both kinds of flush empty every hash and sorted set of the index; only `everything` also clears keys outside `jri:` |
| Indexer.FlushForgets | index.py:62-71 | after a flush nothing is stored or found |
| Retrieval.Chunked | index.py:185-190 | the chunks are non-empty, all of size `n` except maybe the last, and concatenate back to the input; `n <= 0` gives none |
| Retrieval.PresentFrom | index.py:206-216 | every loaded payload is the payload of one of the ids, and there are no more payloads than ids |
| Retrieval.PresentHas | index.py:206-216 | an id with a stored payload has it loaded |
| Retrieval.Scan | index.py:207-219 | one chunk's loop keeps the stored payloads in order and stops at the limit |
| Retrieval.ScanChunks | index.py:206-221 | the loop over all chunks gives the first `limit` stored payloads in id order |
| Retrieval.LoadIds | index.py:192-221 | the stored payloads of the ids in order, skipping ids without one; `[]` for no ids; at most `limit` when it is positive, none when it is zero or negative, all when it is `None` |
| Retrieval.LoadIdsBounded | index.py:192-221 | never more payloads than `limit` or than ids, and only payloads of the given ids |
| Retrieval.SearchByKey | index.py:226-232 | at most `limit` payloads, each the payload of a member of `k:<key>` |
| Retrieval.SearchByKeyLimit | index.py:226-232 | with a positive limit `n`, the payloads are the first `n` of those of the first `n + 1` members of `k:<key>` in rank order |
| Retrieval.SearchByKeyLimitPrefix | index.py:226-232 | when the first `n` ranked members have payloads, the limited answer is the first `n` of the unlimited one |
| Retrieval.SearchByKeyLimitCrowded | index.py:226-232 | when none of the first `n + 1` ranked members has a payload, the limited answer is empty whatever later members hold |
| Retrieval.SearchByKeyFinds | index.py:226-232 | without a limit, every member of `k:<key>` that has a payload is found |
| Retrieval.IndexThenSearchByKey | index.py:226-232 | right after `index`, searching by the whole lower-cased key without a limit finds the issue |
| Retrieval.SortedPairs | index.py:248 | `sorted(boosts.items())` lists each pair exactly once, in strictly increasing key order |
| Retrieval.CacheKeyOf | index.py:246-252 | the cache key joins the terms with `\|` in the order given and holds the boosts as sorted pairs |
| Retrieval.CacheKeyDeterminesBoosts | index.py:246-252 | two searches share a cache key only if their boosts are equal |
| Retrieval.CacheKeyTermOrder | index.py:251 | the same terms in another order give another cache key, although the intersection is the same |
| Retrieval.EffectiveBoosts | index.py:263-268 | autoboost adds every stored boost the caller gave no boost for, and never overrides an explicit one |
| Retrieval.BuildCache | index.py:274-276 | the cache set is built as the summed intersection only when absent; nothing else changes |
| Retrieval.RescaleChanges | index.py:280-286 | exactly the boosted members whose score moves are rewritten, with `score * (1 / boost)`; a zero boost raises |
| Retrieval.Rescale | index.py:278-288 | the rescale changes only the ranged set, keeps its members, rewrites boosted scores, and raises on a zero boost |
| Retrieval.RescaleDivides | index.py:282-283 | a boosted member's new score is its old score divided by its boost |
| Retrieval.Search | index.py:254-294 | only cache sets ever change (permanent `s:` and `k:` sets and the hashes do not); ids come back distinct; loaded payloads number at most `limit` |
| Retrieval.SearchEmptyPhrase | index.py:260-261 | a phrase with no searchable word returns nothing and writes nothing |
| Retrieval.SearchSingleTerm | index.py:270-271 | one term without boosts ranges over `s:<term>` and writes nothing |
| Retrieval.SearchUnboostedCache | index.py:273-276 | several terms without boosts are answered from the cache set, which is kept when present and otherwise becomes the summed intersection |
| Retrieval.SearchBoostedFreshCache | index.py:270-290 | with boosts and no cache set yet, the cache set becomes the summed intersection of the terms' phrase sets, with each boosted member's score divided by its boost, and the ids are that set's range |
| Retrieval.SearchRescalesExistingCache | index.py:274-288 | with boosts, an existing cache set is rescaled again rather than rebuilt |
| Retrieval.SearchCompounds | index.py:274-288 | two identical boosted searches divide a boosted member's score by its boost twice |
| Retrieval.SearchZeroBoostRaises | index.py:275-283 | with boosts and an existing cache set, the search raises exactly when a member of that set carries a zero boost |
| Retrieval.SearchIdsLimit | index.py:290-292 | an id search with limit `n > 0` returns at most `n + 1` ids, and exactly that many when the set has them |
| Connections.Connect | app.py:77-82 | a new connection has nothing sent, nothing requested and no query; it joins `clients` under an unused id |
| Connections.Stop | app.py:84-85 | `stop` takes only that connection out of `clients` |
| Connections.StopAll | app.py:87-89 | `stop_all` empties `clients` |
| Connections.ConnectThenStop | app.py:77-85 | connecting and then stopping leaves `clients` as it was |
| Connections.Unsent | app.py:127 | the ids not yet sent, in order |
| Connections.ByKey | app.py:129 | each loaded document is filed under its own key, and every document's key is present |
| Connections.Expected | app.py:133-139 | the reference result: sent ids as bare ids, unsent ids with a payload as payloads, the rest dropped, in search order |
| Connections.DeliverPerId | app.py:131-139 | the accumulating loop yields the reference result and adds exactly the delivered ids to `sent_ids` |
| Connections.DeliverGrows | app.py:133-139 | `sent_ids` only grows |
| Connections.Query | app.py:124-148 | on success `last_query` is set and `sent_ids` grows; with `seq` one reply is sent and nothing is returned, without it nothing is sent; a search error is returned as it was raised and leaves the connection unchanged; only search caches change: the hashes and the phrase and key sets are as before |
| Connections.QueryDelivers | app.py:124-148 | the items are the reference result for the search's ids, and `sent_ids` gains exactly the unsent ids that have a payload |
| Connections.Get | app.py:189-199 | `get` sets `last_requested_id` to the upper-cased key and replies with the payload stored under it |
| Connections.NoticesContents | app.py:104-122 | a client gets `update` iff it was sent the key, and `updateraw` iff it requested the key last; the two are independent |
| Connections.GetThenNotice | app.py:189-195 | after `get`, the client gets `updateraw` exactly for the upper-cased key it asked for |
| Connections.PublishUpdatedIssue | app.py:103-122 | each client gets exactly its notices and other connections nothing; the `update` payload is serialised once iff some client was sent the key |
| Connections.Requery | app.py:153-162 | a client with a query is sent one `updatesearch` carrying its query and exactly the items `query(last_query, False)` returns on the small payloads, with the sent ids that query records; a search error leaves the connection as it was; only search caches change |
| Connections.RequeriedDelivers | app.py:153-162 | on a self-keyed store, those items are, for each id the search found, a bare id when sent before, its small payload when not, nothing when it has none; the ids with a payload join the sent ids |
| Connections.TriggerUpdate | app.py:150-162 | connections that are not clients or have no truthy `last_query` are untouched; every client is unchanged or re-queried, each on a store holding the same index as the one passed in, with one `updatesearch` carrying what its query returned there; without an error every client with a query is re-queried; every outbox only grows; only search caches change: the hashes and the phrase and key sets are as before |
| Connections.UpdateIssue | app.py:221-229 | a failed fetch changes nothing and is returned; otherwise both payloads are stored, the boost is the default factor times the old boost (or 1.0 when re-indexing dropped it), and every client's outbox begins with what `publish_updated_issue` sent it |
| Routes.ParseShow | app.py:47 | `int(str(n)) == n` for every integer |
| Routes.ClampLimit | app.py:46-50 | the limit is in [1, 50]; it is 50 when the argument is absent or does not parse; otherwise it is the parsed value pinned to that range |
| Routes.ClampShown | app.py:46-50 | a decimal limit in [1, 50] is used as given, and one outside is pinned to the nearer end |
| Routes.SearchKeyRoute | app.py:43-52 | `/search/key` returns at most 50 payloads, each the payload of a member of the lower-cased key's key set |
| Routes.SummaryRoute | app.py:55-60 | `/search/summary` returns at most 50 payloads, and only search caches change: the hashes and the phrase and key sets are as before |
| Routes.IssueRoute | app.py:63-71 | `/issue/<key>` finds a payload iff one is stored under the upper-cased key |
| Routes.IndexThenIssueRoute | app.py:63-71 | an indexed upper-case key is served whatever the letter case of the request |
| Resync.LeadingPagesRun | commands.py:69-73 | the pages before the first empty or failed one are exactly the loaded run |
| Resync.IndexAllKeys | commands.py:75-76 | indexing a page stores every issue's payloads and adds no other key |
| Resync.FetchedMeans | commands.py:70-76 | a key is among the fetched ones iff some issue on a fetched page has it |
| Resync.SyncRound | commands.py:69-80 | one pass over page `k`: a failed fetch stops with its error, an empty page stops cleanly and only when it is the first unloaded page, and otherwise the page's issues are indexed and `trigger_update` runs, continuing unless a re-query failed; either way the store is, apart from search caches, the in-order index of the first `k + 1` pages |
| Resync.FlushAndTrigger | commands.py:66-67 | the database is flushed and the clients' queries re-run: the store holds the empty index, and the registry keeps its clients and connections |
| Resync.SyncPages | commands.py:69-80 | from the first fetch on, over the flushed index: fetch `j`, counting from 0, asks for `startAt = 250 j`; count `j`, counting from 1, is `250 j`; one fetch more than counts; `trigger_update` runs once per loaded page; the store is the in-order index of the fetched pages holding exactly their keys; the run ends cleanly exactly when the first unloaded page is empty, and with the page's error when it failed |
| Resync.ResyncIter | commands.py:61-80 | the database is flushed and `trigger_update` runs before the first fetch; apart from search caches, the store ends up exactly as indexing every issue of the fetched pages in order, page by page, into an empty database would leave it; fetch `j`, counting from 0, asks for `startAt = 250 j`; count `j`, counting from 1, is `250 j` whatever the page size; `trigger_update` runs once more per non-empty page; the loop ends at the first empty page, after one fetch more than there are non-empty pages; the stored keys are exactly those fetched; a failed fetch ends the run with its error |
| Resync.Resync | commands.py:38-58 | while `syncing` is set the command only replies that it is already syncing; otherwise it replies that it is starting, then each count, then done or the error, and `syncing` is clear on every exit; when done, the stored keys are exactly those of the non-empty pages, and apart from search caches the store is the in-order index of those pages |

## Left out

- JSON encoding and decoding: payloads are opaque `Doc` values, and a document's `key` is the one field the model reads.
- Socket I/O, message framing and the websocket receive loop: a send appends a `Message` to the connection's outbox.
- Flask and gevent plumbing, the `/` and `/ws` routes, and `webhook` spawning `update_issue`: these are framework glue. The routes are modelled as functions of their arguments, and `abort(404)` is modelled as `None`.
- The upstream issue-tracker client, OAuth, `jira_issue_to_smalldata` and `_issue_from_raw`: these are foreign code. An issue carries its raw payload and small projection ready-made. The `raw` flag of the index's read operations is not modelled.
- The results of `search_issues` and of the fetch in `update_issue` are parameters.
- Concurrency: a second `resync` arriving during a run, races between `remove`'s range check and its delete, and greenlets interleaving with websocket handlers are not modelled. The operations run one after another.
- Client iteration order is not modelled: the order in which `clients` is iterated is a parameter, required to list every client once.
- Pipelines as an atomicity mechanism, and `EXPIRE` with the cache TTL: cache sets never expire in the model.
- `flush`'s `KEYS` enumeration and batch deletion are modelled by their effect only: every key of the index's namespace is gone.
- Floating point: scores and boosts are exact reals, so the rescale and a boost followed by an unboost are exact.
- Python 2 integer division of an integer boost is not modelled, and neither is `str(float)` in the cache key. The cache key holds the boost pairs themselves.
- Retrieval.EffectiveBoosts: the caller's `boosts` dict is not modelled as mutated in place (index.py:264-268). The merged boosts are returned as a new map.
- Case mapping and whitespace are ASCII only: `lower`, `upper`, `split` and `int` ignore non-ASCII letters, digits and spaces.
- Routes.ParseInt: Python 2's `int` also accepts non-ASCII digits and whitespace. These are not modelled, and neither is an argument that is not a string.
- Connections.TriggerUpdate: a search that raises ends the fan-out, as the uncaught exception does in the code. After an error the contract says only that each client is unchanged or re-queried, not which clients were reached.
- Resync.ResyncIter: a failed fetch or re-query ends the run with that error. Exceptions from `flush` and `index` are not modelled, because those operations are total in the model. The search caches the re-queries leave behind are not described.
- Resync.Resync: the guard's value during the run is not observable in a sequential model. The contract states that the guard refuses while it is set, and that it is clear after every exit.
- The Slack attachment formatting of `jira_issue`, and `color_to_hex`: this is presentation.
- The browser client under `static/`.
