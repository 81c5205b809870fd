# Job-title consolidation: a Dafny model of the reconciliation loop

This project models the batch job that reconciles job-title classification
codes of person records in a research-information API
(`consolidate_jobtitles.py`), and proves properties of it.

The job reads a mapping from old to new classification codes. It loads the
ledger of person uuids already handled. It probes the collection with a
size-1 fetch, then pages through it 100 persons at a time from offset 0.
For each person it does one of three things:

- it skips a uuid that is in the ledger loaded at the start;
- it ledgers, without a write, a person whose codes need no change;
- it rewrites every `jobTitle.uri` that is a mapping key with a different
  value, sends the whole association list back with `update_person`, ledgers
  the uuid, and, in test mode, stops once `total_processed` reaches
  `test_limit`.

`fetch_persons` and `update_person` are bounded retry loops of at most three
attempts. In a dry run `update_person` sends nothing.

Files:

- `records.dfy` (`Records`): the JSON shapes the job inspects (person,
  association, job title, page body) and the replies one HTTP attempt can
  get back.
- `remote.dfy` (`Remote`): the remote store as a scripted oracle (class
  `RemoteStore`). Each GET or PUT attempt takes the next reply of a script;
  once the script is exhausted every attempt times out. Also the two retry
  loops `FetchPersons` and `UpdatePerson`, and the functions that specify
  them.
- `ledger.dfy` (`Ledger`): the ledger file as a class whose lines are
  appended to.
- `remap.dfy` (`Remap`): the association loop `RemapJobTitles` and the
  mapping functions it is proved against.
- `engine.dfy` (`Engine`): `Reconcile` (the source's `main`) and its
  per-person step `ProcessPerson`,
  both imperative over the ledger and the store. They are proved equal to
  the specification functions `Visit`, `Paginate`, `Items` and `Run`.
- `properties.dfy` (`Properties`): what a run guarantees, proved about those
  functions.

Dry run, test mode and the test limit are parameters of `Reconcile`, as they are
of `main`; `main`'s default values for them are not modelled. The mapping table is an input `map<string, string>`.

The finite reply script is what bounds the pagination loop: every page that
is processed consumes at least one scripted reply. `Reconcile`'s loop therefore
decreases the length of the remaining script, and `Paginate`/`Items` use the
same measure.

Three behaviours of the code that the model keeps:

- In test mode the run stops once `total_processed >= test_limit`. This is
  checked only after a write, so with `test_limit <= 0` one record is still
  written. The bound proved is `max(test_limit, 1)`, not `test_limit`.
- A PUT attempt succeeds only with status 200; any other status uses up an
  attempt. A GET attempt fails only on a 4xx/5xx status, a body that does
  not decode, a timeout or a transport error. Counting an undecodable body
  as a failed attempt assumes the `requests` library raises its own
  `RequestException` for it (see "## Left out").
- A page body counts as a failed fetch when it is the empty JSON object, as
  Python's `if not response` does.

## Model

| member | source | states |
|---|---|---|
| Remote.FetchFrom | consolidate_jobtitles.py:57-68 | from attempt `i` on, `fetch_persons` makes at most MaxRetries (3) attempts, all attempts before the last failed, it returns the body of the first successful attempt, and it returns nothing only after 3 failures |
| Records.GetSucceeded | consolidate_jobtitles.py:59-61 | a GET attempt succeeds only with a response whose body decodes, and never with a 4xx or 5xx status |
| Records.PutSucceeded | consolidate_jobtitles.py:80 | a PUT attempt succeeds only with a response, and any status other than 200 (201 and 204 included) is a failure |
| Records.IsEmpty | consolidate_jobtitles.py:106 | a decoded body is falsy exactly when it is the empty object `{}` (the same test recurs at line 116) |
| Records.CountOf | consolidate_jobtitles.py:120 | a page's `count`, or 0 when the member is absent |
| Records.ItemsOf | consolidate_jobtitles.py:119 | a page's `items`, or no persons when the member is absent |
| Remote.Fetch | consolidate_jobtitles.py:55-68 | a call makes 1 to 3 GET attempts, and a returned body consumed at least one scripted reply |
| Properties.FetchConsumes | consolidate_jobtitles.py:57-68 | the replies one `fetch_persons` call consumes are a prefix of the script; the only successful reply among them is the last one, whose body is the one returned; so covering the returned page covers every consumed reply |
| Properties.FetchPrefix | consolidate_jobtitles.py:57-68 | a successful `fetch_persons` call consumes the first `attempts` replies, and every successful reply among them carries the body it returns |
| Remote.PutFrom | consolidate_jobtitles.py:77-90 | `update_person` makes at most 3 PUT attempts, all before the last failed, and fewer than 3 only when the last one got status 200 |
| Remote.FetchEffect | consolidate_jobtitles.py:55-68 | a fetch sends only GETs for `(offset, size)`, leaves the PUT side and update calls alone, and a successful fetch shortens the remaining script |
| Remote.UpdateEffect | consolidate_jobtitles.py:71-90 | a dry-run update sends no request; otherwise it sends 1 to 3 PUTs, each carrying the same uuid and the whole association list; it never touches the GET side |
| Remote.FetchPersons | consolidate_jobtitles.py:55-68 | the retry loop returns and consumes exactly what `FetchEffect` describes |
| Remote.UpdatePerson | consolidate_jobtitles.py:71-90 | the dry-run return and the retry loop send exactly what `UpdateEffect` describes |
| Remote.RemoteStore.Get | consolidate_jobtitles.py:59-61 | one GET attempt takes the next scripted reply (a timeout once the script is exhausted) and logs the request |
| Remote.RemoteStore.Put | consolidate_jobtitles.py:79-80 | one PUT attempt takes the next scripted reply and logs the request with its body |
| Ledger.LedgerSet | consolidate_jobtitles.py:34-38 | the loaded set holds exactly the uuids on the ledger's lines |
| Ledger.SavedIsLoaded | consolidate_jobtitles.py:34-43 | appending a uuid adds exactly that uuid to what the next load returns |
| Ledger.LedgerFile.LoadProcessedUuids | consolidate_jobtitles.py:34-38 | loading returns exactly the uuids on the file's lines (none for a missing file) |
| Ledger.LedgerFile.SaveProcessedUuid | consolidate_jobtitles.py:41-43 | saving appends one line and adds exactly that uuid to the loaded set |
| Remap.RemappedCodes | consolidate_jobtitles.py:134-142 | the list keeps its length and order; a code that is a mapping key becomes `mapping[code]`, taken once and not chained; other codes and all other members are unchanged |
| Remap.UriOf | consolidate_jobtitles.py:135-136 | the code is `jobTitle.uri`: absent when the association has no `jobTitle`, and the `jobTitle`'s `uri` otherwise |
| Remap.Rewrites | consolidate_jobtitles.py:137-139 | an association is rewritten only when it has a `jobTitle` with a `uri`; never under an empty mapping table; never when its code maps to itself |
| Remap.NeedsUpdate | consolidate_jobtitles.py:132-141 | the `updated` flag: never set for an empty association list or an empty mapping table, and set only when some association has a `jobTitle` whose code is a mapping key |
| Remap.RemapAssociation | consolidate_jobtitles.py:135-142 | one association after the loop body: a code that is a mapping key becomes `mapping[code]`, any other code is kept, and all other members are unchanged |
| Remap.Remapped | consolidate_jobtitles.py:134-142 | the list after the loop keeps its length, and an association changes exactly when its code is a mapping key with a different value |
| Remap.NeedsUpdateIffChanged | consolidate_jobtitles.py:132-149 | `updated` holds exactly when remapping changes the association list |
| Remap.RemapSettles | consolidate_jobtitles.py:137-141 | when no key maps to another key with a different value, a remapped list needs no further write |
| Remap.ChainIsFollowedOnce | consolidate_jobtitles.py:137-140 | with a chain k -> v -> w, a code k becomes v (not w), and the result would be rewritten again by a later pass |
| Remap.RemapJobTitles | consolidate_jobtitles.py:129-146 | the association loop produces the remapped list, its `updated` flag is true exactly when some code needed rewriting, and `all_match` stays true |
| Engine.Visit | consolidate_jobtitles.py:122-165 | the per-person step never consumes scripted GET replies and never calls `fetch_persons` |
| Engine.Falsy | consolidate_jobtitles.py:106-117 | a falsy fetch result (no body, or the empty object) carries no persons and a count of 0 |
| Engine.Paginate | consolidate_jobtitles.py:114-172 | the pagination loop never ends as a failed probe, and never adds replies to the script |
| Engine.Items | consolidate_jobtitles.py:122-169 | the rest of a page and the loop after it never end as a failed probe, and never add replies to the script |
| Engine.Run | consolidate_jobtitles.py:93-174 | a run ends as a failed probe exactly when the size-1 probe's result is falsy |
| Engine.ProcessPerson | consolidate_jobtitles.py:122-165 | the imperative per-person step (skip, no-change ledgering, or write, ledger and test-mode exit) does exactly what `Visit` describes |
| Engine.Reconcile | consolidate_jobtitles.py:93-174 | the run's probe, pagination loop, page loop and early returns leave the ledger and the remote side exactly as `Run` describes |
| Properties.VisitOutcome | consolidate_jobtitles.py:122-165 | a uuid in the loaded ledger changes nothing; any other uuid is ledgered exactly once, whatever the write's outcome; `update_person` is called, with the whole remapped list of the same length, exactly when remapping changes the list; a write bumps the counter by one, and the run stops exactly when in test mode and the counter reaches the limit |
| Properties.ExtendsTransitive | consolidate_jobtitles.py:122-169 | the run guarantees compose across consecutive stretches of a run |
| Properties.VisitExtends | consolidate_jobtitles.py:122-163 | one person keeps the run guarantees, counts its write, and keeps the counter under the test-mode cap |
| Properties.PaginateSound | consolidate_jobtitles.py:114-172 | from an offset, the loop fetches pages at that offset plus 0, 100, 200, ..., the first at the offset itself; it keeps the run guarantees, counts every update call, and respects the test-mode cap |
| Properties.ItemsSound | consolidate_jobtitles.py:122-169 | the rest of a page, then the advance by 100 and the end test, keeps the same guarantees, with the next fetch, if any, at `offset + 100` |
| Properties.FalsyFetchEnds | consolidate_jobtitles.py:115-117 | a falsy page fetch ends the loop at once: nothing is ledgered or written and no further fetch is made |
| Properties.PaginateStops | consolidate_jobtitles.py:114-172 | the loop consumes a prefix of the reply script and makes at least one fetch; a falsy fetch ends it with nothing else done; a test-mode stop happens only once `total_processed >= test_limit`; unless the test limit cuts the run short, every person of every fetched page whose uuid was not loaded from the ledger is ledgered; after a truthy fetch there is no further fetch and no failed fetch when `offset + 100 >= count` for that page's own `count`, and otherwise the loop fetches again unless the test limit stops it |
| Properties.PageStops | consolidate_jobtitles.py:118-169 | after a truthy page fetch, the same ending guarantees as `PaginateStops`, and the loop goes on past this page exactly when `offset + 100` is below the page's own `count` (lines 120, 167-169), unless the test limit stops it |
| Properties.ItemsStop | consolidate_jobtitles.py:122-169 | when `offset + 100 >= count` there is no further fetch and no failed fetch; when `offset + 100 < count` the loop ends without a further fetch only at the test-mode stop; unless the test limit cuts the run short, every person of the page whose uuid was not loaded from the ledger is ledgered |
| Properties.RunSound | consolidate_jobtitles.py:93-174 | a whole run: no uuid of the loaded ledger is ledgered again or written; every written uuid is ledgered; a dry run sends no PUT; `total_processed` equals the number of `update_person` calls and in test mode is at most `max(test_limit, 1)`; the probe is (0, 1) and the pages are at offsets 0, 100, 200, ...; a falsy probe reply ends the run with nothing changed but the consumed probe replies |
| Properties.RunStops | consolidate_jobtitles.py:93-174 | the run aborts exactly when the probe reply is falsy; a test-mode stop happens only once `total_processed >= test_limit`; a run the test limit does not cut short ledgers every person of every page fetched after the probe whose uuid was not already in the ledger; after a truthy probe and a truthy first page, a second page is fetched exactly when the first page's `count` exceeds 100, unless the test limit stops the run |
| Properties.PaginateResumes | consolidate_jobtitles.py:114-127 | when every person the remaining script can deliver is in the loaded ledger, the loop ledgers and writes nothing |
| Properties.ItemsResume | consolidate_jobtitles.py:122-127 | a page of already-ledgered persons, and the pages after it, ledger and write nothing |
| Properties.RunResumes | consolidate_jobtitles.py:102-127 | a rerun over a collection whose every person is in the ledger file makes no write and appends nothing |
| Properties.RerunWritesNothing | consolidate_jobtitles.py:102-165 | after a run the test limit did not cut short, a second run from the ledger it left, over pages the first run fetched, writes nothing and ledgers nothing |
| Properties.RepeatedPersonIsHandledTwice | consolidate_jobtitles.py:102-159 | the loaded set is never extended during a run, so a person that appears twice in a page and needs a change is written and ledgered twice |
| Properties.ExampleRecord | consolidate_jobtitles.py:129-159 | with mapping old/123 -> new/456, record u1 coded old/123 is rewritten to new/456, written with its whole list, and ledgered |

## Left out

- HTTP through `requests`, the base URL, the API key and headers, and JSON decoding (consolidate_jobtitles.py:19-26, 59-61, 79). They are foreign calls. Each attempt's outcome comes from a scripted reply instead: a status and a decoded body, a timeout, or a transport error.
- `load_mapping_table` (consolidate_jobtitles.py:46-52) reads a spreadsheet through `pandas`. The mapping is an input map instead. Its failure path, which raises before any remote call, is not modelled.
- The ledger's file I/O (consolidate_jobtitles.py:34-43) is a sequence of lines. The `strip()` of each line is not modelled: saved uuids are stored without surrounding whitespace.
- Logging, the `tqdm` progress bar and the probe's `total_count`, which only feeds the progress bar (consolidate_jobtitles.py:9-13, 109-113, 126, 152, 165). They are observability only.
- `time.sleep`, `RETRY_DELAY` and `REQUEST_TIMEOUT` (consolidate_jobtitles.py:29-31, 66, 89, 172). They are wall-clock behaviour with no logical effect.
- The `__main__` entry point (consolidate_jobtitles.py:176-181).
- Crashes on malformed data are not modelled; the record types rule these inputs out. The source raises on: a truthy body that is not an object (lines 109 and 119); `items` present but `null` or another value that cannot be iterated (line 122); `items` a non-empty string or a non-empty object, whose elements are not person objects (line 123; an empty string or object iterates nothing and acts as an empty `items`, which the model covers only as the empty list); a person that is not an object or has no `uuid` (line 123); `staffOrganizationAssociations` present but `null` (line 134); an association that is not an object (line 135); a `jobTitle` that is not an object (line 136); a `count` that cannot be compared with an integer (line 168). A falsy body that is not an object (`null`, `[]`, `0`, `""`) does not crash: `main` stops at lines 106-108 or 116-117. The model's `Falsy` covers only the absent body and the empty object, so these other falsy values are not modelled.
- An absent `staffOrganizationAssociations` member is modelled as the empty list. The source treats both the same way.
- The association list is a value. The source rewrites the dictionaries inside the fetched page in place. That aliasing is not modelled; the page is not read again after the rewrite, so nothing observable depends on it.
- A remote store that keeps answering forever is not modelled. The reply script is finite, and after it every attempt times out. This is what bounds the pagination loop.
- Engine.Visit: its own contract states only the frame facts needed for termination; the per-record decision is stated by Properties.VisitOutcome.
- PaginateSound: states the guarantees the loop keeps, not how it ends; the ending conditions and which persons it reaches are stated by Properties.PaginateStops.
- ItemsSound: states the guarantees the page loop keeps, not how it ends; the `offset + 100 >= count` test and the coverage of the page are stated by Properties.ItemsStop.
- RunSound: states the guarantees a run keeps; the probe test, the test-mode stop and the coverage of every fetched page are stated by Properties.RunStops.
- The decode error of `response.json()` (consolidate_jobtitles.py:61) is modelled as a failed attempt that is retried. That holds only where the `requests` library raises it as a `requests.exceptions.RequestException`, as it does from version 2.27 on. With older versions it is a plain `ValueError`: it escapes `fetch_persons` and ends `main`. That crash is not modelled.
- The default arguments of `main` (consolidate_jobtitles.py:93): `test_mode=False`, `dry_run=True` (by default nothing is written) and `test_limit=100`. `Reconcile` and `Run` take all three as explicit parameters.
