/** The reconciliation engine (`main`): a size-1 probe, then pages of 100
    persons from offset 0, each person skipped, ledgered without a write, or
    written back whole and ledgered; the run ends on a failed fetch, past the
    last page, or at the test-mode limit. */
module Engine {
  import opened Records
  import opened Remote
  import opened Remap
  import opened Ledger

  /** `size`: the page size of the pagination loop. */
  const PageSize: int := 100
  /** The page size of the initial probe for the total count. */
  const ProbeSize: int := 1

  /** The run's options: `test_mode`, `dry_run`, `test_limit`. */
  datatype Config = Config(testMode: bool, dryRun: bool, testLimit: int)

  /** The state outside the run's locals: the ledger file's lines and the remote side. */
  datatype Sys = Sys(ledger: seq<string>, store: StoreView)

  /** What is fixed for a whole run: the uuids loaded from the ledger at the
      start (never extended afterwards), the mapping table and the options. */
  datatype Ctx = Ctx(processed: set<string>, mapping: Mapping, cfg: Config)

  /** The state after one person: the world, `total_processed`, and whether the run returns. */
  datatype Visited = Visited(sys: Sys, total: int, stop: bool)

  /** How a run ended. */
  datatype End = ProbeFailed | FetchFailed | Exhausted | TestLimitReached

  datatype Final = Final(sys: Sys, total: int, end: End)

  ghost function Snapshot(ledger: LedgerFile, store: RemoteStore): Sys
    reads ledger, store
  {
    Sys(ledger.lines, store.View())
  }

  /** `if not response`: no body, or the empty object. */
  predicate Falsy(response: Option<Body>)
    ensures Falsy(response) ==> response.None? || (ItemsOf(response.value) == [] && CountOf(response.value) == 0)
  {
    response.None? || IsEmpty(response.value)
  }

  /** The per-person step of the page loop. */
  function Visit(s: Sys, person: Person, total: int, ctx: Ctx): (v: Visited)
    ensures v.sys.store.getReplies == s.store.getReplies
    ensures v.sys.store.fetchCalls == s.store.fetchCalls
  {
    if person.uuid in ctx.processed then Visited(s, total, false)
    else if !NeedsUpdate(person.associations, ctx.mapping) then
      Visited(s.(ledger := s.ledger + [person.uuid]), total, false)
    else
      var store := UpdateEffect(s.store, person.uuid, Remapped(person.associations, ctx.mapping), ctx.cfg.dryRun);
      var t := total + 1;
      Visited(Sys(s.ledger + [person.uuid], store), t, ctx.cfg.testMode && t >= ctx.cfg.testLimit)
  }

  /** The pagination loop from the top of an iteration at `offset`. */
  function Paginate(s: Sys, offset: int, total: int, ctx: Ctx): (f: Final)
    ensures f.end != ProbeFailed
    ensures |f.sys.store.getReplies| <= |s.store.getReplies|
    decreases |s.store.getReplies|, 0
  {
    var (response, store) := FetchEffect(s.store, offset, PageSize);
    if Falsy(response) then Final(s.(store := store), total, FetchFailed)
    else Items(s.(store := store), ItemsOf(response.value), CountOf(response.value), offset, total, ctx)
  }

  /** The rest of the page at `offset` whose `count` is `count`, with `items`
      still to visit; then the advance of the offset and the end test. */
  function Items(s: Sys, items: seq<Person>, count: int, offset: int, total: int, ctx: Ctx): (f: Final)
    ensures f.end != ProbeFailed
    ensures |f.sys.store.getReplies| <= |s.store.getReplies|
    decreases |s.store.getReplies|, |items| + 1
  {
    if items == [] then
      if offset + PageSize >= count then Final(s, total, Exhausted)
      else Paginate(s, offset + PageSize, total, ctx)
    else
      var v := Visit(s, items[0], total, ctx);
      if v.stop then Final(v.sys, v.total, TestLimitReached)
      else Items(v.sys, items[1..], count, offset, v.total, ctx)
  }

  /** A whole run of `main` on the world `s`. */
  function Run(s: Sys, mapping: Mapping, cfg: Config): (f: Final)
    ensures f.end == ProbeFailed <==> Falsy(FetchEffect(s.store, 0, ProbeSize).0)
    ensures |f.sys.store.getReplies| <= |s.store.getReplies|
  {
    var ctx := Ctx(LedgerSet(s.ledger), mapping, cfg);
    var (probe, store) := FetchEffect(s.store, 0, ProbeSize);
    if Falsy(probe) then Final(s.(store := store), 0, ProbeFailed)
    else Paginate(s.(store := store), 0, 0, ctx)
  }

  // ---------------------------------------------------------------------
  // The imperative engine
  // ---------------------------------------------------------------------

  /** One iteration of the page loop: the skip test, the association loop,
      the no-change path, and the write-and-ledger path with the test-mode
      exit (reported as `stop`). */
  method ProcessPerson(ledger: LedgerFile, store: RemoteStore, person: Person, total: int, ctx: Ctx)
    returns (newTotal: int, stop: bool)
    modifies ledger, store
    ensures Visited(Snapshot(ledger, store), newTotal, stop) == Visit(old(Snapshot(ledger, store)), person, total, ctx)
  {
    newTotal, stop := total, false;
    var uuid := person.uuid;
    if uuid in ctx.processed {
      return;
    }
    var associations, updated, allMatch := RemapJobTitles(person.associations, ctx.mapping);
    if allMatch && !updated {
      ledger.SaveProcessedUuid(uuid);
      return;
    }
    if updated {
      UpdatePerson(store, uuid, associations, ctx.cfg.dryRun);
      newTotal := total + 1;
      ledger.SaveProcessedUuid(uuid);
      if ctx.cfg.testMode && newTotal >= ctx.cfg.testLimit {
        stop := true;
      }
    }
  }

  /** `main`: load the ledger, probe the count, then page through the
      collection until a fetch fails, the offset passes the count, or the
      test-mode limit is reached. */
  method Reconcile(ledger: LedgerFile, store: RemoteStore, mapping: Mapping, testMode: bool, dryRun: bool, testLimit: int)
    modifies ledger, store
    ensures Snapshot(ledger, store) == Run(old(Snapshot(ledger, store)), mapping, Config(testMode, dryRun, testLimit)).sys
  {
    var size := PageSize;
    var offset := 0;
    var total := 0;
    var processed := ledger.LoadProcessedUuids();
    var ctx := Ctx(processed, mapping, Config(testMode, dryRun, testLimit));
    assert processed == LedgerSet(ledger.lines);
    ghost var run := Run(Snapshot(ledger, store), mapping, ctx.cfg);

    var initial := FetchPersons(store, 0, ProbeSize);
    if Falsy(initial) {
      return;
    }
    while true
      invariant Paginate(Snapshot(ledger, store), offset, total, ctx) == run
      decreases |store.getReplies|
    {
      ghost var before := Snapshot(ledger, store);
      var response := FetchPersons(store, offset, size);
      if Falsy(response) {
        break;
      }
      var items := ItemsOf(response.value);
      var count := CountOf(response.value);
      assert Items(Snapshot(ledger, store), items, count, offset, total, ctx) == run;
      ghost var replies := store.getReplies;
      assert |replies| < |before.store.getReplies|;
      for i := 0 to |items|
        invariant Items(Snapshot(ledger, store), items[i..], count, offset, total, ctx) == run
        invariant store.getReplies == replies
      {
        assert items[i..][0] == items[i] && items[i..][1..] == items[i + 1..];
        var stop;
        total, stop := ProcessPerson(ledger, store, items[i], total, ctx);
        if stop {
          return;
        }
      }
      assert items[|items|..] == [];
      offset := offset + size;
      if offset >= count {
        break;
      }
    }
  }
}
