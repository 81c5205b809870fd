/** What a run of the reconciliation engine guarantees. */
module Properties {
  import opened Records
  import opened Remote
  import opened Remap
  import opened Ledger
  import opened Engine

  /** The per-record decision: a uuid loaded from the ledger changes nothing;
      any other uuid is ledgered exactly once; and `update_person` is called,
      with the whole remapped list, exactly when remapping changes the list. */
  lemma {:induction false} VisitOutcome(s: Sys, person: Person, total: int, ctx: Ctx)
    ensures var v := Visit(s, person, total, ctx);
      var remapped := Remapped(person.associations, ctx.mapping);
      && (person.uuid in ctx.processed ==> v == Visited(s, total, false))
      && (person.uuid !in ctx.processed ==> v.sys.ledger == s.ledger + [person.uuid])
      && (person.uuid !in ctx.processed && remapped == person.associations ==>
            v.sys.store == s.store && v.total == total && !v.stop)
      && (person.uuid !in ctx.processed && remapped != person.associations ==>
            && v.sys.store.updateCalls == s.store.updateCalls + [Update(person.uuid, remapped)]
            && |remapped| == |person.associations|
            && v.total == total + 1
            && (v.stop <==> ctx.cfg.testMode && v.total >= ctx.cfg.testLimit))
  {
    NeedsUpdateIffChanged(person.associations, ctx.mapping);
  }

  /** What a stretch of a run may have done to the world, from `s` to `t`:
      the ledger, the update calls and the requests only grow; nothing loaded
      from the ledger at the start is ledgered again or written; every
      written uuid is also ledgered; a dry run sends no PUT. */
  ghost predicate Extends(s: Sys, t: Sys, ctx: Ctx)
  {
    && s.ledger <= t.ledger
    && s.store.updateCalls <= t.store.updateCalls
    && s.store.requests <= t.store.requests
    && (forall k | |s.ledger| <= k < |t.ledger| :: t.ledger[k] !in ctx.processed)
    && (forall k | |s.store.updateCalls| <= k < |t.store.updateCalls| ::
          t.store.updateCalls[k].uuid in t.ledger[|s.ledger|..])
    && (ctx.cfg.dryRun ==> forall k | |s.store.requests| <= k < |t.store.requests| :: t.store.requests[k].HttpGet?)
  }

  lemma ExtendsTransitive(a: Sys, b: Sys, c: Sys, ctx: Ctx)
    requires Extends(a, b, ctx) && Extends(b, c, ctx)
    ensures Extends(a, c, ctx)
  {
    forall k | |a.store.updateCalls| <= k < |c.store.updateCalls|
      ensures c.store.updateCalls[k].uuid in c.ledger[|a.ledger|..]
    {
      assert c.ledger[|a.ledger|..] == b.ledger[|a.ledger|..] + c.ledger[|b.ledger|..];
      if k < |b.store.updateCalls| {
        assert c.store.updateCalls[k] == b.store.updateCalls[k];
      }
    }
  }

  /** In test mode, the counter before a visit is below the limit, or zero. */
  ghost predicate BelowLimit(total: int, cfg: Config)
  {
    0 <= total && (cfg.testMode ==> total == 0 || total < cfg.testLimit)
  }

  /** The largest value `total_processed` can reach in test mode. */
  function TestCap(cfg: Config): (cap: int)
    ensures 1 <= cap && cfg.testLimit <= cap
  {
    if cfg.testLimit < 1 then 1 else cfg.testLimit
  }

  lemma VisitExtends(s: Sys, person: Person, total: int, ctx: Ctx)
    requires BelowLimit(total, ctx.cfg)
    ensures var v := Visit(s, person, total, ctx);
      && Extends(s, v.sys, ctx)
      && v.total - total == |v.sys.store.updateCalls| - |s.store.updateCalls|
      && (!v.stop ==> BelowLimit(v.total, ctx.cfg))
      && (ctx.cfg.testMode ==> v.total <= TestCap(ctx.cfg))
  {
    var v := Visit(s, person, total, ctx);
    if person.uuid !in ctx.processed && NeedsUpdate(person.associations, ctx.mapping) {
      assert v.sys.ledger[|s.ledger|..] == [person.uuid];
    }
  }

  /** Every person in a page that one of `replies` delivered, unless its uuid
      is in `processed`, is among `ledgered`. */
  ghost predicate Covered(replies: seq<GetReply>, processed: set<string>, ledgered: seq<string>)
  {
    forall i, p | 0 <= i < |replies| && GetSucceeded(replies[i]) && p in ItemsOf(replies[i].body.value) && p.uuid !in processed ::
      p.uuid in ledgered
  }

  /** What was ledgered after position `j` of a ledger was also ledgered after
      any earlier position `i`. */
  lemma CoveredWiden(replies: seq<GetReply>, processed: set<string>, ledger: seq<string>, i: nat, j: nat)
    requires i <= j <= |ledger|
    requires Covered(replies, processed, ledger[j..])
    ensures Covered(replies, processed, ledger[i..])
  {
    assert ledger[i..] == ledger[i..j] + ledger[j..];
  }

  /** The replies one `fetch_persons` call consumes are a prefix of the script,
      and the only successful one among them is the one whose body it returns. */
  lemma FetchConsumes(replies: seq<GetReply>, processed: set<string>, ledgered: seq<string>)
    ensures var f := Fetch(replies);
      var rest := Drop(replies, f.attempts);
      && rest == replies[|replies| - |rest|..]
      && ((f.body.Some? ==> forall p | p in ItemsOf(f.body.value) && p.uuid !in processed :: p.uuid in ledgered)
          ==> Covered(replies[..|replies| - |rest|], processed, ledgered))
    ensures var f := Fetch(replies);
      var consumed := replies[..|replies| - |Drop(replies, f.attempts)|];
      forall i | 0 <= i < |consumed| && GetSucceeded(consumed[i]) :: i == f.attempts - 1 && f.body == consumed[i].body
  {
    var f := Fetch(replies);
    var consumed := replies[..|replies| - |Drop(replies, f.attempts)|];
    forall i | 0 <= i < |consumed| && GetSucceeded(consumed[i])
      ensures i == f.attempts - 1 && f.body == consumed[i].body
    {
      assert consumed[i] == GetReplyAt(replies, i);
    }
  }

  /** A successful `fetch_persons` call consumes the first `attempts`
      replies of the script, and every successful reply among them carries
      the body it returns. */
  lemma FetchPrefix(gets: seq<GetReply>)
    requires Fetch(gets).body.Some?
    ensures var f := Fetch(gets);
      && f.attempts <= |gets|
      && Drop(gets, f.attempts) == gets[f.attempts..]
      && forall i | 0 <= i < f.attempts && GetSucceeded(gets[i]) :: gets[i].body == f.body
  {
    var f := Fetch(gets);
    forall i | 0 <= i < f.attempts && GetSucceeded(gets[i]) ensures gets[i].body == f.body {
      assert gets[i] == GetReplyAt(gets, i);
    }
  }

  /** A page fetched from the first `n` replies whose persons are covered,
      then a stretch that covers what it consumed of the rest: everything
      consumed from the script is covered. */
  lemma PageThenCovered(gets: seq<GetReply>, n: nat, body: Body, after: seq<GetReply>, processed: set<string>, ledgered: seq<string>)
    requires n <= |gets|
    requires forall i | 0 <= i < n && GetSucceeded(gets[i]) :: gets[i].body == Some(body)
    requires forall p | p in ItemsOf(body) && p.uuid !in processed :: p.uuid in ledgered
    requires |after| <= |gets| - n
    requires Covered(gets[n..][..|gets| - n - |after|], processed, ledgered)
    ensures Covered(gets[..|gets| - |after|], processed, ledgered)
  {
    var m := |gets| - |after|;
    forall i, p | 0 <= i < m && GetSucceeded(gets[..m][i]) && p in ItemsOf(gets[..m][i].body.value) && p.uuid !in processed
      ensures p.uuid in ledgered
    {
      if n <= i {
        assert gets[..m][i] == gets[n..][..|gets| - n - |after|][i - n];
      }
    }
  }

  /** One person, then the rest of the page: if the rest is covered by what
      was ledgered after the person, the whole page is covered by what was
      ledgered from the start. */
  lemma StepCovered(items: seq<Person>, processed: set<string>, s: seq<string>, v: seq<string>, f: seq<string>, consumed: seq<GetReply>)
    requires items != []
    requires v == if items[0].uuid in processed then s else s + [items[0].uuid]
    requires v <= f
    requires forall p | p in items[1..] && p.uuid !in processed :: p.uuid in f[|v|..]
    requires Covered(consumed, processed, f[|v|..])
    ensures forall p | p in items && p.uuid !in processed :: p.uuid in f[|s|..]
    ensures Covered(consumed, processed, f[|s|..])
  {
    assert f[|s|..] == f[|s|..|v|] + f[|v|..];
    if items[0].uuid !in processed {
      assert f[|s|..|v|] == [items[0].uuid];
    }
    forall p | p in items && p.uuid !in processed ensures p.uuid in f[|s|..] {
      if p != items[0] {
        assert p in items[1..];
      }
    }
    CoveredWiden(consumed, processed, f, |s|, |v|);
  }

  /** How a stretch of the loop from `s` that ends in `f` ends: the ledger
      only grows; the script left is a suffix of the one at the start; the
      test-mode stop happens only once the counter has reached the limit; and
      unless the test limit cuts the run short, every person of every page the
      consumed replies delivered whose uuid was not loaded from the ledger was
      ledgered on the way. */
  ghost predicate Settled(s: Sys, f: Final, ctx: Ctx)
  {
    var gets := s.store.getReplies;
    && s.ledger <= f.sys.ledger
    && |f.sys.store.getReplies| <= |gets|
    && f.sys.store.getReplies == gets[|gets| - |f.sys.store.getReplies|..]
    && (f.end == TestLimitReached ==> ctx.cfg.testMode && f.total >= ctx.cfg.testLimit)
    && (f.end != TestLimitReached ==>
          Covered(gets[..|gets| - |f.sys.store.getReplies|], ctx.processed, f.sys.ledger[|s.ledger|..]))
  }

  /** A page taken from the first `n` replies of the script, whose persons
      the rest of the stretch covers, then that stretch: together they
      settle. */
  lemma PageSettles(s: Sys, s1: Sys, f: Final, ctx: Ctx, n: nat, body: Body)
    requires n <= |s.store.getReplies| && s1.store.getReplies == s.store.getReplies[n..]
    requires forall i | 0 <= i < n && GetSucceeded(s.store.getReplies[i]) :: s.store.getReplies[i].body == Some(body)
    requires s1.ledger == s.ledger
    requires Settled(s1, f, ctx)
    requires f.end != TestLimitReached ==>
      forall p | p in ItemsOf(body) && p.uuid !in ctx.processed :: p.uuid in f.sys.ledger[|s.ledger|..]
    ensures Settled(s, f, ctx)
  {
    var gets := s.store.getReplies;
    var after := f.sys.store.getReplies;
    assert after == gets[|gets| - |after|..] by {
      assert gets[n..][|gets| - n - |after|..] == gets[|gets| - |after|..];
    }
    if f.end != TestLimitReached {
      PageThenCovered(gets, n, body, after, ctx.processed, f.sys.ledger[|s.ledger|..]);
    }
  }

  /** One person of a page, then the rest of the stretch: if the person's
      visit ledgered it (unless it was loaded from the ledger) and the rest
      settles and covers the rest of the page, the whole settles and covers
      the whole page. */
  lemma StepSettles(s: Sys, v: Sys, f: Final, ctx: Ctx, items: seq<Person>)
    requires items != []
    requires v.store.getReplies == s.store.getReplies
    requires v.ledger == if items[0].uuid in ctx.processed then s.ledger else s.ledger + [items[0].uuid]
    requires Settled(v, f, ctx)
    requires f.end != TestLimitReached ==>
      forall p | p in items[1..] && p.uuid !in ctx.processed :: p.uuid in f.sys.ledger[|v.ledger|..]
    ensures Settled(s, f, ctx)
    ensures f.end != TestLimitReached ==>
      forall p | p in items && p.uuid !in ctx.processed :: p.uuid in f.sys.ledger[|s.ledger|..]
  {
    var gets := s.store.getReplies;
    assert s.ledger <= v.ledger <= f.sys.ledger;
    if f.end != TestLimitReached {
      var consumed := gets[..|gets| - |f.sys.store.getReplies|];
      assert Covered(consumed, ctx.processed, f.sys.ledger[|v.ledger|..]);
      StepCovered(items, ctx.processed, s.ledger, v.ledger, f.sys.ledger, consumed);
    }
  }

  /** A falsy fetch at the top of the loop ends it with nothing else done,
      having consumed only replies that deliver no page. */
  lemma FalsyFetchEnds(s: Sys, offset: int, total: int, ctx: Ctx)
    requires Falsy(FetchEffect(s.store, offset, PageSize).0)
    ensures var f := Paginate(s, offset, total, ctx);
      && f == Final(s.(store := FetchEffect(s.store, offset, PageSize).1), total, FetchFailed)
      && Settled(s, f, ctx)
  {
    FetchConsumes(s.store.getReplies, ctx.processed, []);
  }

  /** The pagination loop from `offset`: it extends the world as above, its
      counter counts its update calls, the test-mode cap holds, and its
      fetches are at `offset`, `offset + 100`, ... in pages of 100, the first
      of them at `offset` itself. */
  lemma {:induction false} PaginateSound(s: Sys, offset: int, total: int, ctx: Ctx)
    requires BelowLimit(total, ctx.cfg)
    ensures var f := Paginate(s, offset, total, ctx);
      && Extends(s, f.sys, ctx)
      && f.total - total == |f.sys.store.updateCalls| - |s.store.updateCalls|
      && (ctx.cfg.testMode ==> f.total <= TestCap(ctx.cfg))
      && s.store.fetchCalls < f.sys.store.fetchCalls
      && (forall k | |s.store.fetchCalls| <= k < |f.sys.store.fetchCalls| ::
            f.sys.store.fetchCalls[k] == (offset + PageSize * (k - |s.store.fetchCalls|), PageSize))
    decreases |s.store.getReplies|, 0
  {
    var (response, store) := FetchEffect(s.store, offset, PageSize);
    var s1 := s.(store := store);
    assert Extends(s, s1, ctx);
    if !Falsy(response) {
      ItemsSound(s1, ItemsOf(response.value), CountOf(response.value), offset, total, ctx);
      ExtendsTransitive(s, s1, Items(s1, ItemsOf(response.value), CountOf(response.value), offset, total, ctx).sys, ctx);
    }
  }

  /** The rest of a page, then the advance by 100 and the end test: the same
      guarantees, with the next fetch, if any, 100 past `offset`. */
  lemma {:induction false} ItemsSound(s: Sys, items: seq<Person>, count: int, offset: int, total: int, ctx: Ctx)
    requires BelowLimit(total, ctx.cfg)
    ensures var f := Items(s, items, count, offset, total, ctx);
      && Extends(s, f.sys, ctx)
      && f.total - total == |f.sys.store.updateCalls| - |s.store.updateCalls|
      && (ctx.cfg.testMode ==> f.total <= TestCap(ctx.cfg))
      && s.store.fetchCalls <= f.sys.store.fetchCalls
      && (forall k | |s.store.fetchCalls| <= k < |f.sys.store.fetchCalls| ::
            f.sys.store.fetchCalls[k] == (offset + PageSize * (k - |s.store.fetchCalls| + 1), PageSize))
    decreases |s.store.getReplies|, |items| + 1
  {
    if items == [] {
      if offset + PageSize < count {
        PaginateSound(s, offset + PageSize, total, ctx);
      }
    } else {
      var v := Visit(s, items[0], total, ctx);
      VisitExtends(s, items[0], total, ctx);
      if !v.stop {
        ItemsSound(v.sys, items[1..], count, offset, v.total, ctx);
        ExtendsTransitive(s, v.sys, Items(v.sys, items[1..], count, offset, v.total, ctx).sys, ctx);
      }
    }
  }

  /** How the pagination loop from `offset` ends. It consumes a prefix of the
      reply script and makes at least one fetch. A falsy fetch ends the loop
      at once with nothing else done. The test-mode stop happens only once the
      counter has reached the limit. Unless the test limit cuts the run short,
      every person of every page it fetched whose uuid was not loaded from the
      ledger is ledgered. After a truthy fetch, the loop fetches again exactly
      when `offset + 100` is below that page's `count`, unless the test limit
      stops it first. */
  lemma {:induction false} PaginateStops(s: Sys, offset: int, total: int, ctx: Ctx)
    ensures var f := Paginate(s, offset, total, ctx);
      && Settled(s, f, ctx)
      && s.store.fetchCalls < f.sys.store.fetchCalls
      && (Falsy(FetchEffect(s.store, offset, PageSize).0) ==>
            f == Final(s.(store := FetchEffect(s.store, offset, PageSize).1), total, FetchFailed))
    ensures var f := Paginate(s, offset, total, ctx);
      var (page, after) := FetchEffect(s.store, offset, PageSize);
      !Falsy(page) ==>
        && (offset + PageSize >= CountOf(page.value) ==> f.sys.store.fetchCalls == after.fetchCalls && f.end != FetchFailed)
        && (f.sys.store.fetchCalls == after.fetchCalls ==> f.end == TestLimitReached || offset + PageSize >= CountOf(page.value))
    decreases |s.store.getReplies|, 0, 1
  {
    if Falsy(FetchEffect(s.store, offset, PageSize).0) {
      FalsyFetchEnds(s, offset, total, ctx);
    } else {
      PageStops(s, offset, total, ctx);
    }
  }

  /** `PaginateStops` when the fetch at the top of the loop is truthy; the
      loop then goes on to `offset + 100` exactly as the fetched page's own
      `count` says, unless the test limit stops it first. */
  lemma {:induction false} PageStops(s: Sys, offset: int, total: int, ctx: Ctx)
    requires !Falsy(FetchEffect(s.store, offset, PageSize).0)
    ensures var f := Paginate(s, offset, total, ctx);
      Settled(s, f, ctx) && s.store.fetchCalls < f.sys.store.fetchCalls
    ensures var f := Paginate(s, offset, total, ctx);
      var (page, after) := FetchEffect(s.store, offset, PageSize);
      && (offset + PageSize >= CountOf(page.value) ==> f.sys.store.fetchCalls == after.fetchCalls && f.end != FetchFailed)
      && (f.sys.store.fetchCalls == after.fetchCalls ==> f.end == TestLimitReached || offset + PageSize >= CountOf(page.value))
    decreases |s.store.getReplies|, 0, 0
  {
    var (response, store) := FetchEffect(s.store, offset, PageSize);
    var s1 := s.(store := store);
    var items, count := ItemsOf(response.value), CountOf(response.value);
    var f := Items(s1, items, count, offset, total, ctx);
    assert Paginate(s, offset, total, ctx) == f;
    assert s1.store.fetchCalls == s.store.fetchCalls + [(offset, PageSize)];
    ItemsStop(s1, items, count, offset, total, ctx);
    FetchPrefix(s.store.getReplies);
    PageSettles(s, s1, f, ctx, Fetch(s.store.getReplies).attempts, response.value);
  }

  /** How the rest of a page, and the loop after it, end. Besides settling:
      when `offset + 100 >= count` there is no further fetch and no failed
      fetch; when `offset + 100 < count` the only way to end without a
      further fetch is the test-mode stop; and unless the test limit cuts the
      run short, every person of the page whose uuid was not loaded from the
      ledger is ledgered. */
  lemma {:induction false} ItemsStop(s: Sys, items: seq<Person>, count: int, offset: int, total: int, ctx: Ctx)
    ensures var f := Items(s, items, count, offset, total, ctx);
      && Settled(s, f, ctx)
      && s.store.fetchCalls <= f.sys.store.fetchCalls
      && (offset + PageSize >= count ==> f.sys.store.fetchCalls == s.store.fetchCalls && f.end != FetchFailed)
      && (f.sys.store.fetchCalls == s.store.fetchCalls ==> f.end == TestLimitReached || offset + PageSize >= count)
      && (f.end != TestLimitReached ==>
            forall p | p in items && p.uuid !in ctx.processed :: p.uuid in f.sys.ledger[|s.ledger|..])
    decreases |s.store.getReplies|, |items| + 1, 0
  {
    var gets := s.store.getReplies;
    if items == [] {
      if offset + PageSize < count {
        PaginateStops(s, offset + PageSize, total, ctx);
      }
    } else {
      var v := Visit(s, items[0], total, ctx);
      VisitOutcome(s, items[0], total, ctx);
      if !v.stop {
        var f := Items(v.sys, items[1..], count, offset, v.total, ctx);
        ItemsStop(v.sys, items[1..], count, offset, v.total, ctx);
        StepSettles(s, v.sys, f, ctx, items);
      }
    }
  }

  /** A whole run: nothing whose uuid was in the ledger at the start is
      ledgered or written; every written uuid is ledgered; a dry run sends no
      PUT; `total_processed` is the number of `update_person` calls and in
      test mode is at most `max(test_limit, 1)`; the probe is at offset 0 with
      size 1 and the pages follow at offsets 0, 100, 200, ...; a falsy probe
      reply ends the run with nothing else done. */
  lemma RunSound(s: Sys, mapping: Mapping, cfg: Config)
    ensures var f := Run(s, mapping, cfg);
      var ctx := Ctx(LedgerSet(s.ledger), mapping, cfg);
      var (probe, afterProbe) := FetchEffect(s.store, 0, ProbeSize);
      && Extends(s, f.sys, ctx)
      && f.total == |f.sys.store.updateCalls| - |s.store.updateCalls|
      && (cfg.testMode ==> f.total <= TestCap(cfg))
      && s.store.fetchCalls < f.sys.store.fetchCalls
      && f.sys.store.fetchCalls[|s.store.fetchCalls|] == (0, ProbeSize)
      && (forall k | |s.store.fetchCalls| < k < |f.sys.store.fetchCalls| ::
            f.sys.store.fetchCalls[k] == (PageSize * (k - |s.store.fetchCalls| - 1), PageSize))
      && (Falsy(probe) ==> f == Final(s.(store := afterProbe), 0, ProbeFailed))
  {
    var ctx := Ctx(LedgerSet(s.ledger), mapping, cfg);
    var (probe, store) := FetchEffect(s.store, 0, ProbeSize);
    var s1 := s.(store := store);
    assert Extends(s, s1, ctx);
    if !Falsy(probe) {
      PaginateSound(s1, 0, 0, ctx);
      ExtendsTransitive(s, s1, Paginate(s1, 0, 0, ctx).sys, ctx);
    }
  }

  /** How a whole run ends: it aborts exactly when the probe reply is falsy;
      the test-mode stop happens only once the counter has reached the limit;
      and a run the test limit does not cut short ledgers every person of
      every page it fetched after the probe whose uuid was not already in the
      ledger. After a truthy probe and a truthy first page, a second page is
      fetched exactly when that first page's `count` exceeds 100, unless the
      test limit stops the run first; the probe's own `count` plays no part. */
  lemma RunStops(s: Sys, mapping: Mapping, cfg: Config)
    ensures var f := Run(s, mapping, cfg);
      var (probe, afterProbe) := FetchEffect(s.store, 0, ProbeSize);
      var rest := afterProbe.getReplies;
      && (f.end == ProbeFailed <==> Falsy(probe))
      && (f.end == TestLimitReached ==> cfg.testMode && f.total >= cfg.testLimit)
      && s.ledger <= f.sys.ledger
      && |f.sys.store.getReplies| <= |rest|
      && (f.end != TestLimitReached ==>
            Covered(rest[..|rest| - |f.sys.store.getReplies|], LedgerSet(s.ledger), f.sys.ledger[|s.ledger|..]))
    ensures var f := Run(s, mapping, cfg);
      var (probe, afterProbe) := FetchEffect(s.store, 0, ProbeSize);
      var (page, afterPage) := FetchEffect(afterProbe, 0, PageSize);
      !Falsy(probe) && !Falsy(page) ==>
        && (PageSize >= CountOf(page.value) ==> f.sys.store.fetchCalls == afterPage.fetchCalls && f.end != FetchFailed)
        && (f.sys.store.fetchCalls == afterPage.fetchCalls ==> f.end == TestLimitReached || PageSize >= CountOf(page.value))
  {
    var (probe, store) := FetchEffect(s.store, 0, ProbeSize);
    if !Falsy(probe) {
      PaginateStops(s.(store := store), 0, 0, Ctx(LedgerSet(s.ledger), mapping, cfg));
    }
  }

  /** Every person in every page the remaining script can deliver is already
      in `processed`. */
  ghost predicate AllKnown(replies: seq<GetReply>, processed: set<string>)
  {
    forall i, p | 0 <= i < |replies| && GetSucceeded(replies[i]) && p in ItemsOf(replies[i].body.value) ::
      p.uuid in processed
  }

  /** Resuming over records that are all in the ledger: the loop ledgers
      nothing, writes nothing and sends no PUT. */
  lemma {:induction false} PaginateResumes(s: Sys, offset: int, total: int, ctx: Ctx)
    requires AllKnown(s.store.getReplies, ctx.processed)
    ensures var f := Paginate(s, offset, total, ctx);
      f.sys.ledger == s.ledger && f.sys.store.updateCalls == s.store.updateCalls
      && f.sys.store.putReplies == s.store.putReplies && f.total == total
    decreases |s.store.getReplies|, 0
  {
    var replies := s.store.getReplies;
    var (response, store) := FetchEffect(s.store, offset, PageSize);
    if !Falsy(response) {
      var n := Fetch(replies).attempts;
      assert response == replies[n - 1].body;
      assert AllKnown(store.getReplies, ctx.processed) by {
        forall i, p | 0 <= i < |store.getReplies| && GetSucceeded(store.getReplies[i]) && p in ItemsOf(store.getReplies[i].body.value)
          ensures p.uuid in ctx.processed
        {
          assert store.getReplies[i] == replies[n + i];
        }
      }
      ItemsResume(s.(store := store), ItemsOf(response.value), CountOf(response.value), offset, total, ctx);
    }
  }

  lemma {:induction false} ItemsResume(s: Sys, items: seq<Person>, count: int, offset: int, total: int, ctx: Ctx)
    requires AllKnown(s.store.getReplies, ctx.processed)
    requires forall p | p in items :: p.uuid in ctx.processed
    ensures var f := Items(s, items, count, offset, total, ctx);
      f.sys.ledger == s.ledger && f.sys.store.updateCalls == s.store.updateCalls
      && f.sys.store.putReplies == s.store.putReplies && f.total == total
    decreases |s.store.getReplies|, |items| + 1
  {
    if items == [] {
      if offset + PageSize < count {
        PaginateResumes(s, offset + PageSize, total, ctx);
      }
    } else {
      assert items[0] in items;
      assert Visit(s, items[0], total, ctx) == Visited(s, total, false);
      ItemsResume(s, items[1..], count, offset, total, ctx);
    }
  }

  /** A run over a collection whose every person is already in the ledger
      file makes no write and appends nothing to the ledger. */
  lemma RunResumes(s: Sys, mapping: Mapping, cfg: Config)
    requires AllKnown(s.store.getReplies, LedgerSet(s.ledger))
    ensures var f := Run(s, mapping, cfg);
      f.sys.ledger == s.ledger && f.sys.store.updateCalls == s.store.updateCalls
      && f.sys.store.putReplies == s.store.putReplies && f.total == 0
  {
    var ctx := Ctx(LedgerSet(s.ledger), mapping, cfg);
    var replies := s.store.getReplies;
    var (probe, store) := FetchEffect(s.store, 0, ProbeSize);
    if !Falsy(probe) {
      var n := Fetch(replies).attempts;
      assert AllKnown(store.getReplies, ctx.processed) by {
        forall i, p | 0 <= i < |store.getReplies| && GetSucceeded(store.getReplies[i]) && p in ItemsOf(store.getReplies[i].body.value)
          ensures p.uuid in ctx.processed
        {
          assert store.getReplies[i] == replies[n + i];
        }
      }
      PaginateResumes(s.(store := store), 0, 0, ctx);
    }
  }

  /** Some page that one of `replies` delivered holds a person with this uuid. */
  ghost predicate Delivers(replies: seq<GetReply>, uuid: string)
  {
    exists j, q | 0 <= j < |replies| && GetSucceeded(replies[j]) && q in ItemsOf(replies[j].body.value) ::
      q.uuid == uuid
  }

  /** Pages whose persons were either loaded from the ledger `before` or
      ledgered since are known to the ledger `after`; so is every page of a
      script whose every person either was loaded from `before` or has its
      uuid on one of those pages. */
  lemma CoveredIsKnown(consumed: seq<GetReply>, before: seq<string>, after: seq<string>, replies: seq<GetReply>)
    requires before <= after
    requires Covered(consumed, LedgerSet(before), after[|before|..])
    requires forall i, p | 0 <= i < |replies| && GetSucceeded(replies[i]) && p in ItemsOf(replies[i].body.value) ::
      p.uuid in LedgerSet(before) || Delivers(consumed, p.uuid)
    ensures AllKnown(replies, LedgerSet(after))
  {
    forall i, p | 0 <= i < |replies| && GetSucceeded(replies[i]) && p in ItemsOf(replies[i].body.value)
      ensures p.uuid in LedgerSet(after)
    {
      if p.uuid !in LedgerSet(before) {
        var j, q :| 0 <= j < |consumed| && GetSucceeded(consumed[j]) && q in ItemsOf(consumed[j].body.value) && q.uuid == p.uuid;
        assert p.uuid in after[|before|..];
      }
    }
  }

  /** Running the job twice: after a run that the test limit did not cut
      short, a second run that starts from the ledger the first one left, and
      whose script delivers only persons that were in the ledger before the
      first run or that the first run fetched after its probe (in whatever
      pages, and however their records have been rewritten since), writes
      nothing and appends nothing to the ledger. */
  lemma RerunWritesNothing(s: Sys, mapping: Mapping, cfg: Config, again: Sys, mapping2: Mapping, cfg2: Config)
    requires Run(s, mapping, cfg).end != TestLimitReached
    requires again.ledger == Run(s, mapping, cfg).sys.ledger
    requires var rest := FetchEffect(s.store, 0, ProbeSize).1.getReplies;
      var consumed := rest[..|rest| - |Run(s, mapping, cfg).sys.store.getReplies|];
      forall i, p | 0 <= i < |again.store.getReplies| && GetSucceeded(again.store.getReplies[i])
                    && p in ItemsOf(again.store.getReplies[i].body.value) ::
        p.uuid in LedgerSet(s.ledger) || Delivers(consumed, p.uuid)
    ensures var g := Run(again, mapping2, cfg2);
      g.sys.ledger == again.ledger && g.sys.store.updateCalls == again.store.updateCalls
      && g.sys.store.putReplies == again.store.putReplies && g.total == 0
  {
    var f := Run(s, mapping, cfg);
    var rest := FetchEffect(s.store, 0, ProbeSize).1.getReplies;
    RunStops(s, mapping, cfg);
    CoveredIsKnown(rest[..|rest| - |f.sys.store.getReplies|], s.ledger, f.sys.ledger, again.store.getReplies);
    RunResumes(again, mapping2, cfg2);
  }

  /** The ledger read at the start is not consulted again during a run: a
      person that appears twice in one page and needs a change is written and
      ledgered twice. */
  lemma RepeatedPersonIsHandledTwice(s: Sys, person: Person, count: int, offset: int, ctx: Ctx)
    requires person.uuid !in ctx.processed
    requires NeedsUpdate(person.associations, ctx.mapping)
    requires !ctx.cfg.testMode
    ensures var f := Items(s, [person, person], count, offset, 0, ctx);
      var call := Update(person.uuid, Remapped(person.associations, ctx.mapping));
      && s.ledger + [person.uuid, person.uuid] <= f.sys.ledger
      && s.store.updateCalls + [call, call] <= f.sys.store.updateCalls
  {
    var v1 := Visit(s, person, 0, ctx);
    var v2 := Visit(v1.sys, person, 1, ctx);
    assert [person, person][1..] == [person];
    assert Items(s, [person, person], count, offset, 0, ctx) == Items(v2.sys, [], count, offset, 2, ctx);
    ItemsSound(v2.sys, [], count, offset, 2, ctx);
  }

  /** A record whose one association is coded with a mapping key that maps
      elsewhere: the code is rewritten, the record is written with its whole
      list, and its uuid is ledgered. */
  lemma ExampleRecord(s: Sys, ctx: Ctx)
    requires ctx.mapping == map["old/123" := "new/456"]
    requires "u1" !in ctx.processed && !ctx.cfg.testMode
    ensures var person := Person("u1", [Association(Some(JobTitle(Some("old/123"), map[])), map[])]);
      var v := Visit(s, person, 0, ctx);
      && v.sys.ledger == s.ledger + ["u1"]
      && v.sys.store.updateCalls == s.store.updateCalls
           + [Update("u1", [Association(Some(JobTitle(Some("new/456"), map[])), map[])])]
      && v.total == 1 && !v.stop
  {
    var a := Association(Some(JobTitle(Some("old/123"), map[])), map[]);
    assert Rewrites([a][0], ctx.mapping);
    assert NeedsUpdate([a], ctx.mapping);
    assert Remapped([a], ctx.mapping) == [Association(Some(JobTitle(Some("new/456"), map[])), map[])];
  }
}
