/**
 The dashboard's run list (docs/app.js): a batch of relay events deduplicated into one run per run id, then
 live events merged into the same list one by one. What an event's content parses to beyond its ids and
 its time is the parameter `Detail`, which the batch and the live handler fill differently.
 */
module RunFeed {
  import opened Prelude

  datatype Source = K30078 | ContextVm

  /** `readable` is false where the parser throws or returns null. */
  datatype Event = Event(kind: int, id: string, runId: string, timestamp: int, readable: bool)

  /** Which event of which run and source a list entry shows. */
  datatype Shown = Shown(id: string, runId: string, timestamp: int, source: Source)

  datatype Run = Run(shown: Shown, detail: string)

  type Detail = Event -> string

  function SourceOf(kind: int): Option<Source> {
    if kind == 30078 then Some(K30078) else if kind == 25910 then Some(ContextVm) else None
  }

  function ShownBy(e: Event, source: Source): Shown { Shown(e.id, e.runId, e.timestamp, source) }

  // ---- one pass over a batch --------------------------------------------------------------------

  type Table = seq<Entry<Run>>

  /** The map of dedupeKind30078Runs after the events so far: a strictly newer event replaces, in place. */
  function Collect(events: seq<Event>, detail: Detail): Table {
    if events == [] then [] else
      var n := |events| - 1;
      var table, e := Collect(events[..n], detail), events[n];
      if e.kind == 30078 && e.readable && Replaces(Lookup(table, e.runId), e)
      then Assign(table, e.runId, Run(ShownBy(e, K30078), detail(e)))
      else table
  }

  predicate Replaces(existing: Option<Run>, e: Event) {
    existing.None? || e.timestamp > existing.value.shown.timestamp
  }

  function Values(table: Table): (r: seq<Run>)
    ensures |r| == |table|
  {
    seq(|table|, i requires 0 <= i < |table| => table[i].value)
  }

  /** The stable sort by falling timestamp. */
  function Insert(runs: seq<Run>, x: Run): (r: seq<Run>)
    ensures |r| == |runs| + 1 && multiset(r) == multiset(runs) + multiset{x}
  {
    if runs != [] && runs[|runs| - 1].shown.timestamp < x.shown.timestamp then
      var n := |runs| - 1;
      assert runs == runs[..n] + [runs[n]];
      Insert(runs[..n], x) + [runs[n]]
    else runs + [x]
  }

  function SortDown(runs: seq<Run>): (r: seq<Run>)
    ensures multiset(r) == multiset(runs)
  {
    if runs == [] then [] else
      var n := |runs| - 1;
      assert runs == runs[..n] + [runs[n]];
      Insert(SortDown(runs[..n]), runs[n])
  }

  function Dedupe(events: seq<Event>, detail: Detail): seq<Run> { SortDown(Values(Collect(events, detail))) }

  /** dedupeKind30078Runs, with its loop over the events. */
  method DedupeRuns(events: seq<Event>, detail: Detail) returns (runs: seq<Run>)
    ensures runs == Dedupe(events, detail)
  {
    var byDtag: Table := [];
    for i := 0 to |events|
      invariant byDtag == Collect(events[..i], detail)
    {
      var e := events[i];
      assert events[..i + 1][..i] == events[..i];
      if e.kind != 30078 { continue; }
      if e.readable {
        var existing := Lookup(byDtag, e.runId);
        if existing.None? || e.timestamp > existing.value.shown.timestamp {
          byDtag := Assign(byDtag, e.runId, Run(ShownBy(e, K30078), detail(e)));
        }
      }
    }
    assert events[..|events|] == events;
    runs := SortDown(Values(byDtag));
  }

  // ---- live events -----------------------------------------------------------------------------------

  /** The first run of an id and a source, as find() sees it; |runs| where there is none. */
  function Find(runs: seq<Run>, runId: string, source: Source): (i: nat)
    ensures i <= |runs|
    ensures i < |runs| ==> runs[i].shown.runId == runId && runs[i].shown.source == source
    ensures forall j :: 0 <= j < i ==> !(runs[j].shown.runId == runId && runs[j].shown.source == source)
  {
    if runs == [] then 0
    else if runs[0].shown.runId == runId && runs[0].shown.source == source then 0
    else
      var i := Find(runs[1..], runId, source);
      assert forall j :: 0 < j < i + 1 ==> runs[j] == runs[1..][j - 1];
      i + 1
  }

  /** A newer event overwrites the run it belongs to where it stands; an unknown run goes to the front. */
  function Live(runs: seq<Run>, e: Event, detail: Detail): seq<Run> {
    var source := SourceOf(e.kind);
    if source.None? || !e.readable then runs else
      var run := Run(ShownBy(e, source.value), detail(e));
      var i := Find(runs, e.runId, source.value);
      if i == |runs| then [run] + runs
      else if e.timestamp > runs[i].shown.timestamp then runs[i := run]
      else runs
  }

  class Dashboard {
    var allRuns: seq<Run>

    constructor ()
      ensures allRuns == []
    {
      allRuns := [];
    }

    /** Loading: the fresh runs, then those cached runs whose id and source the batch does not have. */
    method Load(cached: seq<Run>, events: seq<Event>, detail: Detail)
      modifies this
      ensures allRuns == Loaded(cached, events, detail)
    {
      var found := DedupeRuns(events, detail);
      var kept: seq<Run> := [];
      for i := 0 to |cached|
        invariant kept == Missing(cached[..i], found)
      {
        assert cached[..i + 1][..i] == cached[..i];
        var c := cached[i];
        if Find(found, c.shown.runId, c.shown.source) == |found| {
          kept := kept + [c];
        }
      }
      assert cached[..|cached|] == cached;
      allRuns := found + kept;
    }

    method HandleLiveEvent(e: Event, detail: Detail)
      modifies this
      ensures allRuns == Live(old(allRuns), e, detail)
    {
      if e.kind == 30078 {
        if !e.readable { return; }
        var run := Run(ShownBy(e, K30078), detail(e));
        var i := Find(allRuns, e.runId, K30078);
        if i < |allRuns| {
          if run.shown.timestamp > allRuns[i].shown.timestamp { allRuns := allRuns[i := run]; }
          return;
        }
        allRuns := [run] + allRuns;
        return;
      }
      if e.kind == 25910 {
        if !e.readable { return; }
        var run := Run(ShownBy(e, ContextVm), detail(e));
        var i := Find(allRuns, e.runId, ContextVm);
        if i < |allRuns| {
          if run.shown.timestamp > allRuns[i].shown.timestamp { allRuns := allRuns[i := run]; }
        } else {
          allRuns := [run] + allRuns;
        }
      }
    }
  }

  /** The cached runs the batch does not replace. */
  function Missing(cached: seq<Run>, found: seq<Run>): seq<Run> {
    if cached == [] then [] else
      var n := |cached| - 1;
      var c := cached[n];
      Missing(cached[..n], found) + if Find(found, c.shown.runId, c.shown.source) == |found| then [c] else []
  }

  function Loaded(cached: seq<Run>, events: seq<Event>, detail: Detail): seq<Run> {
    var found := Dedupe(events, detail);
    found + Missing(cached, found)
  }

  function LiveAll(runs: seq<Run>, events: seq<Event>, detail: Detail): seq<Run>
    decreases |events|
  {
    if events == [] then runs else LiveAll(Live(runs, events[0], detail), events[1..], detail)
  }

  // ---- what survives -------------------------------------------------------------------------------

  /** The reference: reading the events in order, the first among the newest of a run and source is shown. */
  function Survivor(start: Option<Shown>, events: seq<Event>, runId: string, source: Source): Option<Shown>
    decreases |events|
  {
    if events == [] then start else Survivor(Next(start, events[0], runId, source), events[1..], runId, source)
  }

  function Next(shown: Option<Shown>, e: Event, runId: string, source: Source): Option<Shown> {
    if SourceOf(e.kind) == Some(source) && e.readable && e.runId == runId && (shown.None? || e.timestamp > shown.value.timestamp)
    then Some(ShownBy(e, source))
    else shown
  }

  function ShownAt(runs: seq<Run>, runId: string, source: Source): Option<Shown> {
    var i := Find(runs, runId, source);
    if i < |runs| then Some(runs[i].shown) else None
  }

  /** At most one run per run id and source. */
  ghost predicate OnePerRun(runs: seq<Run>) {
    forall i, j :: 0 <= i < j < |runs| ==> !(runs[i].shown.runId == runs[j].shown.runId && runs[i].shown.source == runs[j].shown.source)
  }

  lemma {:induction false} SurvivorAppend(start: Option<Shown>, a: seq<Event>, b: seq<Event>, runId: string, source: Source)
    ensures Survivor(start, a + b, runId, source) == Survivor(Survivor(start, a, runId, source), b, runId, source)
    decreases |a|
  {
    if a == [] {
      assert a + b == b;
    } else {
      assert (a + b)[1..] == a[1..] + b;
      SurvivorAppend(Next(start, a[0], runId, source), a[1..], b, runId, source);
    }
  }

  predicate Keyed(run: Run, runId: string, source: Source) { run.shown.runId == runId && run.shown.source == source }

  lemma FindFront(runs: seq<Run>, run: Run, runId: string, source: Source)
    ensures ShownAt([run] + runs, runId, source) == if Keyed(run, runId, source) then Some(run.shown) else ShownAt(runs, runId, source)
  {
    assert ([run] + runs)[1..] == runs;
  }

  /** One live event changes what a run shows exactly as the reference does. */
  lemma LiveStep(runs: seq<Run>, e: Event, detail: Detail, runId: string, source: Source)
    ensures ShownAt(Live(runs, e, detail), runId, source) == Next(ShownAt(runs, runId, source), e, runId, source)
  {
    var s := SourceOf(e.kind);
    if s.Some? && e.readable {
      var i := Find(runs, e.runId, s.value);
      var run := Run(ShownBy(e, s.value), detail(e));
      if i == |runs| {
        FindFront(runs, run, runId, source);
      } else if e.timestamp > runs[i].shown.timestamp {
        FindAfterUpdate(runs, i, run, runId, source);
      }
    }
  }

  lemma {:induction false} FindAfterUpdate(runs: seq<Run>, i: nat, run: Run, runId: string, source: Source)
    requires i < |runs| && run.shown.runId == runs[i].shown.runId && run.shown.source == runs[i].shown.source
    ensures Find(runs[i := run], runId, source) == Find(runs, runId, source)
  {
    if i > 0 {
      assert runs[i := run][1..] == runs[1..][i - 1 := run];
      FindAfterUpdate(runs[1..], i - 1, run, runId, source);
    } else {
      assert runs[i := run][1..] == runs[1..];
    }
  }

  lemma {:induction false} LiveAllShows(runs: seq<Run>, events: seq<Event>, detail: Detail, runId: string, source: Source)
    requires OnePerRun(runs)
    ensures OnePerRun(LiveAll(runs, events, detail))
    ensures ShownAt(LiveAll(runs, events, detail), runId, source) == Survivor(ShownAt(runs, runId, source), events, runId, source)
    decreases |events|
  {
    if events != [] {
      LiveStep(runs, events[0], detail, runId, source);
      LiveAllShows(Live(runs, events[0], detail), events[1..], detail, runId, source);
    }
  }

  // ---- the batch shows what the reference would --------------------------------------------------

  lemma {:induction false} LookupAssigned(table: Table, key: string, run: Run, other: string)
    ensures Lookup(Assign(table, key, run), other) == if other == key then Some(run) else Lookup(table, other)
  {
    if table != [] && table[0].key != key { LookupAssigned(table[1..], key, run, other); }
  }

  lemma {:induction false} AssignedKeys(table: Table, key: string, run: Run, i: nat)
    requires i < |Assign(table, key, run)|
    ensures Assign(table, key, run)[i] == Entry(key, run) || Assign(table, key, run)[i] in table
  {
    if table != [] && table[0].key != key && i > 0 { AssignedKeys(table[1..], key, run, i - 1); }
  }

  lemma {:induction false} AssignDistinct(table: Table, key: string, run: Run)
    requires DistinctKeys(table)
    ensures DistinctKeys(Assign(table, key, run))
  {
    if table != [] && table[0].key != key {
      var after := Assign(table[1..], key, run);
      AssignDistinct(table[1..], key, run);
      forall j | 0 <= j < |after| ensures after[j].key != table[0].key { AssignedKeys(table[1..], key, run, j); }
    }
  }

  /** Every entry is filed under its own run id. */
  ghost predicate Filed(table: Table) {
    DistinctKeys(table) && forall e :: e in table ==> Keyed(e.value, e.key, K30078)
  }

  lemma AssignFiled(table: Table, run: Run)
    requires Filed(table) && run.shown.source == K30078
    ensures Filed(Assign(table, run.shown.runId, run))
  {
    var after := Assign(table, run.shown.runId, run);
    AssignDistinct(table, run.shown.runId, run);
    forall e | e in after ensures Keyed(e.value, e.key, K30078) {
      var i :| 0 <= i < |after| && after[i] == e;
      AssignedKeys(table, run.shown.runId, run, i);
    }
  }

  function ShownOf(run: Option<Run>): Option<Shown> { if run.Some? then Some(run.value.shown) else None }

  lemma {:induction false} CollectSurvives(events: seq<Event>, detail: Detail, runId: string)
    ensures Filed(Collect(events, detail))
    ensures ShownOf(Lookup(Collect(events, detail), runId)) == Survivor(None, events, runId, K30078)
  {
    if events != [] {
      var n := |events| - 1;
      var e, table := events[n], Collect(events[..n], detail);
      CollectSurvives(events[..n], detail, runId);
      CollectSurvives(events[..n], detail, e.runId);
      SurvivorAppend(None, events[..n], [e], runId, K30078);
      assert events == events[..n] + [e];
      if e.kind == 30078 && e.readable && Replaces(Lookup(table, e.runId), e) {
        AssignFiled(table, Run(ShownBy(e, K30078), detail(e)));
        LookupAssigned(table, e.runId, Run(ShownBy(e, K30078), detail(e)), runId);
      }
    }
  }

  lemma NobodyShown(runs: seq<Run>, runId: string, source: Source)
    requires forall run :: run in runs ==> !Keyed(run, runId, source)
    ensures ShownAt(runs, runId, source) == None
  {
    assert forall j :: 0 <= j < |runs| ==> runs[j] in runs;
  }

  /** The order of a list does not matter to what it shows. */
  lemma PermutationShows(a: seq<Run>, b: seq<Run>, runId: string, source: Source)
    requires multiset(a) == multiset(b) && OnePerRun(a) && OnePerRun(b)
    ensures ShownAt(a, runId, source) == ShownAt(b, runId, source)
  {
    if run :| run in a && Keyed(run, runId, source) {
      assert run in multiset(b);
    } else {
      NobodyShown(a, runId, source);
      forall run | run in b ensures !Keyed(run, runId, source) { assert run in multiset(a); }
      NobodyShown(b, runId, source);
    }
  }

  /** Nobody in the list has this run's key. */
  ghost predicate NewTo(runs: seq<Run>, x: Run) {
    forall run :: run in runs ==> !Keyed(run, x.shown.runId, x.shown.source)
  }

  /** What is in the list after an insertion was there before, or is the new run. */
  lemma InsertedFrom(runs: seq<Run>, x: Run, i: nat)
    requires i < |Insert(runs, x)|
    ensures Insert(runs, x)[i] == x || Insert(runs, x)[i] in runs
  {
    assert Insert(runs, x)[i] in multiset(Insert(runs, x));
  }

  lemma OneAppend(runs: seq<Run>, x: Run)
    requires OnePerRun(runs) && NewTo(runs, x)
    ensures OnePerRun(runs + [x])
  {
    forall i | 0 <= i < |runs| ensures !Keyed(runs[i], x.shown.runId, x.shown.source) { assert runs[i] in runs; }
  }

  lemma {:induction false} InsertKeepsOne(runs: seq<Run>, x: Run)
    requires OnePerRun(runs) && NewTo(runs, x)
    ensures OnePerRun(Insert(runs, x))
  {
    if runs != [] && runs[|runs| - 1].shown.timestamp < x.shown.timestamp {
      var n := |runs| - 1;
      var front := Insert(runs[..n], x);
      InsertKeepsOne(runs[..n], x);
      forall run | run in front ensures !Keyed(run, runs[n].shown.runId, runs[n].shown.source) {
        var i :| 0 <= i < |front| && front[i] == run;
        InsertedFrom(runs[..n], x, i);
        assert runs[n] in runs;
      }
      OneAppend(front, runs[n]);
    } else {
      OneAppend(runs, x);
    }
  }

  lemma {:induction false} SortKeepsOne(runs: seq<Run>)
    requires OnePerRun(runs)
    ensures OnePerRun(SortDown(runs))
  {
    if runs != [] {
      var n := |runs| - 1;
      SortKeepsOne(runs[..n]);
      forall run | run in SortDown(runs[..n]) ensures !Keyed(run, runs[n].shown.runId, runs[n].shown.source) {
        assert run in multiset(runs[..n]);
        var k :| 0 <= k < n && runs[k] == run;
      }
      InsertKeepsOne(SortDown(runs[..n]), runs[n]);
    }
  }

  lemma {:induction false} ValuesShow(table: Table, runId: string)
    requires Filed(table)
    ensures ShownAt(Values(table), runId, K30078) == ShownOf(Lookup(table, runId))
    ensures ShownAt(Values(table), runId, ContextVm) == None
  {
    if table != [] {
      assert forall e :: e in table[1..] ==> e in table;
      ValuesShow(table[1..], runId);
      assert Values(table) == [table[0].value] + Values(table[1..]);
      FindFront(Values(table[1..]), table[0].value, runId, K30078);
      FindFront(Values(table[1..]), table[0].value, runId, ContextVm);
    }
  }

  /** Deduplicating a batch: one run per id, each showing the first among its newest events. */
  lemma BatchShows(events: seq<Event>, detail: Detail, runId: string)
    ensures OnePerRun(Dedupe(events, detail))
    ensures ShownAt(Dedupe(events, detail), runId, K30078) == Survivor(None, events, runId, K30078)
    ensures ShownAt(Dedupe(events, detail), runId, ContextVm) == None
  {
    var values := Values(Collect(events, detail));
    CollectSurvives(events, detail, runId);
    ValuesShow(Collect(events, detail), runId);
    SortKeepsOne(values);
    PermutationShows(values, SortDown(values), runId, K30078);
    PermutationShows(values, SortDown(values), runId, ContextVm);
  }

  /**
   Live merging refines the batch: loading a batch into an empty list and handling any live events keeps one
   run per run id, and for every run id shows the same event as deduplicating both together, ties included.
   */
  lemma LiveRefinesBatch(batch: seq<Event>, live: seq<Event>, meta: Detail, bare: Detail, runId: string)
    ensures var runs := LiveAll(Loaded([], batch, meta), live, bare);
            && OnePerRun(runs)
            && ShownAt(runs, runId, K30078) == ShownAt(Dedupe(batch + live, meta), runId, K30078)
            && ShownAt(runs, runId, K30078) == Survivor(None, batch + live, runId, K30078)
            && ShownAt(runs, runId, ContextVm) == Survivor(None, live, runId, ContextVm)
  {
    var start := Dedupe(batch, meta);
    assert Loaded([], batch, meta) == start;
    BatchShows(batch, meta, runId);
    BatchShows(batch + live, meta, runId);
    LiveAllShows(start, live, bare, runId, K30078);
    LiveAllShows(start, live, bare, runId, ContextVm);
    SurvivorAppend(None, batch, live, runId, K30078);
  }

  // ---- the sort ------------------------------------------------------------------------------------

  ghost predicate Falling(runs: seq<Run>) {
    forall i, j :: 0 <= i < j < |runs| ==> runs[i].shown.timestamp >= runs[j].shown.timestamp
  }

  /** The runs of one timestamp, in order. */
  function Of(runs: seq<Run>, timestamp: int): seq<Run> {
    if runs == [] then [] else
      var n := |runs| - 1;
      Of(runs[..n], timestamp) + OneOf(runs[n], timestamp)
  }

  lemma {:induction false} InsertFalls(runs: seq<Run>, x: Run)
    requires Falling(runs)
    ensures Falling(Insert(runs, x))
  {
    if runs != [] && runs[|runs| - 1].shown.timestamp < x.shown.timestamp {
      var n := |runs| - 1;
      var front := Insert(runs[..n], x);
      InsertFalls(runs[..n], x);
      forall i | 0 <= i < |front| ensures front[i].shown.timestamp >= runs[n].shown.timestamp {
        InsertedFrom(runs[..n], x, i);
      }
    }
  }

  function OneOf(x: Run, timestamp: int): seq<Run> { if x.shown.timestamp == timestamp then [x] else [] }

  lemma OfLast(runs: seq<Run>, x: Run, timestamp: int)
    ensures Of(runs + [x], timestamp) == Of(runs, timestamp) + OneOf(x, timestamp)
  {
    assert (runs + [x])[..|runs|] == runs;
  }

  lemma SwapEmpty(a: seq<Run>, b: seq<Run>, c: seq<Run>)
    requires b == [] || c == []
    ensures a + b + c == a + c + b
  {
  }

  lemma {:induction false} InsertKeepsOrder(runs: seq<Run>, x: Run, timestamp: int)
    ensures Of(Insert(runs, x), timestamp) == Of(runs, timestamp) + OneOf(x, timestamp)
  {
    if runs != [] && runs[|runs| - 1].shown.timestamp < x.shown.timestamp {
      var n := |runs| - 1;
      var before, mine, last := Of(runs[..n], timestamp), OneOf(x, timestamp), OneOf(runs[n], timestamp);
      InsertKeepsOrder(runs[..n], x, timestamp);
      OfLast(Insert(runs[..n], x), runs[n], timestamp);
      SwapEmpty(before, mine, last);
    } else {
      OfLast(runs, x, timestamp);
    }
  }

  /** The list a batch gives falls by timestamp, and runs of equal time keep their order. */
  lemma {:induction false} SortIsStable(runs: seq<Run>, timestamp: int)
    ensures Falling(SortDown(runs)) && multiset(SortDown(runs)) == multiset(runs)
    ensures Of(SortDown(runs), timestamp) == Of(runs, timestamp)
  {
    if runs != [] {
      var n := |runs| - 1;
      SortIsStable(runs[..n], timestamp);
      InsertFalls(SortDown(runs[..n]), runs[n]);
      InsertKeepsOrder(SortDown(runs[..n]), runs[n], timestamp);
    }
  }

  // ---- loading over a cache --------------------------------------------------------------------------

  lemma {:induction false} FindAppend(a: seq<Run>, b: seq<Run>, runId: string, source: Source)
    ensures ShownAt(a + b, runId, source) == if ShownAt(a, runId, source).Some? then ShownAt(a, runId, source) else ShownAt(b, runId, source)
  {
    if a == [] {
      assert a + b == b;
    } else {
      assert (a + b)[1..] == a[1..] + b;
      FindAppend(a[1..], b, runId, source);
    }
  }

  lemma FindSingle(x: Run, runId: string, source: Source)
    ensures ShownAt([x], runId, source) == if Keyed(x, runId, source) then Some(x.shown) else None
  {
    assert [x] + [] == [x];
    FindFront([], x, runId, source);
  }

  /** What is kept of the cache: the runs of keys the batch does not have. */
  lemma {:induction false} MissingShows(cached: seq<Run>, found: seq<Run>, runId: string, source: Source)
    ensures ShownAt(Missing(cached, found), runId, source) == if ShownAt(found, runId, source).Some? then None else ShownAt(cached, runId, source)
  {
    if cached != [] {
      var n := |cached| - 1;
      var c := cached[n];
      assert cached == cached[..n] + [c];
      MissingShows(cached[..n], found, runId, source);
      FindAppend(cached[..n], [c], runId, source);
      FindAppend(Missing(cached[..n], found), [c], runId, source);
      FindSingle(c, runId, source);
      assert Missing(cached[..n], found) + [] == Missing(cached[..n], found);
    }
  }

  /** A run the batch has shows the batch's event however new the cached one is; any other shows the cached one. */
  lemma LoadedShows(cached: seq<Run>, events: seq<Event>, detail: Detail, runId: string, source: Source)
    ensures ShownAt(Loaded(cached, events, detail), runId, source) ==
            if ShownAt(Dedupe(events, detail), runId, source).Some? then ShownAt(Dedupe(events, detail), runId, source)
            else ShownAt(cached, runId, source)
  {
    var found := Dedupe(events, detail);
    MissingShows(cached, found, runId, source);
    FindAppend(found, Missing(cached, found), runId, source);
  }

  // ---- which events, with which details -------------------------------------------------------------

  /** The k-th event is the one its run shows: a readable 30078, newer than every earlier such event of the run and not older than any later one. */
  ghost predicate Wins(events: seq<Event>, k: nat) {
    && k < |events| && events[k].kind == 30078 && events[k].readable
    && (forall j :: 0 <= j < k && Rivals(events[j], events[k]) ==> events[j].timestamp < events[k].timestamp)
    && (forall j :: k < j < |events| && Rivals(events[j], events[k]) ==> events[j].timestamp <= events[k].timestamp)
  }

  ghost predicate Rivals(a: Event, b: Event) { a.kind == 30078 && a.readable && a.runId == b.runId }

  /** This run shows the k-th event, the winner of its run id, with that event's own detail. */
  ghost predicate Winner(events: seq<Event>, detail: Detail, k: nat, run: Run) {
    Wins(events, k) && run == Run(Shown(events[k].id, events[k].runId, events[k].timestamp, K30078), detail(events[k]))
  }

  lemma StillWins(events: seq<Event>, k: nat)
    requires events != [] && Wins(events[..|events| - 1], k)
    requires Rivals(events[|events| - 1], events[k]) ==> events[|events| - 1].timestamp <= events[k].timestamp
    ensures Wins(events, k)
  {
    var front := events[..|events| - 1];
    forall j | 0 <= j < k && Rivals(events[j], events[k]) ensures events[j].timestamp < events[k].timestamp { assert front[j] == events[j]; }
    forall j | k < j < |events| && Rivals(events[j], events[k]) ensures events[j].timestamp <= events[k].timestamp {
      if j < |front| { assert front[j] == events[j]; }
    }
  }

  /** A newer event than the winner so far beats every other of its run. */
  lemma LastWins(events: seq<Event>, k: nat)
    requires events != [] && Wins(events[..|events| - 1], k)
    requires Rivals(events[|events| - 1], events[k]) && events[|events| - 1].timestamp > events[k].timestamp
    ensures Wins(events, |events| - 1)
  {
    var n := |events| - 1;
    forall j | 0 <= j < n && Rivals(events[j], events[n]) ensures events[j].timestamp < events[n].timestamp {
      assert events[..n][j] == events[j] && events[..n][k] == events[k] && Rivals(events[..n][j], events[..n][k]);
    }
  }

  /** What the table holds for a run id after the events: the winner's entry; nothing where there is no readable event of it. */
  lemma {:induction false} TableExactly(events: seq<Event>, detail: Detail, runId: string)
    ensures var found := Lookup(Collect(events, detail), runId);
            && (found.Some? ==> found.value.shown.runId == runId && exists k: nat :: Winner(events, detail, k, found.value))
            && (found.None? ==> forall k :: 0 <= k < |events| && events[k].kind == 30078 && events[k].readable ==> events[k].runId != runId)
  {
    if events != [] {
      var n := |events| - 1;
      var e, front := events[n], events[..n];
      var table, run := Collect(front, detail), Run(ShownBy(e, K30078), detail(e));
      TableExactly(front, detail, runId);
      LookupAssigned(table, e.runId, run, runId);
      var held := Lookup(table, runId);
      if held.Some? {
        var k: nat :| Winner(front, detail, k, held.value);
        assert front[k] == events[k];
        if Rivals(e, events[k]) && e.timestamp > events[k].timestamp {
          LastWins(events, k);
          assert Winner(events, detail, n, run);
        } else {
          StillWins(events, k);
          assert Winner(events, detail, k, held.value);
        }
      } else if e.kind == 30078 && e.readable && e.runId == runId {
        FirstWins(events, front);
        assert Winner(events, detail, n, run);
      } else {
        forall k | 0 <= k < |events| && events[k].kind == 30078 && events[k].readable ensures events[k].runId != runId {
          if k < n { assert front[k] == events[k]; }
        }
      }
    }
  }

  lemma FirstWins(events: seq<Event>, front: seq<Event>)
    requires events != [] && front == events[..|events| - 1] && events[|events| - 1].kind == 30078 && events[|events| - 1].readable
    requires forall k :: 0 <= k < |front| ==> !Rivals(front[k], events[|events| - 1])
    ensures Wins(events, |events| - 1)
  {
    forall j | 0 <= j < |front| ensures !Rivals(events[j], events[|events| - 1]) { assert front[j] == events[j]; }
  }

  lemma OneWinner(events: seq<Event>, k: nat, m: nat)
    requires Wins(events, k) && Wins(events, m) && events[k].runId == events[m].runId
    ensures k == m
  {
    assert Rivals(events[k], events[m]) && Rivals(events[m], events[k]);
  }

  /** A batch shows exactly the winners' runs, each with its own event's detail. */
  lemma {:induction false} DedupeExactly(events: seq<Event>, detail: Detail, run: Run)
    ensures run in Dedupe(events, detail) <==> exists k: nat :: Winner(events, detail, k, run)
  {
    var table, runId := Collect(events, detail), run.shown.runId;
    CollectSurvives(events, detail, runId);
    TableExactly(events, detail, runId);
    if run in Dedupe(events, detail) { FromTable(table, run); }
    if k: nat :| Winner(events, detail, k, run) {
      var m: nat :| Winner(events, detail, m, Lookup(table, runId).value);
      OneWinner(events, k, m);
      InTable(table, runId);
    }
  }

  lemma {:induction false} InTable(table: Table, runId: string)
    requires Lookup(table, runId).Some?
    ensures Lookup(table, runId).value in SortDown(Values(table))
  {
    HeldSomewhere(table, runId);
    assert Lookup(table, runId).value in multiset(SortDown(Values(table)));
  }

  lemma {:induction false} HeldSomewhere(table: Table, runId: string)
    requires Lookup(table, runId).Some?
    ensures Lookup(table, runId).value in Values(table)
  {
    assert Values(table)[0] == table[0].value;
    if table[0].key != runId {
      HeldSomewhere(table[1..], runId);
      var i :| 0 <= i < |table| - 1 && Values(table[1..])[i] == Lookup(table, runId).value;
      assert Values(table)[i + 1] == Lookup(table, runId).value;
    }
  }

  lemma {:induction false} FromTable(table: Table, run: Run)
    requires Filed(table) && run in SortDown(Values(table))
    ensures Lookup(table, run.shown.runId) == Some(run)
  {
    assert run in multiset(Values(table));
    var i :| 0 <= i < |table| && Values(table)[i] == run;
    LookupAt(table, i);
    assert table[i] in table && Keyed(run, table[i].key, K30078);
  }

  /** A live event of the two kinds, readable: to the front if its run is new, in its place if strictly newer, else ignored. */
  lemma LiveExactly(runs: seq<Run>, e: Event, detail: Detail)
    ensures (e.kind != 30078 && e.kind != 25910) || !e.readable ==> Live(runs, e, detail) == runs
    ensures e.readable && (e.kind == 30078 || e.kind == 25910) ==>
              var source := if e.kind == 30078 then K30078 else ContextVm;
              var run := Run(Shown(e.id, e.runId, e.timestamp, source), detail(e));
              && ((forall r :: r in runs ==> r.shown.runId != e.runId || r.shown.source != source) ==> Live(runs, e, detail) == [run] + runs)
              && (forall i :: 0 <= i < |runs| && runs[i].shown.runId == e.runId && runs[i].shown.source == source
                              && (forall j :: 0 <= j < i ==> runs[j].shown.runId != e.runId || runs[j].shown.source != source) ==>
                    Live(runs, e, detail) == if e.timestamp > runs[i].shown.timestamp then runs[i := run] else runs)
  {
  }

  /** Loading keeps exactly the cached runs whose id and source the batch does not have, in their order. */
  lemma {:induction false} MissingExactly(before: seq<Run>, c: Run, found: seq<Run>)
    ensures Missing([], found) == []
    ensures Missing(before + [c], found) ==
            if exists r :: r in found && r.shown.runId == c.shown.runId && r.shown.source == c.shown.source then Missing(before, found)
            else Missing(before, found) + [c]
  {
    var i := Find(found, c.shown.runId, c.shown.source);
    assert (before + [c])[..|before|] == before && Missing(before, found) + [] == Missing(before, found);
    if i < |found| {
      assert found[i] in found;
    } else {
      assert forall j :: 0 <= j < |found| ==> !(found[j].shown.runId == c.shown.runId && found[j].shown.source == c.shown.source);
    }
  }

  // ---- the job board -----------------------------------------------------------------------------------

  datatype Job = Job(requestId: string, detail: string)

  const JOBS_MAX := 200

  /** A job not on the board goes to its front; the board keeps the 200 in front. */
  function AddJob(jobs: seq<Job>, job: Job): seq<Job> {
    if Listed(jobs, job.requestId) then jobs
    else if |jobs| < JOBS_MAX then [job] + jobs
    else ([job] + jobs)[..JOBS_MAX]
  }

  /** A job already there changes nothing; a new one stands in front of the newest, and at most 200 stay. */
  lemma AddJobExactly(jobs: seq<Job>, job: Job)
    requires |jobs| <= 200
    ensures (exists i :: 0 <= i < |jobs| && jobs[i].requestId == job.requestId) ==> AddJob(jobs, job) == jobs
    ensures (forall i :: 0 <= i < |jobs| ==> jobs[i].requestId != job.requestId) ==>
              && |AddJob(jobs, job)| == (if |jobs| < 200 then |jobs| + 1 else 200)
              && AddJob(jobs, job)[0] == job && AddJob(jobs, job)[1..] == jobs[..|AddJob(jobs, job)| - 1]
  {
  }

  /** The map holds exactly the listed jobs, each once. */
  ghost predicate Agree(jobs: seq<Job>, byId: map<string, Job>) {
    && (forall i, j :: 0 <= i < j < |jobs| ==> jobs[i].requestId != jobs[j].requestId)
    && (forall i :: 0 <= i < |jobs| ==> jobs[i].requestId in byId && byId[jobs[i].requestId] == jobs[i])
    && (forall id :: id in byId ==> Listed(jobs, id))
  }

  predicate Listed(jobs: seq<Job>, id: string) { exists i :: 0 <= i < |jobs| && jobs[i].requestId == id }

  lemma PushAgrees(jobs: seq<Job>, byId: map<string, Job>, job: Job)
    requires Agree(jobs, byId) && job.requestId !in byId
    ensures Agree([job] + jobs, byId[job.requestId := job])
  {
    forall id | id in byId[job.requestId := job] ensures Listed([job] + jobs, id) {
      if id != job.requestId {
        var i :| 0 <= i < |jobs| && jobs[i].requestId == id;
        assert ([job] + jobs)[i + 1].requestId == id;
      } else {
        assert ([job] + jobs)[0].requestId == id;
      }
    }
  }

  /** cvmJobs and cvmJobsById. */
  class JobBoard {
    var jobs: seq<Job>
    var byId: map<string, Job>

    ghost predicate Valid()
      reads this
    {
      |jobs| <= JOBS_MAX && Agree(jobs, byId)
    }

    constructor ()
      ensures Valid() && jobs == []
    {
      jobs, byId := [], map[];
    }

    method PopLast()
      requires jobs != [] && Agree(jobs, byId)
      modifies this
      ensures Agree(jobs, byId) && jobs == old(jobs)[..|old(jobs)| - 1]
    {
      var removed := jobs[|jobs| - 1];
      jobs := jobs[..|jobs| - 1];
      byId := byId - {removed.requestId};
    }

    method HandleCvmJobEvent(job: Job)
      requires Valid()
      modifies this
      ensures Valid() && jobs == AddJob(old(jobs), job)
      // a job already there changes nothing; a new one stands in front of the newest, and at most 200 stay
      ensures (exists i :: 0 <= i < |old(jobs)| && old(jobs)[i].requestId == job.requestId) ==> jobs == old(jobs) && byId == old(byId)
      ensures (forall i :: 0 <= i < |old(jobs)| ==> old(jobs)[i].requestId != job.requestId) ==>
                && |jobs| == (if |old(jobs)| < 200 then |old(jobs)| + 1 else 200)
                && jobs[0] == job && jobs[1..] == old(jobs)[..|jobs| - 1]
    {
      AddJobExactly(jobs, job);
      assert job.requestId in byId <==> Listed(jobs, job.requestId);
      if job.requestId in byId { return; }
      PushAgrees(jobs, byId, job);
      jobs := [job] + jobs;
      byId := byId[job.requestId := job];
      ghost var pushed := jobs;
      while |jobs| > JOBS_MAX
        invariant |jobs| <= |pushed| && jobs == pushed[..|jobs|] && Agree(jobs, byId)
        invariant |jobs| >= JOBS_MAX || jobs == pushed
      {
        PopLast();
      }
    }
  }
}
