/**
 * The insight report and its cache, keyed by store generation and added latency
 * (src-tauri/src/state.rs:452-467). The analysis itself is any function of the shells
 * and the latency.
 */
module InsightCache {
  import opened Wrappers
  import opened Proto
  import opened Coalesce
  import F = FlowStore

  type Analysis<R> = (seq<Flow>, nat) -> R

  datatype Net = Net(enabled: bool, latencyMs: nat)

  function Latency(n: Net): nat { if n.enabled then n.latencyMs else 0 }

  /** A cached report, what it was computed from, and the generation it is stamped with. */
  datatype Cached<R> = Cached(generation: nat, latency: nat, report: R)

  function Fresh<R>(analyze: Analysis<R>, p: F.Plain, net: Net): R
  {
    analyze(F.Shells(p.order, p.flows), Latency(net))
  }

  /** Nothing cached is newer than the store, and what is of its generation is current. */
  ghost predicate Coherent<R>(cache: Option<Cached<R>>, analyze: Analysis<R>, p: F.Plain, generation: nat)
  {
    cache.Some? ==>
      && cache.value.generation <= generation
      && (cache.value.generation == generation ==>
            cache.value.report == analyze(F.Shells(p.order, p.flows), cache.value.latency))
  }

  class Insights<R> {
    const analyze: Analysis<R>
    const flows: F.FlowStore
    var net: Net
    var cache: Option<Cached<R>>

    constructor (analyze: Analysis<R>, flows: F.FlowStore)
      ensures this.analyze == analyze && this.flows == flows && cache == None
    {
      this.analyze, this.flows, net, cache := analyze, flows, Net(false, 0), None;
    }

    /** What a fresh analysis of the current store would say, cached or not. */
    method Report() returns (report: R, generation: nat)
      requires flows.Valid() && Coherent(cache, analyze, flows.Abs(), flows.generation)
      modifies this`cache
      ensures report == Fresh(analyze, flows.Abs(), net) && generation == flows.generation
      ensures report == analyze(F.Shells(flows.order, flows.plain), if net.enabled then net.latencyMs else 0)
      ensures Coherent(cache, analyze, flows.Abs(), flows.generation)
    {
      var latency := Latency(net);
      generation := flows.generation;
      if cache.Some? && cache.value.generation == generation && cache.value.latency == latency {
        return cache.value.report, generation;
      }
      var shells := flows.ReadShells();
      report := analyze(shells, latency);
      cache := Some(Cached(generation, latency, report));
    }
  }

  /* --------------------------------- runs ------------------------------- */

  /**
   * `open`: inserts that bumped the generation and have not stored their flow yet.
   * `askedOpen`: how many those were when the cached report was computed; `ended`: how
   * many inserts stored their flow since.
   */
  datatype World<R> = World(
    p: F.Plain, generation: nat, net: Net, cache: Option<Cached<R>>, open: nat, askedOpen: nat, ended: nat)

  /** `BeginInsert` and `EndInsert` are the two halves of an insert: bump, then store. */
  datatype Event =
    | Insert(flow: Flow)
    | Update(id: string, flow: Flow)
    | Clear
    | SetNet(net: Net)
    | Ask
    | BeginInsert
    | EndInsert(flow: Flow)

  function Start<R>(net: Net): World<R> { World(F.EMPTY, 0, net, None, 0, 0, 0) }

  /** The cached report is of the current generation and latency. */
  predicate Hit<R>(w: World<R>)
  {
    w.cache.Some? && w.cache.value.generation == w.generation && w.cache.value.latency == Latency(w.net)
  }

  function Answer<R>(w: World<R>, analyze: Analysis<R>): R
  {
    if Hit(w) then w.cache.value.report else Fresh(analyze, w.p, w.net)
  }

  function Next<R>(w: World<R>, e: Event, analyze: Analysis<R>, max: nat): World<R>
  {
    match e
    case Insert(f) => w.(p := F.Insert(w.p, f, max), generation := w.generation + 1)
    case Update(id, f) =>
      if id in w.p.flows then w.(p := F.Update(w.p, id, f), generation := w.generation + 1) else w
    case Clear => w.(p := F.EMPTY, generation := w.generation + 1)
    case SetNet(n) => w.(net := n)
    case Ask =>
      if Hit(w) then w
      else
        var computed := Cached(w.generation, Latency(w.net), Fresh(analyze, w.p, w.net));
        w.(cache := Some(computed), askedOpen := w.open, ended := 0)
    case BeginInsert => w.(generation := w.generation + 1, open := w.open + 1)
    case EndInsert(f) =>
      w.(p := F.Insert(w.p, f, max), open := if w.open > 0 then w.open - 1 else 0, ended := w.ended + 1)
  }

  function Run<R>(w: World<R>, events: seq<Event>, analyze: Analysis<R>, max: nat): World<R>
    decreases |events|
  {
    if events == [] then w else Run(Next(w, events[0], analyze, max), events[1..], analyze, max)
  }

  /** Inserts open after an event, `open` being so before. */
  function OpenAfter(open: nat, e: Event): nat
  {
    if e.BeginInsert? then open + 1 else if e.EndInsert? && open > 0 then open - 1 else open
  }

  /** Only an insert that has begun ends. */
  predicate Paired(events: seq<Event>, open: nat)
    decreases |events|
  {
    events == [] || ((events[0].EndInsert? ==> open > 0) && Paired(events[1..], OpenAfter(open, events[0])))
  }

  /** No question is asked while an insert is open. */
  predicate NoneAskedMidInsert(events: seq<Event>, open: nat)
    decreases |events|
  {
    events == [] || ((events[0].Ask? ==> open == 0) && NoneAskedMidInsert(events[1..], OpenAfter(open, events[0])))
  }

  /* ------------------------------ enough -------------------------------- */

  /** A report of the current generation is current unless an insert ended since. */
  ghost predicate Accurate<R>(w: World<R>, analyze: Analysis<R>)
  {
    w.cache.Some? ==>
      && w.cache.value.generation <= w.generation
      && (w.cache.value.generation == w.generation ==>
            && w.open + w.ended == w.askedOpen
            && (w.ended == 0 ==>
                  w.cache.value.report == analyze(F.Shells(w.p.order, w.p.flows), w.cache.value.latency)))
  }

  lemma {:induction false} RunAccurate<R>(w: World<R>, events: seq<Event>, analyze: Analysis<R>, max: nat)
    requires Accurate(w, analyze) && Paired(events, w.open)
    ensures Accurate(Run(w, events, analyze, max), analyze)
    decreases |events|
  {
    if events != [] {
      RunAccurate(Next(w, events[0], analyze, max), events[1..], analyze, max);
    }
  }

  lemma {:induction false} RunAsksQuietly<R>(w: World<R>, events: seq<Event>, analyze: Analysis<R>, max: nat)
    requires NoneAskedMidInsert(events, w.open) && w.askedOpen == 0
    ensures Run(w, events, analyze, max).askedOpen == 0
    decreases |events|
  {
    if events != [] { RunAsksQuietly(Next(w, events[0], analyze, max), events[1..], analyze, max); }
  }

  /**
   * If no question is asked while an insert is between its bump and its store, then
   * whatever is inserted, updated, cleared and asked, and however the network conditions
   * change: the next answer is a fresh analysis.
   */
  lemma AnswersAreFresh<R>(events: seq<Event>, analyze: Analysis<R>, net: Net, max: nat)
    requires Paired(events, 0) && NoneAskedMidInsert(events, 0)
    ensures var v := Run(Start(net), events, analyze, max);
            Answer(v, analyze) == Fresh(analyze, v.p, v.net)
  {
    RunAccurate(Start(net), events, analyze, max);
    RunAsksQuietly(Start(net), events, analyze, max);
  }

  /**
   * And right after the network conditions are set, whatever was cached under others: it is
   * given the added latency if they are on, and none if they are off.
   */
  lemma AnswersGoByLatency<R>(events: seq<Event>, analyze: Analysis<R>, net: Net, max: nat, n: Net)
    requires Paired(events, 0) && NoneAskedMidInsert(events, 0)
    ensures var v := Run(Start(net), events, analyze, max);
            Answer(Next(v, SetNet(n), analyze, max), analyze)
              == analyze(F.Shells(v.p.order, v.p.flows), if n.enabled then n.latencyMs else 0)
  {
    RunAccurate(Start(net), events, analyze, max);
    RunAsksQuietly(Start(net), events, analyze, max);
  }

  /* ------------------------------ needed -------------------------------- */

  /** All that any analysis can go by. */
  datatype View = View(shells: seq<Flow>, latency: nat)

  const VIEW: Analysis<View> := (shells: seq<Flow>, latency: nat) => View(shells, latency)

  /** The same world under an analysis that goes by what the view holds. */
  ghost function Through<R>(v: World<View>, analyze: Analysis<R>): World<R>
  {
    var cache := match v.cache
                 case None => None
                 case Some(c) => Some(Cached(c.generation, c.latency, analyze(c.report.shells, c.report.latency)));
    World(v.p, v.generation, v.net, cache, v.open, v.askedOpen, v.ended)
  }

  lemma {:induction false} RunThrough<R>(v: World<View>, events: seq<Event>, analyze: Analysis<R>, max: nat)
    ensures Run(Through(v, analyze), events, analyze, max) == Through(Run(v, events, VIEW, max), analyze)
    decreases |events|
  {
    if events != [] { RunThrough(Next(v, events[0], VIEW, max), events[1..], analyze, max); }
  }

  /** An answer current for all there is to go by is current for every analysis. */
  lemma CurrentForEvery<R>(events: seq<Event>, analyze: Analysis<R>, net: Net, max: nat)
    requires var v := Run(Start(net), events, VIEW, max); Answer(v, VIEW) == Fresh(VIEW, v.p, v.net)
    ensures var w := Run(Start(net), events, analyze, max); Answer(w, analyze) == Fresh(analyze, w.p, w.net)
  {
    RunThrough(Start(net), events, analyze, max);
  }

  /** Every flow inserted is of an id never inserted before; an update keeps the id. */
  predicate Minted(events: seq<Event>, used: set<string>)
    decreases |events|
  {
    events == [] ||
    match events[0]
    case Insert(f) => f.id !in used && Minted(events[1..], used + {f.id})
    case EndInsert(f) => f.id !in used && Minted(events[1..], used + {f.id})
    case Update(id, f) => f.id == id && Minted(events[1..], used)
    case _ => Minted(events[1..], used)
  }

  function UsedAfter(used: set<string>, e: Event): set<string>
  {
    match e
    case Insert(f) => used + {f.id}
    case EndInsert(f) => used + {f.id}
    case _ => used
  }

  /** The stored flows are under their ids, all of them used. */
  ghost predicate Stored(p: F.Plain, used: set<string>)
  {
    && F.Lists(p.order, p.flows.Keys)
    && p.flows.Keys <= used
    && forall id :: id in p.flows ==> p.flows[id].id == id
  }

  /** Once an insert ended, the newest flow is none the cached report saw. */
  ghost predicate Telling(w: World<View>, used: set<string>)
  {
    && Stored(w.p, used)
    && (w.cache.Some? && w.cache.value.generation == w.generation ==>
          && Ids(w.cache.value.report.shells) <= used
          && (w.ended > 0 ==> w.p.order != [] && w.p.order[|w.p.order| - 1] !in Ids(w.cache.value.report.shells)))
    && (w.cache.Some? ==> w.cache.value.generation <= w.generation)
  }

  lemma {:induction false} ShellIds(order: seq<string>, flows: map<string, Flow>)
    requires forall id :: id in flows ==> flows[id].id == id
    ensures forall id :: id in Ids(F.Shells(order, flows)) <==> id in order && id in flows
  {
    if order != [] {
      var first, rest := order[0], F.Shells(order[1..], flows);
      ShellIds(order[1..], flows);
      if first in flows { FirstIds(WithoutBytes(flows[first]), rest); }
      forall id ensures id in Ids(F.Shells(order, flows)) <==> id in order && id in flows {
        assert id in order <==> id == first || id in order[1..];
        assert first !in flows ==> F.Shells(order, flows) == rest;
      }
    }
  }

  lemma FirstIds(f: Flow, rest: seq<Flow>)
    ensures Ids([f] + rest) == {f.id} + Ids(rest)
  {
    IdsHead([f] + rest);
    assert ([f] + rest)[1..] == rest;
  }

  lemma InsertStored(p: F.Plain, f: Flow, max: nat, used: set<string>)
    requires Stored(p, used) && f.id !in used && max >= 1
    ensures Stored(F.Insert(p, f, max), used + {f.id})
    ensures var order := F.Insert(p, f, max).order; order != [] && order[|order| - 1] == f.id
  {
    F.AddedLists(p, f);
    F.EvictOldestKeepsNewest(F.Added(p, f), max);
  }

  lemma UpdateStored(p: F.Plain, f: Flow, used: set<string>)
    requires Stored(p, used) && f.id in p.flows
    ensures Stored(F.Update(p, f.id, f), used)
  {
    assert p.flows[f.id := f].Keys == p.flows.Keys;
  }

  lemma AskTelling(w: World<View>, used: set<string>, max: nat)
    requires Telling(w, used)
    ensures Telling(Next(w, Ask, VIEW, max), used)
  {
    ShellIds(w.p.order, w.p.flows);
  }

  lemma {:induction false} RunTelling(w: World<View>, events: seq<Event>, max: nat,
                                      used: set<string>) returns (after: set<string>)
    requires Telling(w, used) && Minted(events, used) && max >= 1
    ensures Telling(Run(w, events, VIEW, max), after)
    decreases |events|
  {
    after := used;
    if events != [] {
      match events[0] {
        case Insert(f) => InsertStored(w.p, f, max, used);
        case EndInsert(f) => InsertStored(w.p, f, max, used);
        case Update(id, f) => if id in w.p.flows { UpdateStored(w.p, f, used); }
        case Ask => AskTelling(w, used, max);
        case _ =>
      }
      after := RunTelling(Next(w, events[0], VIEW, max), events[1..], max, UsedAfter(used, events[0]));
    }
  }

  /** A report from before an insert ended does not show what the store now holds. */
  lemma EndedSinceShows(w: World<View>, used: set<string>)
    requires Telling(w, used) && Hit(w) && w.ended > 0
    ensures Answer(w, VIEW) != Fresh(VIEW, w.p, w.net)
  {
    ShellIds(w.p.order, w.p.flows);
    F.ListsExactly(w.p.order, w.p.flows.Keys);
    var last := w.p.order[|w.p.order| - 1];
    assert last in w.p.order;
    assert last in Ids(F.Shells(w.p.order, w.p.flows));
  }

  /**
   * Exactly when an answer can be stale. The store bumps its generation before it takes
   * its lock, so a report computed between an insert's bump and its store is cached under
   * the generation that insert will be known by. Once every insert has ended, the next
   * answer is current (for all there is to go by, and so for every analysis) if and only
   * if it is not such a report; while some are open, if and only if none ended since.
   */
  lemma AskedMidInsert(events: seq<Event>, net: Net, max: nat)
    requires max >= 1 && Paired(events, 0) && Minted(events, {})
    ensures var v := Run(Start(net), events, VIEW, max);
            && (Answer(v, VIEW) == Fresh(VIEW, v.p, v.net) <==> !(Hit(v) && v.ended > 0))
            && (v.open == 0 ==> (Answer(v, VIEW) == Fresh(VIEW, v.p, v.net) <==> !(Hit(v) && v.askedOpen > 0)))
  {
    RunAccurate(Start(net), events, VIEW, max);
    var used := RunTelling(Start(net), events, max, {});
    var v := Run(Start(net), events, VIEW, max);
    if Hit(v) && v.ended > 0 { EndedSinceShows(v, used); }
  }

  function Sample(id: string): Flow
  {
    Flow(id, 1, "GET", "https", "example.com", "/", "https://example.com/", None, Completed, [], None, None, "")
  }

  /** An analysis that counts flows, asked mid-insert, goes on reporting none of one. */
  lemma StaleCount(net: Net)
    ensures var count: Analysis<nat> := (shells, _) => |shells|;
            var v := Run(Start(net), [BeginInsert, Ask, EndInsert(Sample("a"))], count, 1);
            Answer(v, count) == 0 && Fresh(count, v.p, v.net) == 1
  {
    var count: Analysis<nat> := (shells, _) => |shells|;
    var es, f := [BeginInsert, Ask, EndInsert(Sample("a"))], Sample("a");
    assert es[1..] == [Ask, EndInsert(f)] && es[1..][1..] == [EndInsert(f)] && es[1..][1..][1..] == [];
    var a := Next(Start(net), BeginInsert, count, 1);
    var b := Next(a, Ask, count, 1);
    var v := Next(b, EndInsert(f), count, 1);
    assert Run(Start(net), es, count, 1) == Run(a, es[1..], count, 1) == Run(b, es[1..][1..], count, 1);
    assert Run(b, es[1..][1..], count, 1) == Run(v, [], count, 1) == v;
    assert v.p == F.Plain(["a"], map["a" := f]) by {
      assert F.Added(F.EMPTY, f).order == ["a"] && F.Added(F.EMPTY, f).flows == map["a" := f];
    }
    assert ["a"][1..] == [];
    assert F.Shells(["a"], map["a" := f]) == [WithoutBytes(f)];
  }
}
