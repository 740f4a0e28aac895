/**
 * The page's end of `NoLostUpdate`: what its list shows of a flow once everything sent has
 * arrived and been ticked, while its queue stays within its cap.
 */
module PageCatchesUp {
  import opened Wrappers
  import opened Proto
  import opened Coalesce
  import opened FlowList
  import opened UiStream
  import opened NoLostUpdate
  import Q = StreamQueue
  import P = ListStore

  /** A message's snapshots arrive, or a tick hands the queue to the list. */
  datatype PageStep = Arrive(flows: seq<Flow>) | TickList(recording: bool)

  datatype Page = Page(list: seq<Flow>, queue: seq<Flow>)

  function Step(p: Page, e: PageStep): Page
  {
    match e
    case Arrive(flows) => p.(queue := Q.Newest(UpsertAll(p.queue, flows), P.MAX_FLOWS))
    case TickList(recording) => Page(ApplyAll(p.list, Stripped(p.queue), recording, P.MAX_FLOWS), [])
  }

  function After(p: Page, steps: seq<PageStep>): Page
    decreases |steps|
  {
    if steps == [] then p else After(Step(p, steps[0]), steps[1..])
  }

  function ArrivedBy(e: PageStep): seq<Flow> { if e.Arrive? then e.flows else [] }

  /** The snapshots that arrive, in order. */
  function Arrived(steps: seq<PageStep>): seq<Flow>
  {
    if steps == [] then [] else ArrivedBy(steps[0]) + Arrived(steps[1..])
  }

  /** No arrival takes the queue over its cap. */
  predicate NeverOver(p: Page, steps: seq<PageStep>)
    decreases |steps|
  {
    steps == [] ||
    ((steps[0].Arrive? ==> |UpsertAll(p.queue, steps[0].flows)| <= P.MAX_FLOWS)
     && NeverOver(Step(p, steps[0]), steps[1..]))
  }

  function InQueue(q: seq<Flow>, id: string): Option<Flow>
  {
    if Has(q, id) then Some(q[Find(q, id)]) else None
  }

  /** What page and queue hold of a flow is the last snapshot of it that arrived. */
  ghost predicate Shows(p: Page, arrived: seq<Flow>, id: string)
  {
    && Distinct(p.list) && Distinct(p.queue)
    && (Has(p.queue, id) ==> Last(arrived, id) == InQueue(p.queue, id))
    && (!Has(p.queue, id) && Has(p.list, id) ==>
          Last(arrived, id).Some? && p.list[Find(p.list, id)] == WithoutBytes(Last(arrived, id).value))
  }

  /* ------------------------------ arriving ------------------------------ */

  lemma LastSnoc(fs: seq<Flow>, f: Flow, id: string)
    ensures Last(fs + [f], id) == if f.id == id then Some(f) else Last(fs, id)
  {
    assert (fs + [f])[..|fs|] == fs;
  }

  /** A queue holds the last snapshot of a batch, or what it held. */
  lemma {:induction false} UpsertAllHolds(q: seq<Flow>, batch: seq<Flow>, id: string)
    requires Distinct(q)
    ensures InQueue(UpsertAll(q, batch), id) == if Last(batch, id).Some? then Last(batch, id) else InQueue(q, id)
    decreases |batch|
  {
    if batch != [] {
      var f, rest := batch[0], batch[1..];
      UpsertKeeps(q, f);
      UpsertQueued(q, f, id);
      UpsertAllHolds(Upsert(q, f), rest, id);
      assert batch == [f] + rest;
      LastConcat([f], rest, id);
      LastSnoc([], f, id);
      assert [] + [f] == [f];
    }
  }

  lemma ArriveShows(p: Page, flows: seq<Flow>, arrived: seq<Flow>, id: string)
    requires Shows(p, arrived, id) && |UpsertAll(p.queue, flows)| <= P.MAX_FLOWS
    ensures Shows(Step(p, Arrive(flows)), arrived + flows, id)
  {
    UpsertAllKeeps(p.queue, flows);
    UpsertAllHolds(p.queue, flows, id);
    LastConcat(arrived, flows, id);
  }

  /* ------------------------------- ticking ------------------------------ */

  lemma ApplyHolds(l: seq<Flow>, f: Flow, recording: bool, cap: nat, id: string)
    requires cap >= 1 && Distinct(l)
    ensures var r := Apply(l, f, recording, cap);
            && Distinct(r)
            && (Has(r, id) ==> if f.id == id then r[Find(r, id)] == f
                               else Has(l, id) && r[Find(r, id)] == l[Find(l, id)])
  {
    ApplyKeeps(l, f, recording, cap);
    var r := Apply(l, f, recording, cap);
    if Has(l, f.id) {
      SameFind(l, r, id);
    } else if recording && f.id != id && Has(r, id) {
      var k := Find(r, id);
      assert r[k] == l[k - 1] && Has(l, id);
      assert l[Find(l, id)].id == l[k - 1].id;
    }
  }

  /** A list shows the last snapshot applied of a flow it holds, or what it showed. */
  lemma {:induction false} ApplyAllHolds(l: seq<Flow>, batch: seq<Flow>, recording: bool, cap: nat, id: string)
    requires cap >= 1 && Distinct(l)
    ensures var r := ApplyAll(l, batch, recording, cap);
            && Distinct(r)
            && (Has(r, id) ==> if Last(batch, id).Some? then r[Find(r, id)] == Last(batch, id).value
                               else Has(l, id) && r[Find(r, id)] == l[Find(l, id)])
    decreases |batch|
  {
    if batch != [] {
      var f, rest := batch[0], batch[1..];
      ApplyHolds(l, f, recording, cap, id);
      ApplyAllHolds(Apply(l, f, recording, cap), rest, recording, cap, id);
      assert batch == [f] + rest;
      LastConcat([f], rest, id);
      LastSnoc([], f, id);
      assert [] + [f] == [f];
    }
  }

  lemma {:induction false} LastStripped(fs: seq<Flow>, id: string)
    ensures Last(Stripped(fs), id) == if Last(fs, id).Some? then Some(WithoutBytes(Last(fs, id).value)) else None
  {
    if fs != [] {
      assert Stripped(fs)[..|fs| - 1] == Stripped(fs[..|fs| - 1]);
      LastStripped(fs[..|fs| - 1], id);
    }
  }

  lemma TickShows(p: Page, recording: bool, arrived: seq<Flow>, id: string)
    requires Shows(p, arrived, id)
    ensures Shows(Step(p, TickList(recording)), arrived, id)
  {
    ApplyAllHolds(p.list, Stripped(p.queue), recording, P.MAX_FLOWS, id);
    LastStripped(p.queue, id);
    LastDistinct(p.queue, id);
  }

  lemma {:induction false} StepsShow(p: Page, steps: seq<PageStep>, arrived: seq<Flow>, id: string)
    requires Shows(p, arrived, id) && NeverOver(p, steps)
    ensures Shows(After(p, steps), arrived + Arrived(steps), id)
    decreases |steps|
  {
    if steps == [] {
      assert arrived + [] == arrived;
    } else {
      match steps[0] {
        case Arrive(flows) => ArriveShows(p, flows, arrived, id);
        case TickList(recording) => TickShows(p, recording, arrived, id);
      }
      assert arrived + [] == arrived;
      StepsShow(Step(p, steps[0]), steps[1..], arrived + ArrivedBy(steps[0]), id);
      InOneRow(arrived, ArrivedBy(steps[0]), Arrived(steps[1..]));
    }
  }

  lemma InOneRow(a: seq<Flow>, b: seq<Flow>, c: seq<Flow>)
    ensures a + b + c == a + (b + c)
  {}

  /**
   * End to end: after any run of the engine, a resume and a flush, once all that was sent
   * to a page has arrived and been ticked, however it was cut and whatever the list
   * recorded meanwhile, every flow shown to the page that its list still holds is listed
   * as the store has it, stripped of its bytes.
   */
  lemma PageShowsTheStore(events: seq<NoLostUpdate.Event>, steps: seq<PageStep>, id: string)
    requires AllAllowed(START, events) && id in Run(START, events).shown
    requires var w := Run(START, events);
             Arrived(steps) == AllFlows(Flush(Resume(w.stream, w.store)).outbox)
    requires NeverOver(Page([], []), steps) && After(Page([], []), steps).queue == []
    ensures var w, list := Run(START, events), After(Page([], []), steps).list;
            id in w.store && (Has(list, id) ==> list[Find(list, id)] == WithoutBytes(w.store[id]))
  {
    ResumeAndFlushCatchUp(events, id);
    StepsShow(Page([], []), steps, [], id);
    assert [] + Arrived(steps) == Arrived(steps);
    WithoutBytesTwice(Run(START, events).store[id]);
  }
}
