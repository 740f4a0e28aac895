/**
 * Where the flows of the list come from, in any run of the live stream; and what clearing
 * the capture leaves of it (src/App.tsx:298-307).
 */
module Cleared {
  import opened Wrappers
  import opened Proto
  import opened Frames
  import opened Coalesce
  import opened FlowList
  import opened FramePanel
  import opened Pipeline
  import E = UiStream
  import Q = StreamQueue
  import P = ListStore

  /** The engine holds the flow, or noted it for a resume. */
  predicate Upstream(w: World, id: string)
  {
    id in Ids(w.engine.flows) || (w.engine.paused.Some? && id in w.engine.paused.value.changed)
  }

  /** The flow is past the engine: on the wire, in the webview's queue, in the list. */
  predicate Past(w: World, id: string)
  {
    id in Ids(E.AllFlows(w.wire)) || id in Ids(w.queue.flows) || id in Ids(w.panel.flows)
  }

  /** The event brings the flow into the pipeline. */
  predicate Brings(e: Event, id: string)
  {
    (e.EmitFlow? && e.flow.id == id) || (e.LoadList? && id in Ids(e.list))
  }

  /* -------------------------------- steps ------------------------------- */





  lemma ApplyIds(l: seq<Flow>, f: Flow, recording: bool, cap: nat)
    requires cap >= 1
    ensures Ids(Apply(l, f, recording, cap)) <= Ids(l) + {f.id}
  {
    var r := Apply(l, f, recording, cap);
    forall id | id in Ids(r) ensures id in Ids(l) + {f.id} {
      var i :| 0 <= i < |r| && r[i].id == id;
      assert r[i] == f || r[i] in l;
    }
  }

  lemma {:induction false} ApplyAllIds(l: seq<Flow>, batch: seq<Flow>, recording: bool, cap: nat)
    requires cap >= 1
    ensures Ids(ApplyAll(l, batch, recording, cap)) <= Ids(l) + Ids(batch)
    decreases |batch|
  {
    if batch != [] {
      ApplyIds(l, batch[0], recording, cap);
      ApplyAllIds(Apply(l, batch[0], recording, cap), batch[1..], recording, cap);
      IdsHead(batch);
    }
  }

  lemma StrippedIds(batch: seq<Flow>)
    ensures Ids(Stripped(batch)) == Ids(batch)
  {
    var r := Stripped(batch);
    forall i | 0 <= i < |batch| ensures r[i].id == batch[i].id { assert r[i] == WithoutBytes(batch[i]); }
    assert forall id :: id in Ids(batch) ==> id in Ids(r) by {
      forall id | id in Ids(batch) ensures id in Ids(r) {
        var i :| 0 <= i < |batch| && batch[i].id == id;
        assert r[i].id == id;
      }
    }
  }

  lemma TickIds(w: World, v: World, id: string)
    requires Ticks(w, v) && Past(v, id)
    ensures Past(w, id)
  {
    var out := Q.Take(w.queue);
    ApplyBatchFlows(w.panel, out.flows, P.MAX_FLOWS);
    ApplyAllIds(w.panel.flows, Stripped(out.flows), w.panel.recording, P.MAX_FLOWS);
    StrippedIds(out.flows);
    assert v.panel.flows == WithFlows(w).flows;
  }

  lemma DeliverIds(w: World, v: World, id: string)
    requires Delivers(w, v) && Past(v, id)
    ensures Past(w, id)
  {
    var all := UpsertAll(w.queue.flows, w.wire[0].flows);
    UpsertAllIds(w.queue.flows, w.wire[0].flows);
    assert v.queue.flows == Q.Newest(all, CAPS.flows);
    assert Ids(v.queue.flows) <= Ids(all);
    IdsSplit(w.wire[0].flows, E.AllFlows(w.wire[1..]));
  }

  lemma FlushIds(w: World, id: string)
    ensures Past(Flushed(w), id) ==> Past(w, id) || Upstream(w, id)
    ensures Upstream(Flushed(w), id) ==> Upstream(w, id)
  {
    MessagesFlows(w.engine);
    AllFlowsConcat(w.wire, Sent(w.engine));
    IdsSplit(E.AllFlows(w.wire), E.AllFlows(Sent(w.engine)));
    IdsSplit(E.AllFlows(Sent(w.engine)), E.Flush(w.engine).flows);
  }

  /** What the engine holds or noted comes from what is emitted. */
  lemma UpstreamStep(w: World, e: Event, v: World, id: string)
    requires Next(w, e, v) && Upstream(v, id) && (e.ResumeUi? ==> E.Keyed(e.store))
    ensures Upstream(w, id) || Brings(e, id)
  {
    match e {
      case EmitFlow(f) => UpsertIds(w.engine.flows, WithoutBytes(f));
      case Flush => FlushIds(w, id);
      case ResumeUi(store) =>
        if w.engine.paused.Some? { E.QueueCurrentIds(w.engine.flows, w.engine.paused.value.changed, store); }
      case _ =>
    }
  }

  /** What is past the engine was there, was loaded, or is flushed out of it. */
  lemma PastStep(w: World, e: Event, v: World, id: string)
    requires Next(w, e, v) && Past(v, id)
    ensures Past(w, id) || (e.Flush? && Upstream(w, id)) || (e.LoadList? && Brings(e, id))
  {
    match e {
      case Flush => FlushIds(w, id);
      case Deliver => DeliverIds(w, v, id);
      case Tick => TickIds(w, v, id);
      case _ =>
    }
  }

  /* --------------------------------- runs ------------------------------- */

  /** Some event between two worlds brings the flow into the pipeline. */
  predicate Brought(events: seq<Event>, m: nat, n: nat, id: string)
    requires m <= n <= |events|
  {
    m < n && (Brought(events, m, n - 1, id) || Brings(events[n - 1], id))
  }

  ghost predicate StoresKeyed(events: seq<Event>)
  {
    forall i :: 0 <= i < |events| ==> events[i].ResumeUi? ==> E.Keyed(events[i].store)
  }

  /** Whatever happens between two worlds of any run, no flow comes from nowhere. */
  lemma {:induction false} NoneFromNowhere(worlds: seq<World>, events: seq<Event>, m: nat, n: nat, id: string)
    requires Runs(worlds, events) && StoresKeyed(events) && m <= n < |worlds|
    ensures Upstream(worlds[n], id) ==> Upstream(worlds[m], id) || Brought(events, m, n, id)
    ensures Past(worlds[n], id) ==> Past(worlds[m], id) || Upstream(worlds[m], id) || Brought(events, m, n, id)
    decreases n
  {
    if m < n {
      var w, e, v := worlds[n - 1], events[n - 1], worlds[n];
      NoneFromNowhere(worlds, events, m, n - 1, id);
      assert Happens(worlds, events, n - 1) && (e.ResumeUi? ==> E.Keyed(e.store));
      if Upstream(v, id) { UpstreamStep(w, e, v, id); }
      if Past(v, id) { PastStep(w, e, v, id); }
    }
  }

  /** Between two worlds the engine flushes nothing and nothing is imported. */
  ghost predicate NothingPasses(events: seq<Event>, m: nat, n: nat)
  {
    forall i {:trigger events[i]} :: m <= i < n && i < |events| ==> !events[i].Flush? && !events[i].LoadList?
  }

  lemma {:induction false} PastOnlyShrinks(worlds: seq<World>, events: seq<Event>, m: nat, n: nat, id: string)
    requires Runs(worlds, events) && m <= n < |worlds| && NothingPasses(events, m, n) && Past(worlds[n], id)
    ensures Past(worlds[m], id)
    decreases n
  {
    if m < n {
      assert Happens(worlds, events, n - 1) && !events[n - 1].Flush? && !events[n - 1].LoadList?;
      PastStep(worlds[n - 1], events[n - 1], worlds[n], id);
      PastOnlyShrinks(worlds, events, m, n - 1, id);
    }
  }

  lemma PageCleared(w: World, u: World, v: World, id: string)
    requires Next(w, ClearList, u) && Next(u, DiscardQueue, v)
    ensures Past(v, id) <==> id in Ids(E.AllFlows(w.wire))
  {}

  lemma EngineCleared(w: World, v: World, id: string)
    requires Next(w, DiscardEngine, v)
    ensures !Upstream(v, id) && (Past(v, id) <==> Past(w, id))
  {}

  /**
   * A full clear: the list and the webview's queue at `a`, the engine at `c`, which flushes
   * nothing in between. Whatever is listed, queued, noted or on the wire at any later time
   * was brought after the engine was cleared, or was on the wire when the list was.
   */
  lemma ClearedIsGone(worlds: seq<World>, events: seq<Event>, a: nat, c: nat, n: nat, id: string)
    requires Runs(worlds, events) && StoresKeyed(events) && a + 2 <= c < n < |worlds|
    requires events[a] == ClearList && events[a + 1] == DiscardQueue && events[c] == DiscardEngine
    requires NothingPasses(events, a + 2, c) && (Past(worlds[n], id) || Upstream(worlds[n], id))
    ensures id in Ids(E.AllFlows(worlds[a].wire)) || Brought(events, c + 1, n, id)
  {
    NoneFromNowhere(worlds, events, c + 1, n, id);
    assert Happens(worlds, events, a) && Happens(worlds, events, a + 1) && Happens(worlds, events, c);
    EngineCleared(worlds[c], worlds[c + 1], id);
    if Past(worlds[c], id) {
      PastOnlyShrinks(worlds, events, a + 2, c, id);
      PageCleared(worlds[a], worlds[a + 1], worlds[a + 2], id);
    }
  }

  /**
   * And what was on the wire can come back: a message sent before the clear that arrives
   * after it is listed again.
   */
  lemma OnTheWireComesBack(worlds: seq<World>, f: Flow)
    requires Runs(worlds, [ClearList, DiscardQueue, DiscardEngine, Deliver, Tick])
    requires worlds[0].wire != [] && worlds[0].wire[0].flows == [f] && worlds[0].panel.recording
    ensures worlds[5].panel.flows == [WithoutBytes(f)]
  {
    var events := [ClearList, DiscardQueue, DiscardEngine, Deliver, Tick];
    assert Happens(worlds, events, 0) && Happens(worlds, events, 1) && Happens(worlds, events, 2);
    AllCleared(worlds[0], worlds[1], worlds[2], worlds[3]);
    assert Happens(worlds, events, 3) && Happens(worlds, events, 4);
    ArrivesInEmpty(worlds[3], worlds[4], worlds[5], f);
  }

  lemma AllCleared(w: World, x: World, y: World, z: World)
    requires Next(w, ClearList, x) && Next(x, DiscardQueue, y) && Next(y, DiscardEngine, z)
    ensures z.wire == w.wire && z.queue.flows == [] && z.panel.flows == [] && z.panel.recording == w.panel.recording
  {}

  lemma ArrivesInEmpty(w: World, u: World, v: World, f: Flow)
    requires Delivers(w, u) && Ticks(u, v)
    requires w.wire[0].flows == [f] && w.queue.flows == [] && w.panel.flows == [] && w.panel.recording
    ensures v.panel.flows == [WithoutBytes(f)]
  {
    assert [f][1..] == [];
    assert UpsertAll([], [f]) == UpsertAll(Upsert([], f), []) == [f];
    assert u.queue.flows == [f];
    assert ApplyBatch(u.panel, [f], P.MAX_FLOWS) == ApplyOne(u.panel, f, P.MAX_FLOWS);
  }
}
