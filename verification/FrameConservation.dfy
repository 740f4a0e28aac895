/**
 * WebSocket frames through the pipeline while the flows involved fit the list: each finds
 * its flow listed, and so every one is held or counted.
 */
module FrameConservation {
  import opened Proto
  import opened Frames
  import opened Coalesce
  import opened FlowList
  import opened FrameAccounts
  import opened Pipeline
  import E = UiStream
  import Q = StreamQueue

  /* ------------------------- flows known ahead of frames ---------------- */

  /** If there are frames or drop counts of the flow, it is known. */
  predicate Covers(id: string, known: bool, ws: seq<WsMessage>, dropped: map<string, nat>)
  {
    Of(id, ws) != [] || Get(dropped, id) > 0 ==> known
  }

  /** A snapshot of the flow is on the wire. */
  predicate Carried(id: string, wire: seq<StreamBatch>)
  {
    wire != [] && (Has(wire[0].flows, id) || Carried(id, wire[1..]))
  }

  /** Each message with frames of the flow comes with or after a snapshot of it. */
  predicate Introduced(id: string, known: bool, wire: seq<StreamBatch>)
    decreases |wire|
  {
    wire == [] ||
    (var next := known || Has(wire[0].flows, id);
     Covers(id, next, wire[0].ws, wire[0].dropped) && Introduced(id, next, wire[1..]))
  }

  lemma HasConcat(a: seq<Flow>, b: seq<Flow>, id: string)
    ensures Has(a + b, id) <==> Has(a, id) || Has(b, id)
  {
    IdsSplit(a, b);
    HasIds(a, id);
    HasIds(b, id);
    HasIds(a + b, id);
  }

  lemma {:induction false} WireConcat(id: string, known: bool, a: seq<StreamBatch>, b: seq<StreamBatch>)
    ensures Carried(id, a + b) <==> Carried(id, a) || Carried(id, b)
    ensures Introduced(id, known, a) && Introduced(id, known || Carried(id, a), b) ==> Introduced(id, known, a + b)
    decreases |a|
  {
    if a == [] {
      assert a + b == b;
    } else {
      assert (a + b)[0] == a[0] && (a + b)[1..] == a[1..] + b;
      WireConcat(id, known || Has(a[0].flows, id), a[1..], b);
    }
  }

  lemma {:induction false} MessagesIntroduced(id: string, known: bool, flows: seq<Flow>, ws: seq<WsMessage>,
                                              dropped: map<string, nat>)
    ensures Carried(id, E.Messages(flows, ws, dropped)) <==> Has(flows, id)
    ensures Covers(id, known || Has(flows, id), ws, dropped) ==> Introduced(id, known, E.Messages(flows, ws, dropped))
    decreases |flows|
  {
    var ms := E.Messages(flows, ws, dropped);
    if |flows| > E.MAX_FLOWS_PER_MESSAGE {
      var head, rest := flows[..E.MAX_FLOWS_PER_MESSAGE], flows[E.MAX_FLOWS_PER_MESSAGE..];
      HasConcat(head, rest, id);
      assert head + rest == flows;
      MessagesIntroduced(id, known || Has(head, id), rest, ws, dropped);
      assert ms[1..] == E.Messages(rest, ws, dropped);
    } else {
      assert ms[1..] == [];
    }
  }

  /* -------------------------------- in order ---------------------------- */

  /** The list has the flow or will have it before anything now on the wire. */
  predicate Near(id: string, w: World) { Has(w.panel.flows, id) || Has(w.queue.flows, id) }

  predicate Known(id: string, w: World) { Near(id, w) || Carried(id, w.wire) || Has(w.engine.flows, id) }

  /** A flow emitted is known, and no further upstream than its frames. */
  predicate InOrder(id: string, start: Panel, w: World)
  {
    && (Has(start.flows, id) || Has(w.flows, id) ==> Known(id, w))
    && Covers(id, Near(id, w), w.queue.ws, w.queue.dropped)
    && Introduced(id, Near(id, w), w.wire)
    && Covers(id, Known(id, w), w.engine.ws, w.engine.dropped)
  }

  lemma EmitFlowInOrder(id: string, start: Panel, w: World, f: Flow, v: World)
    requires InOrder(id, start, w) && v == FlowEmitted(w, f)
    requires w.engine.bound && w.engine.paused.None? && Distinct(w.engine.flows)
    ensures InOrder(id, start, v)
  {
    UpsertKeeps(w.engine.flows, WithoutBytes(f));
    HasIds(w.engine.flows, id);
    HasIds(v.engine.flows, id);
    HasConcat(w.flows, [f], id);
  }

  lemma EmitFrameInOrder(id: string, start: Panel, w: World, m: WsMessage, v: World)
    requires InOrder(id, start, w) && w.engine.bound && v == FrameEmitted(w, m)
    requires m.flowId in Ids(start.flows) + Ids(w.flows)
    ensures InOrder(id, start, v)
  {
    HasIds(start.flows, id);
    HasIds(w.flows, id);
    var k := EmitFrameShape(w, m, v);
    OfConcat(id, w.engine.ws, [m]);
    assert [m][1..] == [];
    CutAccounts(id, w.engine.ws + [m], k, w.engine.dropped);
  }

  lemma FlushInOrder(id: string, start: Panel, w: World, v: World)
    requires InOrder(id, start, w) && v == Flushed(w)
    ensures InOrder(id, start, v)
  {
    var k := FlushShape(w, v);
    var e := w.engine;
    if Sent(e) == [] {
      assert w.wire + [] == w.wire;
    } else {
      OfSplit(id, e.ws, k);
      MessagesIntroduced(id, Near(id, w) || Carried(id, w.wire), e.flows, e.ws[..k], e.dropped);
      WireConcat(id, Near(id, w), w.wire, Sent(e));
    }
  }

  lemma DeliverInOrder(id: string, start: Panel, w: World, v: World)
    requires InOrder(id, start, w) && Delivers(w, v)
    requires Ids(v.queue.flows) == Ids(w.queue.flows) + Ids(w.wire[0].flows)
    ensures InOrder(id, start, v)
  {
    SameIds(w.queue.flows, w.wire[0].flows, v.queue.flows, id);
    var k := PushShape(w, v);
    var m := w.wire[0];
    OfConcat(id, w.queue.ws, m.ws);
    CutAccounts(id, w.queue.ws + m.ws, k, Q.AddCounts(w.queue.dropped, m.dropped));
  }

  lemma TickInOrder(id: string, start: Panel, w: World, v: World)
    requires InOrder(id, start, w) && v == w.(queue := Q.EMPTY, panel := v.panel)
    requires Ids(v.panel.flows) == Ids(w.panel.flows) + Ids(w.queue.flows)
    ensures InOrder(id, start, v)
  {
    SameIds(w.panel.flows, w.queue.flows, v.panel.flows, id);
  }

  /* --------------------------------- runs ------------------------------- */

  lemma SameIds(a: seq<Flow>, b: seq<Flow>, c: seq<Flow>, id: string)
    requires Ids(c) == Ids(a) + Ids(b)
    ensures Has(c, id) <==> Has(a, id) || Has(b, id)
  {
    HasIds(a, id);
    HasIds(b, id);
    HasIds(c, id);
  }

  lemma {:induction false} AlwaysInOrder(id: string, worlds: seq<World>, events: seq<Event>, ids: set<string>, n: nat)
    requires IsRun(worlds, events, ids) && n < |worlds|
    ensures InOrder(id, worlds[0].panel, worlds[n])
  {
    if n > 0 {
      AlwaysInOrder(id, worlds, events, ids, n - 1);
      var start, w, v := worlds[0].panel, worlds[n - 1], worlds[n];
      FlowsAlways(worlds, events, ids, n - 1);
      assert Happens(worlds, events, n - 1) && AdmissibleAt(worlds, events, ids, n - 1);
      match events[n - 1] {
        case EmitFlow(f) => EmitFlowInOrder(id, start, w, f, v);
        case EmitFrame(m) => EmitFrameInOrder(id, start, w, m, v);
        case Flush => FlushInOrder(id, start, w, v);
        case Deliver =>
          DeliverKept(start, w, v, ids);
          DeliverInOrder(id, start, w, v);
        case Tick =>
          TickFlows(start, w, v, ids);
          TickInOrder(id, start, w, v);
        case _ =>
      }
    }
  }

  /**
   * In every world of every such run, for every socket: frames emitted are frames held in
   * the panel, queued in the webview, on the wire or queued in the engine, plus frames
   * counted as dropped by one of the four; none goes uncounted.
   */
  lemma FramesAlwaysConserved(worlds: seq<World>, events: seq<Event>, ids: set<string>, n: nat, id: string)
    requires IsRun(worlds, events, ids) && n < |worlds|
    ensures Balanced(worlds[0], worlds[n], id, 0)
  {
    forall i | 0 <= i < n ensures Keeps(worlds[i], events[i], id) {
      var w := worlds[i];
      assert Happens(worlds, events, i) && AdmissibleAt(worlds, events, ids, i);
      FlowsAlways(worlds, events, ids, i);
      if events[i].Tick? {
        TickFlows(worlds[0].panel, w, worlds[i + 1], ids);
        BatchKeepsUnlessEvicted(w.panel, w.queue.flows, id);
        EvictedIffLeaves(w.panel, w.queue.flows, id);
        if InQueue(w.queue, id) > 0 { FramesFindTheirFlows(worlds, events, ids, i, id); }
      }
    }
    ConservedWhileListed(worlds, events, id, 0, n);
  }

  /**
   * No frame outruns its flow: in every such run, when a tick hands frames and drop counts
   * to the list, the list holds the flow of each one, once that tick's snapshots are in.
   */
  lemma FramesFindTheirFlows(worlds: seq<World>, events: seq<Event>, ids: set<string>, n: nat, id: string)
    requires IsRun(worlds, events, ids) && n < |events| && events[n] == Tick
    requires InQueue(worlds[n].queue, id) > 0
    ensures Has(WithFlows(worlds[n]).flows, id)
  {
    AlwaysInOrder(id, worlds, events, ids, n);
    assert Happens(worlds, events, n);
    FlowsAlways(worlds, events, ids, n);
    TickFlows(worlds[0].panel, worlds[n], worlds[n + 1], ids);
    HasIds(WithFlows(worlds[n]).flows, id);
  }
}
