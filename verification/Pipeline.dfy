/**
 * The live stream end to end: the engine's `UiStream`, messages on the wire, the
 * webview's `StreamQueue`, and the list panel it feeds (src/App.tsx:334-340), as one state
 * machine; and its list, while it records, nothing is paused or cleared, and the flows
 * involved fit it.
 */
module Pipeline {
  import opened Wrappers
  import opened Proto
  import opened Frames
  import opened Coalesce
  import opened FlowList
  import opened FramePanel
  import E = UiStream
  import Q = StreamQueue
  import P = ListStore

  const CAPS := Q.Caps(P.MAX_FLOWS, Q.MAX_QUEUED_FRAMES, Q.MAX_QUEUED_WS_BYTES)

  /** The whole pipeline, and the history of what the engine emitted into it. */
  datatype World = World(
    engine: E.Stream, wire: seq<StreamBatch>, queue: Q.Queue, panel: Panel,
    flows: seq<Flow>, frames: seq<WsMessage>)

  /**
   * What can happen, in any order. `Clear`, as the UI does it, is three steps: the list,
   * the webview's queue and the engine. `Reload` is a new page binding its channel.
   */
  datatype Event =
    | EmitFlow(flow: Flow)
    | EmitFrame(frame: WsMessage)
    | Flush
    | Deliver
    | Tick
    | PauseUi
    | ResumeUi(store: map<string, Flow>)
    | SetRecording(on: bool)
    | DiscardEngine
    | DiscardQueue
    | ClearList
    | LoadList(list: seq<Flow>)
    | Reload

  /** The messages a flush of the engine puts on the wire. */
  function Sent(s: E.Stream): (r: seq<StreamBatch>)
    ensures r == if (s.flows == [] && s.ws == [] && s.dropped == map[]) || !s.bound then []
                 else E.Messages(s.flows, s.ws[..Fill(Utf8, s.ws, E.MAX_WS_BYTES_PER_TICK)], s.dropped)
  {
    E.Flush(s).outbox[|s.outbox|..]
  }

  /** The list after a tick's snapshots, which the App applies before its frames. */
  function WithFlows(w: World): Panel
  {
    ApplyBatch(w.panel, Q.Take(w.queue).flows, P.MAX_FLOWS)
  }

  function FlowEmitted(w: World, f: Flow): World
  {
    w.(engine := E.EmitFlow(w.engine, f), flows := w.flows + [f])
  }

  function FrameEmitted(w: World, m: WsMessage): World
  {
    w.(engine := E.EmitFrame(w.engine, m), frames := w.frames + [m])
  }

  function Flushed(w: World): World
  {
    w.(engine := E.Flush(w.engine), wire := w.wire + Sent(w.engine))
  }

  /** The first message on the wire reaches the webview's queue. */
  predicate Delivers(w: World, v: World)
  {
    w.wire != [] && v == w.(wire := w.wire[1..], queue := Q.Push(w.queue, w.wire[0], CAPS))
  }

  /** The webview's queue goes to the list; eviction may break ties either way. */
  ghost predicate Ticks(w: World, v: World)
  {
    var out := Q.Take(w.queue);
    && v == w.(queue := Q.EMPTY, panel := v.panel)
    && if out.ws == [] && out.dropped == map[] then v.panel == WithFlows(w)
       else P.Step(WithFlows(w), P.AddWsMessages(out.ws, out.dropped), v.panel)
  }

  function Reloaded(w: World): World
  {
    w.(engine := E.Bind(w.engine), wire := [], queue := Q.EMPTY, panel := P.EMPTY)
  }

  ghost predicate Next(w: World, e: Event, v: World)
  {
    match e
    case EmitFlow(f) => v == FlowEmitted(w, f)
    case EmitFrame(m) => v == FrameEmitted(w, m)
    case Flush => v == Flushed(w)
    case Deliver => Delivers(w, v)
    case Tick => Ticks(w, v)
    case PauseUi => v == w.(engine := E.Pause(w.engine))
    case ResumeUi(store) => v == w.(engine := E.Resume(w.engine, store))
    case SetRecording(on) => v == w.(panel := w.panel.(recording := on))
    case DiscardEngine => v == w.(engine := E.Discard(w.engine))
    case DiscardQueue => v == w.(queue := Q.Discard(w.queue))
    case ClearList => v == w.(panel := v.panel) && P.Step(w.panel, P.Clear, v.panel)
    case LoadList(list) => v == w.(panel := v.panel) && P.Step(w.panel, P.LoadFlows(list), v.panel)
    case Reload => v == Reloaded(w)
  }

  /**
   * A fresh page over a list with unique ids, recording. The history starts with the
   * engine's, so nothing was emitted yet.
   */
  ghost predicate Start(w: World)
  {
    && w.engine == E.Bind(E.UNBOUND) && w.wire == [] && w.queue == Q.EMPTY
    && w.panel.recording && Distinct(w.panel.flows)
    && w.flows == [] && w.frames == []
  }

  /* ------------------------------- snapshots ---------------------------- */

  ghost predicate AllStripped(fs: seq<Flow>)
  {
    forall i :: 0 <= i < |fs| ==> WithoutBytes(fs[i]) == fs[i]
  }

  /** Snapshots between the engine and the list, oldest first. */
  function Pending(w: World): seq<Flow>
  {
    w.queue.flows + E.AllFlows(w.wire) + w.engine.flows
  }

  /** The list as applying every emitted snapshot directly would leave it. */
  function Direct(start: Panel, w: World): seq<Flow>
  {
    ApplyAll(start.flows, Stripped(w.flows), true, P.MAX_FLOWS)
  }

  /**
   * Everything in the pipeline is over the given ids, which fit the list; the page is live;
   * and what is still pending would bring the list to where direct application is.
   */
  ghost predicate FlowsKept(start: Panel, w: World, ids: set<string>)
  {
    && |ids| <= P.MAX_FLOWS
    && Distinct(w.panel.flows) && Distinct(w.queue.flows) && Distinct(w.engine.flows)
    && Ids(w.panel.flows) <= ids && Ids(Pending(w)) <= ids
    && w.engine.bound && w.engine.paused.None? && w.panel.recording && AllStripped(Pending(w))
    && ApplyAll(w.panel.flows, Pending(w), true, P.MAX_FLOWS) == Direct(start, w)
  }

  lemma {:induction false} AllFlowsConcat(a: seq<StreamBatch>, b: seq<StreamBatch>)
    ensures E.AllFlows(a + b) == E.AllFlows(a) + E.AllFlows(b)
  {
    if a == [] {
      assert a + b == b;
    } else {
      assert (a + b)[1..] == a[1..] + b;
      AllFlowsConcat(a[1..], b);
      assert a[0].flows + (E.AllFlows(a[1..]) + E.AllFlows(b)) == E.AllFlows(a) + E.AllFlows(b);
    }
  }

  lemma StrippedUpsert(q: seq<Flow>, f: Flow)
    requires AllStripped(q)
    ensures AllStripped(Upsert(q, WithoutBytes(f)))
  {
    WithoutBytesTwice(f);
  }

  lemma {:induction false} StrippedUpsertAll(q: seq<Flow>, batch: seq<Flow>)
    requires AllStripped(q) && AllStripped(batch)
    ensures AllStripped(UpsertAll(q, batch))
    decreases |batch|
  {
    if batch != [] {
      assert WithoutBytes(batch[0]) == batch[0];
      StrippedUpsert(q, batch[0]);
      StrippedUpsertAll(Upsert(q, batch[0]), batch[1..]);
    }
  }

  /** Coalescing into the last queue, seen from the list. */
  lemma {:induction false} UpsertSeen(list: seq<Flow>, front: seq<Flow>, e: seq<Flow>, s: Flow, ids: set<string>)
    requires Distinct(list) && Distinct(e) && |ids| <= P.MAX_FLOWS
    requires Ids(list) <= ids && Ids(front) <= ids && Ids(e) <= ids && s.id in ids
    ensures ApplyAll(list, front + Upsert(e, s), true, P.MAX_FLOWS)
         == Apply(ApplyAll(list, front + e, true, P.MAX_FLOWS), s, true, P.MAX_FLOWS)
  {
    var mid := ApplyAll(list, front, true, P.MAX_FLOWS);
    ApplyAllKeeps(list, front, true, P.MAX_FLOWS);
    CoalesceOne(mid, e, s, P.MAX_FLOWS, ids);
    ApplyAllConcat(list, front, Upsert(e, s), true, P.MAX_FLOWS);
    ApplyAllConcat(list, front, e, true, P.MAX_FLOWS);
    ApplyAllSnoc(mid, e, s, true, P.MAX_FLOWS);
  }

  /** Coalescing a message into the first queue, seen from the list. */
  lemma UpsertAllSeen(list: seq<Flow>, q: seq<Flow>, m: seq<Flow>, rest: seq<Flow>, ids: set<string>)
    requires Distinct(list) && Distinct(q) && |ids| <= P.MAX_FLOWS
    requires Ids(list) <= ids && Ids(q) <= ids && Ids(m) <= ids
    ensures ApplyAll(list, UpsertAll(q, m) + rest, true, P.MAX_FLOWS) == ApplyAll(list, q + m + rest, true, P.MAX_FLOWS)
    ensures Q.Newest(UpsertAll(q, m), P.MAX_FLOWS) == UpsertAll(q, m)
  {
    UpsertAllKeeps(q, m);
    DistinctFits(UpsertAll(q, m), ids);
    CoalesceAll(list, q, m, P.MAX_FLOWS, ids);
    ApplyAllSwap(list, UpsertAll(q, m), q + m, rest, true, P.MAX_FLOWS);
  }

  lemma StrippedJoin(a: seq<Flow>, b: seq<Flow>)
    ensures AllStripped(a + b) <==> AllStripped(a) && AllStripped(b)
  {
    assert forall i :: 0 <= i < |a| ==> a[i] == (a + b)[i];
    assert forall i :: 0 <= i < |b| ==> b[i] == (a + b)[|a| + i];
  }

  lemma EmitFlowKept(start: Panel, w: World, f: Flow, v: World, ids: set<string>)
    requires FlowsKept(start, w, ids) && v == FlowEmitted(w, f) && f.id in ids
    ensures FlowsKept(start, v, ids)
  {
    var s := WithoutBytes(f);
    var front, e := w.queue.flows + E.AllFlows(w.wire), w.engine.flows;
    IdsSplit(front, e);
    IdsSplit(front, Upsert(e, s));
    UpsertKeeps(e, s);
    StrippedJoin(front, e);
    StrippedJoin(front, Upsert(e, s));
    StrippedUpsert(e, f);
    EmitFlowInStep(start, w, f, v, ids);
  }

  lemma EmitFlowInStep(start: Panel, w: World, f: Flow, v: World, ids: set<string>)
    requires FlowsKept(start, w, ids) && f.id in ids
    requires v.panel == w.panel && v.flows == w.flows + [f]
    requires Pending(v) == w.queue.flows + E.AllFlows(w.wire) + Upsert(w.engine.flows, WithoutBytes(f))
    ensures ApplyAll(v.panel.flows, Pending(v), true, P.MAX_FLOWS) == Direct(start, v)
  {
    var s := WithoutBytes(f);
    var front := w.queue.flows + E.AllFlows(w.wire);
    IdsSplit(front, w.engine.flows);
    UpsertSeen(w.panel.flows, front, w.engine.flows, s, ids);
    assert Stripped(v.flows) == Stripped(w.flows) + [s];
    ApplyAllSnoc(start.flows, Stripped(w.flows), s, true, P.MAX_FLOWS);
  }

  lemma FlushPending(w: World)
    ensures Pending(Flushed(w)) == Pending(w)
  {
    MessagesFlows(w.engine);
    AllFlowsConcat(w.wire, Sent(w.engine));
    FlowsRegroup(w.queue.flows, E.AllFlows(w.wire), E.AllFlows(Sent(w.engine)), E.Flush(w.engine).flows);
  }

  lemma FlowsRegroup(a: seq<Flow>, b: seq<Flow>, c: seq<Flow>, d: seq<Flow>)
    ensures a + (b + c) + d == a + b + (c + d)
  {}

  lemma MessagesFlows(s: E.Stream)
    ensures Sent(s) != [] ==> E.AllFlows(Sent(s)) == s.flows
    ensures E.AllFlows(Sent(s)) + E.Flush(s).flows == s.flows
  {
    E.MessagesWhole(s.flows, s.ws[..Fill(Utf8, s.ws, E.MAX_WS_BYTES_PER_TICK)], s.dropped);
  }

  /** Flows still to come once the message being delivered is queued. */
  function After(w: World): seq<Flow>
    requires w.wire != []
  {
    E.AllFlows(w.wire[1..]) + w.engine.flows
  }

  lemma DeliverShape(w: World, v: World)
    requires Delivers(w, v)
    ensures v == w.(wire := w.wire[1..], queue := v.queue)
    ensures v.queue.flows == Q.Newest(UpsertAll(w.queue.flows, w.wire[0].flows), P.MAX_FLOWS)
    ensures Pending(w) == w.queue.flows + w.wire[0].flows + After(w)
    ensures Pending(v) == v.queue.flows + After(w)
  {
    var q, m, more := w.queue.flows, w.wire[0].flows, E.AllFlows(w.wire[1..]);
    assert E.AllFlows(w.wire) == m + more;
    assert q + (m + more) + w.engine.flows == q + m + (more + w.engine.flows);
    assert v.queue.flows + more + w.engine.flows == v.queue.flows + (more + w.engine.flows);
  }

  lemma DeliverKept(start: Panel, w: World, v: World, ids: set<string>)
    requires FlowsKept(start, w, ids) && Delivers(w, v)
    ensures FlowsKept(start, v, ids)
    ensures Ids(v.queue.flows) == Ids(w.queue.flows) + Ids(w.wire[0].flows)
  {
    DeliverShape(w, v);
    DeliverQueued(w.panel.flows, w.queue.flows, w.wire[0].flows, After(w), ids);
  }

  /** What delivering a message does to the queued flows `q` and to all that is pending. */
  lemma DeliverQueued(list: seq<Flow>, q: seq<Flow>, m: seq<Flow>, rest: seq<Flow>, ids: set<string>)
    requires Distinct(list) && Distinct(q) && |ids| <= P.MAX_FLOWS
    requires Ids(list) <= ids && Ids(q + m + rest) <= ids && AllStripped(q + m + rest)
    ensures Q.Newest(UpsertAll(q, m), P.MAX_FLOWS) == UpsertAll(q, m)
    ensures Distinct(UpsertAll(q, m)) && Ids(UpsertAll(q, m)) == Ids(q) + Ids(m)
    ensures Ids(UpsertAll(q, m) + rest) <= ids && AllStripped(UpsertAll(q, m) + rest)
    ensures ApplyAll(list, UpsertAll(q, m) + rest, true, P.MAX_FLOWS) == ApplyAll(list, q + m + rest, true, P.MAX_FLOWS)
  {
    IdsSplit(q + m, rest);
    IdsSplit(q, m);
    UpsertAllKeeps(q, m);
    UpsertAllSeen(list, q, m, rest, ids);
    IdsSplit(UpsertAll(q, m), rest);
    StrippedJoin(q + m, rest);
    StrippedJoin(q, m);
    StrippedUpsertAll(q, m);
    StrippedJoin(UpsertAll(q, m), rest);
  }

  /** With room for every id, applying a batch evicts no flow and so no frames. */
  lemma {:induction false} ApplyBatchKeepsFrames(p: Panel, batch: seq<Flow>, ids: set<string>)
    requires |ids| <= P.MAX_FLOWS && Distinct(p.flows) && p.recording
    requires Ids(p.flows) <= ids && Ids(batch) <= ids
    ensures var q := ApplyBatch(p, batch, P.MAX_FLOWS);
            q.ws == p.ws && q.dropped == p.dropped
    decreases |batch|
  {
    if batch != [] {
      var s := WithoutBytes(batch[0]);
      IdsHead(batch);
      if !Has(p.flows, s.id) { RoomFor(p.flows, s.id, ids); }
      ApplyKeeps(p.flows, s, true, P.MAX_FLOWS);
      ApplyBatchKeepsFrames(ApplyOne(p, batch[0], P.MAX_FLOWS), batch[1..], ids);
    }
  }

  /** A tick's snapshots reach the list whole, and its flows grow by exactly theirs. */
  lemma TickFlows(start: Panel, w: World, v: World, ids: set<string>)
    requires FlowsKept(start, w, ids) && Ticks(w, v)
    ensures v.panel.flows == ApplyAll(w.panel.flows, w.queue.flows, true, P.MAX_FLOWS) == WithFlows(w).flows
    ensures v.panel.recording && Distinct(v.panel.flows)
    ensures Ids(v.panel.flows) == Ids(w.panel.flows) + Ids(w.queue.flows)
    ensures WithFlows(w).ws == w.panel.ws && WithFlows(w).dropped == w.panel.dropped
  {
    var q, rest := w.queue.flows, E.AllFlows(w.wire) + w.engine.flows;
    assert Pending(w) == q + rest;
    IdsSplit(q, rest);
    StrippedJoin(q, rest);
    assert Stripped(q) == q;
    ApplyBatchFlows(w.panel, q, P.MAX_FLOWS);
    ApplyBatchKeepsFrames(w.panel, q, ids);
    ApplyAllKeeps(w.panel.flows, q, true, P.MAX_FLOWS);
    ApplyAllEvictsNothing(w.panel.flows, q, P.MAX_FLOWS, ids);
  }

  /** What a tick leaves pending is the rest, and the list is so much further. */
  lemma QueueDrained(list: seq<Flow>, q: seq<Flow>, wire: seq<Flow>, e: seq<Flow>, ids: set<string>)
    requires Ids(q + wire + e) <= ids && AllStripped(q + wire + e)
    ensures Ids([] + wire + e) <= ids && Ids(q) <= ids && AllStripped([] + wire + e)
    ensures ApplyAll(ApplyAll(list, q, true, P.MAX_FLOWS), [] + wire + e, true, P.MAX_FLOWS)
         == ApplyAll(list, q + wire + e, true, P.MAX_FLOWS)
  {
    var rest := [] + wire + e;
    assert q + wire + e == q + rest;
    IdsSplit(q, rest);
    StrippedJoin(q, rest);
    ApplyAllConcat(list, q, rest, true, P.MAX_FLOWS);
  }

  /**
   * What a run may do here: emit flows of the universe and frames of flows it knows, and
   * move them along. `FrameAccounts` allows everything.
   */
  ghost predicate Admissible(start: Panel, w: World, e: Event, ids: set<string>)
  {
    match e
    case EmitFlow(f) => f.id in ids
    case EmitFrame(m) => m.flowId in Ids(start.flows) + Ids(w.flows)
    case Flush => true
    case Deliver => true
    case Tick => true
    case _ => false
  }

  /** The `i`-th event takes its world to the next. */
  ghost predicate Happens(worlds: seq<World>, events: seq<Event>, i: int)
  {
    0 <= i < |events| < |worlds| ==> Next(worlds[i], events[i], worlds[i + 1])
  }

  /** Any events in any order, from any world. */
  ghost predicate Runs(worlds: seq<World>, events: seq<Event>)
  {
    |worlds| == |events| + 1 && forall i :: Happens(worlds, events, i)
  }

  ghost predicate AdmissibleAt(worlds: seq<World>, events: seq<Event>, ids: set<string>, i: int)
  {
    0 <= i < |events| < |worlds| ==> Admissible(worlds[0].panel, worlds[i], events[i], ids)
  }

  /** A run from a fresh page, all of it within `ids`. */
  ghost predicate IsRun(worlds: seq<World>, events: seq<Event>, ids: set<string>)
  {
    && Runs(worlds, events) && Start(worlds[0])
    && |ids| <= P.MAX_FLOWS && Ids(worlds[0].panel.flows) <= ids
    && forall i :: AdmissibleAt(worlds, events, ids, i)
  }

  lemma {:induction false} FlowsAlways(worlds: seq<World>, events: seq<Event>, ids: set<string>, n: nat)
    requires IsRun(worlds, events, ids) && n < |worlds|
    ensures FlowsKept(worlds[0].panel, worlds[n], ids)
  {
    if n == 0 {
      assert Pending(worlds[0]) == [] && Stripped(worlds[0].flows) == [];
    } else {
      FlowsAlways(worlds, events, ids, n - 1);
      assert Happens(worlds, events, n - 1) && AdmissibleAt(worlds, events, ids, n - 1);
      var start, w, v := worlds[0].panel, worlds[n - 1], worlds[n];
      match events[n - 1] {
        case EmitFlow(f) => EmitFlowKept(start, w, f, v, ids);
        case Flush => FlushPending(w);
        case Deliver => DeliverKept(start, w, v, ids);
        case Tick =>
          TickFlows(start, w, v, ids);
          QueueDrained(w.panel.flows, w.queue.flows, E.AllFlows(w.wire), w.engine.flows, ids);
        case _ =>
      }
    }
  }

  /**
   * End to end, however emits, flushes, 500-flow splits, deliveries and ticks fall:
   * whenever nothing is pending, the list holds exactly the flows, values and order that
   * applying each emitted snapshot on its own would have given.
   */
  lemma DrainedListIsDirect(worlds: seq<World>, events: seq<Event>, ids: set<string>, n: nat)
    requires IsRun(worlds, events, ids) && n < |worlds| && Pending(worlds[n]) == []
    ensures worlds[n].panel.flows == Direct(worlds[0].panel, worlds[n])
  {
    FlowsAlways(worlds, events, ids, n);
  }
}
