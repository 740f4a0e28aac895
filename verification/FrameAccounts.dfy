/**
 * Where each WebSocket frame is, in any run of the live stream whatever: held by a stage,
 * counted as dropped by one, or gone without being counted. The last is told exactly.
 */
module FrameAccounts {
  import opened Wrappers
  import opened Proto
  import opened Frames
  import opened Coalesce
  import opened FlowList
  import opened FramePanel
  import opened Subsequence
  import opened Pipeline
  import E = UiStream
  import Q = StreamQueue
  import P = ListStore

  /* ------------------------- what is where, per socket ------------------ */

  function InFlight(id: string, wire: seq<StreamBatch>): seq<WsMessage>
  {
    if wire == [] then [] else Of(id, wire[0].ws) + InFlight(id, wire[1..])
  }

  function DropsInFlight(id: string, wire: seq<StreamBatch>): nat
  {
    if wire == [] then 0 else Get(wire[0].dropped, id) + DropsInFlight(id, wire[1..])
  }

  /** A socket's frames still held anywhere: panel first, engine last. */
  function Trail(w: World, id: string): seq<WsMessage>
  {
    Held(w.panel.ws, id) + Of(id, w.queue.ws) + InFlight(id, w.wire) + Of(id, w.engine.ws)
  }

  /** Frames of a socket counted as dropped anywhere. */
  function Dropped(w: World, id: string): nat
  {
    Get(w.panel.dropped, id) + Get(w.queue.dropped, id) + DropsInFlight(id, w.wire) + Get(w.engine.dropped, id)
  }

  /** A socket's frames that are held or counted. */
  function Accounted(w: World, id: string): nat { |Trail(w, id)| + Dropped(w, id) }

  /** What was held when `w` was, then what the engine emitted until `v`. */
  function Emitted(w: World, v: World, id: string): seq<WsMessage>
    requires |w.frames| <= |v.frames|
  {
    Trail(w, id) + Of(id, v.frames[|w.frames|..])
  }

  /* ------------------------- what goes uncounted ------------------------ */

  /** Held or counted by the panel. */
  function InPanel(p: Panel, id: string): nat { |Held(p.ws, id)| + Get(p.dropped, id) }

  function InQueue(q: Q.Queue, id: string): nat { |Of(id, q.ws)| + Get(q.dropped, id) }

  /** The snapshot is of a new flow, and listing it cuts this one off the end of the list. */
  predicate CutsOff(p: Panel, raw: Flow, id: string)
  {
    p.recording && !Has(p.flows, raw.id) && |p.flows| >= P.MAX_FLOWS && id in Ids(p.flows[P.MAX_FLOWS - 1..])
  }

  predicate EvictedIn(p: Panel, batch: seq<Flow>, id: string)
    decreases |batch|
  {
    batch != [] && (CutsOff(p, batch[0], id) || EvictedIn(ApplyOne(p, batch[0], P.MAX_FLOWS), batch[1..], id))
  }

  /** What of a socket one step loses without counting it. */
  function Vanishes(w: World, e: Event, id: string): nat
  {
    match e
    case EmitFrame(m) => if !w.engine.bound && m.flowId == id then 1 else 0
    case Tick =>
      (if EvictedIn(w.panel, w.queue.flows, id) then InPanel(w.panel, id) else 0)
      + (if Has(WithFlows(w).flows, id) then 0 else InQueue(w.queue, id))
    case ClearList => InPanel(w.panel, id)
    case LoadList(_) => InPanel(w.panel, id)
    case Reload => InPanel(w.panel, id) + InQueue(w.queue, id) + |InFlight(id, w.wire)| + DropsInFlight(id, w.wire)
    case _ => 0
  }

  /** Nothing invented or reordered since `w`, and exactly `gone` of it uncounted. */
  ghost predicate Balanced(w: World, v: World, id: string, gone: nat)
  {
    && w.frames <= v.frames
    && Sub(Trail(v, id), Emitted(w, v, id))
    && |Emitted(w, v, id)| + Dropped(w, id) == Accounted(v, id) + gone
  }

  /* ------------------------------ sequences ----------------------------- */

  lemma {:induction false} InFlightConcat(id: string, a: seq<StreamBatch>, b: seq<StreamBatch>)
    ensures InFlight(id, a + b) == InFlight(id, a) + InFlight(id, b)
    ensures DropsInFlight(id, a + b) == DropsInFlight(id, a) + DropsInFlight(id, b)
  {
    if a == [] {
      assert a + b == b;
    } else {
      assert (a + b)[1..] == a[1..] + b;
      InFlightConcat(id, a[1..], b);
      assert Of(id, a[0].ws) + (InFlight(id, a[1..]) + InFlight(id, b)) == InFlight(id, a) + InFlight(id, b);
    }
  }

  lemma {:induction false} MessagesCarry(id: string, flows: seq<Flow>, ws: seq<WsMessage>, dropped: map<string, nat>)
    ensures InFlight(id, E.Messages(flows, ws, dropped)) == Of(id, ws)
    ensures DropsInFlight(id, E.Messages(flows, ws, dropped)) == Get(dropped, id)
    decreases |flows|
  {
    var ms := E.Messages(flows, ws, dropped);
    if |flows| > E.MAX_FLOWS_PER_MESSAGE {
      MessagesCarry(id, flows[E.MAX_FLOWS_PER_MESSAGE..], ws, dropped);
      assert ms[1..] == E.Messages(flows[E.MAX_FLOWS_PER_MESSAGE..], ws, dropped);
    } else {
      assert ms[1..] == [];
      assert Of(id, ws) + [] == Of(id, ws);
    }
  }

  /** Dropping a prefix of a queue and counting it keeps the account of a socket. */
  lemma CutAccounts(id: string, all: seq<WsMessage>, k: nat, counts: map<string, nat>)
    requires k <= |all|
    ensures var c := |Of(id, all[..k])|;
            && c <= |Of(id, all)|
            && Of(id, all[k..]) == Of(id, all)[c..]
            && Get(Tally(counts, all[..k]), id) == Get(counts, id) + c
  {
    OfSplit(id, all, k);
    TallyCounts(counts, all[..k], id);
  }

  /* ---------------------- steps that emit nothing ----------------------- */

  /** A step without a new frame is balanced by what it keeps of the trail. */
  lemma NothingEmitted(w: World, v: World, id: string)
    requires v.frames == w.frames
    ensures Emitted(w, v, id) == Trail(w, id)
  {
    assert v.frames[|w.frames|..] == [] && Of(id, []) == [];
    assert Trail(w, id) + [] == Trail(w, id);
  }

  lemma Unchanged(w: World, v: World, id: string)
    requires v.frames == w.frames && Trail(v, id) == Trail(w, id) && Dropped(v, id) == Dropped(w, id)
    ensures Balanced(w, v, id, 0)
  {
    NothingEmitted(w, v, id);
    SubSelf(Trail(w, id));
  }

  /** What concerns flows only moves no frame. */
  lemma EngineChanged(w: World, v: World, id: string)
    requires v == w.(engine := v.engine, flows := v.flows)
    requires v.engine.ws == w.engine.ws && v.engine.dropped == w.engine.dropped
    ensures Balanced(w, v, id, 0)
  {
    Unchanged(w, v, id);
  }

  /* ------------------------------ emitting ------------------------------ */

  lemma EmitFrameShape(w: World, m: WsMessage, v: World) returns (k: nat)
    requires w.engine.bound && v == FrameEmitted(w, m)
    ensures k <= |w.engine.ws + [m]|
    ensures v == w.(engine := v.engine, frames := w.frames + [m])
    ensures v.engine == w.engine.(ws := v.engine.ws, dropped := v.engine.dropped)
    ensures v.engine.ws == (w.engine.ws + [m])[k..]
    ensures v.engine.dropped == Tally(w.engine.dropped, (w.engine.ws + [m])[..k])
  {
    var all := w.engine.ws + [m];
    k := Cut(Utf8, all, |all|, E.MAX_QUEUED_WS_BYTES);
  }

  lemma EmitFrameAccounts(w: World, m: WsMessage, v: World, id: string)
    requires v == FrameEmitted(w, m)
    ensures Balanced(w, v, id, Vanishes(w, EmitFrame(m), id))
  {
    assert v.frames[|w.frames|..] == [m] && [m][1..] == [];
    if w.engine.bound {
      var k := EmitFrameShape(w, m, v);
      CutAccounts(id, w.engine.ws + [m], k, w.engine.dropped);
      OfConcat(id, w.engine.ws, [m]);
      EmitTrail(w, m, v, id, |Of(id, (w.engine.ws + [m])[..k])|);
    } else {
      SubPrefix(Trail(w, id), Of(id, [m]));
    }
  }

  lemma EmitTrail(w: World, m: WsMessage, v: World, id: string, c: nat)
    requires v == w.(engine := v.engine, frames := w.frames + [m])
    requires Emitted(w, v, id) == Trail(w, id) + Of(id, [m])
    requires var all := Of(id, w.engine.ws) + Of(id, [m]);
             && c <= |all| && Of(id, v.engine.ws) == all[c..]
             && Get(v.engine.dropped, id) == Get(w.engine.dropped, id) + c
    ensures Balanced(w, v, id, 0)
  {
    var front := Held(w.panel.ws, id) + Of(id, w.queue.ws) + InFlight(id, w.wire);
    var all := Of(id, w.engine.ws) + Of(id, [m]);
    TrailCut(front, all, c, []);
    EndMoved(front, Of(id, w.engine.ws), Of(id, [m]));
    EndMoved(front, all[c..], []);
  }

  /* ------------------------------ moving on ----------------------------- */

  lemma FlushShape(w: World, v: World) returns (k: nat)
    requires v == Flushed(w)
    ensures v == w.(engine := v.engine, wire := w.wire + Sent(w.engine))
    ensures k <= |w.engine.ws|
    ensures if Sent(w.engine) == [] then v.engine == w.engine
            else && Sent(w.engine) == E.Messages(w.engine.flows, w.engine.ws[..k], w.engine.dropped)
                 && v.engine == w.engine.(
                      flows := [], ws := w.engine.ws[k..], dropped := map[], outbox := v.engine.outbox)
  {
    k := Fill(Utf8, w.engine.ws, E.MAX_WS_BYTES_PER_TICK);
  }

  lemma FlushAccounts(w: World, v: World, id: string)
    requires v == Flushed(w)
    ensures Balanced(w, v, id, 0)
  {
    var k := FlushShape(w, v);
    var e := w.engine;
    InFlightConcat(id, w.wire, Sent(e));
    if Sent(e) == [] {
      assert InFlight(id, w.wire) + [] == InFlight(id, w.wire);
    } else {
      MessagesCarry(id, e.flows, e.ws[..k], e.dropped);
      OfSplit(id, e.ws, k);
      var front := Held(w.panel.ws, id) + Of(id, w.queue.ws);
      MiddleMoved(front, InFlight(id, w.wire), Of(id, e.ws[..k]), Of(id, e.ws[k..]));
    }
    Unchanged(w, v, id);
  }

  lemma PushShape(w: World, v: World) returns (k: nat)
    requires Delivers(w, v)
    ensures v == w.(queue := v.queue, wire := w.wire[1..])
    ensures k <= |w.queue.ws + w.wire[0].ws|
    ensures v.queue.ws == (w.queue.ws + w.wire[0].ws)[k..]
    ensures v.queue.dropped == Tally(Q.AddCounts(w.queue.dropped, w.wire[0].dropped), (w.queue.ws + w.wire[0].ws)[..k])
  {
    var all := w.queue.ws + w.wire[0].ws;
    k := if w.wire[0].ws == [] then 0 else Cut(Utf16, all, CAPS.frames, CAPS.bytes);
    assert w.wire[0].ws == [] ==> all == w.queue.ws;
  }

  lemma DeliverAccounts(w: World, v: World, id: string)
    requires Delivers(w, v)
    ensures Balanced(w, v, id, 0)
  {
    var k := PushShape(w, v);
    var m := w.wire[0];
    var all := w.queue.ws + m.ws;
    CutAccounts(id, all, k, Q.AddCounts(w.queue.dropped, m.dropped));
    OfConcat(id, w.queue.ws, m.ws);
    DeliverTrail(w, v, id, |Of(id, all[..k])|);
  }

  lemma DeliverTrail(w: World, v: World, id: string, c: nat)
    requires w.wire != [] && v == w.(queue := v.queue, wire := w.wire[1..])
    requires var all := Of(id, w.queue.ws) + Of(id, w.wire[0].ws);
             && c <= |all| && Of(id, v.queue.ws) == all[c..]
             && Get(v.queue.dropped, id) == Get(w.queue.dropped, id) + Get(w.wire[0].dropped, id) + c
    ensures Balanced(w, v, id, 0)
  {
    var all := Of(id, w.queue.ws) + Of(id, w.wire[0].ws);
    var front, back := Held(w.panel.ws, id), InFlight(id, v.wire) + Of(id, w.engine.ws);
    NothingEmitted(w, v, id);
    Reassociate(front, Of(id, w.queue.ws), Of(id, w.wire[0].ws), InFlight(id, v.wire), Of(id, w.engine.ws));
    Regroup(front, Of(id, v.queue.ws), InFlight(id, v.wire), Of(id, w.engine.ws));
    TrailCut(front, all, c, back);
  }

  /* -------------------------------- a tick ------------------------------ */

  /** A batch takes a socket's frames and count away exactly by evicting its flow. */
  lemma {:induction false} BatchKeepsUnlessEvicted(p: Panel, batch: seq<Flow>, id: string)
    ensures var q := ApplyBatch(p, batch, P.MAX_FLOWS);
            if EvictedIn(p, batch, id) then Held(q.ws, id) == [] && Get(q.dropped, id) == 0
            else Held(q.ws, id) == Held(p.ws, id) && Get(q.dropped, id) == Get(p.dropped, id)
    decreases |batch|
  {
    if batch != [] {
      OneKeepsUnlessCutOff(p, batch[0], id);
      BatchKeepsUnlessEvicted(ApplyOne(p, batch[0], P.MAX_FLOWS), batch[1..], id);
    }
  }

  lemma OneKeepsUnlessCutOff(p: Panel, raw: Flow, id: string)
    ensures var q := ApplyOne(p, raw, P.MAX_FLOWS);
            if CutsOff(p, raw, id) then Held(q.ws, id) == [] && Get(q.dropped, id) == 0
            else Held(q.ws, id) == Held(p.ws, id) && Get(q.dropped, id) == Get(p.dropped, id)
  {
    if CutsOff(p, raw, id) && (id in p.ws || Get(p.dropped, id) > 0) {
      P.GoneHadFrames(p.flows[P.MAX_FLOWS - 1..], p.ws, p.dropped, id);
    }
  }

  /** What of a socket is still there when a tick's frames are appended. */
  function StillThere(w: World, id: string): seq<WsMessage>
  {
    (if EvictedIn(w.panel, w.queue.flows, id) then [] else Held(w.panel.ws, id))
    + (if Has(WithFlows(w).flows, id) then Of(id, w.queue.ws) else [])
  }

  function StillCounted(w: World, id: string): nat
  {
    if EvictedIn(w.panel, w.queue.flows, id) then 0 else Get(w.panel.dropped, id)
  }

  function StillTold(w: World, id: string): nat
  {
    if Has(WithFlows(w).flows, id) then Get(w.queue.dropped, id) else 0
  }

  /** Appending leaves out what is of an unlisted flow, and counts what it cuts. */
  lemma TickKeepsTail(w: World, v: World, id: string)
    requires Ticks(w, v)
    ensures P.KeepsTail(StillThere(w, id), Held(v.panel.ws, id),
                        StillCounted(w, id), StillTold(w, id), Get(v.panel.dropped, id))
  {
    var q, mid := w.queue, WithFlows(w);
    BatchKeepsUnlessEvicted(w.panel, q.flows, id);
    if q.ws == [] && q.dropped == map[] {
      assert Held(mid.ws, id) + [] == Held(mid.ws, id);
    } else {
      var lost :| AppendSpec(mid, q.ws, q.dropped, P.MAX_WS_FRAMES, Some(P.MAX_WS_BYTES), v.panel, lost);
      P.AppendAccounts(mid, q.ws, q.dropped, P.MAX_WS_FRAMES, Some(P.MAX_WS_BYTES), v.panel, lost, id);
    }
  }

  lemma TickAccounts(w: World, v: World, id: string)
    requires Ticks(w, v)
    ensures Balanced(w, v, id, Vanishes(w, Tick, id))
  {
    TickKeepsTail(w, v, id);
    StillAndGone(w, id);
    TickTrail(w, v, id, StillThere(w, id), StillCounted(w, id), StillTold(w, id), Vanishes(w, Tick, id));
  }

  lemma StillAndGone(w: World, id: string)
    ensures Sub(StillThere(w, id), Held(w.panel.ws, id) + Of(id, w.queue.ws))
    ensures |StillThere(w, id)| + StillCounted(w, id) + StillTold(w, id) + Vanishes(w, Tick, id)
         == InPanel(w.panel, id) + InQueue(w.queue, id)
  {
    var evicted, listed := EvictedIn(w.panel, w.queue.flows, id), Has(WithFlows(w).flows, id);
    PartsAreSub(Held(w.panel.ws, id), Of(id, w.queue.ws), evicted, listed);
  }

  /** A tick keeps a tail of `some` of what panel and queue held, and counts what it cuts. */
  lemma TickTrail(w: World, v: World, id: string, some: seq<WsMessage>, counted: nat, told: nat, gone: nat)
    requires v == w.(queue := Q.EMPTY, panel := v.panel)
    requires Sub(some, Held(w.panel.ws, id) + Of(id, w.queue.ws))
    requires P.KeepsTail(some, Held(v.panel.ws, id), counted, told, Get(v.panel.dropped, id))
    requires |some| + counted + told + gone == InPanel(w.panel, id) + InQueue(w.queue, id)
    ensures Balanced(w, v, id, gone)
  {
    var kept, whole := Held(v.panel.ws, id), Held(w.panel.ws, id) + Of(id, w.queue.ws);
    var back := InFlight(id, w.wire) + Of(id, w.engine.ws);
    NothingEmitted(w, v, id);
    TickTrails(w, v, id);
    TailStays(some, kept, whole, back);
    Lengths(kept, back);
    Lengths(whole, back);
  }

  lemma TickTrails(w: World, v: World, id: string)
    requires v == w.(queue := Q.EMPTY, panel := v.panel)
    ensures var back := InFlight(id, w.wire) + Of(id, w.engine.ws);
            && Trail(w, id) == Held(w.panel.ws, id) + Of(id, w.queue.ws) + back
            && Trail(v, id) == Held(v.panel.ws, id) + back
  {
    Regroup(Held(w.panel.ws, id), Of(id, w.queue.ws), InFlight(id, w.wire), Of(id, w.engine.ws));
    GapClosed(Held(v.panel.ws, id), InFlight(id, w.wire), Of(id, w.engine.ws));
  }

  /* ----------------------------- starting over -------------------------- */

  /** The panel is emptied; what is upstream of it stays. */
  lemma PanelEmptied(w: World, v: World, id: string)
    requires v == w.(panel := v.panel) && v.panel.ws == map[] && v.panel.dropped == map[]
    ensures Balanced(w, v, id, InPanel(w.panel, id))
  {
    NothingEmitted(w, v, id);
    var held, queued := Held(w.panel.ws, id), Of(id, w.queue.ws);
    var flying, last := InFlight(id, w.wire), Of(id, w.engine.ws);
    FrontMoved(held, queued, flying, last);
    SubBack(held, queued + flying + last);
  }

  /** A new page: all that the engine has not sent stays. */
  lemma PageReloaded(w: World, v: World, id: string)
    requires v == Reloaded(w)
    ensures Balanced(w, v, id, Vanishes(w, Reload, id))
  {
    NothingEmitted(w, v, id);
    var front := Held(w.panel.ws, id) + Of(id, w.queue.ws) + InFlight(id, w.wire);
    SubBack(front, Of(id, w.engine.ws));
    assert Trail(v, id) == [] + [] + [] + Of(id, w.engine.ws) == Of(id, w.engine.ws);
  }

  /* --------------------------------- runs ------------------------------- */

  /** Every step, of every kind, balances with what it is said to lose. */
  lemma StepAccounts(w: World, e: Event, v: World, id: string)
    requires Next(w, e, v)
    ensures Balanced(w, v, id, Vanishes(w, e, id))
  {
    match e {
      case EmitFrame(m) => EmitFrameAccounts(w, m, v, id);
      case Flush => FlushAccounts(w, v, id);
      case Deliver => DeliverAccounts(w, v, id);
      case Tick => TickAccounts(w, v, id);
      case ClearList => PanelEmptied(w, v, id);
      case LoadList(_) => PanelEmptied(w, v, id);
      case Reload => PageReloaded(w, v, id);
      case EmitFlow(_) => EngineChanged(w, v, id);
      case PauseUi => EngineChanged(w, v, id);
      case ResumeUi(_) => EngineChanged(w, v, id);
      case DiscardEngine => EngineChanged(w, v, id);
      case SetRecording(_) => Unchanged(w, v, id);
      case DiscardQueue => Unchanged(w, v, id);
    }
  }

  lemma BalancedThrough(u: World, w: World, v: World, id: string, a: nat, b: nat)
    requires Balanced(u, w, id, a) && Balanced(w, v, id, b)
    ensures Balanced(u, v, id, a + b)
  {
    EmittedThrough(u, w, v, id);
    SubThrough(Trail(w, id), Emitted(u, w, id), Of(id, v.frames[|w.frames|..]), Trail(v, id));
  }

  lemma EmittedThrough(u: World, w: World, v: World, id: string)
    requires |u.frames| <= |w.frames| && w.frames <= v.frames
    ensures Emitted(u, v, id) == Emitted(u, w, id) + Of(id, v.frames[|w.frames|..])
  {
    assert v.frames[|u.frames|..] == w.frames[|u.frames|..] + v.frames[|w.frames|..];
    OfConcat(id, w.frames[|u.frames|..], v.frames[|w.frames|..]);
  }

  /** What of a socket goes uncounted from the `m`-th world to the `n`-th. */
  function VanishedBetween(worlds: seq<World>, events: seq<Event>, id: string, m: nat, n: nat): nat
    requires m <= n < |worlds| && |worlds| == |events| + 1
  {
    if m == n then 0
    else VanishedBetween(worlds, events, id, m, n - 1) + Vanishes(worlds[n - 1], events[n - 1], id)
  }

  lemma OneMoreStep(u: World, w: World, e: Event, v: World, id: string, gone: nat)
    requires Balanced(u, w, id, gone) && Next(w, e, v)
    ensures Balanced(u, v, id, gone + Vanishes(w, e, id))
  {
    StepAccounts(w, e, v, id);
    BalancedThrough(u, w, v, id, gone, Vanishes(w, e, id));
  }

  /**
   * Between any two worlds of any run, whatever is emitted, paused, resumed, cleared,
   * evicted, imported or reloaded: a socket's frames held before, and those emitted since,
   * are held, counted as dropped, or among those said to vanish; and what is held is a
   * subsequence of them in emission order.
   */
  lemma {:induction false} EveryFrameAccounted(worlds: seq<World>, events: seq<Event>, id: string, m: nat, n: nat)
    requires Runs(worlds, events) && m <= n < |worlds|
    ensures Balanced(worlds[m], worlds[n], id, VanishedBetween(worlds, events, id, m, n))
    decreases n
  {
    if m == n {
      Unchanged(worlds[m], worlds[n], id);
    } else {
      EveryFrameAccounted(worlds, events, id, m, n - 1);
      var w, e, v := worlds[n - 1], events[n - 1], worlds[n];
      assert Happens(worlds, events, n - 1);
      OneMoreStep(worlds[m], w, e, v, id, VanishedBetween(worlds, events, id, m, n - 1));
    }
  }

  /* -------------------------- while a flow is listed -------------------- */

  /** No snapshot of the batch finds the flow listed and leaves it unlisted. */
  predicate NeverLeaves(p: Panel, batch: seq<Flow>, id: string)
    decreases |batch|
  {
    batch == [] ||
    (var q := ApplyOne(p, batch[0], P.MAX_FLOWS);
     (Has(p.flows, id) ==> Has(q.flows, id)) && NeverLeaves(q, batch[1..], id))
  }

  /** One snapshot unlists a flow exactly by cutting it off the end. */
  lemma LeavesIffCutOff(p: Panel, raw: Flow, id: string)
    requires Distinct(p.flows)
    ensures (Has(p.flows, id) && !Has(ApplyOne(p, raw, P.MAX_FLOWS).flows, id)) <==> CutsOff(p, raw, id)
  {
    var f := WithoutBytes(raw);
    if Has(p.flows, f.id) {
      SameFind(p.flows, p.flows[Find(p.flows, f.id) := f], id);
    } else if p.recording {
      HasIds(p.flows, id);
      if Has(p.flows, id) { P.PushedOutIsGone(p.flows, f, P.MAX_FLOWS, id); }
      if CutsOff(p, raw, id) { assert Ids(p.flows[P.MAX_FLOWS - 1..]) <= Ids(p.flows); }
    }
  }

  /** A batch evicts a flow exactly when one of its snapshots unlists it. */
  lemma {:induction false} EvictedIffLeaves(p: Panel, batch: seq<Flow>, id: string)
    requires Distinct(p.flows)
    ensures EvictedIn(p, batch, id) <==> !NeverLeaves(p, batch, id)
    decreases |batch|
  {
    if batch != [] {
      LeavesIffCutOff(p, batch[0], id);
      ApplyKeeps(p.flows, WithoutBytes(batch[0]), p.recording, P.MAX_FLOWS);
      EvictedIffLeaves(ApplyOne(p, batch[0], P.MAX_FLOWS), batch[1..], id);
    }
  }

  /** The flow is listed all through a tick from when it is first listed, and when frames come. */
  predicate ListedThrough(w: World, id: string)
  {
    && (InPanel(w.panel, id) > 0 ==> NeverLeaves(w.panel, w.queue.flows, id))
    && (InQueue(w.queue, id) > 0 ==> Has(WithFlows(w).flows, id))
  }

  /**
   * Exactly when a tick keeps the account of a socket: when its snapshots do not unlist a
   * flow with frames, and the frames it brings find their flow listed.
   */
  lemma TickConservesIff(w: World, v: World, id: string)
    requires Ticks(w, v) && Distinct(w.panel.flows)
    ensures Accounted(v, id) == Accounted(w, id) <==> ListedThrough(w, id)
  {
    TickAccounts(w, v, id);
    NothingEmitted(w, v, id);
    EvictedIffLeaves(w.panel, w.queue.flows, id);
  }

  /** Nothing of the socket is outside the account between `m` and `n`. */
  ghost predicate Undisturbed(worlds: seq<World>, events: seq<Event>, id: string, m: nat, n: nat)
    requires m <= n < |worlds| && |worlds| == |events| + 1
  {
    forall i {:trigger events[i]} :: m <= i < n ==> Keeps(worlds[i], events[i], id)
  }

  /** A page is bound, the list is not replaced, and the flow stays listed. */
  predicate Keeps(w: World, e: Event, id: string)
  {
    match e
    case EmitFrame(_) => w.engine.bound
    case Tick => ListedThrough(w, id)
    case ClearList => false
    case LoadList(_) => false
    case Reload => false
    case _ => true
  }

  lemma DistinctStep(w: World, e: Event, v: World)
    requires Next(w, e, v) && Distinct(w.panel.flows) && !e.LoadList?
    ensures Distinct(v.panel.flows)
  {
    if e.Tick? {
      ApplyBatchFlows(w.panel, w.queue.flows, P.MAX_FLOWS);
      ApplyAllKeeps(w.panel.flows, Stripped(w.queue.flows), w.panel.recording, P.MAX_FLOWS);
      assert v.panel.flows == WithFlows(w).flows;
    }
  }

  /**
   * While a flow stays listed, whatever else the run does and evicts: its socket's frames
   * held before and emitted since are exactly those held and those counted as dropped.
   */
  lemma {:induction false} ConservedWhileListed(worlds: seq<World>, events: seq<Event>, id: string, m: nat, n: nat)
    requires Runs(worlds, events) && m <= n < |worlds| && Distinct(worlds[m].panel.flows)
    requires Undisturbed(worlds, events, id, m, n)
    ensures Balanced(worlds[m], worlds[n], id, 0) && Distinct(worlds[n].panel.flows)
    decreases n
  {
    if m == n {
      Unchanged(worlds[m], worlds[n], id);
    } else {
      var w, e, v := worlds[n - 1], events[n - 1], worlds[n];
      ConservedWhileListed(worlds, events, id, m, n - 1);
      assert Happens(worlds, events, n - 1) && Keeps(w, e, id);
      EvictedIffLeaves(w.panel, w.queue.flows, id);
      DistinctStep(w, e, v);
      OneMoreStep(worlds[m], w, e, v, id, 0);
    }
  }

  /** Once the stages before the panel are empty, the panel accounts for every frame. */
  lemma DrainedPanelAccounts(worlds: seq<World>, events: seq<Event>, id: string, m: nat, n: nat)
    requires Runs(worlds, events) && m <= n < |worlds| && Distinct(worlds[m].panel.flows)
    requires Undisturbed(worlds, events, id, m, n) && Drained(worlds[n])
    ensures |worlds[m].frames| <= |worlds[n].frames|
    ensures Sub(Held(worlds[n].panel.ws, id), Emitted(worlds[m], worlds[n], id))
    ensures |Emitted(worlds[m], worlds[n], id)| + Dropped(worlds[m], id) == InPanel(worlds[n].panel, id)
  {
    ConservedWhileListed(worlds, events, id, m, n);
    var held := Held(worlds[n].panel.ws, id);
    assert held + [] + [] + [] == held;
  }

  predicate Drained(w: World)
  {
    w.queue == Q.EMPTY && w.wire == [] && w.engine.ws == [] && w.engine.dropped == map[]
  }
}
