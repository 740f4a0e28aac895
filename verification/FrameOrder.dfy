/**
 * The order of the live stream, in any run: while a snapshot that was queued ahead of a
 * frame is still upstream of the webview, so is the frame.
 */
module FrameOrder {
  import opened Proto
  import opened Frames
  import opened Coalesce
  import opened Subsequence
  import opened FrameAccounts
  import opened Pipeline
  import E = UiStream

  /** The frames of a row of messages, in order. */
  function WireFrames(wire: seq<StreamBatch>): seq<WsMessage>
  {
    if wire == [] then [] else wire[0].ws + WireFrames(wire[1..])
  }

  lemma {:induction false} WireFramesConcat(a: seq<StreamBatch>, b: seq<StreamBatch>)
    ensures WireFrames(a + b) == WireFrames(a) + WireFrames(b)
  {
    if a == [] {
      assert a + b == b;
    } else {
      assert (a + b)[1..] == a[1..] + b;
      WireFramesConcat(a[1..], b);
      assert a[0].ws + (WireFrames(a[1..]) + WireFrames(b)) == WireFrames(a) + WireFrames(b);
    }
  }

  lemma {:induction false} NoFrames(wire: seq<StreamBatch>)
    requires forall i :: 0 <= i < |wire| ==> wire[i].ws == []
    ensures WireFrames(wire) == []
  {
    if wire != [] { NoFrames(wire[1..]); }
  }

  /** All but the last message of a flush carry flows only. */
  lemma FlushFrontEmpty(s: E.Stream)
    requires Sent(s) != []
    ensures WireFrames(Sent(s)[..|Sent(s)| - 1]) == []
  {
    E.MessagesWhole(s.flows, s.ws[..Fill(Utf8, s.ws, E.MAX_WS_BYTES_PER_TICK)], s.dropped);
    NoFrames(Sent(s)[..|Sent(s)| - 1]);
  }

  /* -------------------------------- stages ------------------------------ */

  /**
   * Where what the engine queued at some time is: still queued, on the wire up to and
   * with the `last`-th message, or through to the webview (or gone with its page).
   */
  datatype Stage = InEngine | OnWire(last: nat) | Through

  function StageAfter(s: Stage, w: World, e: Event): Stage
  {
    match s
    case InEngine => if e.Flush? && Sent(w.engine) != [] then OnWire(|w.wire| + |Sent(w.engine)|) else InEngine
    case OnWire(last) =>
      if e.Reload? then Through
      else if e.Deliver? then (if last <= 1 then Through else OnWire(last - 1))
      else s
    case Through => Through
  }

  /** Where what the engine queued at the `m`-th world is at the `n`-th. */
  function StageAt(worlds: seq<World>, events: seq<Event>, m: nat, n: nat): Stage
    requires m <= n < |worlds| && |worlds| == |events| + 1
  {
    if m == n then InEngine else StageAfter(StageAt(worlds, events, m, n - 1), worlds[n - 1], events[n - 1])
  }

  /** Frames past the engine and not yet with the list. */
  function PastEngine(w: World): seq<WsMessage> { w.queue.ws + WireFrames(w.wire) }

  /** Nothing ahead of the stage is newer than `past`. */
  predicate Behind(past: seq<WsMessage>, w: World, s: Stage)
  {
    match s
    case InEngine => Sub(PastEngine(w), past)
    case OnWire(last) => 1 <= last <= |w.wire| && Sub(w.queue.ws + WireFrames(w.wire[..last - 1]), past)
    case Through => true
  }

  lemma WireButLast(wire: seq<StreamBatch>, ms: seq<StreamBatch>)
    requires ms != [] && WireFrames(ms[..|ms| - 1]) == []
    ensures WireFrames((wire + ms)[..|wire + ms| - 1]) == WireFrames(wire)
  {
    WireFramesConcat(wire, ms[..|ms| - 1]);
    assert (wire + ms)[..|wire + ms| - 1] == wire + ms[..|ms| - 1];
  }

  /** The wire grows by a flush: only its last message can carry frames. */
  lemma WireGrows(past: seq<WsMessage>, w: World, v: World, ms: seq<StreamBatch>, s: Stage)
    requires Behind(past, w, s) && v.queue.ws == w.queue.ws && v.wire == w.wire + ms
    requires ms != [] ==> WireFrames(ms[..|ms| - 1]) == []
    ensures Behind(past, v, if s.InEngine? && ms != [] then OnWire(|w.wire| + |ms|) else s)
  {
    if ms == [] {
      assert v.wire == w.wire;
    } else if s.InEngine? {
      WireButLast(w.wire, ms);
    } else if s.OnWire? {
      assert v.wire[..s.last - 1] == w.wire[..s.last - 1];
    }
  }

  lemma FlushBehind(past: seq<WsMessage>, w: World, v: World, s: Stage)
    requires Behind(past, w, s) && v == Flushed(w)
    ensures Behind(past, v, StageAfter(s, w, Flush))
  {
    if Sent(w.engine) != [] { FlushFrontEmpty(w.engine); }
    WireGrows(past, w, v, Sent(w.engine), s);
  }

  lemma TailOfSub(all: seq<WsMessage>, k: nat, rest: seq<WsMessage>, past: seq<WsMessage>)
    requires k <= |all| && Sub(all + rest, past)
    ensures Sub(all[k..] + rest, past)
  {
    TrailCut([], all, k, rest);
    assert [] + all + rest == all + rest && [] + all[k..] + rest == all[k..] + rest;
    SubTrans(all[k..] + rest, all + rest, past);
  }

  lemma DeliverBehind(past: seq<WsMessage>, w: World, v: World, s: Stage)
    requires Behind(past, w, s) && Delivers(w, v)
    ensures Behind(past, v, StageAfter(s, w, Deliver))
  {
    var k := PushShape(w, v);
    var m := w.wire[0];
    if s.InEngine? {
      Associates(w.queue.ws, m.ws, WireFrames(v.wire));
      TailOfSub(w.queue.ws + m.ws, k, WireFrames(v.wire), past);
    } else if s.OnWire? && s.last > 1 {
      var ahead := w.wire[..s.last - 1];
      assert ahead[0] == m && ahead[1..] == v.wire[..s.last - 2];
      Associates(w.queue.ws, m.ws, WireFrames(ahead[1..]));
      TailOfSub(w.queue.ws + m.ws, k, WireFrames(ahead[1..]), past);
    }
  }

  lemma Associates(a: seq<WsMessage>, b: seq<WsMessage>, c: seq<WsMessage>)
    ensures a + (b + c) == a + b + c
  {}

  lemma TickBehind(past: seq<WsMessage>, w: World, v: World, s: Stage)
    requires Behind(past, w, s) && v.queue.ws == [] && v.wire == w.wire
    ensures Behind(past, v, s)
  {
    if !s.Through? {
      var rest := WireFrames(if s.InEngine? then w.wire else w.wire[..s.last - 1]);
      TailOfSub(w.queue.ws, |w.queue.ws|, rest, past);
      assert w.queue.ws[|w.queue.ws|..] == [];
    }
  }

  lemma StepBehind(past: seq<WsMessage>, w: World, e: Event, v: World, s: Stage)
    requires Behind(past, w, s) && Next(w, e, v)
    ensures Behind(past, v, StageAfter(s, w, e))
  {
    match e {
      case Flush => FlushBehind(past, w, v, s);
      case Deliver => DeliverBehind(past, w, v, s);
      case Tick => TickBehind(past, w, v, s);
      case _ =>
    }
  }

  /**
   * Nothing overtakes: between any two worlds of any run, while anything the engine had
   * queued at the first is still upstream of the webview at the second, the frames at
   * hand for a tick are only such as were past the engine at the first. So a frame that
   * the engine still held then, or that was emitted since, reaches the list only after
   * every snapshot queued then has reached the webview.
   */
  lemma {:induction false} NothingOvertakes(worlds: seq<World>, events: seq<Event>, m: nat, n: nat)
    requires Runs(worlds, events) && m <= n < |worlds|
    ensures Behind(PastEngine(worlds[m]), worlds[n], StageAt(worlds, events, m, n))
    ensures StageAt(worlds, events, m, n) != Through ==> Sub(worlds[n].queue.ws, PastEngine(worlds[m]))
    decreases n
  {
    var past := PastEngine(worlds[m]);
    if m == n {
      SubSelf(past);
    } else {
      NothingOvertakes(worlds, events, m, n - 1);
      assert Happens(worlds, events, n - 1);
      StepBehind(past, worlds[n - 1], events[n - 1], worlds[n], StageAt(worlds, events, m, n - 1));
    }
    AtHand(past, worlds[n], StageAt(worlds, events, m, n));
  }

  lemma AtHand(past: seq<WsMessage>, w: World, s: Stage)
    requires Behind(past, w, s)
    ensures s != Through ==> Sub(w.queue.ws, past)
  {
    if s != Through {
      var rest := WireFrames(if s.InEngine? then w.wire else w.wire[..s.last - 1]);
      SubPrefix(w.queue.ws, rest);
      SubTrans(w.queue.ws, w.queue.ws + rest, past);
    }
  }

  /* --------------------------- and the snapshots ------------------------ */

  /** The flows of which the webview was handed a snapshot between two worlds. */
  function Handed(worlds: seq<World>, events: seq<Event>, m: nat, n: nat): set<string>
    requires m <= n < |worlds| && |worlds| == |events| + 1
  {
    if m == n then {}
    else Handed(worlds, events, m, n - 1) + HandedBy(worlds[n - 1], events[n - 1])
  }

  function HandedBy(w: World, e: Event): set<string>
  {
    if e.Deliver? && w.wire != [] then Ids(w.wire[0].flows) else {}
  }

  /** Snapshots of the flows `ids` are where the stage says, or were handed over. */
  predicate Located(ids: set<string>, handed: set<string>, w: World, s: Stage)
  {
    match s
    case InEngine => ids <= Ids(w.engine.flows)
    case OnWire(last) => 1 <= last <= |w.wire| && ids <= handed + Ids(E.AllFlows(w.wire[..last]))
    case Through => ids <= handed
  }

  /** A wire that has grown by messages holds their flows behind its own. */
  lemma WireFlows(wire: seq<StreamBatch>, ms: seq<StreamBatch>, q: seq<Flow>)
    requires E.AllFlows(ms) == q
    ensures Ids(q) <= Ids(E.AllFlows(wire + ms))
  {
    AllFlowsConcat(wire, ms);
    IdsSplit(E.AllFlows(wire), q);
  }

  lemma FlushLocated(ids: set<string>, handed: set<string>, w: World, v: World, s: Stage)
    requires Located(ids, handed, w, s) && v == Flushed(w)
    ensures Located(ids, handed, v, StageAfter(s, w, Flush))
  {
    if s.InEngine? && Sent(w.engine) != [] {
      MessagesFlows(w.engine);
      WireFlows(w.wire, Sent(w.engine), w.engine.flows);
      assert v.wire[..|v.wire|] == v.wire;
    } else if s.OnWire? {
      assert v.wire[..s.last] == w.wire[..s.last];
    }
  }

  lemma DeliverLocated(ids: set<string>, handed: set<string>, w: World, v: World, s: Stage)
    requires Located(ids, handed, w, s) && Delivers(w, v)
    ensures Located(ids, handed + Ids(w.wire[0].flows), v, StageAfter(s, w, Deliver))
  {
    if s.OnWire? {
      var front := w.wire[..s.last];
      assert front[1..] == v.wire[..s.last - 1];
      IdsSplit(front[0].flows, E.AllFlows(front[1..]));
      if s.last == 1 { assert Ids([]) == {}; }
    }
  }

  /** The engine's queued flows are cleared, or a page goes with what it was sent. */
  predicate Forgets(e: Event) { e.DiscardEngine? || e.Reload? }

  /**
   * And every snapshot is where its stage says: unless a clear or a new page forgets it,
   * a flow queued in the engine is still queued, on the wire, or was handed to the webview.
   */
  lemma {:induction false} SnapshotsLocated(worlds: seq<World>, events: seq<Event>, m: nat, n: nat)
    requires Runs(worlds, events) && m <= n < |worlds|
    requires forall i {:trigger events[i]} :: m <= i < n ==> !Forgets(events[i])
    ensures Located(Ids(worlds[m].engine.flows), Handed(worlds, events, m, n), worlds[n], StageAt(worlds, events, m, n))
    decreases n
  {
    if m < n {
      SnapshotsLocated(worlds, events, m, n - 1);
      assert Happens(worlds, events, n - 1) && !Forgets(events[n - 1]);
      var ids, handed := Ids(worlds[m].engine.flows), Handed(worlds, events, m, n - 1);
      var w, v, s := worlds[n - 1], worlds[n], StageAt(worlds, events, m, n - 1);
      match events[n - 1] {
        case Flush => FlushLocated(ids, handed, w, v, s);
        case Deliver => DeliverLocated(ids, handed, w, v, s);
        case EmitFlow(f) => UpsertIds(w.engine.flows, WithoutBytes(f));
        case ResumeUi(store) =>
          if w.engine.paused.Some? { E.QueueCurrentIds(w.engine.flows, w.engine.paused.value.changed, store); }
        case _ =>
      }
    }
  }

  /**
   * Together: once a frame that was not past the engine is at hand for a tick, the webview
   * was handed a snapshot of every flow the engine had queued ahead of it.
   */
  lemma FramesBringSnapshots(worlds: seq<World>, events: seq<Event>, m: nat, n: nat)
    requires Runs(worlds, events) && m <= n < |worlds|
    requires forall i {:trigger events[i]} :: m <= i < n ==> !Forgets(events[i])
    requires !Sub(worlds[n].queue.ws, PastEngine(worlds[m]))
    ensures Ids(worlds[m].engine.flows) <= Handed(worlds, events, m, n)
  {
    NothingOvertakes(worlds, events, m, n);
    SnapshotsLocated(worlds, events, m, n);
  }
}
