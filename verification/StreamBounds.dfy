/**
 * The bounds of both frame queues over whole runs of the live stream, and that each queue
 * is always the newest part of what went into it.
 */
module StreamBounds {
  import opened Proto
  import opened Frames
  import opened FrameAccounts
  import opened Pipeline
  import E = UiStream

  /** Within both bounds, or one frame. */
  predicate Fits(u: Units, ws: seq<WsMessage>, maxFrames: nat, maxBytes: nat)
  {
    |ws| <= 1 || (|ws| <= maxFrames && Bytes(u, ws) <= maxBytes)
  }

  /** Both queues fit, and the webview's holds no more flows than the list. */
  ghost predicate Bounded(w: World)
  {
    && (|w.engine.ws| <= 1 || Bytes(Utf8, w.engine.ws) <= E.MAX_QUEUED_WS_BYTES)
    && Fits(Utf16, w.queue.ws, CAPS.frames, CAPS.bytes)
    && |w.queue.flows| <= CAPS.flows
  }

  lemma CutFits(u: Units, ws: seq<WsMessage>, maxFrames: nat, maxBytes: nat)
    ensures Fits(u, ws[Cut(u, ws, maxFrames, maxBytes)..], maxFrames, maxBytes)
  {
    CutIsLeast(u, ws, maxFrames, maxBytes);
  }

  lemma EmitFrameBounded(w: World, m: WsMessage, v: World)
    requires Bounded(w) && v == FrameEmitted(w, m)
    ensures Bounded(v)
  {
    var all := w.engine.ws + [m];
    CutFits(Utf8, all, |all|, E.MAX_QUEUED_WS_BYTES);
  }

  lemma FlushBounded(w: World, v: World)
    requires Bounded(w) && v == Flushed(w)
    ensures Bounded(v)
  {
    var k := FlushShape(w, v);
    BytesSplit(Utf8, w.engine.ws, k);
  }

  lemma DeliverBounded(w: World, v: World)
    requires Bounded(w) && Delivers(w, v)
    ensures Bounded(v)
  {
    CutFits(Utf16, w.queue.ws + w.wire[0].ws, CAPS.frames, CAPS.bytes);
  }

  /** Neither queue ever outgrows its bounds, whatever is emitted and however late ticks come. */
  lemma {:induction false} AlwaysBounded(worlds: seq<World>, events: seq<Event>, n: nat)
    requires Runs(worlds, events) && n < |worlds| && Bounded(worlds[0])
    ensures Bounded(worlds[n])
  {
    if n > 0 {
      AlwaysBounded(worlds, events, n - 1);
      assert Happens(worlds, events, n - 1);
      var w, v := worlds[n - 1], worlds[n];
      match events[n - 1] {
        case EmitFrame(m) => EmitFrameBounded(w, m, v);
        case Flush => FlushBounded(w, v);
        case Deliver => DeliverBounded(w, v);
        case _ =>
      }
    }
  }

  /* ------------------------------- suffixes ----------------------------- */

  predicate IsSuffix(a: seq<WsMessage>, b: seq<WsMessage>)
  {
    |a| <= |b| && a == b[|b| - |a|..]
  }

  lemma SuffixGrows(a: seq<WsMessage>, b: seq<WsMessage>, more: seq<WsMessage>, k: nat)
    requires IsSuffix(a, b) && k <= |a + more|
    ensures IsSuffix((a + more)[k..], b + more)
  {
    var all := b + more;
    assert all[|b| - |a|..] == a + more;
    assert (a + more)[k..] == all[|b| - |a| + k..];
  }

  /** Frames the engine was given, those it held at the start first. */
  function Heard(worlds: seq<World>, events: seq<Event>, n: nat): seq<WsMessage>
    requires n < |worlds| && |worlds| == |events| + 1
  {
    if n == 0 then worlds[0].engine.ws
    else
      var e := events[n - 1];
      Heard(worlds, events, n - 1) + (if e.EmitFrame? && worlds[n - 1].engine.bound then [e.frame] else [])
  }

  /** Frames the webview was given, those it held at the start first. */
  function Received(worlds: seq<World>, events: seq<Event>, n: nat): seq<WsMessage>
    requires n < |worlds| && |worlds| == |events| + 1
  {
    if n == 0 then worlds[0].queue.ws
    else
      var w := worlds[n - 1];
      Received(worlds, events, n - 1) + (if events[n - 1].Deliver? && w.wire != [] then w.wire[0].ws else [])
  }

  lemma Nothing(a: seq<WsMessage>)
    ensures a + [] == a
  {}

  /** Each queue is a suffix of all that ever went into it: only the oldest frames leave. */
  lemma {:induction false} AlwaysSuffix(worlds: seq<World>, events: seq<Event>, n: nat)
    requires Runs(worlds, events) && n < |worlds|
    ensures IsSuffix(worlds[n].engine.ws, Heard(worlds, events, n))
    ensures IsSuffix(worlds[n].queue.ws, Received(worlds, events, n))
  {
    if n > 0 {
      AlwaysSuffix(worlds, events, n - 1);
      assert Happens(worlds, events, n - 1);
      var w, v := worlds[n - 1], worlds[n];
      var heard, received := Heard(worlds, events, n - 1), Received(worlds, events, n - 1);
      Nothing(heard);
      Nothing(received);
      match events[n - 1] {
        case EmitFrame(m) =>
          if w.engine.bound {
            var k := EmitFrameShape(w, m, v);
            SuffixGrows(w.engine.ws, heard, [m], k);
          }
        case Flush =>
          var k := FlushShape(w, v);
          Nothing(w.engine.ws);
          SuffixGrows(w.engine.ws, heard, [], k);
        case Deliver =>
          var k := PushShape(w, v);
          SuffixGrows(w.queue.ws, received, w.wire[0].ws, k);
        case _ =>
      }
    }
  }
}
