/**
 * The engine's end of the live stream (src-tauri/src/state.rs): coalesces snapshots
 * through a slot index, budgets frames by bytes, notes what changes during a pause.
 */
module UiStream {
  import opened Wrappers
  import opened Proto
  import opened Frames
  import opened Coalesce

  const MAX_FLOWS_PER_MESSAGE: nat := 500
  const MAX_WS_BYTES_PER_TICK: nat := 2 * 1024 * 1024
  const MAX_QUEUED_WS_BYTES: nat := 16 * 1024 * 1024

  /** Flows up to `throughSeq` existed when the UI paused; `changed` since, in order. */
  datatype Paused = Paused(throughSeq: nat, changed: seq<string>)

  /** The stream as a value. `outbox` is what was sent on the bound channel so far. */
  datatype Stream = Stream(
    bound: bool, flows: seq<Flow>, ws: seq<WsMessage>, dropped: map<string, nat>,
    lastSeq: nat, paused: Option<Paused>, outbox: seq<StreamBatch>)

  const UNBOUND := Stream(false, [], [], map[], 0, None, [])

  function Max(a: nat, b: nat): nat { if a < b then b else a }

  function NoteChange(p: Paused, flow: Flow): Paused
  {
    if flow.number <= p.throughSeq && flow.id !in p.changed
    then p.(changed := p.changed + [flow.id])
    else p
  }

  function EmitFlow(s: Stream, flow: Flow): Stream
  {
    if !s.bound then s
    else
      var t := s.(lastSeq := Max(s.lastSeq, flow.number));
      match s.paused
      case Some(p) => t.(paused := Some(NoteChange(p, flow)))
      case None => t.(flows := Upsert(s.flows, WithoutBytes(flow)))
  }

  function EmitFrame(s: Stream, m: WsMessage): Stream
  {
    if !s.bound then s
    else
      var ws := s.ws + [m];
      var k := Cut(Utf8, ws, |ws|, MAX_QUEUED_WS_BYTES);
      s.(ws := ws[k..], dropped := Tally(s.dropped, ws[..k]))
  }

  function Pause(s: Stream): Stream
  {
    if s.paused.None? then s.(paused := Some(Paused(s.lastSeq, []))) else s
  }

  /** Queue the store's current state of each id it still retains. */
  function QueueCurrent(q: seq<Flow>, ids: seq<string>, store: map<string, Flow>): seq<Flow>
    decreases |ids|
  {
    if ids == [] then q
    else QueueCurrent(if ids[0] in store then Upsert(q, WithoutBytes(store[ids[0]])) else q, ids[1..], store)
  }

  function Resume(s: Stream, store: map<string, Flow>): Stream
  {
    match s.paused
    case None => s
    case Some(p) => s.(paused := None, flows := QueueCurrent(s.flows, p.changed, store))
  }

  function Discard(s: Stream): Stream
  {
    s.(flows := [], paused := match s.paused case None => None case Some(p) => Some(p.(changed := [])))
  }

  /** A fresh page: nothing was sent to it yet, and nobody will resume the old pause. */
  function Bind(s: Stream): Stream
  {
    s.(bound := true, paused := None, outbox := [])
  }

  /** A backlog split into messages; frames and counts ride with the last one. */
  function Messages(flows: seq<Flow>, ws: seq<WsMessage>, dropped: map<string, nat>): (r: seq<StreamBatch>)
    ensures r != []
    decreases |flows|
  {
    if |flows| <= MAX_FLOWS_PER_MESSAGE then [StreamBatch(flows, ws, dropped)]
    else
      [StreamBatch(flows[..MAX_FLOWS_PER_MESSAGE], [], map[])] + Messages(flows[MAX_FLOWS_PER_MESSAGE..], ws, dropped)
  }

  function Flush(s: Stream): Stream
  {
    if (s.flows == [] && s.ws == [] && s.dropped == map[]) || !s.bound then s
    else
      var k := Fill(Utf8, s.ws, MAX_WS_BYTES_PER_TICK);
      s.(flows := [], ws := s.ws[k..], dropped := map[], outbox := s.outbox + Messages(s.flows, s.ws[..k], s.dropped))
  }

  /* ------------------------------ the class ---------------------------- */

  /** Every queued flow is found through its slot, and every slot leads to one. */
  ghost predicate SlotsExact(flows: seq<Flow>, slot: map<string, nat>)
  {
    && Distinct(flows)
    && (forall id :: id in slot ==> slot[id] < |flows| && flows[slot[id]].id == id)
    && (forall i :: 0 <= i < |flows| ==> flows[i].id in slot && slot[flows[i].id] == i)
  }

  /** The slot index does for a snapshot what searching the queue would. */
  lemma SlotFinds(flows: seq<Flow>, slot: map<string, nat>, f: Flow)
    requires SlotsExact(flows, slot)
    ensures if f.id in slot then slot[f.id] == Find(flows, f.id) < |flows| && SlotsExact(flows[slot[f.id] := f], slot)
            else !Has(flows, f.id) && SlotsExact(flows + [f], slot[f.id := |flows|])
  {
    UpsertKeeps(flows, f);
    if f.id in slot {
      assert flows[slot[f.id]].id == f.id;
    }
    assert Has(flows, f.id) ==> flows[Find(flows, f.id)].id == f.id;
  }

  /** `out` was taken from the front of `all`, and the rest will be filled as all was to be. */
  ghost predicate Taking(all: seq<WsMessage>, out: seq<WsMessage>, ws: seq<WsMessage>, taken: nat, budget: nat)
  {
    && out + ws == all && taken == Bytes(Utf8, out)
    && |out| + (if out == [] then Fill(Utf8, ws, budget) else FillMore(Utf8, ws, taken, budget))
       == Fill(Utf8, all, budget)
  }

  lemma TakeOne(all: seq<WsMessage>, out: seq<WsMessage>, ws: seq<WsMessage>, taken: nat, budget: nat)
    requires Taking(all, out, ws, taken, budget) && ws != []
    ensures var size := FrameBytes(Utf8, ws[0]);
            if out != [] && taken + size > budget then |out| == Fill(Utf8, all, budget)
            else Taking(all, out + [ws[0]], ws[1..], taken + size, budget)
  {
    assert out + [ws[0]] + ws[1..] == all;
    BytesConcat(Utf8, out, [ws[0]]);
    assert [ws[0]][1..] == [];
  }

  lemma TakenAll(all: seq<WsMessage>, out: seq<WsMessage>, ws: seq<WsMessage>, taken: nat, budget: nat)
    requires Taking(all, out, ws, taken, budget)
    ensures taken + Bytes(Utf8, ws) == Bytes(Utf8, all)
    ensures out == all[..|out|] && ws == all[|out|..]
    ensures ws == [] ==> |out| == Fill(Utf8, all, budget)
  {
    BytesConcat(Utf8, out, ws);
  }

  class UiStream {
    var channel: bool
    var flows: seq<Flow>
    var slot: map<string, nat>
    var ws: seq<WsMessage>
    var wsBytes: nat
    var wsDropped: map<string, nat>
    var lastSeq: nat
    var paused: Option<Paused>
    var seen: set<string>
    var outbox: seq<StreamBatch>

    ghost predicate Valid()
      reads this
    {
      && SlotsExact(flows, slot)
      && wsBytes == Bytes(Utf8, ws)
      && (paused.Some? ==> forall id :: id in seen <==> id in paused.value.changed)
    }

    ghost function Abs(): Stream
      reads this
    {
      Stream(channel, flows, ws, wsDropped, lastSeq, paused, outbox)
    }

    constructor ()
      ensures Valid() && Abs() == UNBOUND
    {
      channel, flows, slot, ws, wsBytes, wsDropped := false, [], map[], [], 0, map[];
      lastSeq, paused, seen, outbox := 0, None, {}, [];
    }

    method Queue(flow: Flow)
      requires Valid()
      modifies this`flows, this`slot
      ensures Valid()
      ensures flows == Upsert(old(flows), flow)
    {
      SlotFinds(flows, slot, flow);
      if flow.id in slot {
        flows := flows[slot[flow.id] := flow];
      } else {
        slot := slot[flow.id := |flows|];
        flows := flows + [flow];
      }
    }

    method QueueFrame(m: WsMessage)
      requires Valid()
      modifies this`ws, this`wsBytes, this`wsDropped
      ensures Valid()
      ensures var all := old(ws) + [m];
              var k := Cut(Utf8, all, |all|, MAX_QUEUED_WS_BYTES);
              ws == all[k..] && wsDropped == Tally(old(wsDropped), all[..k])
    {
      BytesConcat(Utf8, ws, [m]);
      assert [m][1..] == [];
      wsBytes := wsBytes + FrameBytes(Utf8, m);
      ws := ws + [m];
      ghost var all := ws;
      ghost var k := 0;
      while wsBytes > MAX_QUEUED_WS_BYTES && |ws| > 1
        invariant k <= |all| && ws == all[k..]
        invariant wsBytes == Bytes(Utf8, ws)
        invariant wsDropped == Tally(old(wsDropped), all[..k])
        invariant k + Cut(Utf8, ws, |all|, MAX_QUEUED_WS_BYTES) == Cut(Utf8, all, |all|, MAX_QUEUED_WS_BYTES)
        decreases |ws|
      {
        TallyStep(old(wsDropped), all, k);
        var front := ws[0];
        wsBytes := wsBytes - FrameBytes(Utf8, front);
        wsDropped := Bump(wsDropped, front.flowId, 1);
        ws := ws[1..];
        k := k + 1;
      }
    }

    method TakeFrames(budget: nat) returns (out: seq<WsMessage>)
      requires Valid()
      modifies this`ws, this`wsBytes
      ensures Valid()
      ensures out == old(ws)[..Fill(Utf8, old(ws), budget)]
      ensures ws == old(ws)[Fill(Utf8, old(ws), budget)..]
    {
      out := [];
      var taken: nat := 0;
      ghost var all := ws;
      while ws != []
        invariant wsBytes == Bytes(Utf8, all)
        invariant Taking(all, out, ws, taken, budget)
        decreases |ws|
      {
        var size := FrameBytes(Utf8, ws[0]);
        TakeOne(all, out, ws, taken, budget);
        if out != [] && taken + size > budget { break; }
        taken := taken + size;
        out := out + [ws[0]];
        ws := ws[1..];
      }
      TakenAll(all, out, ws, taken, budget);
      wsBytes := wsBytes - taken;
    }

    method BindChannel()
      requires Valid()
      modifies this
      ensures Valid() && Abs() == Bind(old(Abs()))
    {
      channel, paused, outbox := true, None, [];
    }

    method PauseStream()
      requires Valid()
      modifies this
      ensures Valid() && Abs() == Pause(old(Abs()))
    {
      if paused.None? {
        paused, seen := Some(Paused(lastSeq, [])), {};
      }
    }

    method ResumeStream(store: map<string, Flow>)
      requires Valid()
      modifies this
      ensures Valid() && Abs() == Resume(old(Abs()), store)
    {
      if paused.None? { return; }
      var ids := paused.value.changed;
      paused := None;
      for i := 0 to |ids|
        invariant Valid()
        invariant Abs() == old(Abs()).(paused := None, flows := flows)
        invariant QueueCurrent(flows, ids[i..], store) == QueueCurrent(old(flows), ids, store)
      {
        assert ids[i..][1..] == ids[i + 1..];
        if ids[i] in store { Queue(WithoutBytes(store[ids[i]])); }
      }
    }

    method DiscardFlows()
      requires Valid()
      modifies this
      ensures Valid() && Abs() == Discard(old(Abs()))
    {
      flows, slot := [], map[];
      if paused.Some? {
        paused, seen := Some(paused.value.(changed := [])), {};
      }
    }

    method SendFlow(flow: Flow)
      requires Valid()
      modifies this
      ensures Valid() && Abs() == EmitFlow(old(Abs()), flow)
    {
      if !channel { return; }
      lastSeq := Max(lastSeq, flow.number);
      match paused {
        case Some(p) =>
          if flow.number <= p.throughSeq && flow.id !in seen {
            seen := seen + {flow.id};
            paused := Some(p.(changed := p.changed + [flow.id]));
          }
        case None =>
          Queue(WithoutBytes(flow));
      }
    }

    method SendFrame(m: WsMessage)
      requires Valid()
      modifies this
      ensures Valid() && Abs() == EmitFrame(old(Abs()), m)
    {
      if channel { QueueFrame(m); }
    }

    method FlushQueues()
      requires Valid()
      modifies this
      ensures Valid() && Abs() == Flush(old(Abs()))
    {
      if flows == [] && ws == [] && wsDropped == map[] { return; }
      if !channel { return; }
      slot := map[];
      var queued, counts := flows, wsDropped;
      flows := [];
      var frames := TakeFrames(MAX_WS_BYTES_PER_TICK);
      wsDropped := map[];
      SendBatches(queued, frames, counts);
    }

    /** The splitting loop of a flush, run without the lock. */
    method SendBatches(flows0: seq<Flow>, ws0: seq<WsMessage>, dropped0: map<string, nat>)
      modifies this`outbox
      ensures outbox == old(outbox) + Messages(flows0, ws0, dropped0)
    {
      var queued := flows0;
      while true
        invariant outbox + Messages(queued, ws0, dropped0) == old(outbox) + Messages(flows0, ws0, dropped0)
        decreases |queued|
      {
        var n := if |queued| < MAX_FLOWS_PER_MESSAGE then |queued| else MAX_FLOWS_PER_MESSAGE;
        var rest := queued[n..];
        var last := rest == [];
        var batch := StreamBatch(queued[..n], if last then ws0 else [], if last then dropped0 else map[]);
        if last {
          assert queued[..n] == queued;
          outbox := outbox + [batch];
          return;
        }
        assert Messages(queued, ws0, dropped0) == [batch] + Messages(rest, ws0, dropped0);
        outbox := outbox + [batch];
        queued := rest;
      }
    }
  }

  /* ------------------------- bounds on the queue ------------------------ */

  /**
   * Whatever is emitted, the frame queue is within its byte budget or holds one frame,
   * and is always a suffix of what was queued before plus the new frame.
   */
  lemma FrameQueueBounded(s: Stream, m: WsMessage)
    requires s.bound
    ensures var t := EmitFrame(s, m);
            && t.ws != []
            && (Bytes(Utf8, t.ws) <= MAX_QUEUED_WS_BYTES || |t.ws| == 1)
            && exists k :: 0 <= k <= |s.ws| && t.ws == (s.ws + [m])[k..]
                 && forall j :: 0 <= j < k ==> Bytes(Utf8, (s.ws + [m])[j..]) > MAX_QUEUED_WS_BYTES
  {
    var all := s.ws + [m];
    var k := Cut(Utf8, all, |all|, MAX_QUEUED_WS_BYTES);
    CutIsLeast(Utf8, all, |all|, MAX_QUEUED_WS_BYTES);
    assert EmitFrame(s, m).ws == all[k..];
  }

  /** Splitting a backlog loses and reorders nothing. */
  lemma {:induction false} MessagesWhole(flows: seq<Flow>, ws: seq<WsMessage>, dropped: map<string, nat>)
    ensures var ms := Messages(flows, ws, dropped);
            && AllFlows(ms) == flows
            && ms[|ms| - 1].ws == ws && ms[|ms| - 1].dropped == dropped
            && forall i :: 0 <= i < |ms| ==>
                 && |ms[i].flows| <= MAX_FLOWS_PER_MESSAGE
                 && (i < |ms| - 1 ==> ms[i].ws == [] && ms[i].dropped == map[])
    decreases |flows|
  {
    if |flows| > MAX_FLOWS_PER_MESSAGE {
      var rest := flows[MAX_FLOWS_PER_MESSAGE..];
      MessagesWhole(rest, ws, dropped);
      var ms := Messages(flows, ws, dropped);
      assert ms[1..] == Messages(rest, ws, dropped);
      assert flows[..MAX_FLOWS_PER_MESSAGE] + rest == flows;
    } else {
      assert [StreamBatch(flows, ws, dropped)][1..] == [];
      assert flows + [] == flows;
    }
  }

  /** The flows of a row of messages, in order. */
  function AllFlows(ms: seq<StreamBatch>): seq<Flow>
  {
    if ms == [] then [] else ms[0].flows + AllFlows(ms[1..])
  }

  /** Each flow is stored under its own id. */
  predicate Keyed(store: map<string, Flow>) { forall k :: k in store ==> store[k].id == k }

  /** What resuming queues: the flows noted that the store retains, and no other. */
  lemma {:induction false} QueueCurrentIds(q: seq<Flow>, ids: seq<string>, store: map<string, Flow>)
    ensures Ids(QueueCurrent(q, ids, store)) == Ids(q) + set id | id in ids && id in store :: store[id].id
    decreases |ids|
  {
    if ids != [] {
      if ids[0] in store { UpsertIds(q, WithoutBytes(store[ids[0]])); }
      QueueCurrentIds(if ids[0] in store then Upsert(q, WithoutBytes(store[ids[0]])) else q, ids[1..], store);
      assert ids == [ids[0]] + ids[1..];
    }
  }
}
