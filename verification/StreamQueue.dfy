/** What arrived in the webview since its last flush (src/streamQueue.ts). */
module StreamQueue {
  import opened Proto
  import opened Frames
  import opened Coalesce

  const MAX_QUEUED_FRAMES: nat := 20_000
  const MAX_QUEUED_WS_BYTES: nat := 32 * 1024 * 1024

  datatype Caps = Caps(flows: nat, frames: nat, bytes: nat)

  /** The queue as a value; `flows` is the insertion-ordered map, ids unique. */
  datatype Queue = Queue(flows: seq<Flow>, ws: seq<WsMessage>, dropped: map<string, nat>)

  const EMPTY := Queue([], [], map[])

  /** Two tables of drop counts, added. */
  function AddCounts(a: map<string, nat>, b: map<string, nat>): (r: map<string, nat>)
    ensures forall id :: Get(r, id) == Get(a, id) + Get(b, id)
  {
    map id | id in a.Keys + b.Keys :: Get(a, id) + Get(b, id)
  }

  /** The newest `cap` queued flows. */
  function Newest(flows: seq<Flow>, cap: nat): seq<Flow>
  {
    if |flows| <= cap then flows else flows[|flows| - cap..]
  }

  /** Only the oldest of `all` went, and only as many as there were past the cap. */
  ghost predicate DropsOldest(all: seq<Flow>, kept: seq<Flow>, cap: nat)
  {
    && (exists gone: seq<Flow> :: all == gone + kept)
    && |kept| == if |all| < cap then |all| else cap
  }

  lemma NewestDropsOldest(all: seq<Flow>, cap: nat)
    ensures DropsOldest(all, Newest(all, cap), cap)
  {
    var kept := Newest(all, cap);
    assert all == all[..|all| - |kept|] + kept;
  }

  function Push(q: Queue, batch: StreamBatch, caps: Caps): Queue
  {
    var flows := Newest(UpsertAll(q.flows, batch.flows), caps.flows);
    var counts := AddCounts(q.dropped, batch.dropped);
    if batch.ws == [] then Queue(flows, q.ws, counts)
    else
      var all := q.ws + batch.ws;
      var k := Cut(Utf16, all, caps.frames, caps.bytes);
      Queue(flows, all[k..], Tally(counts, all[..k]))
  }

  function Take(q: Queue): StreamBatch
  {
    StreamBatch(q.flows, q.ws, q.dropped)
  }

  function Discard(q: Queue): Queue
  {
    q.(flows := [])
  }

  class StreamQueue {
    const caps: Caps
    var flows: seq<Flow>
    var ws: seq<WsMessage>
    var wsBytes: nat
    var wsDropped: map<string, nat>

    ghost predicate Valid()
      reads this
    {
      Distinct(flows) && |flows| <= caps.flows && wsBytes == Bytes(Utf16, ws)
    }

    ghost function Abs(): Queue
      reads this
    {
      Queue(flows, ws, wsDropped)
    }

    constructor (flowCap: nat, wsCap: nat := MAX_QUEUED_FRAMES, wsByteCap: nat := MAX_QUEUED_WS_BYTES)
      ensures Valid() && Abs() == EMPTY && caps == Caps(flowCap, wsCap, wsByteCap)
    {
      caps := Caps(flowCap, wsCap, wsByteCap);
      flows, ws, wsBytes, wsDropped := [], [], 0, map[];
    }

    method PushBatch(batch: StreamBatch)
      requires Valid()
      modifies this
      ensures Valid() && Abs() == Push(old(Abs()), batch, caps)
      ensures DropsOldest(UpsertAll(old(flows), batch.flows), flows, caps.flows)
    {
      PushFlows(batch.flows);
      PushCounts(batch.dropped);
      if batch.ws != [] { PushFrames(batch.ws); }
    }

    method PushFlows(batch: seq<Flow>)
      requires Valid()
      modifies this`flows
      ensures Valid()
      ensures flows == Newest(UpsertAll(old(flows), batch), caps.flows)
      ensures DropsOldest(UpsertAll(old(flows), batch), flows, caps.flows)
    {
      for i := 0 to |batch|
        invariant Distinct(flows)
        invariant UpsertAll(flows, batch[i..]) == UpsertAll(old(flows), batch)
      {
        assert batch[i..][1..] == batch[i + 1..];
        UpsertKeeps(flows, batch[i]);
        flows := Upsert(flows, batch[i]);
      }
      ghost var all := flows;
      while |flows| > caps.flows
        invariant Distinct(flows) && Newest(flows, caps.flows) == Newest(all, caps.flows)
      {
        flows := flows[1..];
      }
      NewestDropsOldest(all, caps.flows);
    }

    method PushCounts(counts: map<string, nat>)
      modifies this`wsDropped
      ensures wsDropped == AddCounts(old(wsDropped), counts)
    {
      var left := counts.Keys;
      while left != {}
        invariant left <= counts.Keys
        invariant wsDropped.Keys == old(wsDropped).Keys + (counts.Keys - left)
        invariant forall id :: id in counts.Keys - left ==> wsDropped[id] == Get(old(wsDropped), id) + counts[id]
        invariant forall id :: id in old(wsDropped) && id !in counts.Keys - left ==> wsDropped[id] == old(wsDropped)[id]
        decreases left
      {
        var id :| id in left;
        left := left - {id};
        wsDropped := Bump(wsDropped, id, counts[id]);
      }
      assert wsDropped.Keys == AddCounts(old(wsDropped), counts).Keys;
    }

    method PushFrames(batch: seq<WsMessage>)
      requires Valid() && batch != []
      modifies this`ws, this`wsBytes, this`wsDropped
      ensures Valid()
      ensures var all := old(ws) + batch; var k := Cut(Utf16, all, caps.frames, caps.bytes);
              ws == all[k..] && wsDropped == Tally(old(wsDropped), all[..k])
    {
      for i := 0 to |batch|
        invariant ws == old(ws) && wsDropped == old(wsDropped)
        invariant wsBytes == Bytes(Utf16, ws) + Bytes(Utf16, batch[..i])
      {
        BytesAt(Utf16, batch, i);
        wsBytes := wsBytes + FrameBytes(Utf16, batch[i]);
      }
      assert batch[..|batch|] == batch;
      BytesConcat(Utf16, ws, batch);
      ws := ws + batch;
      CutToCaps();
    }

    /** Drop the oldest frames in one splice, counting each against its socket. */
    method CutToCaps()
      requires wsBytes == Bytes(Utf16, ws)
      modifies this`ws, this`wsBytes, this`wsDropped
      ensures wsBytes == Bytes(Utf16, ws)
      ensures var k := Cut(Utf16, old(ws), caps.frames, caps.bytes);
              ws == old(ws)[k..] && wsDropped == Tally(old(wsDropped), old(ws)[..k])
    {
      var cut := 0;
      assert ws[0..] == ws && ws[..0] == [];
      while cut < |ws| - 1 && (|ws| - cut > caps.frames || wsBytes > caps.bytes)
        invariant cut <= |ws| && ws == old(ws)
        invariant wsBytes == Bytes(Utf16, ws[cut..])
        invariant wsDropped == Tally(old(wsDropped), ws[..cut])
        invariant cut + Cut(Utf16, ws[cut..], caps.frames, caps.bytes) == Cut(Utf16, ws, caps.frames, caps.bytes)
      {
        BytesAt(Utf16, ws, cut);
        TallyStep(old(wsDropped), ws, cut);
        assert ws[cut..][1..] == ws[cut + 1..];
        wsBytes := wsBytes - FrameBytes(Utf16, ws[cut]);
        wsDropped := Bump(wsDropped, ws[cut].flowId, 1);
        cut := cut + 1;
      }
      if cut > 0 { ws := ws[cut..]; }
    }

    method TakeBatch() returns (out: StreamBatch)
      requires Valid()
      modifies this
      ensures Valid() && Abs() == EMPTY
      ensures out == Take(old(Abs()))
    {
      out := StreamBatch(flows, ws, wsDropped);
      flows, ws, wsBytes, wsDropped := [], [], 0, map[];
    }

    method DiscardFlows()
      requires Valid()
      modifies this
      ensures Valid() && Abs() == Discard(old(Abs()))
    {
      flows := [];
    }
  }

  /**
   * After any push that carries frames the queue is within both bounds or holds one
   * frame, keeps the newest, and is what was pushed minus a prefix no shorter one of
   * which would have done.
   */
  lemma PushBounds(q: Queue, batch: StreamBatch, caps: Caps)
    requires batch.ws != []
    ensures var t := Push(q, batch, caps);
            var all := q.ws + batch.ws;
            && t.ws != []
            && ((|t.ws| <= caps.frames && Bytes(Utf16, t.ws) <= caps.bytes) || |t.ws| == 1)
            && t.ws[|t.ws| - 1] == batch.ws[|batch.ws| - 1]
            && t.ws == all[|all| - |t.ws|..]
            && forall j :: 0 <= j < |all| - |t.ws| ==> |all| - j > caps.frames || Bytes(Utf16, all[j..]) > caps.bytes
  {
    var all := q.ws + batch.ws;
    CutIsLeast(Utf16, all, caps.frames, caps.bytes);
    var k := Cut(Utf16, all, caps.frames, caps.bytes);
    forall j | 0 <= j < k ensures |all| - j > caps.frames || Bytes(Utf16, all[j..]) > caps.bytes {
      assert Over(Utf16, all[j..], caps.frames, caps.bytes);
    }
  }
}
