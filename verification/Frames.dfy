/**
 * Frame queues bounded by bytes: what the engine's `StreamState` and the webview's
 * `StreamQueue` both do, stated once over plain sequences.
 */
module Frames {
  import opened Proto

  function Bytes(u: Units, ws: seq<WsMessage>): nat
  {
    if ws == [] then 0 else FrameBytes(u, ws[0]) + Bytes(u, ws[1..])
  }

  lemma {:induction false} BytesConcat(u: Units, a: seq<WsMessage>, b: seq<WsMessage>)
    ensures Bytes(u, a + b) == Bytes(u, a) + Bytes(u, b)
  {
    if a == [] {
      assert a + b == b;
    } else {
      assert (a + b)[1..] == a[1..] + b;
      BytesConcat(u, a[1..], b);
    }
  }

  lemma BytesSplit(u: Units, ws: seq<WsMessage>, k: nat)
    requires k <= |ws|
    ensures Bytes(u, ws) == Bytes(u, ws[..k]) + Bytes(u, ws[k..])
  {
    assert ws == ws[..k] + ws[k..];
    BytesConcat(u, ws[..k], ws[k..]);
  }

  lemma BytesAt(u: Units, ws: seq<WsMessage>, k: nat)
    requires k < |ws|
    ensures Bytes(u, ws[..k + 1]) == Bytes(u, ws[..k]) + FrameBytes(u, ws[k])
    ensures Bytes(u, ws[k..]) == FrameBytes(u, ws[k]) + Bytes(u, ws[k + 1..])
  {
    assert ws[..k + 1] == ws[..k] + [ws[k]];
    BytesConcat(u, ws[..k], [ws[k]]);
    assert [ws[k]][1..] == [];
    assert ws[k..][1..] == ws[k + 1..];
  }

  /* ---------------------------- drop counts ---------------------------- */

  function Get(counts: map<string, nat>, id: string): nat
  {
    if id in counts then counts[id] else 0
  }

  function Bump(counts: map<string, nat>, id: string, n: nat): map<string, nat>
  {
    counts[id := Get(counts, id) + n]
  }

  /** `counts` once every frame of `ws` was counted against its socket. */
  function Tally(counts: map<string, nat>, ws: seq<WsMessage>): map<string, nat>
    decreases |ws|
  {
    if ws == [] then counts else Tally(Bump(counts, ws[0].flowId, 1), ws[1..])
  }

  /** The frames of one socket, in order. */
  function Of(id: string, ws: seq<WsMessage>): (r: seq<WsMessage>)
    ensures |r| <= |ws|
  {
    if ws == [] then []
    else if ws[0].flowId == id then [ws[0]] + Of(id, ws[1..])
    else Of(id, ws[1..])
  }

  lemma {:induction false} OfConcat(id: string, a: seq<WsMessage>, b: seq<WsMessage>)
    ensures Of(id, a + b) == Of(id, a) + Of(id, b)
  {
    if a == [] {
      assert a + b == b;
    } else {
      assert (a + b)[1..] == a[1..] + b;
      OfConcat(id, a[1..], b);
      assert [a[0]] + (Of(id, a[1..]) + Of(id, b)) == [a[0]] + Of(id, a[1..]) + Of(id, b);
    }
  }

  lemma OfSplit(id: string, ws: seq<WsMessage>, k: nat)
    requires k <= |ws|
    ensures Of(id, ws) == Of(id, ws[..k]) + Of(id, ws[k..])
  {
    assert ws == ws[..k] + ws[k..];
    OfConcat(id, ws[..k], ws[k..]);
  }

  lemma {:induction false} TallyCounts(counts: map<string, nat>, ws: seq<WsMessage>, id: string)
    ensures Get(Tally(counts, ws), id) == Get(counts, id) + |Of(id, ws)|
    decreases |ws|
  {
    if ws != [] {
      TallyCounts(Bump(counts, ws[0].flowId, 1), ws[1..], id);
    }
  }

  lemma {:induction false} TallyConcat(counts: map<string, nat>, a: seq<WsMessage>, b: seq<WsMessage>)
    ensures Tally(counts, a + b) == Tally(Tally(counts, a), b)
    decreases |a|
  {
    if a == [] {
      assert a + b == b;
    } else {
      assert (a + b)[1..] == a[1..] + b;
      TallyConcat(Bump(counts, a[0].flowId, 1), a[1..], b);
    }
  }

  lemma TallyStep(counts: map<string, nat>, ws: seq<WsMessage>, k: nat)
    requires k < |ws|
    ensures Tally(counts, ws[..k + 1]) == Bump(Tally(counts, ws[..k]), ws[k].flowId, 1)
  {
    assert ws[..k + 1] == ws[..k] + [ws[k]];
    TallyConcat(counts, ws[..k], [ws[k]]);
    assert [ws[k]][1..] == [];
  }

  /* ----------------------- dropping from the front ---------------------- */

  /** Over a frame or byte bound, with more than the newest frame left to drop. */
  predicate Over(u: Units, ws: seq<WsMessage>, maxFrames: nat, maxBytes: nat)
  {
    |ws| > 1 && (|ws| > maxFrames || Bytes(u, ws) > maxBytes)
  }

  /** How many frames go from the front before the rest fits. */
  function Cut(u: Units, ws: seq<WsMessage>, maxFrames: nat, maxBytes: nat): (k: nat)
    ensures k <= |ws|
  {
    if Over(u, ws, maxFrames, maxBytes) then 1 + Cut(u, ws[1..], maxFrames, maxBytes) else 0
  }

  /**
   * What is kept is within both bounds or is the newest frame alone, and nothing longer
   * would have been: the cut is the least that does.
   */
  lemma {:induction false} CutIsLeast(u: Units, ws: seq<WsMessage>, maxFrames: nat, maxBytes: nat)
    ensures var k := Cut(u, ws, maxFrames, maxBytes);
            && !Over(u, ws[k..], maxFrames, maxBytes)
            && (ws != [] ==> k < |ws|)
            && forall j :: 0 <= j < k ==> Over(u, ws[j..], maxFrames, maxBytes)
  {
    if Over(u, ws, maxFrames, maxBytes) {
      var k := Cut(u, ws[1..], maxFrames, maxBytes);
      CutIsLeast(u, ws[1..], maxFrames, maxBytes);
      assert ws[1..][k..] == ws[k + 1..];
      forall j | 0 <= j < k + 1 ensures Over(u, ws[j..], maxFrames, maxBytes) {
        if j == 0 { assert ws[0..] == ws; } else { assert ws[j..] == ws[1..][j - 1..]; }
      }
    }
  }

  /* ------------------------ taking from the front ----------------------- */

  /** How many more frames fit once `taken` bytes are already in the message. */
  function FillMore(u: Units, ws: seq<WsMessage>, taken: nat, budget: nat): (k: nat)
    ensures k <= |ws|
  {
    if ws == [] || taken + FrameBytes(u, ws[0]) > budget then 0
    else 1 + FillMore(u, ws[1..], taken + FrameBytes(u, ws[0]), budget)
  }

  /** How many frames one message takes: those that fit, and at least one. */
  function Fill(u: Units, ws: seq<WsMessage>, budget: nat): (k: nat)
    ensures k <= |ws|
  {
    if ws == [] then 0 else 1 + FillMore(u, ws[1..], FrameBytes(u, ws[0]), budget)
  }

  lemma {:induction false} FillMoreFits(u: Units, ws: seq<WsMessage>, taken: nat, budget: nat)
    ensures var k := FillMore(u, ws, taken, budget);
            && (k > 0 ==> taken + Bytes(u, ws[..k]) <= budget)
            && (k < |ws| ==> taken + Bytes(u, ws[..k + 1]) > budget)
  {
    if ws != [] {
      var size := FrameBytes(u, ws[0]);
      if taken + size <= budget {
        FillMoreFits(u, ws[1..], taken + size, budget);
        var k := FillMore(u, ws[1..], taken + size, budget);
        assert ws[..k + 1][1..] == ws[1..][..k];
        if k < |ws[1..]| { assert ws[..k + 2][1..] == ws[1..][..k + 1]; }
      } else {
        BytesAt(u, ws, 0);
      }
    }
  }

  /**
   * One tick takes a non-empty prefix that fits the budget or is a single frame, and
   * stops only because the next frame would not fit.
   */
  lemma FillFits(u: Units, ws: seq<WsMessage>, budget: nat)
    ensures var k := Fill(u, ws, budget);
            && (ws != [] ==> k >= 1)
            && (k > 1 ==> Bytes(u, ws[..k]) <= budget)
            && (k < |ws| ==> Bytes(u, ws[..k + 1]) > budget)
  {
    if ws != [] {
      FillMoreFits(u, ws[1..], FrameBytes(u, ws[0]), budget);
      var k := Fill(u, ws, budget);
      assert ws[..k][1..] == ws[1..][..k - 1];
      if k < |ws| { assert ws[..k + 1][1..] == ws[1..][..k]; }
    }
  }
}
