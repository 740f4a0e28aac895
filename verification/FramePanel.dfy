/** Captured WebSocket frames in the webview: appending and evicting (src/store.ts). */
module FramePanel {
  import opened Wrappers
  import opened Proto
  import opened Frames
  import opened Coalesce
  import opened FlowList
  import opened MapSum

  /** Payload a socket holds, in string length. */
  function Payload(frames: seq<WsMessage>): nat { Bytes(Utf16, frames) }

  function Count(frames: seq<WsMessage>): nat { |frames| }

  /** Payload held across every socket. */
  ghost function Total(held: FramesById): nat { Sum(held, Payload) }

  function Held(ws: FramesById, id: string): seq<WsMessage>
  {
    if id in ws then ws[id] else []
  }

  /* ---------------------------- evictOverBudget ------------------------- */

  /** Each socket loses no more frames than it holds. */
  ghost predicate LostWithin(held: FramesById, lost: map<string, nat>)
  {
    && lost.Keys <= held.Keys
    && (forall id :: id in held ==> Get(lost, id) <= |held[id]|)
    && (forall id :: id in lost ==> lost[id] > 0)
  }

  /** What is left of each socket once its oldest `lost` frames are gone. */
  function Without(held: FramesById, lost: map<string, nat>): FramesById
    requires LostWithin(held, lost)
  {
    map id | id in held :: held[id][Get(lost, id)..]
  }

  ghost predicate Ordered(held: FramesById)
  {
    forall id, i, j :: id in held && 0 <= i <= j < |held[id]| ==> held[id][i].at <= held[id][j].at
  }

  /** No dropped frame, of any socket, is newer than any kept one. */
  ghost predicate OldestGone(held: FramesById, lost: map<string, nat>)
  {
    forall a, b, i, j ::
      a in held && b in held && 0 <= i < Get(lost, a) && i < |held[a]| && Get(lost, b) <= j < |held[b]|
      ==> held[a][i].at <= held[b][j].at
  }

  /** Putting back the last frame this socket lost would be over the budget. */
  ghost predicate NeededBy(id: string, held: FramesById, lost: map<string, nat>, total: nat, budget: nat)
  {
    id in lost && id in held && 0 < lost[id] <= |held[id]|
    && total + FrameBytes(Utf16, held[id][lost[id] - 1]) > budget
  }

  /** A correct oldest-first eviction to a budget (`None`: no budget). */
  ghost predicate Evicted(held: FramesById, kept: FramesById, lost: map<string, nat>, budget: Option<nat>)
  {
    && LostWithin(held, lost)
    && kept == Without(held, lost)
    && (budget.None? ==> lost == map[])
    && (budget.Some? ==> Total(kept) <= budget.value)
    && (budget.Some? && lost != map[] ==> exists id :: NeededBy(id, held, lost, Total(kept), budget.value))
    && (Ordered(held) ==> OldestGone(held, lost))
  }

  lemma NeededMeansOver(held: FramesById, lost: map<string, nat>, id: string, budget: nat)
    requires LostWithin(held, lost) && NeededBy(id, held, lost, Total(Without(held, lost)), budget)
    ensures Total(held) > budget
  {
    var kept := Without(held, lost);
    var more := held[id][lost[id] - 1..];
    BytesAt(Utf16, held[id], lost[id] - 1);
    SumPut(kept, Payload, id, more);
    forall k | k in held ensures Payload(kept[id := more][k]) <= Payload(held[k]) {
      BytesSplit(Utf16, held[k], if k == id then lost[id] - 1 else Get(lost, k));
    }
    SumMonotone(kept[id := more], Payload, held, Payload);
  }

  /** What fits is left alone: an eviction loses something exactly when it must. */
  lemma EvictedLosesIff(held: FramesById, kept: FramesById, lost: map<string, nat>, budget: Option<nat>)
    requires Evicted(held, kept, lost, budget)
    ensures lost == map[] ==> kept == held
    ensures lost == map[] <==> (budget.None? || Total(held) <= budget.value)
  {
    if lost == map[] {
      assert kept == held;
    } else {
      var id :| NeededBy(id, held, lost, Total(kept), budget.value);
      NeededMeansOver(held, lost, id, budget.value);
    }
  }

  method TotalPayload(held: FramesById) returns (total: nat)
    ensures total == Total(held)
  {
    total := 0;
    var rest := held;
    while rest != map[]
      invariant total + Total(rest) == Total(held)
      decreases |rest|
    {
      var id :| id in rest;
      SumSplit(rest, Payload, id);
      total := total + Payload(rest[id]);
      rest := rest - {id};
    }
  }

  /** Nothing still held in any socket is older than the next frame of `o`. */
  ghost predicate HasOldest(held: FramesById, lost: map<string, nat>, ids: set<string>, o: string)
  {
    && o in held && Get(lost, o) < |held[o]|
    && forall id :: id in ids && id in held && Get(lost, id) < |held[id]|
         ==> held[o][Get(lost, o)].at <= held[id][Get(lost, id)].at
  }

  /** The socket whose next frame is the oldest; `None` once all are used up. */
  method OldestSocket(held: FramesById, lost: map<string, nat>) returns (oldest: Option<string>)
    requires LostWithin(held, lost)
    ensures oldest.None? ==> forall id :: id in held ==> Get(lost, id) == |held[id]|
    ensures oldest.Some? ==> HasOldest(held, lost, held.Keys, oldest.value)
  {
    oldest := None;
    var left := held.Keys;
    while left != {}
      invariant left <= held.Keys
      invariant oldest.None? ==> forall id :: id in held.Keys - left ==> Get(lost, id) == |held[id]|
      invariant oldest.Some? ==> HasOldest(held, lost, held.Keys - left, oldest.value)
      decreases left
    {
      var id :| id in left;
      left := left - {id};
      var at := Get(lost, id);
      if at < |held[id]| &&
         (oldest.None? || held[id][at].at < held[oldest.value][Get(lost, oldest.value)].at) {
        oldest := Some(id);
      }
    }
  }

  lemma AdvanceTotals(held: FramesById, lost: map<string, nat>, o: string)
    requires LostWithin(held, lost) && o in held && Get(lost, o) < |held[o]|
    ensures LostWithin(held, Bump(lost, o, 1))
    ensures Total(Without(held, lost))
         == Total(Without(held, Bump(lost, o, 1))) + FrameBytes(Utf16, held[o][Get(lost, o)])
    ensures Sum(Without(held, Bump(lost, o, 1)), Count) < Sum(Without(held, lost), Count)
  {
    AdvanceOne(held, lost, o);
    BytesAt(Utf16, held[o], Get(lost, o));
    var later := held[o][Get(lost, o) + 1..];
    SumPut(Without(held, lost), Payload, o, later);
    SumPut(Without(held, lost), Count, o, later);
  }

  lemma AdvanceOne(held: FramesById, lost: map<string, nat>, o: string)
    requires LostWithin(held, lost) && o in held && Get(lost, o) < |held[o]|
    ensures LostWithin(held, Bump(lost, o, 1))
    ensures Without(held, Bump(lost, o, 1)) == Without(held, lost)[o := held[o][Get(lost, o) + 1..]]
  {}

  lemma AdvanceNeeded(held: FramesById, lost: map<string, nat>, o: string, total: nat, budget: nat)
    requires o in held && Get(lost, o) < |held[o]|
    requires FrameBytes(Utf16, held[o][Get(lost, o)]) <= total && total > budget
    ensures NeededBy(o, held, Bump(lost, o, 1), total - FrameBytes(Utf16, held[o][Get(lost, o)]), budget)
  {}

  lemma AdvanceOldest(held: FramesById, lost: map<string, nat>, o: string)
    requires LostWithin(held, lost) && HasOldest(held, lost, held.Keys, o)
    ensures Ordered(held) && OldestGone(held, lost) ==> OldestGone(held, Bump(lost, o, 1))
  {
    var next := Bump(lost, o, 1);
    if Ordered(held) && OldestGone(held, lost) {
      forall a, b, i, j |
        a in held && b in held && 0 <= i < Get(next, a) && i < |held[a]| && Get(next, b) <= j < |held[b]|
        ensures held[a][i].at <= held[b][j].at
      {
        assert Get(lost, b) <= j;
        if i >= Get(lost, a) {
          assert a == o && i == Get(lost, o);
          assert held[o][i].at <= held[b][Get(lost, b)].at <= held[b][j].at;
        }
      }
    }
  }

  lemma {:induction false} SumOfNothing(held: FramesById)
    requires forall id :: id in held ==> held[id] == []
    ensures Total(held) == 0
    decreases |held|
  {
    if held != map[] {
      var id :| id in held;
      SumSplit(held, Payload, id);
      SumOfNothing(held - {id});
    }
  }

  /** Where the eviction stands: payload exact, last drop necessary, oldest frames first. */
  ghost predicate Evicting(held: FramesById, lost: map<string, nat>, total: nat, last: string, budget: nat)
  {
    && LostWithin(held, lost) && total == Total(Without(held, lost))
    && (lost != map[] ==> NeededBy(last, held, lost, total, budget))
    && (Ordered(held) ==> OldestGone(held, lost))
  }

  lemma NothingEvicted(held: FramesById, total: nat, budget: nat)
    requires total == Total(held)
    ensures Evicting(held, map[], total, "", budget)
  {
    assert Without(held, map[]) == held;
  }

  lemma AllUsedUp(held: FramesById, lost: map<string, nat>)
    requires LostWithin(held, lost) && forall id :: id in held ==> Get(lost, id) == |held[id]|
    ensures Total(Without(held, lost)) == 0
  {
    SumOfNothing(Without(held, lost));
  }

  /**
   * Oldest-first eviction down to the budget, as `Evicted` has it. The sockets
   * are scanned in no promised order, which covers ties broken either way.
   */
  method EvictOverBudget(held: FramesById, budget: Option<nat>) returns (kept: FramesById, lost: map<string, nat>)
    ensures Evicted(held, kept, lost, budget)
  {
    lost := map[];
    if budget.None? { return held, lost; }
    var total: nat := TotalPayload(held);
    if total <= budget.value { return held, lost; }
    NothingEvicted(held, total, budget.value);
    ghost var last := "";
    while total > budget.value
      invariant Evicting(held, lost, total, last, budget.value)
      decreases Sum(Without(held, lost), Count)
    {
      var oldest := OldestSocket(held, lost);
      if oldest.None? {
        AllUsedUp(held, lost);
        break;
      }
      var o := oldest.value;
      AdvanceTotals(held, lost, o);
      AdvanceOldest(held, lost, o);
      AdvanceNeeded(held, lost, o, total, budget.value);
      total := total - FrameBytes(Utf16, held[o][Get(lost, o)]);
      lost := Bump(lost, o, 1);
      last := o;
    }
    kept := Without(held, lost);
  }

  /* ---------------------------- appendWsMessages ------------------------ */

  /** The frames of `batch` that reach a socket: none for a flow the list does not hold. */
  function Added(p: Panel, batch: seq<WsMessage>, id: string): seq<WsMessage>
  {
    if Has(p.flows, id) then Of(id, batch) else []
  }

  function Excess(n: nat, cap: nat): nat { if n <= cap then 0 else n - cap }

  /** The newest `cap` frames. */
  function Newest(frames: seq<WsMessage>, cap: nat): seq<WsMessage>
  {
    frames[Excess(|frames|, cap)..]
  }

  /** A socket with the batch appended and its own frame cap applied. */
  function Appended(p: Panel, batch: seq<WsMessage>, cap: nat, id: string): seq<WsMessage>
  {
    var all := Held(p.ws, id) + Added(p, batch, id);
    if Added(p, batch, id) == [] then all else Newest(all, cap)
  }

  /** Frames the socket's own cap drops. */
  function OverCap(p: Panel, batch: seq<WsMessage>, cap: nat, id: string): nat
  {
    |Held(p.ws, id)| + |Added(p, batch, id)| - |Appended(p, batch, cap, id)|
  }

  /** The sockets before the byte budget is applied. */
  function BeforeBudget(p: Panel, batch: seq<WsMessage>, cap: nat): FramesById
  {
    map id | id in p.ws.Keys + Ids(p.flows) && (id in p.ws || Added(p, batch, id) != []) :: Appended(p, batch, cap, id)
  }

  ghost predicate AddsNothing(p: Panel, batch: seq<WsMessage>)
  {
    forall id :: Added(p, batch, id) == []
  }

  /** What appending a batch does; `lost` is what the byte budget cost each socket. */
  ghost predicate AppendSpec(p: Panel, batch: seq<WsMessage>, upstream: map<string, nat>, cap: nat,
                             budget: Option<nat>, q: Panel, lost: map<string, nat>)
  {
    && q.flows == p.flows && q.recording == p.recording
    && (if AddsNothing(p, batch) then q.ws == p.ws && lost == map[]
        else Evicted(BeforeBudget(p, batch, cap), q.ws, lost, budget))
    && (forall id :: Get(q.dropped, id) ==
          Get(p.dropped, id) + (if Has(p.flows, id) then Get(upstream, id) else 0)
          + OverCap(p, batch, cap, id) + Get(lost, id))
  }

  /** Before the byte budget, a socket that grew holds all it can and is charged the rest. */
  ghost predicate GrownFull(p: Panel, batch: seq<WsMessage>, upstream: map<string, nat>, cap: nat, q: Panel,
                            lost: map<string, nat>)
  {
    forall id :: Added(p, batch, id) != [] ==>
      var total := |Held(p.ws, id)| + |Added(p, batch, id)|;
      && |Held(q.ws, id)| + Get(lost, id) == (if total <= cap then total else cap)
      && Get(q.dropped, id) + |Held(q.ws, id)| == Get(p.dropped, id) + Get(upstream, id) + total
  }

  lemma GrownSocketsFull(p: Panel, batch: seq<WsMessage>, upstream: map<string, nat>, cap: nat, budget: Option<nat>,
                         q: Panel, lost: map<string, nat>)
    requires AppendSpec(p, batch, upstream, cap, budget, q, lost)
    ensures GrownFull(p, batch, upstream, cap, q, lost)
  {
    forall id | Added(p, batch, id) != []
      ensures var total := |Held(p.ws, id)| + |Added(p, batch, id)|;
              && |Held(q.ws, id)| + Get(lost, id) == (if total <= cap then total else cap)
              && Get(q.dropped, id) + |Held(q.ws, id)| == Get(p.dropped, id) + Get(upstream, id) + total
    {
      HasIds(p.flows, id);
      assert id in BeforeBudget(p, batch, cap);
    }
  }

  lemma AddedSnoc(p: Panel, batch: seq<WsMessage>, i: nat, id: string)
    requires i < |batch|
    ensures Added(p, batch[..i + 1], id)
         == Added(p, batch[..i], id) + (if batch[i].flowId == id && Has(p.flows, id) then [batch[i]] else [])
  {
    OfSnoc(id, batch, i);
  }

  /** One frame more moves only the socket it is of. */
  lemma OtherSocketsStay(p: Panel, batch: seq<WsMessage>, i: nat, cap: nat, id: string)
    requires i < |batch| && (batch[i].flowId != id || !Has(p.flows, id))
    ensures var was, now := BeforeBudget(p, batch[..i], cap), BeforeBudget(p, batch[..i + 1], cap);
            (id in now <==> id in was) && (id in now ==> now[id] == was[id])
  {
    AddedSnoc(p, batch, i, id);
    assert Added(p, batch[..i + 1], id) == Added(p, batch[..i], id);
    assert Appended(p, batch[..i + 1], cap, id) == Appended(p, batch[..i], cap, id);
  }

  /** One frame more adds no more than its own payload to what the sockets hold. */
  lemma PayloadOneMore(p: Panel, batch: seq<WsMessage>, i: nat, cap: nat)
    requires i < |batch|
    ensures Total(BeforeBudget(p, batch[..i + 1], cap))
         <= Total(BeforeBudget(p, batch[..i], cap)) + FrameBytes(Utf16, batch[i])
  {
    var m := batch[i].flowId;
    var was, now := BeforeBudget(p, batch[..i], cap), BeforeBudget(p, batch[..i + 1], cap);
    forall id | id != m || !Has(p.flows, m) ensures (id in now <==> id in was) && (id in now ==> now[id] == was[id]) {
      OtherSocketsStay(p, batch, i, cap, id);
    }
    if Has(p.flows, m) {
      var more := Appended(p, batch[..i + 1], cap, m);
      InBudget(p, batch[..i], cap, m);
      InBudget(p, batch[..i + 1], cap, m);
      SumMonotone(now, Payload, was[m := more], Payload);
      SumPut(was, Payload, m, more);
      SocketOneMore(p, batch, i, cap);
    } else {
      SumMonotone(now, Payload, was, Payload);
    }
  }

  lemma InBudget(p: Panel, batch: seq<WsMessage>, cap: nat, id: string)
    ensures Held(BeforeBudget(p, batch, cap), id) == Appended(p, batch, cap, id)
  {
    HasIds(p.flows, id);
  }

  lemma NewestSnoc(all: seq<WsMessage>, m: WsMessage, cap: nat)
    ensures Payload(Newest(all + [m], cap)) <= Payload(Newest(all, cap)) + FrameBytes(Utf16, m)
    ensures Payload(Newest(all, cap)) <= Payload(all)
  {
    var was, now := Newest(all, cap), Newest(all + [m], cap);
    var k := |was| + 1 - |now|;
    assert now == (was + [m])[k..];
    BytesSplit(Utf16, was + [m], k);
    BytesConcat(Utf16, was, [m]);
    assert [m][1..] == [];
    BytesSplit(Utf16, all, |all| - |was|);
  }

  lemma SocketOneMore(p: Panel, batch: seq<WsMessage>, i: nat, cap: nat)
    requires i < |batch| && Has(p.flows, batch[i].flowId)
    ensures Payload(Appended(p, batch[..i + 1], cap, batch[i].flowId))
         <= Payload(Appended(p, batch[..i], cap, batch[i].flowId)) + FrameBytes(Utf16, batch[i])
  {
    var id, m := batch[i].flowId, batch[i];
    var all := Held(p.ws, id) + Added(p, batch[..i], id);
    AddedSnoc(p, batch, i, id);
    assert Held(p.ws, id) + (Added(p, batch[..i], id) + [m]) == all + [m];
    NewestSnoc(all, m, cap);
  }

  lemma {:induction false} PayloadAtMost(p: Panel, batch: seq<WsMessage>, i: nat, cap: nat)
    requires i <= |batch|
    ensures Total(BeforeBudget(p, batch[..i], cap)) <= Total(p.ws) + Bytes(Utf16, batch[..i])
    decreases i
  {
    if i == 0 {
      assert forall id :: Added(p, batch[..0], id) == [] && Held(p.ws, id) + [] == Held(p.ws, id);
      assert BeforeBudget(p, batch[..0], cap) == p.ws;
    } else {
      PayloadAtMost(p, batch, i - 1, cap);
      PayloadOneMore(p, batch, i - 1, cap);
      BytesAt(Utf16, batch, i - 1);
    }
  }

  /** While the payload fits the budget, a socket that grows holds all it can. */
  lemma FitsSoFull(p: Panel, batch: seq<WsMessage>, upstream: map<string, nat>, cap: nat, budget: nat, q: Panel,
                   lost: map<string, nat>, id: string)
    requires AppendSpec(p, batch, upstream, cap, Some(budget), q, lost)
    requires Total(p.ws) + Bytes(Utf16, batch) <= budget && Added(p, batch, id) != []
    ensures var total := |Held(p.ws, id)| + |Added(p, batch, id)|;
            |Held(q.ws, id)| == if total <= cap then total else cap
  {
    GrownSocketsFull(p, batch, upstream, cap, Some(budget), q, lost);
    PayloadAtMost(p, batch, |batch|, cap);
    assert batch[..|batch|] == batch;
    EvictedLosesIff(BeforeBudget(p, batch, cap), q.ws, lost, Some(budget));
  }

  /** Add each of `more`'s counts for which `only` holds the id. */
  method AddEach(counts: map<string, nat>, more: map<string, nat>, only: set<string>) returns (r: map<string, nat>)
    ensures forall id :: Get(r, id) == Get(counts, id) + (if id in only then Get(more, id) else 0)
    ensures more.Keys * only == {} ==> r == counts
  {
    r := counts;
    var left := more.Keys;
    while left != {}
      invariant left <= more.Keys
      invariant forall id :: Get(r, id) == Get(counts, id) + (if id in only && id !in left then Get(more, id) else 0)
      invariant more.Keys * only == {} ==> r == counts
      decreases left
    {
      var id :| id in left;
      left := left - {id};
      if id in only {
        assert id in more.Keys * only;
        r := Bump(r, id, more[id]);
      }
    }
  }

  ghost predicate Grouped(byFlow: FramesById, p: Panel, batch: seq<WsMessage>)
  {
    && (forall id :: Held(byFlow, id) == Added(p, batch, id))
    && (forall id :: id in byFlow ==> byFlow[id] != [] && Has(p.flows, id))
  }

  function GroupOne(byFlow: FramesById, p: Panel, m: WsMessage): FramesById
  {
    if Has(p.flows, m.flowId) then byFlow[m.flowId := Held(byFlow, m.flowId) + [m]] else byFlow
  }

  lemma GroupedSnoc(byFlow: FramesById, p: Panel, batch: seq<WsMessage>, i: nat)
    requires i < |batch| && Grouped(byFlow, p, batch[..i])
    ensures Grouped(GroupOne(byFlow, p, batch[i]), p, batch[..i + 1])
  {
    var next := GroupOne(byFlow, p, batch[i]);
    forall id ensures Held(next, id) == Added(p, batch[..i + 1], id) {
      assert Held(byFlow, id) == Added(p, batch[..i], id);
      OfSnoc(id, batch, i);
    }
  }

  lemma NoGroups(byFlow: FramesById, p: Panel, batch: seq<WsMessage>)
    requires Grouped(byFlow, p, batch)
    ensures byFlow == map[] <==> AddsNothing(p, batch)
  {
    if byFlow != map[] {
      var id :| id in byFlow;
      assert Held(byFlow, id) == Added(p, batch, id);
    }
    if !AddsNothing(p, batch) {
      var id :| Added(p, batch, id) != [];
      assert Held(byFlow, id) == Added(p, batch, id);
    }
  }

  /** Group the batch by flow, leaving out flows the list does not hold. */
  method GroupByFlow(batch: seq<WsMessage>, p: Panel) returns (byFlow: FramesById)
    ensures Grouped(byFlow, p, batch)
  {
    byFlow := map[];
    for i := 0 to |batch|
      invariant Grouped(byFlow, p, batch[..i])
    {
      GroupedSnoc(byFlow, p, batch, i);
      byFlow := GroupOne(byFlow, p, batch[i]);
    }
    assert batch[..|batch|] == batch;
  }

  lemma OfSnoc(id: string, batch: seq<WsMessage>, i: nat)
    requires i < |batch|
    ensures Of(id, batch[..i + 1]) == Of(id, batch[..i]) + (if batch[i].flowId == id then [batch[i]] else [])
  {
    assert batch[..i + 1] == batch[..i] + [batch[i]];
    OfConcat(id, batch[..i], [batch[i]]);
    assert [batch[i]][1..] == [];
  }

  /** The sockets once the groups of `done` are appended, each cut to its newest `cap` frames. */
  ghost predicate Capped(held: FramesById, byFlow: FramesById, done: set<string>, next: FramesById, cap: nat)
  {
    && next.Keys == held.Keys + done
    && forall id :: id in next ==>
         next[id] == if id in byFlow && id in done then Newest(Held(held, id) + byFlow[id], cap) else Held(held, id)
  }

  /** The counts once what those cuts took is added. */
  ghost predicate CapCounted(held: FramesById, byFlow: FramesById, done: set<string>, counts: map<string, nat>,
                             dropped: map<string, nat>, cap: nat)
  {
    forall id :: Get(dropped, id) == Get(counts, id)
      + if id in byFlow && id in done then Excess(|Held(held, id)| + |byFlow[id]|, cap) else 0
  }

  lemma CappedOne(held: FramesById, byFlow: FramesById, done: set<string>, next: FramesById, cap: nat, id: string)
    requires Capped(held, byFlow, done, next, cap) && id in byFlow && id !in done
    ensures Held(next, id) == Held(held, id)
    ensures Capped(held, byFlow, done + {id}, next[id := Newest(Held(held, id) + byFlow[id], cap)], cap)
  {}

  lemma CapCountedOne(held: FramesById, byFlow: FramesById, done: set<string>, counts: map<string, nat>,
                      dropped: map<string, nat>, cap: nat, id: string)
    requires CapCounted(held, byFlow, done, counts, dropped, cap) && id in byFlow && id !in done
    ensures CapCounted(held, byFlow, done + {id}, counts,
                       CountExcess(dropped, id, |Held(held, id)| + |byFlow[id]|, cap), cap)
  {}

  /** By length: a socket that grew holds all it can, up to the cap, and is charged the rest. */
  ghost predicate CappedFull(held: FramesById, byFlow: FramesById, counts: map<string, nat>, next: FramesById,
                             dropped: map<string, nat>, cap: nat)
  {
    forall id :: id in byFlow ==>
      var total := |Held(held, id)| + |byFlow[id]|;
      && id in next && |next[id]| == (if total <= cap then total else cap)
      && Get(dropped, id) + |next[id]| == Get(counts, id) + total
  }

  lemma AllCappedFull(held: FramesById, byFlow: FramesById, counts: map<string, nat>, next: FramesById,
                      dropped: map<string, nat>, cap: nat)
    requires Capped(held, byFlow, byFlow.Keys, next, cap)
    requires CapCounted(held, byFlow, byFlow.Keys, counts, dropped, cap)
    ensures CappedFull(held, byFlow, counts, next, dropped, cap)
  {}

  /** Append each group to its socket and cut the socket to its newest `cap` frames. */
  method CapSockets(held: FramesById, byFlow: FramesById, counts: map<string, nat>, cap: nat)
    returns (next: FramesById, dropped: map<string, nat>)
    ensures Capped(held, byFlow, byFlow.Keys, next, cap)
    ensures CapCounted(held, byFlow, byFlow.Keys, counts, dropped, cap)
    ensures CappedFull(held, byFlow, counts, next, dropped, cap)
  {
    next, dropped := held, counts;
    var left := byFlow.Keys;
    ghost var done: set<string> := {};
    while left != {}
      invariant left !! done && left + done == byFlow.Keys
      invariant Capped(held, byFlow, done, next, cap)
      invariant CapCounted(held, byFlow, done, counts, dropped, cap)
      decreases left
    {
      var id :| id in left;
      left := left - {id};
      CappedOne(held, byFlow, done, next, cap, id);
      CapCountedOne(held, byFlow, done, counts, dropped, cap, id);
      var all := Held(next, id) + byFlow[id];
      next := next[id := Newest(all, cap)];
      dropped := CountExcess(dropped, id, |all|, cap);
      done := done + {id};
    }
    AllCappedFull(held, byFlow, counts, next, dropped, cap);
  }

  /** Count what a socket of `n` frames holds past the cap. */
  function CountExcess(counts: map<string, nat>, id: string, n: nat, cap: nat): (r: map<string, nat>)
    ensures forall x :: Get(r, x) == Get(counts, x) + (if x == id then Excess(n, cap) else 0)
  {
    if n > cap then Bump(counts, id, n - cap) else counts
  }

  lemma SocketIs(p: Panel, batch: seq<WsMessage>, byFlow: FramesById, id: string, cap: nat)
    requires Held(byFlow, id) == Added(p, batch, id)
    requires id in byFlow ==> byFlow[id] != [] && Has(p.flows, id)
    ensures id in BeforeBudget(p, batch, cap) <==> id in p.ws || id in byFlow
    ensures Appended(p, batch, cap, id)
         == if id in byFlow then Newest(Held(p.ws, id) + byFlow[id], cap) else Held(p.ws, id)
    ensures OverCap(p, batch, cap, id) == if id in byFlow then Excess(|Held(p.ws, id)| + |byFlow[id]|, cap) else 0
  {
    HasIds(p.flows, id);
    assert Held(p.ws, id) + [] == Held(p.ws, id);
  }

  lemma SocketsAre(p: Panel, batch: seq<WsMessage>, byFlow: FramesById, next: FramesById, cap: nat)
    requires Grouped(byFlow, p, batch)
    requires Capped(p.ws, byFlow, byFlow.Keys, next, cap)
    ensures next == BeforeBudget(p, batch, cap)
    ensures forall id ::
      OverCap(p, batch, cap, id) == if id in byFlow then Excess(|Held(p.ws, id)| + |byFlow[id]|, cap) else 0
  {
    var goal := BeforeBudget(p, batch, cap);
    forall id
      ensures id in next <==> id in goal
      ensures id in next ==> next[id] == goal[id]
      ensures OverCap(p, batch, cap, id) == if id in byFlow then Excess(|Held(p.ws, id)| + |byFlow[id]|, cap) else 0
    {
      assert Held(byFlow, id) == Added(p, batch, id);
      SocketIs(p, batch, byFlow, id, cap);
    }
  }

  lemma AppendsNothing(p: Panel, batch: seq<WsMessage>, upstream: map<string, nat>, cap: nat, budget: Option<nat>,
                       q: Panel)
    requires AddsNothing(p, batch)
    requires q == p.(dropped := q.dropped)
    requires forall id :: Get(q.dropped, id) == Get(p.dropped, id) + (if Has(p.flows, id) then Get(upstream, id) else 0)
    ensures AppendSpec(p, batch, upstream, cap, budget, q, map[])
  {
    assert forall id :: OverCap(p, batch, cap, id) == 0;
  }

  lemma CountsMeet(p: Panel, batch: seq<WsMessage>, byFlow: FramesById, counts: map<string, nat>, capped: map<string,
                   nat>,
                   evicted: map<string, nat>, dropped: map<string, nat>, cap: nat, id: string)
    requires CapCounted(p.ws, byFlow, byFlow.Keys, counts, capped, cap)
    requires OverCap(p, batch, cap, id) == if id in byFlow then Excess(|Held(p.ws, id)| + |byFlow[id]|, cap) else 0
    requires Get(dropped, id) == Get(capped, id) + (if id in evicted.Keys then Get(evicted, id) else 0)
    ensures Get(dropped, id) == Get(counts, id) + OverCap(p, batch, cap, id) + Get(evicted, id)
  {}

  /** The part of appending that has frames to append. */
  method AppendGroups(batch: seq<WsMessage>, byFlow: FramesById, p: Panel, counts: map<string, nat>, cap: nat,
                      budget: Option<nat>)
    returns (kept: FramesById, dropped: map<string, nat>, ghost lost: map<string, nat>)
    requires Grouped(byFlow, p, batch)
    ensures Evicted(BeforeBudget(p, batch, cap), kept, lost, budget)
    ensures forall id :: Get(dropped, id) == Get(counts, id) + OverCap(p, batch, cap, id) + Get(lost, id)
  {
    var next, capped := CapSockets(p.ws, byFlow, counts, cap);
    SocketsAre(p, batch, byFlow, next, cap);
    var evicted;
    kept, evicted := EvictOverBudget(next, budget);
    dropped := AddEach(capped, evicted, evicted.Keys);
    lost := evicted;
    forall id ensures Get(dropped, id) == Get(counts, id) + OverCap(p, batch, cap, id) + Get(lost, id) {
      CountsMeet(p, batch, byFlow, counts, capped, evicted, dropped, cap, id);
    }
  }

  /**
   * Appends captured frames. Frames of flows not listed are left out, a socket that
   * grows keeps its newest `cap` frames, the sockets together are evicted to the budget,
   * and everything dropped on the way is counted.
   */
  method AppendWsMessages(batch: seq<WsMessage>, p: Panel, cap: nat, budget: Option<nat>, upstream: map<string, nat>)
    returns (q: Panel)
    ensures exists lost ::
      AppendSpec(p, batch, upstream, cap, budget, q, lost) && GrownFull(p, batch, upstream, cap, q, lost)
  {
    q := p;
    if batch == [] && upstream == map[] {
      AppendsNothing(p, batch, upstream, cap, budget, p);
      GrownSocketsFull(p, batch, upstream, cap, budget, p, map[]);
      return;
    }
    var dropped := AddEach(p.dropped, upstream, Ids(p.flows));
    forall id ensures Has(p.flows, id) <==> id in Ids(p.flows) { HasIds(p.flows, id); }
    var byFlow := GroupByFlow(batch, p);
    NoGroups(byFlow, p, batch);
    if byFlow == map[] {
      q := p.(dropped := dropped);
      AppendsNothing(p, batch, upstream, cap, budget, q);
      GrownSocketsFull(p, batch, upstream, cap, budget, q, map[]);
      return;
    }
    var kept, counts, lost := AppendGroups(batch, byFlow, p, dropped, cap, budget);
    q := Panel(p.flows, p.recording, kept, counts);
    assert AppendSpec(p, batch, upstream, cap, budget, q, lost);
    GrownSocketsFull(p, batch, upstream, cap, budget, q, lost);
  }
}
