/**
 * What a page is sent and what a pause leaves out, told by the history of numbers emitted:
 * over the runs of `NoLostUpdate`.
 */
module PauseNotes {
  import opened Wrappers
  import opened Proto
  import opened Coalesce
  import opened UiStream
  import opened NoLostUpdate

  /* ------------------------------- history ------------------------------ */

  /** The snapshot an event emits, if any. */
  function Emitted(w: World, e: Event): Option<Flow>
  {
    match e
    case Insert(f, _) => Some(f)
    case Update(id, f) => if id in w.store then Some(f) else None
    case _ => None
  }

  /** The event emits a snapshot of this flow. */
  predicate Emits(w: World, e: Event, id: string)
  {
    Emitted(w, e).Some? && Emitted(w, e).value.id == id
  }

  /** The event emits one numbered no higher than `limit`. */
  predicate EmitsUpTo(w: World, e: Event, id: string, limit: nat)
  {
    Emits(w, e, id) && Emitted(w, e).value.number <= limit
  }

  /** The highest number emitted while a page was bound. */
  function Highest(w: World, events: seq<Event>): nat
    decreases |events|
  {
    if events == [] then 0
    else
      var first := if w.stream.bound && Emitted(w, events[0]).Some? then Emitted(w, events[0]).value.number else 0;
      Max(first, Highest(Next(w, events[0]), events[1..]))
  }

  /** No event emits a snapshot of this flow. */
  predicate NeverEmitted(w: World, events: seq<Event>, id: string)
    decreases |events|
  {
    events == [] || (!Emits(w, events[0], id) && NeverEmitted(Next(w, events[0]), events[1..], id))
  }

  /** Every snapshot of this flow is numbered above `limit`. */
  predicate OnlyAbove(w: World, events: seq<Event>, id: string, limit: nat)
    decreases |events|
  {
    events == [] || (!EmitsUpTo(w, events[0], id, limit) && OnlyAbove(Next(w, events[0]), events[1..], id, limit))
  }

  /** A snapshot numbered up to `limit` was emitted and nothing cleared since; `before` if neither was. */
  predicate EmittedSinceClear(w: World, events: seq<Event>, id: string, limit: nat, before: bool)
    decreases |events|
  {
    if events == [] then before
    else
      EmittedSinceClear(Next(w, events[0]), events[1..], id, limit,
                        !events[0].ClearAll? && (before || EmitsUpTo(w, events[0], id, limit)))
  }

  /** Nobody resumes and no page is bound. */
  predicate StaysPaused(events: seq<Event>)
  {
    forall i :: 0 <= i < |events| ==> !events[i].ResumeUi? && !events[i].BindPage?
  }

  lemma {:induction false} RunConcat(w: World, a: seq<Event>, b: seq<Event>)
    ensures Run(w, a + b) == Run(Run(w, a), b)
    ensures AllAllowed(w, a + b) <==> AllAllowed(w, a) && AllAllowed(Run(w, a), b)
    decreases |a|
  {
    if a == [] {
      assert a + b == b;
    } else {
      assert (a + b)[1..] == a[1..] + b;
      RunConcat(Next(w, a[0]), a[1..], b);
    }
  }

  /** The stream's own record of it is the highest number emitted to a page. */
  lemma {:induction false} LastSeqIsHighest(w: World, events: seq<Event>)
    ensures Run(w, events).stream.lastSeq == Max(w.stream.lastSeq, Highest(w, events))
    decreases |events|
  {
    if events != [] { LastSeqIsHighest(Next(w, events[0]), events[1..]); }
  }

  /* --------------------------- what a pause notes ----------------------- */

  lemma {:induction false} NotedSince(w: World, events: seq<Event>, id: string)
    requires w.stream.bound && w.stream.paused.Some? && StaysPaused(events)
    ensures var p, q := w.stream.paused.value, Run(w, events).stream.paused;
            && Run(w, events).stream.bound && q.Some? && q.value.throughSeq == p.throughSeq
            && (id in q.value.changed <==> EmittedSinceClear(w, events, id, p.throughSeq, id in p.changed))
    decreases |events|
  {
    if events != [] {
      assert !events[0].ResumeUi? && !events[0].BindPage?;
      NotedSince(Next(w, events[0]), events[1..], id);
    }
  }

  /**
   * What a pause notes, by history alone: exactly the flows of which a snapshot was emitted
   * since, none of it cleared, numbered no higher than everything emitted to a page before.
   */
  lemma NotesByHistory(before: seq<Event>, during: seq<Event>, id: string)
    requires Emitting(Run(START, before).stream) && StaysPaused(during)
    ensures var w := Next(Run(START, before), PauseUi);
            var p := Run(w, during).stream.paused;
            p.Some? && (id in p.value.changed <==> EmittedSinceClear(w, during, id, Highest(START, before), false))
  {
    LastSeqIsHighest(START, before);
    NotedSince(Next(Run(START, before), PauseUi), during, id);
  }



  /** And what a resume queues: what was queued, and of what is noted all that is retained. */
  lemma ResumeQueues(before: seq<Event>, during: seq<Event>, id: string)
    requires AllAllowed(START, before + [PauseUi] + during)
    requires Emitting(Run(START, before).stream) && StaysPaused(during)
    ensures var w := Next(Run(START, before), PauseUi);
            var v := Run(w, during);
            id in Ids(Next(v, ResumeUi).stream.flows) <==>
            || id in Ids(v.stream.flows)
            || (id in v.store && EmittedSinceClear(w, during, id, Highest(START, before), false))
  {
    var w := Next(Run(START, before), PauseUi);
    var v := Run(w, during);
    RunConcat(START, before + [PauseUi], during);
    RunConcat(START, before, [PauseUi]);
    assert [PauseUi][1..] == [] && Run(Run(START, before), [PauseUi]) == w;
    assert Inv(START);
    RunKeeps(START, before + [PauseUi] + during);
    NotesByHistory(before, during, id);
    QueueCurrentIds(v.stream.flows, v.stream.paused.value.changed, v.store);
  }

  /** Notes are in the order of first change, each flow once; only a clear takes any away. */
  lemma {:induction false} NotesInOrder(w: World, events: seq<Event>)
    requires w.stream.paused.Some? && StaysPaused(events) && OnceEach(w.stream.paused.value.changed)
    ensures var p, q := w.stream.paused.value, Run(w, events).stream.paused;
            && q.Some? && OnceEach(q.value.changed)
            && ((forall i :: 0 <= i < |events| ==> !events[i].ClearAll?) ==> p.changed <= q.value.changed)
    decreases |events|
  {
    if events != [] {
      assert !events[0].ResumeUi? && !events[0].BindPage?;
      NotesInOrder(Next(w, events[0]), events[1..]);
      if forall i :: 0 <= i < |events| ==> !events[i].ClearAll? {
        assert !events[0].ClearAll? && forall i :: 0 <= i < |events[1..]| ==> events[1..][i] == events[i + 1];
      }
    }
  }

  predicate OnceEach(ids: seq<string>) { forall i, j :: 0 <= i < j < |ids| ==> ids[i] != ids[j] }

  /** The current state of those that are retained, in the order noted. */
  function Current(ids: seq<string>, store: map<string, Flow>): seq<Flow>
  {
    if ids == [] then []
    else (if ids[0] in store then [WithoutBytes(store[ids[0]])] else []) + Current(ids[1..], store)
  }

  /** And in that order a resume puts them behind what is queued, if none of them is. */
  lemma {:induction false} ResumeInOrder(q: seq<Flow>, ids: seq<string>, store: map<string, Flow>)
    requires Keyed(store) && OnceEach(ids) && Ids(q) !! set id | id in ids
    ensures QueueCurrent(q, ids, store) == q + Current(ids, store)
    decreases |ids|
  {
    if ids == [] {
      assert q + [] == q;
    } else {
      var rest := ids[1..];
      assert ids[0] in ids && forall k :: 0 <= k < |rest| ==> rest[k] == ids[k + 1];
      var head := if ids[0] in store then [WithoutBytes(store[ids[0]])] else [];
      HasIds(q, ids[0]);
      if ids[0] in store { UpsertIds(q, WithoutBytes(store[ids[0]])); }
      assert q + head == if ids[0] in store then Upsert(q, WithoutBytes(store[ids[0]])) else q;
      ResumeInOrder(q + head, rest, store);
      assert q + head + Current(rest, store) == q + (head + Current(rest, store));
    }
  }

  /* ------------------------------ left out ------------------------------ */

  /** The flow is not queued, not noted, and was not sent to the page. */
  predicate Unsent(s: Stream, id: string)
  {
    && id !in Ids(s.flows) && id !in Ids(AllFlows(s.outbox))
    && (s.paused.Some? ==> id !in s.paused.value.changed)
  }

  lemma FlushUnsent(s: Stream, id: string)
    requires Unsent(s, id)
    ensures Unsent(Flush(s), id)
  {
    var t := Flush(s);
    if t != s {
      var ms := t.outbox[|s.outbox|..];
      var k := Frames.Fill(Utf8, s.ws, MAX_WS_BYTES_PER_TICK);
      assert ms == Messages(s.flows, s.ws[..k], s.dropped) && t.outbox == s.outbox + ms;
      MessagesWhole(s.flows, s.ws[..k], s.dropped);
      AllFlowsAppend(s.outbox, ms);
      IdsSplit(AllFlows(s.outbox), s.flows);
    }
  }

  /** Late to a pause: emitted during it, numbered above all that was before. */
  predicate Late(w: World, e: Event, id: string)
  {
    Emits(w, e, id) ==> w.stream.paused.Some? && Emitted(w, e).value.number > w.stream.paused.value.throughSeq
  }

  lemma StepUnsent(w: World, e: Event, id: string)
    requires Keyed(w.store) && Allowed(w, e) && Unsent(w.stream, id) && Late(w, e, id)
    ensures Keyed(Next(w, e).store) && Unsent(Next(w, e).stream, id)
  {
    match e {
      case Insert(f, _) => UpsertIds(w.stream.flows, WithoutBytes(f));
      case Update(k, f) => UpsertIds(w.stream.flows, WithoutBytes(f));
      case FlushTick => FlushUnsent(w.stream, id);
      case ResumeUi =>
        if w.stream.paused.Some? { QueueCurrentIds(w.stream.flows, w.stream.paused.value.changed, w.store); }
      case _ =>
    }
  }

  /** While it is emitted by nobody, a flow that was not sent is not. */
  lemma {:induction false} NotEmittedNotSent(w: World, events: seq<Event>, id: string)
    requires Keyed(w.store) && AllAllowed(w, events) && Unsent(w.stream, id) && NeverEmitted(w, events, id)
    ensures Keyed(Run(w, events).store) && Unsent(Run(w, events).stream, id)
    decreases |events|
  {
    if events != [] {
      StepUnsent(w, events[0], id);
      NotEmittedNotSent(Next(w, events[0]), events[1..], id);
    }
  }

  lemma {:induction false} LateNotSent(w: World, events: seq<Event>, id: string)
    requires Keyed(w.store) && AllAllowed(w, events) && Unsent(w.stream, id)
    requires w.stream.bound && w.stream.paused.Some? && StaysPaused(events)
    requires OnlyAbove(w, events, id, w.stream.paused.value.throughSeq)
    ensures Keyed(Run(w, events).store) && Unsent(Run(w, events).stream, id)
    decreases |events|
  {
    if events != [] {
      assert !events[0].ResumeUi? && !events[0].BindPage?;
      StepUnsent(w, events[0], id);
      LateNotSent(Next(w, events[0]), events[1..], id);
    }
  }

  /**
   * A flow that starts while the page is paused is left out: emitted by nobody before the
   * pause, and during it only numbered above everything emitted before, it is neither
   * queued, noted nor sent, then or after the resume, until somebody emits it again.
   */
  lemma StartedWhilePaused(before: seq<Event>, during: seq<Event>, more: seq<Event>, id: string)
    requires AllAllowed(START, before + ([PauseUi] + (during + more)))
    requires Emitting(Run(START, before).stream) && StaysPaused(during)
    requires NeverEmitted(START, before, id)
    requires var w := Next(Run(START, before), PauseUi);
             && OnlyAbove(w, during, id, Highest(START, before))
             && NeverEmitted(Run(w, during), more, id)
    ensures Unsent(Run(START, before + ([PauseUi] + (during + more))).stream, id)
  {
    var w := Next(Run(START, before), PauseUi);
    RunConcat(START, before, [PauseUi] + (during + more));
    RunConcat(Run(START, before), [PauseUi], during + more);
    RunConcat(w, during, more);
    assert [PauseUi][1..] == [] && Run(Run(START, before), [PauseUi]) == w;
    LastSeqIsHighest(START, before);
    NotEmittedNotSent(START, before, id);
    LateNotSent(w, during, id);
    NotEmittedNotSent(Run(w, during), more, id);
  }

  /* --------------------------- a page that is live ----------------------- */

  /** Nobody pauses, clears or binds another page. */
  predicate StaysLive(events: seq<Event>)
  {
    forall i :: 0 <= i < |events| ==> !events[i].PauseUi? && !events[i].ClearAll? && !events[i].BindPage?
  }

  /** Some event emits a snapshot of this flow. */
  predicate SomeEmits(w: World, events: seq<Event>, id: string)
    decreases |events|
  {
    events != [] && (Emits(w, events[0], id) || SomeEmits(Next(w, events[0]), events[1..], id))
  }

  lemma {:induction false} EmittedIsShown(w: World, events: seq<Event>, id: string)
    requires Emitting(w.stream) && StaysLive(events) && AllAllowed(w, events)
    ensures var v := Run(w, events);
            && Emitting(v.stream)
            && ((id in w.store ==> id in w.shown) || SomeEmits(w, events, id) ==> (id in v.store ==> id in v.shown))
    decreases |events|
  {
    if events != [] {
      assert !events[0].PauseUi? && !events[0].ClearAll? && !events[0].BindPage?;
      EmittedIsShown(Next(w, events[0]), events[1..], id);
    }
  }

  /**
   * A page that was just bound, or that just resumed, is sent what is emitted next: from
   * then on, until a pause, a clear or another page, every flow emitted and retained is, by
   * the next flush, with the page as the store has it.
   */
  lemma LivePageIsSent(before: seq<Event>, e: Event, live: seq<Event>, id: string)
    requires AllAllowed(START, before + ([e] + live)) && StaysLive(live)
    requires e.BindPage? || (e.ResumeUi? && Run(START, before).stream.bound)
    requires SomeEmits(Next(Run(START, before), e), live, id)
    ensures var v := Run(START, before + ([e] + live));
            id in v.store ==> Delivered(Flush(v.stream), id) == Some(WithoutBytes(v.store[id]))
  {
    var w := Next(Run(START, before), e);
    RunConcat(START, before, [e] + live);
    RunConcat(Run(START, before), [e], live);
    assert [e][1..] == [] && Run(Run(START, before), [e]) == w;
    EmittedIsShown(w, live, id);
    var v := Run(START, before + ([e] + live));
    if id in v.store {
      assert Inv(START);
      RunKeeps(START, before + ([e] + live));
      assert Tracked(v, id);
      FlushDelivers(v.stream, id);
    }
  }

  /** A new page was sent nothing, and no old pause is resumed for it. */
  lemma NewPageOwesNothing(before: seq<Event>, more: seq<Event>, id: string)
    requires AllAllowed(START, before + ([BindPage] + more)) && id !in Ids(Run(START, before).stream.flows)
    requires NeverEmitted(Next(Run(START, before), BindPage), more, id)
    ensures Unsent(Run(START, before + ([BindPage] + more)).stream, id)
  {
    var w := Next(Run(START, before), BindPage);
    RunConcat(START, before, [BindPage] + more);
    RunConcat(Run(START, before), [BindPage], more);
    assert [BindPage][1..] == [] && Run(Run(START, before), [BindPage]) == w;
    assert Inv(START);
    RunKeeps(START, before);
    NotEmittedNotSent(w, more, id);
  }

  /** Before any page is bound, nothing is queued and no number counts. */
  lemma {:induction false} NothingBeforeAPage(w: World, events: seq<Event>)
    requires !w.stream.bound && w.stream.flows == [] && w.stream.outbox == [] && w.stream.lastSeq == 0
    requires w.stream.paused.Some? ==> w.stream.paused.value.changed == []
    requires forall i :: 0 <= i < |events| ==> !events[i].BindPage?
    ensures var s := Run(w, events).stream;
            && !s.bound && s.flows == [] && s.outbox == [] && s.lastSeq == 0
            && (s.paused.Some? ==> s.paused.value.changed == [])
    decreases |events|
  {
    if events != [] {
      assert !events[0].BindPage?;
      NothingBeforeAPage(Next(w, events[0]), events[1..]);
    }
  }
}
