/**
 * Holding a request until the user decides (crates/nova-core/src/breakpoint.rs). Each
 * paused request awaits a one-shot channel; here a waiter is the number of its channel.
 */
module Breakpoints {
  import opened Proto

  datatype Decision = Continue(headers: seq<Header>) | Abort

  const RELEASED := Continue([])

  /** What let a waiter go. */
  datatype Cause = Resumed(id: string) | Disarmed | Displaced(newer: nat)

  /** One decision delivered to one waiter. */
  datatype Delivery = Delivery(waiter: nat, decision: Decision, cause: Cause)

  /** The breakpoints as a value: `ids[w]` is what waiter `w` registered under. */
  datatype State = State(armed: bool, pattern: string, pending: map<string, nat>, ids: seq<string>, log: seq<Delivery>)

  const START := State(false, "*", map[], [], [])

  /** White space as the Unicode property has it. */
  predicate WhiteSpace(c: char)
  {
    var n := c as int;
    || 0x09 <= n <= 0x0D || n == 0x20 || n == 0x85 || n == 0xA0 || n == 0x1680
    || 0x2000 <= n <= 0x200A || n == 0x2028 || n == 0x2029 || n == 0x202F || n == 0x205F || n == 0x3000
  }

  predicate IsBlank(s: string)
  {
    forall i :: 0 <= i < |s| ==> WhiteSpace(s[i])
  }

  /** The pattern without the white space around it. */
  function Trim(s: string): string
    decreases |s|
  {
    if s != "" && WhiteSpace(s[0]) then Trim(s[1..])
    else if s != "" && WhiteSpace(s[|s| - 1]) then Trim(s[..|s| - 1])
    else s
  }

  lemma {:induction false} BlankIff(s: string)
    ensures IsBlank(s) <==> Trim(s) == ""
    decreases |s|
  {
    if s != "" && WhiteSpace(s[0]) {
      BlankIff(s[1..]);
      assert forall i :: 1 <= i < |s| ==> s[i] == s[1..][i - 1];
    } else if s != "" && WhiteSpace(s[|s| - 1]) {
      BlankIff(s[..|s| - 1]);
    }
  }

  function Arm(s: State, pattern: string): State
  {
    s.(armed := true, pattern := if IsBlank(pattern) then "*" else pattern)
  }

  /** A pause that registers an id already held drops the older channel. */
  function Register(s: State, id: string): State
  {
    var w := |s.ids|;
    s.(armed := false, pending := s.pending[id := w], ids := s.ids + [id],
       log := if id in s.pending then s.log + [Delivery(s.pending[id], RELEASED, Displaced(w))] else s.log)
  }

  function Resume(s: State, id: string, d: Decision): State
  {
    if id in s.pending then
      s.(pending := s.pending - {id}, log := s.log + [Delivery(s.pending[id], d, Resumed(id))])
    else s
  }

  function Decided(s: State, w: nat): bool
  {
    exists i :: 0 <= i < |s.log| && s.log[i].waiter == w
  }

  /** The waiter still owns the channel stored under its id. */
  predicate Waiting(s: State, w: nat)
    requires w < |s.ids|
  {
    s.ids[w] in s.pending && s.pending[s.ids[w]] == w
  }

  /** A delivery is one the code makes: a resume for its id, or a plain release. */
  predicate Legitimate(s: State, d: Delivery)
  {
    && d.waiter < |s.ids|
    && match d.cause
       case Resumed(id) => id == s.ids[d.waiter]
       case Disarmed => d.decision == RELEASED
       case Displaced(newer) => d.decision == RELEASED && d.waiter < newer < |s.ids| && s.ids[newer] == s.ids[d.waiter]
  }

  /**
   * Each waiter either still owns its channel or has received a decision, never both,
   * and never two; and every decision is a legitimate one.
   */
  ghost predicate Handoff(s: State)
  {
    && (forall id :: id in s.pending ==> s.pending[id] < |s.ids| && s.ids[s.pending[id]] == id)
    && (forall w :: 0 <= w < |s.ids| ==> (Waiting(s, w) <==> !Decided(s, w)))
    && (forall i, j :: 0 <= i < j < |s.log| ==> s.log[i].waiter != s.log[j].waiter)
    && (forall i :: 0 <= i < |s.log| ==> Legitimate(s, s.log[i]))
  }

  /** Delivering to the channel under an id, and taking it out of the map. */
  function Deliver(s: State, id: string, d: Decision, cause: Cause): State
    requires id in s.pending
  {
    s.(pending := s.pending - {id}, log := s.log + [Delivery(s.pending[id], d, cause)])
  }

  lemma DecidedAfter(s: State, more: Delivery, w: nat)
    ensures Decided(s.(log := s.log + [more]), w) <==> Decided(s, w) || w == more.waiter
  {
    var t := s.(log := s.log + [more]);
    if Decided(s, w) {
      var i :| 0 <= i < |s.log| && s.log[i].waiter == w;
      assert t.log[i].waiter == w;
    }
    if w == more.waiter { assert t.log[|s.log|].waiter == w; }
  }

  lemma DeliverKeeps(s: State, id: string, d: Decision, cause: Cause)
    requires Handoff(s) && id in s.pending
    requires cause == Resumed(id) || (cause == Disarmed && d == RELEASED)
    ensures Handoff(Deliver(s, id, d, cause))
  {
    var t := Deliver(s, id, d, cause);
    var w := s.pending[id];
    assert Waiting(s, w);
    forall v | 0 <= v < |t.ids| ensures Waiting(t, v) <==> !Decided(t, v) {
      DecidedAfter(s.(pending := t.pending), Delivery(w, d, cause), v);
      assert Decided(s.(pending := t.pending), v) <==> Decided(s, v);
      if v != w && s.ids[v] == id { assert !Waiting(s, v); }
    }
    forall i | 0 <= i < |s.log| ensures s.log[i].waiter != w { assert !Decided(s, w); }
    forall i | 0 <= i < |t.log| ensures Legitimate(t, t.log[i]) {
      if i < |s.log| { assert Legitimate(s, s.log[i]); }
    }
  }

  lemma RegisterKeeps(s: State, id: string)
    requires Handoff(s)
    ensures Handoff(Register(s, id)) && Waiting(Register(s, id), |s.ids|)
  {
    var t := Register(s, id);
    var w := |s.ids|;
    forall k | 0 <= k < |s.log| ensures s.log[k].waiter < w && Legitimate(t, s.log[k]) {
      assert Legitimate(s, s.log[k]);
    }
    if id in s.pending {
      var older := s.pending[id];
      assert Waiting(s, older);
      forall i | 0 <= i < |s.log| ensures s.log[i].waiter != older { assert !Decided(s, older); }
      assert t.ids[w] == id && t.ids[older] == id;
    }
    forall v | 0 <= v < |t.ids| ensures Waiting(t, v) <==> !Decided(t, v) {
      RegisterWaiter(s, id, v);
    }
  }

  lemma RegisterWaiter(s: State, id: string, v: nat)
    requires Handoff(s) && v <= |s.ids|
    ensures var t := Register(s, id);
            Waiting(t, v) <==> !Decided(t, v)
  {
    var t := Register(s, id);
    var w := |s.ids|;
    if id in s.pending {
      var more := Delivery(s.pending[id], RELEASED, Displaced(w));
      DecidedAfter(t.(log := s.log), more, v);
      assert Waiting(s, s.pending[id]);
    }
    assert Decided(t.(log := s.log), v) <==> Decided(s, v);
    if v < w { assert t.ids[v] == s.ids[v]; }
  }

  /* --------------------------------- runs ------------------------------- */

  /** `ReleaseOne` is one turn of the drain in `disarm`; it may take the ids in any order. */
  datatype Event =
    | ArmIt(glob: string)
    | Pause(id: string)
    | Decide(id: string, decision: Decision)
    | ReleaseOne(id: string)

  function Next(s: State, e: Event): State
  {
    match e
    case ArmIt(glob) => Arm(s, glob)
    case Pause(id) => Register(s, id)
    case Decide(id, d) => Resume(s, id, d)
    case ReleaseOne(id) =>
      if id in s.pending then Deliver(s, id, RELEASED, Disarmed).(armed := false) else s.(armed := false)
  }

  function Run(s: State, events: seq<Event>): State
    decreases |events|
  {
    if events == [] then s else Run(Next(s, events[0]), events[1..])
  }

  /** Arming and disarming a handoff changes nothing about who waits. */
  lemma SwitchKeeps(s: State, armed: bool, pattern: string)
    requires Handoff(s)
    ensures Handoff(s.(armed := armed, pattern := pattern))
  {
    var t := s.(armed := armed, pattern := pattern);
    assert forall w :: Decided(t, w) <==> Decided(s, w);
  }

  lemma {:induction false} RunKeeps(s: State, events: seq<Event>)
    requires Handoff(s)
    ensures Handoff(Run(s, events))
    decreases |events|
  {
    if events != [] {
      var t := Next(s, events[0]);
      match events[0] {
        case ArmIt(glob) => SwitchKeeps(s, t.armed, t.pattern);
        case Pause(id) => RegisterKeeps(s, id);
        case Decide(id, d) => if id in s.pending { DeliverKeeps(s, id, d, Resumed(id)); }
        case ReleaseOne(id) =>
          var u := if id in s.pending then Deliver(s, id, RELEASED, Disarmed) else s;
          if id in s.pending { DeliverKeeps(s, id, RELEASED, Disarmed); }
          SwitchKeeps(u, false, u.pattern);
      }
      RunKeeps(t, events[1..]);
    }
  }

  /**
   * Whatever is armed, paused, resumed and released, in whatever order: a waiter still
   * owns the channel under its id, or has received exactly one decision, from a resume
   * of its own id or as a plain continue.
   */
  lemma ExactlyOneDecision(events: seq<Event>, w: nat)
    requires w < |Run(START, events).ids|
    ensures var s := Run(START, events);
            && (Waiting(s, w) <==> !Decided(s, w))
            && forall i, j :: 0 <= i < |s.log| && 0 <= j < |s.log| && s.log[i].waiter == w == s.log[j].waiter ==>
                 i == j && Legitimate(s, s.log[i])
  {
    assert Handoff(START);
    RunKeeps(START, events);
  }

  /** At the `k`-th event the user decides for an id, and this waiter is the one under it. */
  predicate DecidesFor(events: seq<Event>, k: nat, d: Delivery)
  {
    && k < |events| && d.cause.Resumed? && events[k] == Decide(d.cause.id, d.decision)
    && var s := Run(START, events[..k]); d.cause.id in s.pending && s.pending[d.cause.id] == d.waiter
  }

  lemma {:induction false} RunSnoc(s: State, events: seq<Event>, e: Event)
    ensures Run(s, events + [e]) == Next(Run(s, events), e)
    decreases |events|
  {
    if events == [] {
      assert [] + [e] == [e] && [e][1..] == [];
    } else {
      assert (events + [e])[1..] == events[1..] + [e];
      RunSnoc(Next(s, events[0]), events[1..], e);
    }
  }

  /**
   * A waiter gets a decision of the user's exactly when the user made that one, for the id
   * the waiter was under at that moment.
   */
  lemma {:induction false} DecisionsAreTheUsers(events: seq<Event>, d: Delivery)
    requires d.cause.Resumed?
    ensures d in Run(START, events).log <==> exists k: nat :: DecidesFor(events, k, d)
    decreases |events|
  {
    if events != [] {
      var n := |events| - 1;
      var front := events[..n];
      assert events == front + [events[n]];
      RunSnoc(START, front, events[n]);
      DecisionsAreTheUsers(front, d);
      assert events[..n] == front && forall k: nat :: k < n ==> events[..k] == front[..k];
      assert forall k: nat :: k < n ==> (DecidesFor(events, k, d) <==> DecidesFor(front, k, d));
      assert d in Run(START, events).log <==> d in Run(START, front).log || DecidesFor(events, n, d);
    }
  }

  /* -------------------------- how many are caught ----------------------- */

  /** A whole run: requests that ask whether to stop, and everything else that happens. */
  datatype Moment = Check(url: string) | Do(event: Event)

  /** Whether a request is to be held; `glob` matches a pattern against a URL. */
  predicate ShouldBreak(s: State, glob: (string, string) -> bool, url: string)
  {
    s.armed && glob(s.pattern, url)
  }

  function After(s: State, moments: seq<Moment>): State
    decreases |moments|
  {
    if moments == [] then s else After(if moments[0].Do? then Next(s, moments[0].event) else s, moments[1..])
  }

  /** How many checks are told to stop. */
  function Caught(s: State, glob: (string, string) -> bool, moments: seq<Moment>): nat
    decreases |moments|
  {
    if moments == [] then 0
    else
      match moments[0]
      case Check(url) => (if ShouldBreak(s, glob, url) then 1 else 0) + Caught(s, glob, moments[1..])
      case Do(e) => Caught(Next(s, e), glob, moments[1..])
  }

  /** Matching checks before a pause is registered or the breakpoint disarmed. */
  function BeforeDisarmed(pattern: string, glob: (string, string) -> bool, moments: seq<Moment>): nat
    decreases |moments|
  {
    if moments == [] then 0
    else
      match moments[0]
      case Check(url) => (if glob(pattern, url) then 1 else 0) + BeforeDisarmed(pattern, glob, moments[1..])
      case Do(e) => if e.Pause? || e.ReleaseOne? then 0 else BeforeDisarmed(pattern, glob, moments[1..])
  }

  /** A stretch in which nobody arms. */
  predicate NotArmed(moments: seq<Moment>)
  {
    moments == [] || (!(moments[0].Do? && moments[0].event.ArmIt?) && NotArmed(moments[1..]))
  }

  /** Within a stretch only what checks before the first pause or disarming is caught. */
  lemma {:induction false} CaughtInStretch(s: State, glob: (string, string) -> bool, stretch: seq<Moment>)
    requires NotArmed(stretch)
    ensures Caught(s, glob, stretch) == if s.armed then BeforeDisarmed(s.pattern, glob, stretch) else 0
    decreases |stretch|
  {
    if stretch != [] {
      CaughtInStretch(if stretch[0].Do? then Next(s, stretch[0].event) else s, glob, stretch[1..]);
    }
  }

  lemma {:induction false} CaughtSplits(s: State, glob: (string, string) -> bool, a: seq<Moment>, b: seq<Moment>)
    ensures Caught(s, glob, a + b) == Caught(s, glob, a) + Caught(After(s, a), glob, b)
    ensures After(s, a + b) == After(After(s, a), b)
    decreases |a|
  {
    if a == [] {
      assert a + b == b;
    } else {
      assert (a + b)[1..] == a[1..] + b;
      CaughtSplits(if a[0].Do? then Next(s, a[0].event) else s, glob, a[1..], b);
    }
  }

  /**
   * Arming is one-shot only from the first pause on. In any run, the stretch from one
   * arming to the next catches exactly the matching requests that check before any of
   * them registers its pause or the breakpoint is disarmed; so two are whenever two do.
   */
  lemma CaughtExactly(s: State, glob: (string, string) -> bool, before: seq<Moment>, pattern: string,
                      stretch: seq<Moment>, rest: seq<Moment>)
    requires NotArmed(stretch)
    ensures var armed := before + [Do(ArmIt(pattern))];
            Caught(s, glob, armed + stretch + rest) ==
            Caught(s, glob, before)
            + BeforeDisarmed(if IsBlank(pattern) then "*" else pattern, glob, stretch)
            + Caught(After(s, armed + stretch), glob, rest)
  {
    var arm := [Do(ArmIt(pattern))];
    var armed := before + arm;
    assert arm[1..] == [];
    CaughtSplits(s, glob, armed + stretch, rest);
    CaughtSplits(s, glob, armed, stretch);
    CaughtSplits(s, glob, before, arm);
    CaughtInStretch(After(s, armed), glob, stretch);
  }

  /* ------------------------------ the class ----------------------------- */

  /** `now` only adds plain releases, for a disarm, to what was decided before. */
  ghost predicate ReleasedSince(was: seq<Delivery>, now: seq<Delivery>)
  {
    was <= now && forall i :: |was| <= i < |now| ==> now[i].decision == RELEASED && now[i].cause == Disarmed
  }

  lemma ReleasedAnother(was: seq<Delivery>, now: seq<Delivery>, d: Delivery)
    requires ReleasedSince(was, now) && d.decision == RELEASED && d.cause == Disarmed
    ensures ReleasedSince(was, now + [d])
  {}

  /** With nothing pending, everyone was decided. */
  lemma AllDecided(s: State)
    requires Handoff(s) && s.pending == map[]
    ensures forall w :: 0 <= w < |s.ids| ==> Decided(s, w)
  {
    forall w | 0 <= w < |s.ids| ensures Decided(s, w) { assert !Waiting(s, w); }
  }

  class Breakpoints {
    var armed: bool
    var pattern: string
    var pending: map<string, nat>
    ghost var ids: seq<string>
    ghost var log: seq<Delivery>
    var channels: nat

    ghost function Abs(): State
      reads this
    {
      State(armed, pattern, pending, ids, log)
    }

    ghost predicate Valid()
      reads this
    {
      Handoff(Abs()) && channels == |ids|
    }

    constructor ()
      ensures Valid() && Abs() == START
    {
      armed, pattern, pending, ids, log, channels := false, "*", map[], [], [], 0;
    }

    method ArmFor(glob: string)
      requires Valid()
      modifies this
      ensures Valid() && Abs() == Arm(old(Abs()), glob)
    {
      pattern := if IsBlank(glob) then "*" else glob;
      armed := true;
      assert forall w :: Decided(Abs(), w) <==> Decided(old(Abs()), w);
    }

    /** Send to the channel under an id and forget it. */
    method Send(id: string, d: Decision, ghost cause: Cause)
      requires Valid() && id in pending
      requires cause == Resumed(id) || (cause == Cause.Disarmed && d == RELEASED)
      modifies this`pending, this`log
      ensures Valid() && Abs() == Deliver(old(Abs()), id, d, cause)
    {
      DeliverKeeps(Abs(), id, d, cause);
      log := log + [Delivery(pending[id], d, cause)];
      pending := pending - {id};
    }

    /**
     * Disarm and release everything paused: nothing is pending right after, each waiter
     * that was gets a plain continue, and nobody else gets anything.
     */
    method Disarm()
      requires Valid()
      modifies this
      ensures Valid() && !armed && pending == map[] && ids == old(ids) && pattern == old(pattern)
      ensures |log| == |old(log)| + |old(pending)|
      ensures ReleasedSince(old(log), log)
      ensures forall w :: 0 <= w < |ids| ==> Decided(Abs(), w)
    {
      SwitchKeeps(Abs(), false, pattern);
      armed := false;
      while pending != map[]
        invariant Valid() && !armed && ids == old(ids) && pattern == old(pattern)
        invariant |log| + |pending| == |old(log)| + |old(pending)|
        invariant ReleasedSince(old(log), log)
        decreases |pending|
      {
        var id :| id in pending;
        ReleasedAnother(old(log), log, Delivery(pending[id], RELEASED, Cause.Disarmed));
        Send(id, RELEASED, Cause.Disarmed);
      }
      AllDecided(Abs());
    }

    method ResumeRequest(id: string, d: Decision)
      requires Valid()
      modifies this
      ensures Valid() && Abs() == Resume(old(Abs()), id, d)
    {
      if id in pending { Send(id, d, Cause.Resumed(id)); }
    }

    /** The part of `wait` before the await: register, and disarm so one request is caught. */
    method RegisterPause(id: string) returns (waiter: nat)
      requires Valid()
      modifies this
      ensures Valid() && Abs() == Register(old(Abs()), id)
      ensures waiter == old(channels) && Waiting(Abs(), waiter)
    {
      RegisterKeeps(Abs(), id);
      waiter := channels;
      if id in pending { log := log + [Delivery(pending[id], RELEASED, Displaced(waiter))]; }
      pending := pending[id := waiter];
      ids := ids + [id];
      channels := channels + 1;
      armed := false;
    }
  }
}
