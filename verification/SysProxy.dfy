/**
 * Turning the system proxy on and off so that a crash at any point stays recoverable:
 * snapshot, persist, change, put back, delete (src-tauri/src/commands.rs, lib.rs).
 */
module SysProxy {
  /** The machine's proxy settings, as one value. */
  type Settings = string

  /** The backup file: absent, unreadable (a write cut short), or a snapshot. */
  datatype Backup = Missing | Torn | Snapshot(settings: Settings)

  /** `user`: what the settings were before NovaProxy touched them. */
  datatype Machine = Machine(os: Settings, user: Settings, backup: Backup, systemProxy: bool, pendingRestore: bool)

  datatype Outcome = Done | Failed | Crashed

  datatype Result = Result(machine: Machine, outcome: Outcome)

  /** One call into the system: it works, fails, or the process dies in it. */
  datatype Call = Works | Fails | Dies

  /** Writing the backup: a failure or death may leave the file cut short. */
  datatype Write = Written | WriteFails(torn: bool) | DiesWriting(torn: bool) | DiesWritten

  /** Deleting the backup: a failure is ignored by the code. */
  datatype Remove = Removed | NotRemoved | DiesFirst

  /**
   * How one operation's effects go. `readable`: the backup file, if there is one, can be
   * read this time. `left`: what a failed or fatal change leaves behind.
   */
  datatype Fate = Fate(
    engine: bool, readable: bool, snapshot: Call, write: Write,
    apply: Call, left: Settings, proxied: Settings, remove: Remove)

  /** What a new process finds: the settings and the file survive, memory does not. */
  function Restarted(m: Machine): Machine
  {
    m.(systemProxy := false, pendingRestore := false)
  }

  /** The backup as reading it finds it: `Snapshot` only if it can be read and parsed. */
  function Seen(m: Machine, fate: Fate): Backup
  {
    if m.backup.Snapshot? && !fate.readable then Torn else m.backup
  }

  function Cut(m: Machine, torn: bool): Machine
  {
    if torn then m.(backup := Torn) else m
  }

  /** Point the machine at NovaProxy, once a snapshot is safely on disk. */
  function Apply(m: Machine, fate: Fate): Result
  {
    match fate.apply
    case Works => Result(m.(os := fate.proxied, systemProxy := true, pendingRestore := false), Done)
    case Fails => Result(m.(os := fate.left), Failed)
    case Dies => Result(Restarted(m.(os := fate.left)), Crashed)
  }

  function Enable(m: Machine, fate: Fate): Result
  {
    if !fate.engine then Result(m, Failed)
    else if Seen(m, fate).Snapshot? then Apply(m, fate)
    else
      match fate.snapshot
      case Fails => Result(m, Failed)
      case Dies => Result(Restarted(m), Crashed)
      case Works =>
        match fate.write
        case WriteFails(torn) => Result(Cut(m, torn), Failed)
        case DiesWriting(torn) => Result(Restarted(Cut(m, torn)), Crashed)
        case DiesWritten => Result(Restarted(m.(backup := Snapshot(m.os))), Crashed)
        case Written => Apply(m.(backup := Snapshot(m.os)), fate)
  }

  /** Drop the backup, ignoring a failure, and then settle memory. */
  function DropBackup(m: Machine, fate: Fate, settled: Machine -> Machine): Result
  {
    match fate.remove
    case DiesFirst => Result(Restarted(m), Crashed)
    case NotRemoved => Result(settled(m), Done)
    case Removed => Result(settled(m.(backup := Missing)), Done)
  }

  /** Put a snapshot back, then drop it. */
  function PutBack(m: Machine, s: Settings, fate: Fate, settled: Machine -> Machine): Result
  {
    match fate.apply
    case Fails => Result(m.(os := fate.left), Failed)
    case Dies => Result(Restarted(m.(os := fate.left)), Crashed)
    case Works => DropBackup(m.(os := s), fate, settled)
  }

  function Off(m: Machine): Machine { m.(systemProxy := false, pendingRestore := false) }

  function NotPending(m: Machine): Machine { m.(pendingRestore := false) }

  function Disable(m: Machine, fate: Fate): Result
  {
    match Seen(m, fate)
    case Snapshot(s) => PutBack(m, s, fate, Off)
    case _ => DropBackup(m, fate, Off)
  }

  function RestoreFromBackup(m: Machine, fate: Fate): Result
  {
    match Seen(m, fate)
    case Missing => Result(NotPending(m), Done)
    case Torn => Result(m, Failed)
    case Snapshot(s) => PutBack(m, s, fate, NotPending)
  }

  /** The `restore_system_proxy` command. */
  function Restore(m: Machine, fate: Fate): Result
  {
    var r := RestoreFromBackup(m, fate);
    if r.outcome.Done? then r.(machine := r.machine.(systemProxy := false)) else r
  }

  /** At quit: restore if that needs no prompt, and then the process is gone. */
  function Quit(m: Machine, silent: bool, fate: Fate): Machine
  {
    Restarted(if m.backup.Missing? || !silent then m else RestoreFromBackup(m, fate).machine)
  }

  /** At launch: a leftover backup is restored if that is silent, else left pending. */
  function Launch(m: Machine, silent: bool, fate: Fate): Machine
  {
    var start := Restarted(m);
    if start.backup.Missing? then start
    else if !silent then start.(pendingRestore := true)
    else
      var r := RestoreFromBackup(start, fate);
      if r.outcome.Failed? then r.machine.(pendingRestore := true) else r.machine
  }

  /* -------------------------------- safety ------------------------------ */

  /**
   * A snapshot on disk is the user's own settings, and whenever the machine's differ
   * from those, it is there.
   */
  predicate Safe(m: Machine)
  {
    && (m.backup.Snapshot? ==> m.backup.settings == m.user)
    && (m.os != m.user ==> m.backup == Snapshot(m.user))
  }

  datatype Event =
    | DoEnable(fate: Fate)
    | DoDisable(fate: Fate)
    | DoRestore(fate: Fate)
    | DoQuit(silent: bool, fate: Fate)
    | DoLaunch(silent: bool, fate: Fate)
    | UserEdits(settings: Settings)

  function Next(m: Machine, e: Event): Machine
  {
    match e
    case DoEnable(fate) => Enable(m, fate).machine
    case DoDisable(fate) => Disable(m, fate).machine
    case DoRestore(fate) => Restore(m, fate).machine
    case DoQuit(silent, fate) => Quit(m, silent, fate)
    case DoLaunch(silent, fate) => Launch(m, silent, fate)
    case UserEdits(s) => m.(os := s, user := s)
  }

  /**
   * The user may change the settings while no snapshot of them is kept, and while the
   * machine is changed a toggle can read its backup.
   */
  predicate Allowed(m: Machine, e: Event)
  {
    match e
    case UserEdits(_) => !m.backup.Snapshot?
    case DoEnable(fate) => Readable(m, fate)
    case DoDisable(fate) => Readable(m, fate)
    case _ => true
  }

  predicate Readable(m: Machine, fate: Fate) { fate.readable || m.os == m.user }

  /** An edit keeps the machine safe exactly when no snapshot outlives it. */
  lemma EditSafeIff(m: Machine, s: Settings)
    requires Safe(m)
    ensures Safe(Next(m, UserEdits(s))) <==> (!m.backup.Snapshot? || s == m.user)
  {}

  /**
   * Exactly when turning the proxy on or off is safe whatever else goes wrong: when the
   * backup can be read, or the machine is as the user had it. A backup that is there but
   * cannot be read is taken for none, so turning off deletes it with nothing put back.
   */
  lemma ToggleSafeIff(m: Machine, readable: bool)
    requires Safe(m)
    ensures (forall fate: Fate :: fate.readable == readable ==>
               Safe(Enable(m, fate).machine) && Safe(Disable(m, fate).machine))
       <==> (readable || m.os == m.user)
  {
    if readable || m.os == m.user {
      forall fate: Fate | fate.readable == readable
        ensures Safe(Enable(m, fate).machine) && Safe(Disable(m, fate).machine) {
        EnableSafe(m, fate);
        DisableSafe(m, fate);
      }
    } else {
      UnreadableUnsafe(m);
    }
  }

  lemma EnableSafe(m: Machine, fate: Fate)
    requires Safe(m) && Readable(m, fate)
    ensures Safe(Enable(m, fate).machine) && Enable(m, fate).machine.user == m.user
  {}

  lemma DisableSafe(m: Machine, fate: Fate)
    requires Safe(m) && Readable(m, fate)
    ensures Safe(Disable(m, fate).machine) && Disable(m, fate).machine.user == m.user
  {}

  lemma RestoreSafe(m: Machine, fate: Fate)
    requires Safe(m)
    ensures Safe(RestoreFromBackup(m, fate).machine) && RestoreFromBackup(m, fate).machine.user == m.user
  {}

  /** Turning off with nothing else going wrong is what loses the settings. */
  lemma UnreadableUnsafe(m: Machine)
    requires m.os != m.user
    ensures exists fate: Fate :: !fate.readable && !Safe(Disable(m, fate).machine)
  {
    var fate := Fate(true, false, Works, Written, Works, m.os, m.os, Removed);
    assert !Safe(Disable(m, fate).machine);
  }

  lemma StepSafe(m: Machine, e: Event)
    requires Safe(m) && Allowed(m, e)
    ensures Safe(Next(m, e))
    ensures !e.UserEdits? ==> Next(m, e).user == m.user
  {
    match e {
      case DoEnable(fate) => EnableSafe(m, fate);
      case DoDisable(fate) => DisableSafe(m, fate);
      case DoRestore(fate) => RestoreSafe(m, fate);
      case DoQuit(_, fate) => RestoreSafe(m, fate);
      case DoLaunch(_, fate) => RestoreSafe(Restarted(m), fate);
      case UserEdits(_) =>
    }
  }

  function Run(m: Machine, events: seq<Event>): Machine
    decreases |events|
  {
    if events == [] then m else Run(Next(m, events[0]), events[1..])
  }

  predicate AllAllowed(m: Machine, events: seq<Event>)
    decreases |events|
  {
    events == [] || (Allowed(m, events[0]) && AllAllowed(Next(m, events[0]), events[1..]))
  }

  /**
   * After any run of enables, disables, restores, quits and launches, with each effect
   * working, failing or killing the process: the user's settings are in force, or the
   * file on disk is exactly them.
   */
  lemma {:induction false} RunSafe(m: Machine, events: seq<Event>)
    requires Safe(m) && AllAllowed(m, events)
    ensures Safe(Run(m, events))
    decreases |events|
  {
    if events != [] {
      StepSafe(m, events[0]);
      RunSafe(Next(m, events[0]), events[1..]);
    }
  }

  /** From any such state, turning the proxy off or restoring puts the user's settings back. */
  lemma CompletedMeansRestored(m: Machine, events: seq<Event>, fate: Fate)
    requires m.os == m.user && m.backup == Missing && AllAllowed(m, events)
    ensures var w := Run(m, events);
            && (Readable(w, fate) && Disable(w, fate).outcome.Done? ==> Disable(w, fate).machine.os == w.user)
            && (Restore(w, fate).outcome.Done? ==> Restore(w, fate).machine.os == w.user)
            && (fate.apply.Works? && !fate.remove.DiesFirst? ==> Disable(w, fate).outcome.Done?)
  {
    RunSafe(m, events);
  }

  /** The snapshot that is owed once the proxy is on: the one that was, or of what was found. */
  function Kept(backup: Backup, os: Settings, fate: Fate): Backup
  {
    if backup.Snapshot? && fate.readable then backup else Snapshot(os)
  }

  /**
   * Turning the proxy on completes exactly when the engine runs, a snapshot of the settings
   * is on disk or gets there, and the change works; and then the machine is pointed at
   * NovaProxy, the flag says so, and the snapshot is the one owed or of the settings found.
   */
  lemma CompletedMeansOn(m: Machine, fate: Fate)
    ensures Enable(m, fate).outcome.Done? <==>
      && fate.engine && fate.apply.Works?
      && ((m.backup.Snapshot? && fate.readable) || (fate.snapshot.Works? && fate.write.Written?))
    ensures Enable(m, fate).outcome.Done? ==>
      var v := Enable(m, fate).machine;
      && v.os == fate.proxied && v.systemProxy && !v.pendingRestore
      && v.backup == Kept(m.backup, m.os, fate)
  {}

  /** Whenever the flag is up, in any run, there is a backup to turn the proxy off by. */
  lemma {:induction false} FlagMeansBackup(m: Machine, events: seq<Event>)
    requires AllAllowed(m, events) && (m.systemProxy ==> !m.backup.Missing?)
    ensures Run(m, events).systemProxy ==> !Run(m, events).backup.Missing?
    decreases |events|
  {
    if events != [] { FlagMeansBackup(Next(m, events[0]), events[1..]); }
  }

  /**
   * Turning it on again keeps the snapshot that is still owed, whatever else goes wrong,
   * if and only if it can be read.
   */
  lemma EnableKeepsSnapshot(m: Machine, readable: bool)
    requires m.backup.Snapshot?
    ensures (forall fate: Fate :: fate.readable == readable ==> Enable(m, fate).machine.backup == m.backup)
       <==> readable
  {
    if !readable {
      var fate := Fate(true, false, Works, WriteFails(true), Works, m.os, m.os, Removed);
      assert Enable(m, fate).machine.backup == Torn;
    }
  }

  /** A backup cut short is only ever left by an enable that changed nothing yet. */
  lemma TornMeansUntouched(m: Machine, events: seq<Event>)
    requires m.os == m.user && m.backup == Missing && AllAllowed(m, events)
    ensures var w := Run(m, events);
            (w.backup.Torn? || w.backup.Missing?) ==> w.os == w.user
  {
    RunSafe(m, events);
  }

  /* ------------------------------ the class ----------------------------- */

  class SystemProxy {
    var os: Settings
    ghost var user: Settings
    var backup: Backup
    var systemProxy: bool
    var pendingRestore: bool

    ghost function Abs(): Machine
      reads this
    {
      Machine(os, user, backup, systemProxy, pendingRestore)
    }

    constructor (settings: Settings)
      ensures Abs() == Machine(settings, settings, Missing, false, false)
    {
      os, user, backup, systemProxy, pendingRestore := settings, settings, Missing, false, false;
    }

    /** The process is gone; what survives is the settings and the file. */
    method Die()
      modifies this`systemProxy, this`pendingRestore
      ensures !systemProxy && !pendingRestore
    {
      systemProxy, pendingRestore := false, false;
    }

    method SetSystemProxy(enable: bool, fate: Fate) returns (outcome: Outcome)
      modifies this
      ensures var r := if enable then Enable(old(Abs()), fate) else Disable(old(Abs()), fate);
              Abs() == r.machine && outcome == r.outcome
      ensures old(Safe(Abs()) && Readable(Abs(), fate)) ==> Safe(Abs()) && (!enable && outcome.Done? ==> os == user)
      ensures outcome.Done? ==> systemProxy == enable && !pendingRestore
      ensures enable && outcome.Done? ==> os == fate.proxied && backup == Kept(old(backup), old(os), fate)
      ensures !enable && outcome.Done? ==> backup.Missing? || fate.remove.NotRemoved?
      ensures outcome.Failed? ==> systemProxy == old(systemProxy) && pendingRestore == old(pendingRestore)
      ensures outcome.Crashed? ==> !systemProxy && !pendingRestore
    {
      if enable { outcome := TurnOn(fate); } else { outcome := TurnOff(fate); }
    }

    /** The branch that snapshots the settings and points the machine at NovaProxy. */
    method TurnOn(fate: Fate) returns (outcome: Outcome)
      modifies this
      ensures Abs() == Enable(old(Abs()), fate).machine && outcome == Enable(old(Abs()), fate).outcome
      ensures old(Safe(Abs()) && Readable(Abs(), fate)) ==> Safe(Abs())
      ensures outcome.Done? ==> os == fate.proxied && systemProxy && !pendingRestore
      ensures outcome.Done? ==> backup == Kept(old(backup), old(os), fate)
      ensures outcome.Failed? ==> systemProxy == old(systemProxy) && pendingRestore == old(pendingRestore)
      ensures outcome.Crashed? ==> !systemProxy && !pendingRestore
    {
      if !fate.engine { return Failed; }
      if !(backup.Snapshot? && fate.readable) {
        if fate.snapshot.Fails? { return Failed; }
        if fate.snapshot.Dies? { Die(); return Crashed; }
        var taken := os;
        match fate.write {
          case WriteFails(torn) =>
            if torn { backup := Torn; }
            return Failed;
          case DiesWriting(torn) =>
            if torn { backup := Torn; }
            Die();
            return Crashed;
          case DiesWritten =>
            backup := Snapshot(taken);
            Die();
            return Crashed;
          case Written =>
            backup := Snapshot(taken);
        }
      }
      if !fate.apply.Works? {
        os := fate.left;
        if fate.apply.Dies? { Die(); return Crashed; }
        return Failed;
      }
      os := fate.proxied;
      systemProxy := true;
      pendingRestore := false;
      return Done;
    }

    /** The branch that puts the snapshot back. */
    method TurnOff(fate: Fate) returns (outcome: Outcome)
      modifies this
      ensures Abs() == Disable(old(Abs()), fate).machine && outcome == Disable(old(Abs()), fate).outcome
      ensures old(Safe(Abs()) && Readable(Abs(), fate)) ==> Safe(Abs()) && (outcome.Done? ==> os == user)
      ensures outcome.Done? ==> !systemProxy && !pendingRestore && (backup.Missing? || fate.remove.NotRemoved?)
      ensures outcome.Failed? ==> systemProxy == old(systemProxy) && pendingRestore == old(pendingRestore)
      ensures outcome.Crashed? ==> !systemProxy && !pendingRestore
    {
      if backup.Snapshot? && fate.readable {
        if !fate.apply.Works? {
          os := fate.left;
          if fate.apply.Dies? { Die(); return Crashed; }
          return Failed;
        }
        os := backup.settings;
      }
      if fate.remove.DiesFirst? { Die(); return Crashed; }
      if fate.remove.Removed? { backup := Missing; }
      systemProxy := false;
      pendingRestore := false;
      return Done;
    }

    method RestoreFrom(fate: Fate) returns (outcome: Outcome)
      modifies this
      ensures var r := RestoreFromBackup(old(Abs()), fate);
              Abs() == r.machine && outcome == r.outcome
      ensures user == old(user)
      ensures old(Safe(Abs())) ==> Safe(Abs()) && (outcome.Done? ==> os == user)
      ensures outcome.Failed? ==> backup == old(backup) && !backup.Missing? && pendingRestore == old(pendingRestore)
      ensures !outcome.Crashed? ==> systemProxy == old(systemProxy)
      ensures outcome.Done? ==> !pendingRestore && (backup.Missing? || fate.remove.NotRemoved?)
    {
      if backup.Missing? {
        pendingRestore := false;
        return Done;
      }
      if backup.Torn? || !fate.readable { return Failed; }
      if !fate.apply.Works? {
        os := fate.left;
        if fate.apply.Dies? { Die(); return Crashed; }
        return Failed;
      }
      os := backup.settings;
      if fate.remove.DiesFirst? { Die(); return Crashed; }
      if fate.remove.Removed? { backup := Missing; }
      pendingRestore := false;
      return Done;
    }

    method RestoreSystemProxy(fate: Fate) returns (outcome: Outcome)
      modifies this
      ensures var r := Restore(old(Abs()), fate);
              Abs() == r.machine && outcome == r.outcome
      ensures old(Safe(Abs())) ==> Safe(Abs()) && (outcome.Done? ==> os == user)
      ensures outcome.Done? ==> !systemProxy && !pendingRestore
      ensures outcome.Failed? ==> systemProxy == old(systemProxy) && pendingRestore == old(pendingRestore)
    {
      outcome := RestoreFrom(fate);
      if outcome.Done? { systemProxy := false; }
    }

    method ReleaseAtQuit(silent: bool, fate: Fate)
      modifies this
      ensures Abs() == Quit(old(Abs()), silent, fate)
      ensures user == old(user) && !systemProxy && !pendingRestore
      ensures !silent ==> os == old(os) && backup == old(backup)
      ensures old(Safe(Abs())) ==> Safe(Abs())
      ensures old(Safe(Abs())) && silent && fate.readable && fate.apply.Works? ==> os == user
    {
      if !backup.Missing? && silent {
        var outcome := RestoreFrom(fate);
      }
      Die();
    }

    method LaunchSafetyNet(silent: bool, fate: Fate)
      modifies this
      ensures Abs() == Launch(old(Abs()), silent, fate)
      ensures user == old(user) && !systemProxy
      ensures old(Safe(Abs())) ==> Safe(Abs())
      ensures pendingRestore ==> !backup.Missing? && backup == old(backup)
      ensures !silent && !old(backup).Missing? ==> pendingRestore && os == old(os)
      ensures old(Safe(Abs())) && os != user ==> pendingRestore || fate.apply.Dies?
    {
      Die();
      if backup.Missing? { return; }
      if !silent {
        pendingRestore := true;
        return;
      }
      var outcome := RestoreFrom(fate);
      if outcome.Failed? { pendingRestore := true; }
    }
  }
}
