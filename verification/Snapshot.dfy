/** One `Dump` under consistency=snapshot as a state machine: exporting and
    adopting the snapshot, starting the writers, rebuilding connections, tearing
    down and cleaning up (`dump.go`, `consistency.go`, `createConnWithConsistency`
    of `sql.go`). The main thread, any number of writers and the server interleave
    freely, and any connection may be lost at any time. Recording the metadata
    cannot fail (`metadata.go`) and is no step. */
module Snapshot {
  import opened Common

  type Token = nat

  /** Where the snapshot comes from: `pg_export_snapshot`, the replication slot, or the user. */
  datatype Source = Own | Slot | User(token: Token)

  datatype Config = Config(source: Source, cleanup: bool, transactional: bool, threads: nat)

  /** A session of the server, reading the snapshot it was bound to. */
  datatype Session = Session(alive: bool, view: Option<Token>)

  datatype WriterPhase = Working | Pinged | Stopped(err: bool)

  datatype Writer = Writer(session: Session, phase: WriterPhase)

  /** Why `TearDown` runs: in the middle of the dump, or deferred. */
  datatype When = Midway | AtEnd

  datatype Pc =
    // Setup
    | CreatingSlot | Beginning | Adopting | Exporting
    // Dump
    | OpeningMeta | Planning | StartingWriters
    | ClosingSlotConn(when: When) | Committing(when: When) | ClosingConn(when: When, committed: bool)
    | Dumping | Waiting
    | Unwinding | CleaningUp | Returned

  /** `ConsistencySnapshot`: its connection (when not nil) and whether that is
      alive, and whether the replication connection and the slot are there. */
  datatype Controller = Controller(conn: Option<bool>, cdcOpen: bool, cdcSlot: bool, snapshot: Option<Token>)

  /** Tokens whose exporter is alive, and tokens ever issued. */
  datatype Server = Server(live: set<Token>, issued: set<Token>)

  /** `token` is the process-wide variable; `err` the variable the deferred
      clean-up tests, `failed` whether `Dump` returns an error. `views` lists what
      every data query saw, `drops` for every DROP whether the replication
      connection was open. */
  datatype State = State(cfg: Config, pc: Pc, err: bool, failed: bool,
                         ctl: Controller, server: Server, token: Option<Token>,
                         meta: Session, writers: seq<Writer>,
                         views: seq<Option<Token>>, drops: seq<bool>)

  datatype Action =
    // main thread
    | SlotCreated(token: Token) | Begins | Adopts | Exports(token: Token) | SetupFails
    | MetaOpens | MetaFails | Plans | PlanFails
    | WriterStarts | WriterFailsToStart | AllStarted
    | ClosesSlotConn | Commits(ok: bool) | ClosesConn
    | MetaQueries | MetaBreaks | MetaReopens
    | TablesSent | SqlSent | SendingCancelled | SendingFails | WritersDone
    | Unwinds | CleansUp | SkipsCleanUp
    // writers
    | Queries(i: nat) | Pings(i: nat) | Reconnects(i: nat) | Stops(i: nat, err: bool)
    // the world
    | ConnLost | SlotConnLost | MetaLost | WriterLost(i: nat) | ExporterEnds(token: Token) | OthersExport(token: Token)

  const DEAD := Session(false, None)

  // ---- the server's rule ----

  /** A session can be bound to a token only while its exporter is alive. */
  predicate Bindable(s: State) {
    s.token.Some? && s.token.value in s.server.live
  }

  /** `createConnWithConsistency` when it succeeds. */
  function Bound(s: State): Session {
    Session(true, s.token)
  }

  function EndExport(server: Server, t: Option<Token>): Server {
    if t.Some? then server.(live := server.live - {t.value}) else server
  }

  /** The token whose exporter is the controller's own connection. */
  function ConnExport(s: State): Option<Token> {
    if s.cfg.source == Own then s.ctl.snapshot else None
  }

  /** The token whose exporter is the replication connection. */
  function SlotExport(s: State): Option<Token> {
    if s.cfg.source == Slot then s.ctl.snapshot else None
  }

  // ---- the main thread ----

  predicate MainEnabled(s: State, a: Action) {
    match a
    case SlotCreated(t) => s.pc == CreatingSlot && t !in s.server.issued
    case Begins => s.pc == Beginning
    case Adopts => s.pc == Adopting && s.ctl.snapshot.Some? && s.ctl.snapshot.value in s.server.live
    case Exports(t) => s.pc == Exporting && t !in s.server.issued
    case SetupFails => s.pc in {CreatingSlot, Beginning, Adopting, Exporting}
    case MetaOpens => s.pc == OpeningMeta && Bindable(s)
    case MetaFails => s.pc == OpeningMeta
    case Plans => s.pc == Planning
    case PlanFails => s.pc == Planning
    case WriterStarts => s.pc == StartingWriters && |s.writers| < s.cfg.threads && Bindable(s)
    case WriterFailsToStart => s.pc == StartingWriters && |s.writers| < s.cfg.threads
    case AllStarted => s.pc == StartingWriters && |s.writers| >= s.cfg.threads
    case ClosesSlotConn => s.pc.ClosingSlotConn?
    case Commits(ok) => s.pc.Committing? && (ok ==> s.ctl.conn == Some(true))
    case ClosesConn => s.pc.ClosingConn?
    case MetaQueries => s.pc in {Planning, Dumping} && s.meta.alive
    case MetaBreaks => s.pc == Dumping
    case MetaReopens => s.pc == Dumping && Bindable(s)
    case TablesSent => s.pc == Dumping
    case SqlSent => s.pc == Dumping
    case SendingCancelled => s.pc == Dumping
    case SendingFails => s.pc == Dumping
    case WritersDone => s.pc == Waiting && forall i :: 0 <= i < |s.writers| ==> s.writers[i].phase.Stopped?
    case Unwinds => s.pc == Unwinding
    case CleansUp => s.pc == CleaningUp && s.err && s.ctl.cdcSlot && s.cfg.cleanup
    case SkipsCleanUp => s.pc == CleaningUp && !(s.err && s.ctl.cdcSlot && s.cfg.cleanup)
    case _ => false
  }

  /** Where `TearDown` leads when it is through. */
  function AfterTearDown(s: State, when: When, committed: bool): State {
    match when
    case Midway => if committed then s.(pc := Dumping) else s.(pc := Unwinding, err := true, failed := true)
    case AtEnd => s.(pc := CleaningUp)
  }

  predicate SomeWriterFailed(s: State) {
    exists i :: 0 <= i < |s.writers| && s.writers[i].phase == Stopped(true)
  }

  function SetupDo(s: State, a: Action): State {
    match a
    case SlotCreated(t) =>
      s.(ctl := s.ctl.(cdcOpen := true, cdcSlot := true, snapshot := Some(t)),
         server := Server(s.server.live + {t}, s.server.issued + {t}), pc := Beginning)
    case Begins => s.(pc := if s.cfg.source == Own then Exporting else Adopting)
    case Adopts => s.(token := s.ctl.snapshot, pc := OpeningMeta)
    case Exports(t) =>
      s.(ctl := s.ctl.(snapshot := Some(t)), token := Some(t),
         server := Server(if s.ctl.conn == Some(true) then s.server.live + {t} else s.server.live, s.server.issued + {t}),
         pc := OpeningMeta)
    case _ => s.(pc := Returned, failed := true)
  }

  function TearDownDo(s: State, a: Action): State {
    match a
    case ClosesSlotConn =>
      if s.pc.ClosingSlotConn? then
        var t := s.(ctl := s.ctl.(cdcOpen := false), server := EndExport(s.server, SlotExport(s)));
        if s.ctl.conn.None? then AfterTearDown(t, s.pc.when, true) else t.(pc := Committing(s.pc.when))
      else s
    case Commits(ok) =>
      if s.pc.Committing? then s.(server := EndExport(s.server, ConnExport(s)), pc := ClosingConn(s.pc.when, ok)) else s
    case ClosesConn =>
      if s.pc.ClosingConn? then AfterTearDown(s.(ctl := s.ctl.(conn := None)), s.pc.when, s.pc.committed) else s
    case CleansUp =>
      var closed := s.(ctl := s.ctl.(cdcOpen := false), server := EndExport(s.server, SlotExport(s)));
      closed.(drops := s.drops + [closed.ctl.cdcOpen], pc := Returned)
    case _ => s.(pc := Returned)
  }

  function DumpDo(s: State, a: Action): State {
    match a
    case MetaOpens => s.(meta := Bound(s), pc := Planning)
    case MetaFails => s.(err := true, failed := true, pc := Unwinding)
    case Plans => s.(err := false, pc := StartingWriters)
    case PlanFails => s.(err := true, failed := true, pc := Unwinding)
    case WriterStarts => s.(writers := s.writers + [Writer(Bound(s), Working)])
    case WriterFailsToStart => s.(err := true, failed := true, pc := Unwinding)
    case AllStarted => s.(pc := if s.cfg.transactional then ClosingSlotConn(Midway) else Dumping)
    case MetaQueries => s.(views := s.views + [s.meta.view])
    case MetaBreaks => s.(meta := DEAD)
    case MetaReopens => s.(meta := Bound(s))
    case TablesSent => s.(err := false, meta := DEAD, pc := Waiting)
    case SqlSent => s.(meta := DEAD, pc := Waiting)
    case SendingCancelled => s.(err := true, meta := DEAD, pc := Waiting)
    case SendingFails => s.(err := true, failed := true, pc := Unwinding)
    case WritersDone => s.(failed := SomeWriterFailed(s), pc := Unwinding)
    case _ => s.(meta := DEAD, pc := ClosingSlotConn(AtEnd))
  }

  predicate InSetup(a: Action) {
    a.SlotCreated? || a.Begins? || a.Adopts? || a.Exports? || a.SetupFails?
  }

  predicate InTearDown(a: Action) {
    a.ClosesSlotConn? || a.Commits? || a.ClosesConn? || a.CleansUp? || a.SkipsCleanUp?
  }

  // ---- writers and the world ----

  /** A writer's `rebuildConn` pings the controller, drops its session, and opens another. */
  predicate OtherEnabled(s: State, a: Action) {
    match a
    case Queries(i) => i < |s.writers| && s.writers[i].phase == Working && s.writers[i].session.alive
    case Pings(i) => i < |s.writers| && s.writers[i].phase == Working && s.ctl.conn == Some(true)
    case Reconnects(i) => i < |s.writers| && s.writers[i].phase == Pinged && Bindable(s)
    case Stops(i, _) => i < |s.writers| && !s.writers[i].phase.Stopped?
    case ConnLost => true
    case SlotConnLost => true
    case MetaLost => true
    case WriterLost(i) => i < |s.writers|
    case ExporterEnds(_) => true
    case OthersExport(t) => t !in s.server.issued
    case _ => false
  }

  function OtherDo(s: State, a: Action): State
    requires OtherEnabled(s, a)
  {
    match a
    case Queries(i) => s.(views := s.views + [s.writers[i].session.view])
    case Pings(i) => s.(writers := s.writers[i := Writer(DEAD, Pinged)])
    case Reconnects(i) => s.(writers := s.writers[i := Writer(Bound(s), Working)])
    case Stops(i, err) => s.(writers := s.writers[i := Writer(s.writers[i].session, Stopped(err))])
    case ConnLost =>
      if s.ctl.conn.Some? then s.(ctl := s.ctl.(conn := Some(false)), server := EndExport(s.server, ConnExport(s))) else s
    case SlotConnLost => s.(server := EndExport(s.server, SlotExport(s)))
    case MetaLost => s.(meta := DEAD)
    case WriterLost(i) => s.(writers := s.writers[i := s.writers[i].(session := DEAD)])
    case ExporterEnds(t) => s.(server := EndExport(s.server, Some(t)))
    case OthersExport(t) => s.(server := Server(s.server.live + {t}, s.server.issued + {t}))
  }

  predicate Enabled(s: State, a: Action) {
    MainEnabled(s, a) || OtherEnabled(s, a)
  }

  function Do(s: State, a: Action): State
    requires Enabled(s, a)
  {
    if OtherEnabled(s, a) then OtherDo(s, a)
    else if InSetup(a) then SetupDo(s, a)
    else if InTearDown(a) then TearDownDo(s, a)
    else DumpDo(s, a)
  }

  /** Before `Setup`; the process-wide token may be left over from an earlier dump. */
  predicate Start(s: State) {
    && s.pc == (if s.cfg.source == Slot then CreatingSlot else Beginning)
    && !s.err && !s.failed && s.meta == DEAD && s.writers == [] && s.views == [] && s.drops == []
    && s.ctl == Controller(Some(true), false, false, if s.cfg.source.User? then Some(s.cfg.source.token) else None)
    && s.server.live <= s.server.issued
    && (s.cfg.source.User? ==> s.cfg.source.token in s.server.issued)
  }

  predicate InSetupPc(pc: Pc) {
    pc in {CreatingSlot, Beginning, Adopting, Exporting}
  }

  // ---- one view ----

  predicate Empty(s: State) {
    !s.meta.alive && s.writers == [] && s.views == []
  }

  /** Every live session, and every query made so far, reads the snapshot `t`. */
  predicate OneView(s: State, t: Option<Token>) {
    && (s.meta.alive ==> s.meta.view == t)
    && (forall i :: 0 <= i < |s.writers| && s.writers[i].session.alive ==> s.writers[i].session.view == t)
    && (forall i :: 0 <= i < |s.views| ==> s.views[i] == t)
  }

  /** Sessions exist only once this dump's token is published, and all read its snapshot. */
  predicate Consistent(s: State) {
    && OneView(s, s.token)
    && (InSetupPc(s.pc) ==> Empty(s))
    && (!Empty(s) || !(InSetupPc(s.pc) || s.pc == Returned) ==> s.token.Some? && s.token == s.ctl.snapshot)
  }

  /** Where the snapshot is known. */
  predicate Sourced(s: State) {
    && (s.cfg.source.User? ==> s.ctl.snapshot == Some(s.cfg.source.token))
    && (s.cfg.source == Own && InSetupPc(s.pc) ==> s.ctl.snapshot.None?)
    && (s.pc == CreatingSlot ==> s.cfg.source == Slot)
    && (s.pc == Exporting ==> s.cfg.source == Own)
    && (s.pc == Adopting ==> s.cfg.source != Own)
  }

  lemma OtherConsistent(s: State, a: Action)
    requires Consistent(s) && OtherEnabled(s, a)
    ensures Consistent(OtherDo(s, a))
  {
  }

  lemma SetupConsistent(s: State, a: Action)
    requires Consistent(s) && Sourced(s) && MainEnabled(s, a) && InSetup(a)
    ensures Consistent(SetupDo(s, a)) && Sourced(SetupDo(s, a))
  {
  }

  lemma TearDownFrame(s: State, a: Action)
    requires MainEnabled(s, a) && InTearDown(a)
    ensures var t := TearDownDo(s, a);
            && t.meta == s.meta && t.writers == s.writers && t.views == s.views && t.token == s.token
            && t.cfg == s.cfg && t.ctl.snapshot == s.ctl.snapshot
            && !InSetupPc(s.pc) && s.pc != Returned && !InSetupPc(t.pc)
  {
  }

  lemma TearDownConsistent(s: State, a: Action)
    requires Consistent(s) && Sourced(s) && MainEnabled(s, a) && InTearDown(a)
    ensures Consistent(TearDownDo(s, a)) && Sourced(TearDownDo(s, a))
  {
    TearDownFrame(s, a);
    hide TearDownDo, MainEnabled, InTearDown;
  }

  lemma DumpConsistent(s: State, a: Action)
    requires Consistent(s) && Sourced(s) && MainEnabled(s, a) && !InSetup(a) && !InTearDown(a)
    ensures Consistent(DumpDo(s, a)) && Sourced(DumpDo(s, a))
  {
    if a.MetaOpens? || a.MetaReopens? || a.WriterStarts? || a.MetaQueries? {
      hide *;
      SessionsConsistent(s, a);
    } else {
      hide *;
      OthersConsistent(s, a);
    }
  }

  /** Steps that open a session or use one. */
  lemma SessionsConsistent(s: State, a: Action)
    requires Consistent(s) && Sourced(s) && MainEnabled(s, a)
    requires a.MetaOpens? || a.MetaReopens? || a.WriterStarts? || a.MetaQueries?
    ensures Consistent(DumpDo(s, a)) && Sourced(DumpDo(s, a))
  {
  }

  lemma OthersConsistent(s: State, a: Action)
    requires Consistent(s) && Sourced(s) && MainEnabled(s, a) && !InSetup(a) && !InTearDown(a)
    requires !(a.MetaOpens? || a.MetaReopens? || a.WriterStarts? || a.MetaQueries?)
    ensures Consistent(DumpDo(s, a)) && Sourced(DumpDo(s, a))
  {
    hide SomeWriterFailed;
  }

  // ---- the exporter ----

  /** A token can be adopted only while the connection that exports it is open. */
  predicate Exported(s: State) {
    && s.server.live <= s.server.issued
    && (s.ctl.snapshot.Some? ==> s.ctl.snapshot.value in s.server.issued)
    && (s.cfg.source == Own && s.ctl.snapshot.Some? && s.ctl.snapshot.value in s.server.live ==> s.ctl.conn == Some(true))
    && (s.pc.ClosingConn? && s.cfg.source == Own && s.ctl.snapshot.Some? ==> s.ctl.snapshot.value !in s.server.live)
    && (s.cfg.source == Slot && s.ctl.snapshot.Some? && s.ctl.snapshot.value in s.server.live ==> s.ctl.cdcOpen)
  }

  lemma OtherExported(s: State, a: Action)
    requires Exported(s) && OtherEnabled(s, a)
    ensures Exported(OtherDo(s, a))
  {
  }

  lemma SetupExported(s: State, a: Action)
    requires Exported(s) && Sourced(s) && MainEnabled(s, a) && InSetup(a)
    ensures Exported(SetupDo(s, a))
  {
  }

  lemma TearDownExported(s: State, a: Action)
    requires Exported(s) && MainEnabled(s, a) && InTearDown(a)
    ensures Exported(TearDownDo(s, a))
  {
  }

  lemma DumpExported(s: State, a: Action)
    requires Exported(s) && MainEnabled(s, a) && !InSetup(a) && !InTearDown(a)
    ensures Exported(DumpDo(s, a))
  {
  }

  // ---- tear-down and clean-up ----

  /** `TearDown` has run: both connections of the controller are closed. */
  predicate TornDown(s: State) {
    s.ctl.conn.None? && !s.ctl.cdcOpen
  }

  /** How far the tear-down is, and that nothing is dropped before it is over. */
  predicate Ended(s: State) {
    && (s.pc.Committing? || s.pc.ClosingConn? ==> !s.ctl.cdcOpen)
    && (s.pc == CleaningUp ==> TornDown(s))
    && (s.pc != Returned ==> s.drops == [])
    && (s.drops == [] || s.drops == [false])
  }

  lemma OtherEnded(s: State, a: Action)
    requires Ended(s) && OtherEnabled(s, a)
    ensures Ended(OtherDo(s, a)) && (TornDown(s) ==> TornDown(OtherDo(s, a)))
  {
  }

  lemma SetupEnded(s: State, a: Action)
    requires Ended(s) && MainEnabled(s, a) && InSetup(a)
    ensures Ended(SetupDo(s, a))
  {
  }

  lemma TearDownEnded(s: State, a: Action)
    requires Ended(s) && MainEnabled(s, a) && InTearDown(a)
    ensures Ended(TearDownDo(s, a)) && (TornDown(s) ==> TornDown(TearDownDo(s, a)))
  {
  }

  lemma DumpEnded(s: State, a: Action)
    requires Ended(s) && MainEnabled(s, a) && !InSetup(a) && !InTearDown(a)
    ensures Ended(DumpDo(s, a)) && (TornDown(s) ==> TornDown(DumpDo(s, a)))
  {
  }

  // ---- whole runs ----

  predicate Inv(s: State) {
    Consistent(s) && Sourced(s) && Exported(s) && Ended(s)
  }

  lemma StartInv(s: State)
    requires Start(s)
    ensures Inv(s)
  {
  }

  lemma OtherSourced(s: State, a: Action)
    requires Sourced(s) && OtherEnabled(s, a)
    ensures Sourced(OtherDo(s, a))
  {
  }

  lemma StepInv(s: State, a: Action)
    requires Inv(s) && Enabled(s, a)
    ensures Inv(Do(s, a))
  {
    hide Consistent, Sourced, Exported, Ended, MainEnabled, OtherEnabled, OtherDo, SetupDo, TearDownDo, DumpDo, InSetup, InTearDown;
    if OtherEnabled(s, a) {
      OtherConsistent(s, a);
      OtherSourced(s, a);
      OtherExported(s, a);
      OtherEnded(s, a);
    } else {
      if InSetup(a) {
        SetupConsistent(s, a);
        SetupExported(s, a);
        SetupEnded(s, a);
      } else if InTearDown(a) {
        TearDownConsistent(s, a);
        TearDownExported(s, a);
        TearDownEnded(s, a);
      } else {
        DumpConsistent(s, a);
        DumpExported(s, a);
        DumpEnded(s, a);
      }
    }
  }

  predicate Runs(s: State, actions: seq<Action>, t: State)
    decreases |actions|
  {
    if actions == [] then s == t
    else Enabled(s, actions[0]) && Runs(Do(s, actions[0]), actions[1..], t)
  }

  lemma {:induction false} RunInv(s: State, actions: seq<Action>, t: State)
    requires Inv(s) && Runs(s, actions, t)
    ensures Inv(t)
    decreases |actions|
  {
    hide Inv, Enabled, Do;
    if actions != [] {
      StepInv(s, actions[0]);
      RunInv(Do(s, actions[0]), actions[1..], t);
    }
  }

  /** Single snapshot: in every run, with any number of writers, retries and lost
      connections, every data query reads the one snapshot whose token this dump
      set up; and the slot is never dropped while the replication connection is open. */
  lemma RunsReadOneSnapshot(s: State, actions: seq<Action>, t: State)
    requires Start(s) && Runs(s, actions, t)
    ensures forall i :: 0 <= i < |t.views| ==> t.views[i].Some? && t.views[i] == t.ctl.snapshot
    ensures forall i :: 0 <= i < |t.drops| ==> !t.drops[i]
    ensures |t.drops| <= 1
  {
    StartInv(s);
    hide Runs;
    RunInv(s, actions, t);
  }

  /** After `TearDown` a writer's rebuild no longer gets past its ping; and if the
      snapshot was exported by this dump, nothing can be bound to it any more. */
  lemma NoRebuildAfterTearDown(s: State, i: nat)
    requires Inv(s) && TornDown(s)
    ensures !Enabled(s, Pings(i))
    ensures !s.cfg.source.User? && s.token == s.ctl.snapshot ==> !Bindable(s)
  {
  }

  lemma TornDownStays(s: State, a: Action)
    requires Inv(s) && TornDown(s) && Enabled(s, a) && !InSetup(a)
    ensures TornDown(Do(s, a))
  {
    hide Consistent, Sourced, Exported, TornDown, MainEnabled, OtherEnabled, OtherDo, TearDownDo, DumpDo;
    if OtherEnabled(s, a) {
      OtherEnded(s, a);
    } else if InTearDown(a) {
      TearDownEnded(s, a);
    } else {
      DumpEnded(s, a);
    }
  }

  /** A second `TearDown` changes nothing but the place in the program. */
  lemma TearDownTwice(s: State)
    requires Inv(s) && TornDown(s) && s.pc == ClosingSlotConn(AtEnd)
    ensures Enabled(s, ClosesSlotConn) && Do(s, ClosesSlotConn) == s.(pc := CleaningUp)
  {
    assert !OtherEnabled(s, ClosesSlotConn);
  }

  // ---- when the controller is torn down ----

  /** Before the writers have started. */
  predicate BeforeDump(pc: Pc) {
    InSetupPc(pc) || pc in {OpeningMeta, Planning, StartingWriters}
  }

  /** The controller is kept until the writers have started, and while tasks are
      sent unless the dump is transactional. */
  predicate Kept(s: State) {
    && (BeforeDump(s.pc) ==> s.ctl.conn.Some?)
    && (s.pc in {Dumping, Waiting} ==> if s.cfg.transactional then TornDown(s) else s.ctl.conn.Some?)
    && (s.pc == ClosingSlotConn(Midway) || s.pc == Committing(Midway) || (s.pc.ClosingConn? && s.pc.when == Midway) ==>
         s.cfg.transactional)
  }

  lemma OtherKept(s: State, a: Action)
    requires Kept(s) && OtherEnabled(s, a)
    ensures Kept(OtherDo(s, a)) && OtherDo(s, a).cfg == s.cfg
  {
  }

  lemma SetupKept(s: State, a: Action)
    requires Kept(s) && MainEnabled(s, a) && InSetup(a)
    ensures Kept(SetupDo(s, a)) && SetupDo(s, a).cfg == s.cfg
  {
  }

  lemma TearDownKept(s: State, a: Action)
    requires Kept(s) && Ended(s) && MainEnabled(s, a) && InTearDown(a)
    ensures Kept(TearDownDo(s, a)) && TearDownDo(s, a).cfg == s.cfg
  {
  }

  lemma DumpKept(s: State, a: Action)
    requires Kept(s) && MainEnabled(s, a) && !InSetup(a) && !InTearDown(a)
    ensures Kept(DumpDo(s, a)) && DumpDo(s, a).cfg == s.cfg
  {
    hide SomeWriterFailed;
  }

  lemma StepKept(s: State, a: Action)
    requires Kept(s) && Ended(s) && Enabled(s, a)
    ensures Kept(Do(s, a)) && Ended(Do(s, a)) && Do(s, a).cfg == s.cfg
  {
    hide Kept, Ended, MainEnabled, OtherEnabled, OtherDo, SetupDo, TearDownDo, DumpDo, InSetup, InTearDown;
    if OtherEnabled(s, a) {
      OtherKept(s, a);
      OtherEnded(s, a);
    } else if InSetup(a) {
      SetupKept(s, a);
      SetupEnded(s, a);
    } else if InTearDown(a) {
      TearDownKept(s, a);
      TearDownEnded(s, a);
    } else {
      DumpKept(s, a);
      DumpEnded(s, a);
    }
  }

  lemma {:induction false} RunKept(s: State, actions: seq<Action>, t: State)
    requires Kept(s) && Ended(s) && Runs(s, actions, t)
    ensures Kept(t) && t.cfg == s.cfg
    decreases |actions|
  {
    hide Kept, Ended, Enabled, Do;
    if actions != [] {
      StepKept(s, actions[0]);
      RunKept(Do(s, actions[0]), actions[1..], t);
    }
  }

  /** While tasks are sent and written, the controller has been torn down exactly
      when the dump is transactional; before that it never is. */
  lemma TornDownWhileDumping(s: State, actions: seq<Action>, t: State)
    requires Start(s) && Runs(s, actions, t)
    ensures t.pc in {Dumping, Waiting} ==> (TornDown(t) <==> s.cfg.transactional)
    ensures BeforeDump(t.pc) ==> !TornDown(t)
  {
    hide Runs;
    RunKept(s, actions, t);
  }

  // ---- when the slot is dropped, and when the dump fails ----

  /** Steps after which `Dump` returns an error at once: all of its own errors but
      a cancellation while it sends tasks. */
  predicate Breaks(s: State, a: Action) {
    a.MetaFails? || a.PlanFails? || a.WriterFailsToStart? || a.SendingFails?
    || (a.ClosesConn? && s.pc == ClosingConn(Midway, false))
  }

  predicate Broke(s: State, actions: seq<Action>)
    decreases |actions|
  {
    actions != [] && Enabled(s, actions[0]) && (Breaks(s, actions[0]) || Broke(Do(s, actions[0]), actions[1..]))
  }

  /** `Dump` met an error of its own behind `Setup`, a cancellation included. */
  predicate Early(s: State, actions: seq<Action>) {
    Broke(s, actions) || SendingCancelled in actions
  }

  predicate Fails(a: Action) {
    a.Stops? && a.err
  }

  /** Some writer returned an error. */
  predicate WriterFailed(actions: seq<Action>) {
    exists i :: 0 <= i < |actions| && Fails(actions[i])
  }

  predicate AtTheEnd(pc: Pc) {
    pc in {Unwinding, CleaningUp} || pc == ClosingSlotConn(AtEnd) || pc == Committing(AtEnd)
    || (pc.ClosingConn? && pc.when == AtEnd)
  }

  /** Places from which no task is sent any more, and no error of its own can come. */
  predicate PastSending(pc: Pc) {
    AtTheEnd(pc) || pc == Waiting || pc == Returned
  }

  /** Nothing has gone wrong on the main thread before it waits or unwinds, and a
      slot is dropped by the clean-up alone. */
  predicate Booked(s: State) {
    && (!PastSending(s.pc) ==> !s.err && !s.failed)
    && (s.pc == Waiting ==> !s.failed)
    && (s.pc != Returned ==> s.drops == [])
    && (s.pc == Returned ==> (s.drops != [] <==> DropsAtEnd(s)))
  }

  /** What the deferred clean-up tests. */
  predicate DropsAtEnd(s: State) {
    s.err && s.ctl.cdcSlot && s.cfg.cleanup
  }

  lemma OtherBooked(s: State, a: Action)
    requires Booked(s) && OtherEnabled(s, a)
    ensures Booked(OtherDo(s, a))
    ensures OtherDo(s, a).err == s.err && OtherDo(s, a).failed == s.failed && OtherDo(s, a).pc == s.pc
    ensures !Breaks(s, a) && !a.SendingCancelled? && !a.SetupFails? && !a.WritersDone?
  {
  }

  lemma SetupBooked(s: State, a: Action)
    requires Booked(s) && MainEnabled(s, a) && InSetup(a)
    ensures Booked(SetupDo(s, a))
    ensures SetupDo(s, a).err == s.err && (SetupDo(s, a).failed <==> s.failed || a.SetupFails?)
    ensures !Breaks(s, a) && !a.SendingCancelled? && !a.WritersDone?
  {
  }

  lemma TearDownBooked(s: State, a: Action)
    requires Booked(s) && Ended(s) && MainEnabled(s, a) && InTearDown(a)
    ensures Booked(TearDownDo(s, a))
    ensures TearDownDo(s, a).err <==> s.err || Breaks(s, a)
    ensures TearDownDo(s, a).failed <==> s.failed || Breaks(s, a)
    ensures !a.SendingCancelled? && !a.SetupFails? && !a.WritersDone?
  {
  }

  lemma DumpBooked(s: State, a: Action)
    requires Booked(s) && MainEnabled(s, a) && !InSetup(a) && !InTearDown(a)
    ensures Booked(DumpDo(s, a))
    ensures DumpDo(s, a).err <==> s.err || Breaks(s, a) || a.SendingCancelled?
    ensures DumpDo(s, a).failed <==> s.failed || Breaks(s, a) || (a.WritersDone? && SomeWriterFailed(s))
    ensures !a.SetupFails?
  {
    hide SomeWriterFailed;
  }

  /** One step, as the two flags see it. */
  lemma StepBooked(s: State, a: Action)
    requires Booked(s) && Ended(s) && Enabled(s, a)
    ensures Booked(Do(s, a)) && Ended(Do(s, a))
    ensures Do(s, a).err <==> s.err || Breaks(s, a) || a.SendingCancelled?
    ensures Do(s, a).failed <==> s.failed || Breaks(s, a) || a.SetupFails? || (a.WritersDone? && SomeWriterFailed(s))
  {
    hide Booked, Ended, Breaks, SomeWriterFailed, MainEnabled, OtherEnabled, OtherDo, SetupDo, TearDownDo, DumpDo, InSetup, InTearDown;
    if OtherEnabled(s, a) {
      OtherBooked(s, a);
      OtherEnded(s, a);
    } else if InSetup(a) {
      SetupBooked(s, a);
      SetupEnded(s, a);
    } else if InTearDown(a) {
      TearDownBooked(s, a);
      TearDownEnded(s, a);
    } else {
      DumpBooked(s, a);
      DumpEnded(s, a);
    }
  }

  lemma {:induction false} RunBooked(s: State, actions: seq<Action>, t: State)
    requires Booked(s) && Ended(s) && Runs(s, actions, t)
    ensures Booked(t)
    ensures t.err <==> s.err || Early(s, actions)
    decreases |actions|
  {
    hide Booked, Ended, Enabled, Do, Breaks;
    if actions != [] {
      var a, rest := actions[0], actions[1..];
      StepBooked(s, a);
      RunBooked(Do(s, a), rest, t);
      assert actions == [a] + rest;
      assert SendingCancelled in actions <==> a == SendingCancelled || SendingCancelled in rest;
    }
  }

  /** Exactly when the slot is dropped: a slot was made, its clean-up asked for, and
      `Dump` met an error of its own behind `Setup` or was cancelled while sending;
      what the writers return does not matter. */
  lemma DropsExactly(s: State, actions: seq<Action>, t: State)
    requires Start(s) && Runs(s, actions, t) && t.pc == Returned
    ensures t.drops != [] <==> t.ctl.cdcSlot && t.cfg.cleanup && Early(s, actions)
  {
    StartBooked(s);
    hide Runs, Early, Start;
    RunBooked(s, actions, t);
  }

  lemma StartBooked(s: State)
    requires Start(s)
    ensures Booked(s) && Ended(s) && !s.err && !s.failed && !SomeWriterFailed(s) && InSetupPc(s.pc)
  {
  }

  // ---- writers that fail ----

  predicate AllDone(s: State) {
    (AtTheEnd(s.pc) || s.pc == Returned) && forall i :: 0 <= i < |s.writers| ==> s.writers[i].phase.Stopped?
  }

  /** The writers' part of a step. */
  lemma StepWriters(s: State, a: Action)
    requires Enabled(s, a)
    ensures SomeWriterFailed(Do(s, a)) <==> SomeWriterFailed(s) || Fails(a)
    ensures AllDone(s) ==> AllDone(Do(s, a)) && !Fails(a) && !a.WritersDone?
    ensures a.WritersDone? ==> AllDone(Do(s, a))
  {
    hide OtherEnabled, MainEnabled, OtherDo, SetupDo, TearDownDo, DumpDo, AllDone, Fails;
    if OtherEnabled(s, a) {
      OtherWriters(s, a);
    } else if InSetup(a) {
      SetupWriters(s, a);
    } else if InTearDown(a) {
      TearDownWriters(s, a);
    } else {
      DumpWriters(s, a);
    }
  }

  lemma OtherWriters(s: State, a: Action)
    requires OtherEnabled(s, a)
    ensures SomeWriterFailed(OtherDo(s, a)) <==> SomeWriterFailed(s) || Fails(a)
    ensures AllDone(s) ==> AllDone(OtherDo(s, a)) && !Fails(a)
    ensures !a.WritersDone?
  {
    var t := OtherDo(s, a);
    if |t.writers| == |s.writers| && (a.Pings? || a.Reconnects? || a.Stops? || a.WriterLost?) {
      assert forall j :: 0 <= j < |s.writers| && j != a.i ==> t.writers[j] == s.writers[j];
      if SomeWriterFailed(s) {
        var j :| 0 <= j < |s.writers| && s.writers[j].phase == Stopped(true);
        assert t.writers[j].phase == Stopped(true);
      }
      if Fails(a) {
        assert t.writers[a.i].phase == Stopped(true);
      }
    } else {
      assert t.writers == s.writers;
    }
  }

  lemma SetupWriters(s: State, a: Action)
    requires MainEnabled(s, a) && InSetup(a)
    ensures SetupDo(s, a).writers == s.writers && !AllDone(s) && !Fails(a) && !a.WritersDone?
  {
  }

  lemma TearDownWriters(s: State, a: Action)
    requires MainEnabled(s, a) && InTearDown(a)
    ensures TearDownDo(s, a).writers == s.writers && (AllDone(s) ==> AllDone(TearDownDo(s, a)))
    ensures !Fails(a) && !a.WritersDone?
  {
    TearDownFrame(s, a);
    hide MainEnabled, Breaks;
  }

  lemma DumpWriters(s: State, a: Action)
    requires MainEnabled(s, a) && !InSetup(a) && !InTearDown(a)
    ensures SomeWriterFailed(DumpDo(s, a)) <==> SomeWriterFailed(s)
    ensures AllDone(s) ==> AllDone(DumpDo(s, a)) && !a.WritersDone?
    ensures a.WritersDone? ==> AllDone(DumpDo(s, a))
    ensures !Fails(a)
  {
    var t := DumpDo(s, a);
    if a.WriterStarts? {
      assert forall j :: 0 <= j < |s.writers| ==> t.writers[j] == s.writers[j];
      assert t.writers[|s.writers|].phase == Working;
      if SomeWriterFailed(s) {
        var j :| 0 <= j < |s.writers| && s.writers[j].phase == Stopped(true);
        assert t.writers[j].phase == Stopped(true);
      }
    } else {
      assert t.writers == s.writers;
    }
  }

  /** After the writers are done none of them stops again. */
  lemma {:induction false} NoMoreStops(s: State, actions: seq<Action>, t: State)
    requires AllDone(s) && Runs(s, actions, t)
    ensures WritersDone !in actions && !WriterFailed(actions)
    decreases |actions|
  {
    hide AllDone, Enabled, Do, SomeWriterFailed, Fails;
    if actions != [] {
      StepWriters(s, actions[0]);
      NoMoreStops(Do(s, actions[0]), actions[1..], t);
      FirstOrLater(actions);
    }
  }

  lemma FirstOrLater(actions: seq<Action>)
    requires actions != []
    ensures WriterFailed(actions) <==> Fails(actions[0]) || WriterFailed(actions[1..])
    ensures forall a :: a in actions <==> a == actions[0] || a in actions[1..]
  {
    assert actions == [actions[0]] + actions[1..];
    hide Fails;
    if WriterFailed(actions[1..]) {
      var i :| 0 <= i < |actions| - 1 && Fails(actions[1..][i]);
      assert Fails(actions[i + 1]);
    }
    if WriterFailed(actions) && !Fails(actions[0]) {
      var i :| 0 <= i < |actions| && Fails(actions[i]);
      assert Fails(actions[1..][i - 1]);
    }
  }

  lemma {:induction false} RunFailed(s: State, actions: seq<Action>, t: State)
    requires Booked(s) && Ended(s) && Runs(s, actions, t)
    ensures t.failed
       <==> s.failed || Broke(s, actions) || SetupFails in actions
            || (WritersDone in actions && (SomeWriterFailed(s) || WriterFailed(actions)))
    decreases |actions|
  {
    hide Booked, Ended, Enabled, Do, Breaks, Fails, SomeWriterFailed, AllDone, WriterFailed;
    if actions == [] {
      NoneFailed();
    } else {
      var a, rest := actions[0], actions[1..];
      StepBooked(s, a);
      StepWriters(s, a);
      RunFailed(Do(s, a), rest, t);
      FirstOrLater(actions);
      if a.WritersDone? {
        NoMoreStops(Do(s, a), rest, t);
        NotAFailure();
      }
    }
  }

  lemma NoneFailed()
    ensures !WriterFailed([])
  {
  }

  lemma NotAFailure()
    ensures !Fails(WritersDone)
  {
  }

  /** Exactly when `Dump` returns an error: `Setup` failed, it met an error of its
      own, or it waited for its writers and one of them had failed. */
  lemma FailsExactly(s: State, actions: seq<Action>, t: State)
    requires Start(s) && Runs(s, actions, t) && t.pc == Returned
    ensures t.failed <==> SetupFails in actions || Broke(s, actions) || (WritersDone in actions && WriterFailed(actions))
  {
    StartBooked(s);
    hide Runs, Broke, WriterFailed, Start;
    RunFailed(s, actions, t);
  }

  // ---- cancelled dumps ----

  lemma StepPc(s: State, a: Action)
    requires Enabled(s, a)
    ensures AtTheEnd(s.pc) || s.pc == Returned ==>
              (AtTheEnd(Do(s, a).pc) || Do(s, a).pc == Returned) && !Breaks(s, a) && !a.SendingCancelled? && !a.SetupFails?
    ensures s.pc == Waiting ==>
              (if a.WritersDone? then AtTheEnd(Do(s, a).pc) else Do(s, a).pc == Waiting)
              && !Breaks(s, a) && !a.SendingCancelled? && !a.SetupFails?
    ensures Breaks(s, a) ==> AtTheEnd(Do(s, a).pc)
    ensures a.SetupFails? ==> Do(s, a).pc == Returned
    ensures a.SendingCancelled? ==> Do(s, a).pc == Waiting && !Breaks(s, a)
  {
    if OtherEnabled(s, a) {
      OtherPc(s, a);
    } else if InSetup(a) {
      SetupPc(s, a);
    } else if InTearDown(a) {
      TearDownPc(s, a);
    } else {
      DumpPc(s, a);
    }
    hide MainEnabled, OtherEnabled, OtherDo, SetupDo, TearDownDo, DumpDo, AtTheEnd;
  }

  lemma OtherPc(s: State, a: Action)
    requires OtherEnabled(s, a)
    ensures OtherDo(s, a).pc == s.pc && !Breaks(s, a) && !a.SendingCancelled? && !a.SetupFails? && !a.WritersDone?
  {
  }

  lemma SetupPc(s: State, a: Action)
    requires MainEnabled(s, a) && InSetup(a)
    ensures !AtTheEnd(s.pc) && s.pc != Returned && s.pc != Waiting && !Breaks(s, a) && !a.SendingCancelled?
    ensures a.SetupFails? ==> SetupDo(s, a).pc == Returned
  {
  }

  lemma TearDownPc(s: State, a: Action)
    requires MainEnabled(s, a) && InTearDown(a)
    ensures AtTheEnd(s.pc) ==> (AtTheEnd(TearDownDo(s, a).pc) || TearDownDo(s, a).pc == Returned) && !Breaks(s, a)
    ensures Breaks(s, a) ==> AtTheEnd(TearDownDo(s, a).pc)
    ensures s.pc != Waiting && s.pc != Returned && !a.SendingCancelled? && !a.SetupFails?
  {
  }

  lemma DumpPc(s: State, a: Action)
    requires MainEnabled(s, a) && !InSetup(a) && !InTearDown(a)
    ensures AtTheEnd(s.pc) ==> AtTheEnd(DumpDo(s, a).pc) && !Breaks(s, a) && !a.SendingCancelled?
    ensures s.pc == Waiting ==> a.WritersDone? && AtTheEnd(DumpDo(s, a).pc) && !Breaks(s, a)
    ensures Breaks(s, a) ==> AtTheEnd(DumpDo(s, a).pc)
    ensures a.SendingCancelled? ==> DumpDo(s, a).pc == Waiting
    ensures s.pc != Returned && !a.SetupFails?
  {
    hide SomeWriterFailed;
  }

  lemma {:induction false} NothingNewAtTheEnd(s: State, actions: seq<Action>, t: State)
    requires (AtTheEnd(s.pc) || s.pc == Returned) && Runs(s, actions, t)
    ensures !Broke(s, actions) && SendingCancelled !in actions && SetupFails !in actions
    decreases |actions|
  {
    hide AtTheEnd, Enabled, Do, Breaks;
    if actions != [] {
      StepPc(s, actions[0]);
      NothingNewAtTheEnd(Do(s, actions[0]), actions[1..], t);
      FirstOrLater(actions);
    }
  }

  lemma {:induction false} WaitsForWriters(s: State, actions: seq<Action>, t: State)
    requires s.pc == Waiting && Runs(s, actions, t) && t.pc == Returned
    ensures !Broke(s, actions) && SetupFails !in actions && WritersDone in actions
    decreases |actions|
  {
    hide AtTheEnd, Enabled, Do, Breaks;
    if actions != [] {
      StepPc(s, actions[0]);
      if actions[0].WritersDone? {
        NothingNewAtTheEnd(Do(s, actions[0]), actions[1..], t);
      } else {
        WaitsForWriters(Do(s, actions[0]), actions[1..], t);
      }
      FirstOrLater(actions);
    }
  }

  lemma {:induction false} OnceCancelled(s: State, actions: seq<Action>, t: State)
    requires Runs(s, actions, t) && t.pc == Returned && SendingCancelled in actions
    ensures !Broke(s, actions) && SetupFails !in actions && WritersDone in actions
    decreases |actions|
  {
    hide AtTheEnd, Enabled, Do, Breaks;
    var a, rest := actions[0], actions[1..];
    StepPc(s, a);
    FirstOrLater(actions);
    if a.SendingCancelled? {
      WaitsForWriters(Do(s, a), rest, t);
    } else {
      if Breaks(s, a) || a.SetupFails? {
        NothingNewAtTheEnd(Do(s, a), rest, t);
      }
      OnceCancelled(Do(s, a), rest, t);
    }
  }

  /** Exactly when an unfinished dump returns no error: it was cancelled while it
      sent its tasks, and no writer had failed. It then drops its slot. */
  lemma SilentExactly(s: State, actions: seq<Action>, t: State)
    requires Start(s) && Runs(s, actions, t) && t.pc == Returned
    ensures Early(s, actions) && !t.failed <==> SendingCancelled in actions && !WriterFailed(actions)
  {
    FailsExactly(s, actions, t);
    hide Runs, Broke, WriterFailed, Start;
    if SendingCancelled in actions {
      OnceCancelled(s, actions, t);
    }
  }

  // ---- two such runs ----

  lemma {:induction false} RunsJoin(s: State, first: seq<Action>, t: State, second: seq<Action>, u: State)
    requires Runs(s, first, t) && Runs(t, second, u)
    ensures Runs(s, first + second, u)
    decreases |first|
  {
    hide Enabled, Do;
    if first == [] {
      assert first + second == second;
    } else {
      assert (first + second)[1..] == first[1..] + second;
      RunsJoin(Do(s, first[0]), first[1..], t, second, u);
    }
  }

  /** One step, and two in a row. */
  predicate Next(s: State, a: Action, t: State) {
    Enabled(s, a) && Do(s, a) == t
  }

  lemma OneStep(s: State, a: Action, t: State)
    requires Next(s, a, t)
    ensures Runs(s, [a], t)
  {
    hide Enabled, Do;
    assert [a][1..] == [];
  }

  lemma TwoSteps(s: State, a: Action, t: State, b: Action, u: State)
    requires Next(s, a, t) && Next(t, b, u)
    ensures Runs(s, [a, b], u)
  {
    hide Next, Runs;
    OneStep(s, a, t);
    OneStep(t, b, u);
    RunsJoin(s, [a], t, [b], u);
    assert [a] + [b] == [a, b];
  }

  /** A dump with a slot, clean-up asked for and one writer: before `Setup`, with its
      token, with its writer, and once its tables are being dumped. */
  const BEFORE := State(Config(Slot, true, true, 1), CreatingSlot, false, false,
                        Controller(Some(true), false, false, None), Server({}, {}), None, DEAD, [], [], [])
  const WITH_SLOT := BEFORE.(ctl := Controller(Some(true), true, true, Some(0)), server := Server({0}, {0}), pc := Adopting)
  const WITH_META := WITH_SLOT.(token := Some(0), meta := Session(true, Some(0)), pc := Planning)
  const WITH_WRITER := WITH_META.(writers := [Writer(Session(true, Some(0)), Working)], pc := StartingWriters)
  const TEARING := WITH_WRITER.(ctl := Controller(Some(true), false, true, Some(0)), server := Server({}, {0}), pc := Committing(Midway))
  const DUMPING := TEARING.(ctl := Controller(None, false, true, Some(0)), pc := Dumping)

  lemma GetsSlot()
    ensures Start(BEFORE) && Runs(BEFORE, [SlotCreated(0), Begins], WITH_SLOT)
  {
    var t := WITH_SLOT.(pc := Beginning);
    assert Next(BEFORE, SlotCreated(0), t);
    assert Next(t, Begins, WITH_SLOT);
    hide *;
    TwoSteps(BEFORE, SlotCreated(0), t, Begins, WITH_SLOT);
    IsStart();
  }

  lemma IsStart()
    ensures Start(BEFORE)
  {
  }

  lemma GetsMeta()
    ensures Runs(WITH_SLOT, [Adopts, MetaOpens], WITH_META)
  {
    var t := WITH_SLOT.(token := Some(0), pc := OpeningMeta);
    assert Next(WITH_SLOT, Adopts, t);
    assert Next(t, MetaOpens, WITH_META);
    hide *;
    TwoSteps(WITH_SLOT, Adopts, t, MetaOpens, WITH_META);
  }

  lemma GetsWriter()
    ensures Runs(WITH_META, [Plans, WriterStarts], WITH_WRITER)
  {
    var t := WITH_META.(pc := StartingWriters);
    assert Next(WITH_META, Plans, t);
    assert Next(t, WriterStarts, WITH_WRITER);
    hide *;
    TwoSteps(WITH_META, Plans, t, WriterStarts, WITH_WRITER);
  }

  lemma ClosesSlot()
    ensures Runs(WITH_WRITER, [AllStarted, ClosesSlotConn], TEARING)
  {
    var t := WITH_WRITER.(pc := ClosingSlotConn(Midway));
    assert Next(WITH_WRITER, AllStarted, t);
    assert Next(t, ClosesSlotConn, TEARING);
    hide *;
    TwoSteps(WITH_WRITER, AllStarted, t, ClosesSlotConn, TEARING);
  }

  lemma TearsDown()
    ensures Runs(TEARING, [Commits(true), ClosesConn], DUMPING)
  {
    var t := TEARING.(pc := ClosingConn(Midway, true));
    assert Next(TEARING, Commits(true), t);
    assert Next(t, ClosesConn, DUMPING);
    hide *;
    TwoSteps(TEARING, Commits(true), t, ClosesConn, DUMPING);
  }

  lemma ReachesDumping() returns (actions: seq<Action>)
    ensures Start(BEFORE) && Runs(BEFORE, actions, DUMPING)
  {
    hide *;
    GetsSlot();
    GetsMeta();
    GetsWriter();
    ClosesSlot();
    TearsDown();
    actions := [SlotCreated(0), Begins] + [Adopts, MetaOpens];
    RunsJoin(BEFORE, [SlotCreated(0), Begins], WITH_SLOT, [Adopts, MetaOpens], WITH_META);
    RunsJoin(BEFORE, actions, WITH_META, [Plans, WriterStarts], WITH_WRITER);
    actions := actions + [Plans, WriterStarts];
    RunsJoin(BEFORE, actions, WITH_WRITER, [AllStarted, ClosesSlotConn], TEARING);
    actions := actions + [AllStarted, ClosesSlotConn];
    RunsJoin(BEFORE, actions, TEARING, [Commits(true), ClosesConn], DUMPING);
    actions := actions + [Commits(true), ClosesConn];
  }

  /** After the tasks were sent, or were cancelled, and the writer has stopped. */
  function AfterWait(cancelled: bool): State {
    DUMPING.(err := cancelled, failed := !cancelled, meta := DEAD, pc := Unwinding,
             writers := [Writer(Session(true, Some(0)), Stopped(!cancelled))])
  }

  lemma WriterStops(cancelled: bool)
    ensures var sent := if cancelled then SendingCancelled else TablesSent;
            Runs(DUMPING, [sent, Stops(0, !cancelled)], AfterWait(cancelled).(pc := Waiting, failed := false))
  {
    var sent := if cancelled then SendingCancelled else TablesSent;
    var t := DUMPING.(err := cancelled, meta := DEAD, pc := Waiting);
    var u := AfterWait(cancelled).(pc := Waiting, failed := false);
    assert Next(DUMPING, sent, t);
    assert Next(t, Stops(0, !cancelled), u);
    hide *;
    TwoSteps(DUMPING, sent, t, Stops(0, !cancelled), u);
  }

  lemma Waits(cancelled: bool)
    ensures Runs(AfterWait(cancelled).(pc := Waiting, failed := false), [WritersDone, Unwinds],
                 AfterWait(cancelled).(pc := ClosingSlotConn(AtEnd)))
  {
    var s := AfterWait(cancelled).(pc := Waiting, failed := false);
    var t := AfterWait(cancelled);
    var u := t.(pc := ClosingSlotConn(AtEnd));
    assert s.writers[0].phase == Stopped(!cancelled);
    assert Next(s, WritersDone, t);
    assert Next(t, Unwinds, u);
    hide *;
    TwoSteps(s, WritersDone, t, Unwinds, u);
  }

  lemma CleansOrNot(cancelled: bool)
    ensures var last := if cancelled then CleansUp else SkipsCleanUp;
            Runs(AfterWait(cancelled).(pc := ClosingSlotConn(AtEnd)), [ClosesSlotConn, last],
                 AfterWait(cancelled).(pc := Returned, drops := if cancelled then [false] else []))
  {
    var last := if cancelled then CleansUp else SkipsCleanUp;
    var s := AfterWait(cancelled).(pc := ClosingSlotConn(AtEnd));
    var t := AfterWait(cancelled).(pc := CleaningUp);
    var u := AfterWait(cancelled).(pc := Returned, drops := if cancelled then [false] else []);
    assert s.server.live - {0} == s.server.live && [] + [false] == [false];
    assert Next(s, ClosesSlotConn, t);
    assert Next(t, last, u);
    hide *;
    TwoSteps(s, ClosesSlotConn, t, last, u);
  }

  lemma ReachesEnd(cancelled: bool) returns (actions: seq<Action>, t: State)
    ensures Start(BEFORE) && Runs(BEFORE, actions, t)
    ensures t.pc == Returned && t.cfg.cleanup && t.ctl.cdcSlot && t.failed == !cancelled
    ensures t.drops == if cancelled then [false] else []
  {
    actions := ReachesDumping();
    WriterStops(cancelled);
    Waits(cancelled);
    CleansOrNot(cancelled);
    t := AfterWait(cancelled).(pc := Returned, drops := if cancelled then [false] else []);
    var sent := if cancelled then SendingCancelled else TablesSent;
    var last := if cancelled then CleansUp else SkipsCleanUp;
    var s1 := AfterWait(cancelled).(pc := Waiting, failed := false);
    var s2 := AfterWait(cancelled).(pc := ClosingSlotConn(AtEnd));
    hide Runs, Start;
    RunsJoin(BEFORE, actions, DUMPING, [sent, Stops(0, !cancelled)], s1);
    actions := actions + [sent, Stops(0, !cancelled)];
    RunsJoin(BEFORE, actions, s1, [WritersDone, Unwinds], s2);
    actions := actions + [WritersDone, Unwinds];
    RunsJoin(BEFORE, actions, s2, [ClosesSlotConn, last], t);
    actions := actions + [ClosesSlotConn, last];
  }

  /** A dump can fail and keep its slot, although its clean-up was asked for. */
  lemma FailedDumpCanKeepSlot() returns (actions: seq<Action>, t: State)
    ensures Start(BEFORE) && Runs(BEFORE, actions, t)
    ensures t.pc == Returned && t.failed && t.cfg.cleanup && t.ctl.cdcSlot && t.drops == []
  {
    hide *;
    actions, t := ReachesEnd(false);
  }

  /** And a dump that is cancelled while it still sends tasks can return no error,
      and drop its slot. */
  lemma CancelledDumpSucceeds() returns (actions: seq<Action>, t: State)
    ensures Start(BEFORE) && Runs(BEFORE, actions, t)
    ensures t.pc == Returned && !t.failed && t.drops == [false]
  {
    hide *;
    actions, t := ReachesEnd(true);
  }
}
