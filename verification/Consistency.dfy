/** The snapshot controller of `consistency.go`, method by method. Each call is a
    run of the state machine of `Snapshot`, over which the promises are proved. */
module Consistency {
  import opened Common
  import opened Snapshot

  /** The database server, the token published to this process, and for every DROP
      of a slot whether the replication connection was open. */
  class Database {
    var now: Server
    var published: Option<Token>
    ghost var drops: seq<bool>

    constructor (now: Server, published: Option<Token>)
      ensures this.now == now && this.published == published && drops == []
    {
      this.now, this.published, drops := now, published, [];
    }

    /** A snapshot exported over a connection, which may be lost by the time the
        token is there. */
    method Export(token: Token, connected: bool) returns (ok: bool)
      modifies this`now
      ensures now == if ok then Server(if connected then old(now).live + {token} else old(now).live, old(now).issued + {token})
                     else old(now)
    {
      ok := *;
      if ok {
        now := Server(if connected then now.live + {token} else now.live, now.issued + {token});
      }
    }

    /** The exporter's transaction or connection ends. */
    method End(token: Option<Token>)
      modifies this`now
      ensures now == EndExport(old(now), token)
    {
      now := EndExport(now, token);
    }

    /** SET TRANSACTION SNAPSHOT: refused for a token whose exporter has ended. */
    method Adopt(token: Token) returns (ok: bool)
      ensures ok ==> token in now.live
    {
      ok := *;
      ok := ok && token in now.live;
    }

    method DropSlot(ghost creatorOpen: bool) returns (ok: bool)
      modifies this`drops
      ensures drops == old(drops) + [creatorOpen]
    {
      drops := drops + [creatorOpen];
      ok := *;
    }
  }

  /** Which snapshot is used, by whether a slot is asked for and a token given. */
  function SourceOf(slot: bool, given: Option<Token>): Source {
    if given.Some? then User(given.value) else if slot then Slot else Own
  }

  class ConsistencySnapshot {
    const db: Database
    const wantsSlot: bool
    const given: Option<Token>
    const cfg: Config
    /** `conn`, when it is not nil, and whether it is alive. */
    var conn: Option<bool>
    /** `cdcConn` and `cdcSlot` are not nil. */
    var cdcConn: bool
    var cdcSlot: bool
    /** `conf.Snapshot`: given by the user, or set here. */
    var snapshot: Option<Token>

    /** The controller as the state machine sees it. */
    ghost predicate At(s: State)
      reads this, db
    {
      && cfg.source == SourceOf(wantsSlot, given)
      && s.cfg == cfg && s.ctl == Controller(conn, cdcConn, cdcSlot, snapshot)
      && s.server == db.now && s.token == db.published && s.drops == db.drops
    }

    constructor (db: Database, wantsSlot: bool, given: Option<Token>, cleanup: bool, transactional: bool, threads: nat)
      ensures this.db == db && cfg == Config(SourceOf(wantsSlot, given), cleanup, transactional, threads)
      ensures forall s: State :: s.cfg == cfg && Start(s) && s.server == db.now && s.token == db.published && db.drops == [] ==> At(s)
    {
      this.db, this.wantsSlot, this.given, snapshot := db, wantsSlot, given, given;
      cfg := Config(SourceOf(wantsSlot, given), cleanup, transactional, threads);
      conn, cdcConn, cdcSlot := Some(true), false, false;
    }

    /** `Setup`, with the two tokens the server would issue next: a run from the
        start to where the dump goes on, with the snapshot published and adoptable,
        or to the return of an error. */
    method Setup(slotToken: Token, ownToken: Token, ghost s: State)
        returns (ok: bool, ghost actions: seq<Action>, ghost t: State)
      requires Start(s) && At(s)
      requires slotToken !in db.now.issued && ownToken !in db.now.issued
      modifies this`cdcConn, this`cdcSlot, this`snapshot, db`now, db`published
      ensures Runs(s, actions, t) && At(t)
      ensures t.pc == (if ok then OpeningMeta else Returned) && t.failed == !ok
      ensures ok ==> snapshot == Some(if given.Some? then given.value else if wantsSlot then slotToken else ownToken)
      ensures ok ==> db.published == snapshot && snapshot.value in db.now.live
    {
      StartIs(s);
      hide Runs, Start, Do, Enabled, MainEnabled, SetupDo, InSetup;
      t, actions := s, [];
      NoSteps(s);
      if wantsSlot && snapshot.None? {
        var created := db.Export(slotToken, true);
        if !created {
          actions, t := SetupFailed(s, actions, t);
          return false, actions, t;
        }
        cdcConn, cdcSlot, snapshot := true, true, Some(slotToken);
        actions, t := SlotMade(s, actions, t, slotToken);
      }
      var begun: bool := *;
      if !begun {
        actions, t := SetupFailed(s, actions, t);
        return false, actions, t;
      }
      actions, t := Begun(s, actions, t);
      if snapshot.Some? {
        ok := db.Adopt(snapshot.value);
        if ok {
          db.published := snapshot;
          actions, t := Adopted(s, actions, t);
        } else {
          actions, t := SetupFailed(s, actions, t);
        }
        return;
      }
      ok := db.Export(ownToken, conn == Some(true));
      if ok {
        snapshot := Some(ownToken);
        db.published := snapshot;
        actions, t := TokenExported(s, actions, t, ownToken);
      } else {
        actions, t := SetupFailed(s, actions, t);
      }
    }

    /** `TearDown`: a run that ends with both connections closed whatever the COMMIT
        returns; a further call changes nothing. */
    method TearDown(ghost s: State) returns (ok: bool, ghost actions: seq<Action>, ghost t: State)
      requires At(s) && s.pc.ClosingSlotConn?
      modifies this`conn, this`cdcConn, db`now
      ensures Runs(s, actions, t) && At(t) && TornDown(t)
      ensures t == AfterTearDown(s.(ctl := t.ctl, server := t.server), s.pc.when, ok)
      ensures db.now == EndExport(EndExport(old(db.now), SlotExport(s)), if old(conn).None? then None else ConnExport(s))
      ensures old(conn).None? ==> ok
    {
      hide Runs, AfterTearDown;
      db.End(if cfg.source == Slot then snapshot else None);
      cdcConn := false;
      if conn.None? {
        ClosedParts(s, true);
        actions, t := OneClosed(s);
        return true, actions, t;
      }
      ok := *;
      ok := ok && conn == Some(true);
      db.End(if cfg.source == Own then snapshot else None);
      conn := None;
      ClosedParts(s, ok);
      actions, t := BothClosed(s, ok);
    }

    /** `OnFailure`: a DROP exactly when a slot was made and its clean-up asked for,
        and never while the replication connection is open. */
    method OnFailure(ghost s: State) returns (ok: bool, ghost a: Action, ghost t: State)
      requires At(s) && s.pc == CleaningUp && s.err
      modifies this`cdcConn, db`now, db`drops
      ensures Runs(s, [a], t) && At(t) && t.pc == Returned && (TornDown(s) ==> TornDown(t))
      ensures db.drops == old(db.drops) + if old(cdcSlot) && cfg.cleanup then [false] else []
      ensures db.now == if old(cdcSlot) && cfg.cleanup then EndExport(old(db.now), SlotExport(s)) else old(db.now)
    {
      hide Runs;
      NoSteps(s);
      ghost var actions: seq<Action>;
      if !cdcSlot || !cfg.cleanup {
        a := SkipsCleanUp;
        actions, t := TearDownStep(s, [], s, a);
        assert [] + [a] == [a];
        return true, a, t;
      }
      db.End(if cfg.source == Slot then snapshot else None);
      cdcConn := false;
      ok := db.DropSlot(cdcConn);
      a := CleansUp;
      actions, t := TearDownStep(s, [], s, a);
      assert [] + [a] == [a];
    }

    /** `PingContext`: an error once the connection is gone. */
    method PingContext() returns (ok: bool)
      ensures !conn.Some? ==> !ok
    {
      if conn.None? {
        return false;
      }
      ok := *;
    }

    /** The deferred calls of `Dump`: tear-down, a second one if the dump has torn
        down early, and the clean-up when `err` is set. */
    method Deferred(err: bool, ghost s: State) returns (ghost actions: seq<Action>, ghost t: State)
      requires At(s) && s.pc == ClosingSlotConn(AtEnd) && s.err == err
      modifies this`conn, this`cdcConn, db`now, db`drops
      ensures Runs(s, actions, t) && At(t) && TornDown(t) && t.pc == Returned
      ensures db.drops == old(db.drops) + if err && cdcSlot && cfg.cleanup then [false] else []
      ensures Inv(s) && TornDown(s) ==> db.now == old(db.now)
    {
      hide Runs;
      var ok;
      ok, actions, t := TearDown(s);
      if err {
        ghost var a;
        ghost var u;
        ok, a, u := OnFailure(t);
        RunsJoin(s, actions, t, [a], u);
        actions, t := actions + [a], u;
      } else {
        actions, t := TearDownStep(s, actions, t, SkipsCleanUp);
      }
    }
  }

  // ---- runs, one step longer ----

  lemma NoSteps(s: State)
    ensures Runs(s, [], s)
  {
  }

  lemma OneMore(s: State, before: seq<Action>, t: State, a: Action)
    requires Runs(s, before, t) && Enabled(t, a)
    ensures Runs(s, before + [a], Do(t, a))
  {
    hide *;
    hide Next;
    StepIs(t, a);
    OneStep(t, a, Do(t, a));
    RunsJoin(s, before, t, [a], Do(t, a));
  }

  lemma StepIs(t: State, a: Action)
    requires Enabled(t, a)
    ensures Next(t, a, Do(t, a))
  {
  }

  lemma SetupStep(s: State, before: seq<Action>, t: State, a: Action) returns (actions: seq<Action>, u: State)
    requires Runs(s, before, t) && MainEnabled(t, a) && InSetup(a)
    ensures actions == before + [a] && u == SetupDo(t, a) && Runs(s, actions, u)
  {
    actions, u := before + [a], SetupDo(t, a);
    assert !OtherEnabled(t, a);
    hide Runs;
    OneMore(s, before, t, a);
  }

  lemma TearDownStep(s: State, before: seq<Action>, t: State, a: Action) returns (actions: seq<Action>, u: State)
    requires Runs(s, before, t) && MainEnabled(t, a) && InTearDown(a)
    ensures actions == before + [a] && u == TearDownDo(t, a) && Runs(s, actions, u)
  {
    actions, u := before + [a], TearDownDo(t, a);
    assert !OtherEnabled(t, a) && !InSetup(a);
    hide Runs;
    OneMore(s, before, t, a);
  }

  // ---- the steps of a set-up ----

  lemma StartIs(s: State)
    requires Start(s)
    ensures s.pc == (if s.cfg.source == Slot then CreatingSlot else Beginning) && !s.failed
    ensures s.ctl == Controller(Some(true), false, false, if s.cfg.source.User? then Some(s.cfg.source.token) else None)
  {
  }

  lemma SetupFailed(s: State, before: seq<Action>, t: State) returns (actions: seq<Action>, u: State)
    requires Runs(s, before, t) && InSetupPc(t.pc)
    ensures Runs(s, actions, u) && u == t.(pc := Returned, failed := true)
  {
    hide Runs;
    actions, u := SetupStep(s, before, t, SetupFails);
  }

  lemma SlotMade(s: State, before: seq<Action>, t: State, token: Token) returns (actions: seq<Action>, u: State)
    requires Runs(s, before, t) && t.pc == CreatingSlot && token !in t.server.issued
    ensures Runs(s, actions, u)
    ensures u == t.(ctl := t.ctl.(cdcOpen := true, cdcSlot := true, snapshot := Some(token)),
                    server := Server(t.server.live + {token}, t.server.issued + {token}), pc := Beginning)
  {
    hide Runs;
    actions, u := SetupStep(s, before, t, SlotCreated(token));
  }

  lemma Begun(s: State, before: seq<Action>, t: State) returns (actions: seq<Action>, u: State)
    requires Runs(s, before, t) && t.pc == Beginning
    ensures Runs(s, actions, u) && u == t.(pc := if t.cfg.source == Own then Exporting else Adopting)
  {
    hide Runs;
    actions, u := SetupStep(s, before, t, Begins);
  }

  lemma Adopted(s: State, before: seq<Action>, t: State) returns (actions: seq<Action>, u: State)
    requires Runs(s, before, t) && t.pc == Adopting && t.ctl.snapshot.Some? && t.ctl.snapshot.value in t.server.live
    ensures Runs(s, actions, u) && u == t.(token := t.ctl.snapshot, pc := OpeningMeta)
  {
    hide Runs;
    actions, u := SetupStep(s, before, t, Adopts);
  }

  lemma TokenExported(s: State, before: seq<Action>, t: State, token: Token) returns (actions: seq<Action>, u: State)
    requires Runs(s, before, t) && t.pc == Exporting && token !in t.server.issued
    ensures Runs(s, actions, u)
    ensures u == t.(ctl := t.ctl.(snapshot := Some(token)), token := Some(token), pc := OpeningMeta,
                    server := Server(if t.ctl.conn == Some(true) then t.server.live + {token} else t.server.live,
                                     t.server.issued + {token}))
  {
    hide Runs;
    actions, u := SetupStep(s, before, t, Exports(token));
  }

  // ---- the runs of a tear-down ----

  /** What a tear-down makes of controller and server. */
  function Closed(s: State): State {
    s.(ctl := s.ctl.(conn := None, cdcOpen := false),
       server := EndExport(EndExport(s.server, SlotExport(s)), if s.ctl.conn.None? then None else ConnExport(s)))
  }

  lemma ClosedParts(s: State, ok: bool)
    requires s.pc.ClosingSlotConn?
    ensures var t := AfterTearDown(Closed(s), s.pc.when, ok);
            TornDown(t) && t == AfterTearDown(s.(ctl := t.ctl, server := t.server), s.pc.when, ok)
            && t.ctl == Closed(s).ctl && t.server == Closed(s).server && t.cfg == s.cfg && t.token == s.token && t.drops == s.drops
  {
  }

  lemma OneClosed(s: State) returns (actions: seq<Action>, t: State)
    requires s.pc.ClosingSlotConn? && s.ctl.conn.None?
    ensures Runs(s, actions, t) && t == AfterTearDown(Closed(s), s.pc.when, true)
  {
    NoSteps(s);
    hide Runs, AfterTearDown;
    actions, t := TearDownStep(s, [], s, ClosesSlotConn);
  }

  lemma SlotClosed(s: State)
    requires s.pc.ClosingSlotConn? && s.ctl.conn.Some?
    ensures MainEnabled(s, ClosesSlotConn)
    ensures TearDownDo(s, ClosesSlotConn)
         == s.(ctl := s.ctl.(cdcOpen := false), server := EndExport(s.server, SlotExport(s)), pc := Committing(s.pc.when))
  {
  }

  lemma ConnClosed(s: State, ok: bool)
    requires s.pc.Committing? && s.ctl.conn.Some? && (ok ==> s.ctl.conn == Some(true))
    ensures MainEnabled(s, Commits(ok))
    ensures var t := TearDownDo(s, Commits(ok));
            && MainEnabled(t, ClosesConn)
            && TearDownDo(t, ClosesConn)
               == AfterTearDown(s.(server := EndExport(s.server, ConnExport(s)), ctl := s.ctl.(conn := None)), s.pc.when, ok)
  {
  }

  lemma BothClosed(s: State, ok: bool) returns (actions: seq<Action>, t: State)
    requires s.pc.ClosingSlotConn? && s.ctl.conn.Some? && (ok ==> s.ctl.conn == Some(true))
    ensures Runs(s, actions, t) && t == AfterTearDown(Closed(s), s.pc.when, ok)
  {
    NoSteps(s);
    hide Runs, MainEnabled, TearDownDo, EndExport;
    SlotClosed(s);
    actions, t := TearDownStep(s, [], s, ClosesSlotConn);
    ConnClosed(t, ok);
    actions, t := TearDownStep(s, actions, t, Commits(ok));
    actions, t := TearDownStep(s, actions, t, ClosesConn);
  }
}
