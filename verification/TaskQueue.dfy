/** The unbounded task channel (`infiniteChan` of `util.go`) between the thread
    that makes tasks and the writers that take them (`Writer.run`). The channels
    have no buffer: a send and its receive are one step. */
module TaskQueue {
  import opened Common

  type Task = nat

  /** Where the goroutine of the channel stands: in its loop, sending the rest of
      `q` from index `k` on, or done with the output closed. */
  datatype Phase = Looping | Flushing(k: nat) | Closed

  datatype WriterState = Idle | Handling(task: Task) | Stopped

  /** `toSend` is what the sender has left; `received` and `output` what has gone
      in and out of the channel; `handled` the tasks finished, `lost` those whose
      writer failed on them; `abandoned` that sending failed and nobody will close
      the input any more. */
  datatype State = State(
    toSend: seq<Task>, inClosed: bool,
    q: seq<Task>, phase: Phase, received: seq<Task>, output: seq<Task>,
    writers: seq<WriterState>, handled: multiset<Task>, lost: multiset<Task>, broken: bool,
    abandoned: bool)

  /** `GivesUp` is a cancelled sender, which still closes the input; `Abandons` one
      that returns its error at once. */
  datatype Action =
    | SendsIn | ClosesIn | GivesUp | Abandons
    | SendsOut(i: nat) | SeesClosed | ClosesOut
    | Finishes(i: nat) | Stops(i: nat)
    | Fails(i: nat) | SeesDone(i: nat)

  /** What the channel still owes. */
  function Owed(s: State): seq<Task>
    requires s.phase.Flushing? ==> s.phase.k <= |s.q|
  {
    match s.phase
    case Looping => s.q
    case Flushing(k) => s.q[k..]
    case Closed => []
  }

  predicate Enabled(s: State, a: Action) {
    match a
    case SendsIn => s.toSend != [] && !s.inClosed && !s.abandoned && s.phase == Looping
    case ClosesIn => s.toSend == [] && !s.inClosed && !s.abandoned
    case GivesUp => !s.inClosed && !s.abandoned
    case Abandons => !s.inClosed && !s.abandoned
    case SendsOut(i) =>
      && i < |s.writers| && s.writers[i] == Idle
      && (s.phase == Looping ==> s.q != []) && (s.phase.Flushing? ==> s.phase.k < |s.q|) && s.phase != Closed
    case SeesClosed => s.phase == Looping && s.inClosed
    case ClosesOut => s.phase.Flushing? && s.phase.k >= |s.q|
    case Finishes(i) => i < |s.writers| && s.writers[i].Handling?
    case Stops(i) => i < |s.writers| && s.writers[i] == Idle && s.phase == Closed
    case Fails(i) => i < |s.writers| && s.writers[i].Handling?
    case SeesDone(i) => i < |s.writers| && s.writers[i] == Idle
  }

  function Do(s: State, a: Action): State
    requires Enabled(s, a)
  {
    match a
    case SendsIn => s.(q := s.q + [s.toSend[0]], received := s.received + [s.toSend[0]], toSend := s.toSend[1..])
    case ClosesIn => s.(inClosed := true)
    case GivesUp => s.(inClosed := true, broken := true)
    case Abandons => s.(abandoned := true, broken := true)
    case SendsOut(i) =>
      if s.phase.Flushing? then
        var k := s.phase.k;
        s.(output := s.output + [s.q[k]], phase := Flushing(k + 1), writers := s.writers[i := Handling(s.q[k])])
      else
        s.(output := s.output + [s.q[0]], q := s.q[1..], writers := s.writers[i := Handling(s.q[0])])
    case SeesClosed => s.(phase := Flushing(0))
    case ClosesOut => s.(phase := Closed)
    case Finishes(i) => s.(writers := s.writers[i := Idle], handled := s.handled + multiset{s.writers[i].task})
    case Stops(i) => s.(writers := s.writers[i := Stopped])
    case Fails(i) => s.(writers := s.writers[i := Stopped], lost := s.lost + multiset{s.writers[i].task}, broken := true)
    case SeesDone(i) => s.(writers := s.writers[i := Stopped], broken := true)
  }

  predicate Start(s: State) {
    && !s.inClosed && s.q == [] && s.phase == Looping && s.received == [] && s.output == []
    && (forall i :: 0 <= i < |s.writers| ==> s.writers[i] == Idle)
    && s.handled == multiset{} && s.lost == multiset{} && !s.broken && !s.abandoned
  }

  // ---- the channel is a queue ----

  /** What went out and what is owed is what came in, in order. */
  predicate Fifo(s: State, all: seq<Task>) {
    && (s.phase.Flushing? ==> s.phase.k <= |s.q|)
    && s.output + Owed(s) == s.received
    && s.received + s.toSend == all
    && (s.phase != Looping ==> s.inClosed)
    && (s.inClosed && !s.broken ==> s.toSend == [])
  }

  lemma FifoStep(s: State, a: Action, all: seq<Task>)
    requires Fifo(s, all) && Enabled(s, a)
    ensures Fifo(Do(s, a), all)
  {
    match a
    case SendsIn =>
      Regroup(s.output, s.q, [s.toSend[0]]);
      Regroup(s.received, [s.toSend[0]], s.toSend[1..]);
      assert s.toSend == [s.toSend[0]] + s.toSend[1..];
    case SendsOut(i) =>
      var owed := Owed(s);
      assert owed == [owed[0]] + owed[1..];
      Regroup(s.output, [owed[0]], owed[1..]);
      assert Owed(Do(s, a)) == owed[1..];
    case SeesClosed => assert s.q[0..] == s.q;
    case ClosesOut => assert Owed(s) == [];
    case _ =>
  }

  // ---- every task is in one place ----

  function Holds(w: WriterState, t: Task): nat {
    if w == Handling(t) then 1 else 0
  }

  /** How many writers have `t` in their hands. */
  function InHands(ws: seq<WriterState>, t: Task): nat {
    if ws == [] then 0 else Holds(ws[0], t) + InHands(ws[1..], t)
  }

  lemma {:induction false} HandsUpdate(ws: seq<WriterState>, i: nat, w: WriterState, t: Task)
    requires i < |ws|
    ensures InHands(ws[i := w], t) + Holds(ws[i], t) == InHands(ws, t) + Holds(w, t)
  {
    if i == 0 {
      assert ws[0 := w][1..] == ws[1..];
    } else {
      assert ws[i := w][1..] == ws[1..][i - 1 := w];
      HandsUpdate(ws[1..], i - 1, w, t);
    }
  }

  lemma {:induction false} IdleHands(ws: seq<WriterState>, t: Task)
    requires forall i :: 0 <= i < |ws| ==> !ws[i].Handling?
    ensures InHands(ws, t) == 0
  {
    if ws != [] {
      IdleHands(ws[1..], t);
    }
  }

  predicate AccountedFor(s: State, t: Task) {
    s.handled[t] + s.lost[t] + InHands(s.writers, t) == multiset(s.output)[t]
  }

  /** Each task put out has been finished, failed on, or is in one writer's hands. */
  ghost predicate Accounted(s: State) {
    && (forall t :: AccountedFor(s, t))
    && (!s.broken ==> s.lost == multiset{})
  }

  lemma PutOut(output: seq<Task>, x: Task, t: Task)
    ensures multiset(output + [x])[t] == multiset(output)[t] + if x == t then 1 else 0
  {
    assert multiset(output + [x]) == multiset(output) + multiset{x};
  }

  lemma TaskGoesOut(s: State, i: nat) returns (x: Task)
    requires Enabled(s, SendsOut(i))
    ensures i < |s.writers| && s.writers[i] == Idle
    ensures Do(s, SendsOut(i)).output == s.output + [x]
    ensures Do(s, SendsOut(i)).writers == s.writers[i := Handling(x)]
    ensures Do(s, SendsOut(i)).handled == s.handled && Do(s, SendsOut(i)).lost == s.lost
  {
    x := if s.phase.Flushing? then s.q[s.phase.k] else s.q[0];
  }

  lemma SentOutAccounted(s: State, i: nat, t: Task)
    requires AccountedFor(s, t) && Enabled(s, SendsOut(i))
    ensures AccountedFor(Do(s, SendsOut(i)), t)
  {
    hide Do, Enabled, InHands;
    var x := TaskGoesOut(s, i);
    HandsUpdate(s.writers, i, Handling(x), t);
    PutOut(s.output, x, t);
  }

  lemma WriterAccounted(s: State, a: Action, t: Task)
    requires a.Finishes? || a.Stops? || a.Fails? || a.SeesDone?
    requires AccountedFor(s, t) && Enabled(s, a)
    ensures AccountedFor(Do(s, a), t)
  {
    HandsUpdate(s.writers, a.i, Do(s, a).writers[a.i], t);
    hide InHands;
  }

  lemma TaskAccounted(s: State, a: Action, t: Task)
    requires AccountedFor(s, t) && Enabled(s, a)
    ensures AccountedFor(Do(s, a), t)
  {
    hide InHands;
    match a
    case SendsOut(i) => SentOutAccounted(s, i, t);
    case Finishes(_) => WriterAccounted(s, a, t);
    case Stops(_) => WriterAccounted(s, a, t);
    case Fails(_) => WriterAccounted(s, a, t);
    case SeesDone(_) => WriterAccounted(s, a, t);
    case _ =>
  }

  lemma AccountedStep(s: State, a: Action)
    requires Accounted(s) && Enabled(s, a)
    ensures Accounted(Do(s, a))
  {
    hide AccountedFor;
    forall t ensures AccountedFor(Do(s, a), t) {
      assert AccountedFor(s, t);
      TaskAccounted(s, a, t);
    }
  }

  /** Without an error or a cancellation writers stop only behind the last task. */
  predicate StopsLast(s: State) {
    !s.broken ==> forall i :: 0 <= i < |s.writers| ==> s.writers[i] == Stopped ==> s.phase == Closed
  }

  lemma StopsLastStep(s: State, a: Action)
    requires StopsLast(s) && Enabled(s, a)
    ensures StopsLast(Do(s, a))
  {
  }

  ghost predicate Inv(s: State, all: seq<Task>) {
    Fifo(s, all) && Accounted(s) && StopsLast(s)
  }

  lemma StartInv(s: State)
    requires Start(s)
    ensures Inv(s, s.toSend)
  {
    forall t ensures AccountedFor(s, t) {
      IdleHands(s.writers, t);
    }
  }

  lemma StepInv(s: State, a: Action, all: seq<Task>)
    requires Inv(s, all) && Enabled(s, a)
    ensures Inv(Do(s, a), all)
  {
    FifoStep(s, a, all);
    AccountedStep(s, a);
    StopsLastStep(s, a);
    hide Fifo, Accounted, StopsLast, Do, Enabled;
  }

  predicate Runs(s: State, actions: seq<Action>, t: State)
    decreases |actions|
  {
    if actions == [] then s == t
    else Enabled(s, actions[0]) && Runs(Do(s, actions[0]), actions[1..], t)
  }

  lemma {:induction false} RunInv(s: State, actions: seq<Action>, t: State, all: seq<Task>)
    requires Inv(s, all) && Runs(s, actions, t)
    ensures Inv(t, all)
    decreases |actions|
  {
    hide Inv, Enabled, Do;
    if actions != [] {
      StepInv(s, actions[0], all);
      RunInv(Do(s, actions[0]), actions[1..], t, all);
    }
  }

  predicate AllStopped(s: State) {
    |s.writers| > 0 && forall i :: 0 <= i < |s.writers| ==> s.writers[i] == Stopped
  }

  /** At every step of every run tasks come out in the order they went in, each is
      with one writer at most, and when all writers have stopped, without an error
      or a cancellation, each task sent has been handled exactly once. */
  lemma EachTaskOnce(s: State, actions: seq<Action>, t: State)
    requires Start(s) && Runs(s, actions, t)
    ensures t.output <= t.received <= s.toSend
    ensures forall x :: t.handled[x] + InHands(t.writers, x) <= multiset(t.output)[x]
    ensures AllStopped(t) && !t.broken ==> t.output == s.toSend && t.handled == multiset(s.toSend)
  {
    StartInv(s);
    hide Runs, Start, InHands;
    RunInv(s, actions, t, s.toSend);
    forall x ensures t.handled[x] + InHands(t.writers, x) <= multiset(t.output)[x] {
      assert AccountedFor(t, x);
    }
    if AllStopped(t) && !t.broken {
      assert t.writers[0] == Stopped;
      assert t.output + [] == t.output && t.received + [] == t.received;
      forall x ensures t.handled[x] == multiset(t.output)[x] {
        assert AccountedFor(t, x);
        IdleHands(t.writers, x);
      }
    }
  }

  // ---- progress ----

  predicate Regular(a: Action) {
    !(a.GivesUp? || a.Abandons? || a.Fails? || a.SeesDone?)
  }

  /** Sending has failed, the channel has handed out all it had and waits for an
      input that will not be closed. */
  predicate LeftWaiting(s: State) {
    && s.abandoned && !s.inClosed && s.phase == Looping && s.q == []
    && forall i :: 0 <= i < |s.writers| ==> !s.writers[i].Handling?
  }

  /** While a writer is left, something can go on without an error or a
      cancellation, except for writers left waiting by a sender that failed; those
      can still see the end of the context. */
  lemma NeverStuck(s: State, all: seq<Task>, i: nat)
    requires Inv(s, all) && i < |s.writers| && s.writers[i] != Stopped
    ensures (exists a :: Enabled(s, a) && Regular(a)) <==> !LeftWaiting(s)
    ensures LeftWaiting(s) ==> Enabled(s, SeesDone(i))
  {
    hide Inv;
    if !LeftWaiting(s) {
      assert Fifo(s, all) by { InvFifo(s, all); }
      if j: nat :| j < |s.writers| && s.writers[j].Handling? {
        assert Enabled(s, Finishes(j)) && Regular(Finishes(j));
      } else {
        var a :=
          if s.phase == Closed then Stops(i)
          else if s.phase.Flushing? then (if s.phase.k < |s.q| then SendsOut(i) else ClosesOut)
          else if s.inClosed then SeesClosed
          else if s.q != [] then SendsOut(i)
          else if s.toSend != [] then SendsIn
          else ClosesIn;
        assert Enabled(s, a) && Regular(a);
      }
    }
  }

  lemma InvFifo(s: State, all: seq<Task>)
    requires Inv(s, all)
    ensures Fifo(s, all)
  {
  }

  function Busy(w: WriterState): nat {
    match w
    case Handling(_) => 2
    case Idle => 1
    case Stopped => 0
  }

  function AllBusy(ws: seq<WriterState>): nat {
    if ws == [] then 0 else Busy(ws[0]) + AllBusy(ws[1..])
  }

  lemma {:induction false} BusyUpdate(ws: seq<WriterState>, i: nat, w: WriterState)
    requires i < |ws|
    ensures AllBusy(ws[i := w]) + Busy(ws[i]) == AllBusy(ws) + Busy(w)
  {
    if i == 0 {
      assert ws[0 := w][1..] == ws[1..];
    } else {
      assert ws[i := w][1..] == ws[1..][i - 1 := w];
      BusyUpdate(ws[1..], i - 1, w);
    }
  }

  function PhaseRank(p: Phase): nat {
    match p
    case Looping => 2
    case Flushing(_) => 1
    case Closed => 0
  }

  predicate InQueue(s: State) {
    s.phase.Flushing? ==> s.phase.k <= |s.q|
  }

  function Measure(s: State): nat
    requires InQueue(s)
  {
    3 * |s.toSend| + (if s.inClosed then 0 else 1) + (if s.abandoned then 0 else 1)
    + 2 * |Owed(s)| + PhaseRank(s.phase) + AllBusy(s.writers)
  }

  lemma StaysInQueue(s: State, a: Action)
    requires InQueue(s) && Enabled(s, a)
    ensures InQueue(Do(s, a))
  {
  }

  lemma WriterFalls(s: State, a: Action)
    requires a.Finishes? || a.Stops? || a.Fails? || a.SeesDone?
    requires InQueue(s) && Enabled(s, a) && InQueue(Do(s, a))
    ensures Measure(Do(s, a)) < Measure(s)
  {
    BusyUpdate(s.writers, a.i, Do(s, a).writers[a.i]);
    hide AllBusy;
  }

  lemma SendFalls(s: State, i: nat)
    requires InQueue(s) && Enabled(s, SendsOut(i)) && InQueue(Do(s, SendsOut(i)))
    ensures Measure(Do(s, SendsOut(i))) < Measure(s)
  {
    BusyUpdate(s.writers, i, Do(s, SendsOut(i)).writers[i]);
    hide AllBusy;
  }

  /** Every step, an irregular one too, brings the end nearer. */
  lemma MeasureFalls(s: State, a: Action, all: seq<Task>)
    requires Inv(s, all) && Enabled(s, a)
    ensures InQueue(s) && InQueue(Do(s, a)) && Measure(Do(s, a)) < Measure(s)
  {
    InvFifo(s, all);
    assert InQueue(s) by { hide Enabled, Do, Inv; }
    hide Inv, Fifo;
    StaysInQueue(s, a);
    if a.Finishes? || a.Stops? || a.Fails? || a.SeesDone? {
      hide *;
      WriterFalls(s, a);
    } else if a.SendsOut? {
      hide *;
      SendFalls(s, a.i);
    } else {
      hide AllBusy;
    }
  }
}
