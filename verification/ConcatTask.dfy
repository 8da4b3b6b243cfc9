/** `buildConcatTask` of `dump.go`: the chunk queries of a table, produced by one
    goroutine through a bounded channel, gathered into a single task. */
module ConcatTask {
  import opened Common

  const CAPACITY := 128

  datatype Query = Query(text: string, colLen: int)

  datatype Outcome = Nothing | Chunk(queries: seq<string>) | Failed

  datatype Pc = Selecting | Draining | Done(outcome: Outcome)

  /** `ends` says how the producer's error channel ends: not yet, closed, or with an error in it. */
  datatype ErrChannel = Empty | ClosedEmpty | HoldsError

  datatype State = State(todo: seq<Query>, willFail: bool, tableChan: seq<Query>, errCh: ErrChannel, gathered: seq<Query>, pc: Pc)

  datatype Action = Sends | Ends | Takes | SeesError | SeesClosed | Drains | Decides

  predicate Enabled(s: State, a: Action) {
    match a
    case Sends => s.todo != [] && s.errCh == Empty && |s.tableChan| < CAPACITY
    case Ends => s.todo == [] && s.errCh == Empty
    case Takes => s.pc == Selecting && s.tableChan != []
    case SeesError => s.pc == Selecting && s.errCh == HoldsError
    case SeesClosed => s.pc == Selecting && s.errCh == ClosedEmpty
    case Drains => s.pc == Draining && s.tableChan != []
    case Decides => s.pc == Draining && s.tableChan == []
  }

  function Texts(queries: seq<Query>): seq<string> {
    seq(|queries|, i requires 0 <= i < |queries| => queries[i].text)
  }

  predicate SameWidth(queries: seq<Query>) {
    forall i :: 0 <= i < |queries| ==> queries[i].colLen == queries[0].colLen
  }

  /** A task of several queries, unless there is nothing to join or their columns differ. */
  function Joined(queries: seq<Query>): Outcome {
    if |queries| > 1 && SameWidth(queries) then Chunk(Texts(queries)) else Nothing
  }

  function Do(s: State, a: Action): State
    requires Enabled(s, a)
  {
    match a
    case Sends => s.(tableChan := s.tableChan + [s.todo[0]], todo := s.todo[1..])
    case Ends => s.(errCh := if s.willFail then HoldsError else ClosedEmpty)
    case Takes => s.(gathered := s.gathered + [s.tableChan[0]], tableChan := s.tableChan[1..])
    case SeesError => s.(errCh := Empty, pc := Done(Failed))
    case SeesClosed => s.(pc := Draining)
    case Drains => s.(gathered := s.gathered + [s.tableChan[0]], tableChan := s.tableChan[1..])
    case Decides => s.(pc := Done(Joined(s.gathered)))
  }

  predicate Start(s: State) {
    s.tableChan == [] && s.errCh == Empty && s.gathered == [] && s.pc == Selecting
  }

  /** No query is lost between the two goroutines, and the order stays. */
  predicate Inv(s: State, all: seq<Query>) {
    && (s.pc != Done(Failed) ==> s.gathered + (s.tableChan + s.todo) == all)
    && (s.errCh != Empty ==> s.todo == [] && (s.errCh == HoldsError <==> s.willFail))
    && (s.pc == Draining ==> s.errCh == ClosedEmpty)
    && (s.pc.Done? ==> if s.pc.outcome == Failed then s.willFail else !s.willFail && s.pc.outcome == Joined(all))
  }

  lemma StepInv(s: State, a: Action, all: seq<Query>)
    requires Inv(s, all) && Enabled(s, a) && !s.pc.Done?
    ensures Inv(Do(s, a), all)
  {
    hide Joined;
    match a
    case Sends =>
      assert s.todo == [s.todo[0]] + s.todo[1..];
      Regroup(s.tableChan, [s.todo[0]], s.todo[1..]);
    case Takes => MovesOne(s.gathered, s.tableChan, s.todo);
    case Drains => MovesOne(s.gathered, s.tableChan, s.todo);
    case Decides =>
      assert s.tableChan + s.todo == [] && s.gathered + [] == s.gathered;
      JoinedNeverFails(s.gathered);
    case _ =>
  }

  lemma MovesOne(done: seq<Query>, queue: seq<Query>, todo: seq<Query>)
    requires queue != []
    ensures (done + [queue[0]]) + (queue[1..] + todo) == done + (queue + todo)
  {
    assert queue == [queue[0]] + queue[1..];
    Regroup([queue[0]], queue[1..], todo);
    Regroup(done, [queue[0]], queue[1..] + todo);
  }

  /** Steps until the consumer has returned. */
  predicate Runs(s: State, actions: seq<Action>, t: State)
    decreases |actions|
  {
    if actions == [] then s == t
    else !s.pc.Done? && Enabled(s, actions[0]) && Runs(Do(s, actions[0]), actions[1..], t)
  }

  lemma {:induction false} RunInv(s: State, actions: seq<Action>, t: State, all: seq<Query>)
    requires Inv(s, all) && Runs(s, actions, t)
    ensures Inv(t, all)
    decreases |actions|
  {
    hide Inv, Enabled, Do;
    if actions != [] {
      StepInv(s, actions[0], all);
      RunInv(Do(s, actions[0]), actions[1..], t, all);
    }
  }

  /** Whatever the interleaving, the outcome is decided by the producer alone: its
      error; all its queries in order, if there are several and their columns are as
      many; otherwise no task. */
  lemma GathersAll(s: State, actions: seq<Action>, t: State)
    requires Start(s) && Runs(s, actions, t) && t.pc.Done?
    ensures t.pc.outcome == Failed <==> s.willFail
    ensures t.pc.outcome.Chunk? <==>
              !s.willFail && |s.todo| >= 2 && forall i, j :: 0 <= i < j < |s.todo| ==> s.todo[i].colLen == s.todo[j].colLen
    ensures t.pc.outcome.Chunk? ==>
              && |t.pc.outcome.queries| == |s.todo|
              && forall i :: 0 <= i < |s.todo| ==> t.pc.outcome.queries[i] == s.todo[i].text
  {
    assert [] + ([] + s.todo) == s.todo;
    RunInv(s, actions, t, s.todo);
    WillFailStays(s, actions, t);
    hide Runs;
  }

  lemma JoinedNeverFails(queries: seq<Query>)
    ensures Joined(queries) != Failed
  {
  }

  lemma {:induction false} WillFailStays(s: State, actions: seq<Action>, t: State)
    requires Runs(s, actions, t)
    ensures t.willFail == s.willFail
    decreases |actions|
  {
    if actions != [] {
      WillFailStays(Do(s, actions[0]), actions[1..], t);
    }
  }

  /** The consumer never waits in vain, and always comes to an end. */
  lemma NeverStuck(s: State, all: seq<Query>)
    requires Inv(s, all) && !s.pc.Done?
    ensures exists a :: Enabled(s, a)
  {
    var a :=
      if s.tableChan != [] then (if s.pc == Selecting then Takes else Drains)
      else if s.pc == Draining then Decides
      else if s.errCh == HoldsError then SeesError
      else if s.errCh == ClosedEmpty then SeesClosed
      else if s.todo != [] then Sends
      else Ends;
    assert Enabled(s, a);
  }

  function Measure(s: State): nat {
    2 * |s.todo| + |s.tableChan| + (if s.errCh == Empty then 1 else 0)
    + match s.pc case Selecting => 3 case Draining => 2 case Done(_) => 0
  }

  lemma MeasureFalls(s: State, a: Action)
    requires Enabled(s, a)
    ensures Measure(Do(s, a)) < Measure(s)
  {
  }
}
