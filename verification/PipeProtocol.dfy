/** The producer of a data file and the goroutine of its `writerPipe`, as two
    state machines that interleave freely over the buffer channel, the error
    channel and the shared buffer pool (`writer_util.go`). */
module PipeProtocol {
  import opened Common
  import WriterPipe

  /** Where the producer stands in `WriteInsert`. */
  datatype ProducerPc =
    | Working
    | Selecting
    | FinalSending
    | ClosingInput
    | AwaitingClosed
    | CheckingRows
    | CheckingPipe
    | Returning(err: bool)
    | Joining(err: bool)
    | Finished(err: bool)

  /** Where `Run` stands. */
  datatype RunnerPc = Looping | Holding | Reporting | Exited

  /** Program counters, channel flags, and whether the row iterator ends in an error. */
  datatype Control = Control(pc: ProducerPc, rc: RunnerPc, errOccurs: bool, errCh: nat, errTaken: bool,
                             inputClosed: bool, cancelled: bool, rowsFail: bool)

  /** Buffers are numbered, and `heap` holds their bytes: `bf` is the producer's,
      `hand` the one the goroutine took out of `input`. `todo` and `last` are the
      texts the producer has yet to put into buffers, `sent` what it handed over. */
  datatype Memory = Memory(todo: seq<string>, last: string, sent: string, file: string,
                           bf: nat, hand: nat, input: seq<nat>,
                           heap: map<nat, string>, next: nat, pool: set<nat>, others: set<nat>)

  datatype State = State(c: Control, m: Memory)

  datatype Action =
    // producer
    | RowFails | FillsBuffer | RowsEnd
    | SeesCancel | SeesError | Sends(buf: nat) | SendsLast
    | ClosesInput | SeesClosed | ChecksRows | ChecksPipe | Cancels | Joins
    // goroutine
    | Takes | SeesEnd | SeesDone | Drops | Writes | FailsToWrite(junk: string) | Reports
    // other users of the pool
    | OthersGet(buf: nat) | OthersPut(buf: nat)

  function Bytes(heap: map<nat, string>, b: nat): string {
    if b in heap then heap[b] else ""
  }

  function Contents(heap: map<nat, string>, bufs: seq<nat>): string {
    if bufs == [] then "" else Bytes(heap, bufs[0]) + Contents(heap, bufs[1..])
  }

  // ---- steps ----

  /** What control allows, given the length of the queue and whether rows are left. */
  predicate Allowed(c: Control, queued: nat, rowsLeft: bool, a: Action) {
    match a
    case RowFails => c.pc == Working
    case FillsBuffer => c.pc == Working && rowsLeft
    case RowsEnd => c.pc == Working && !rowsLeft
    case SeesCancel => c.pc == Selecting
    case SeesError => c.pc == Selecting && c.errCh > 0
    case Sends(_) => c.pc == Selecting && queued < WriterPipe.CAPACITY
    case SendsLast => c.pc == FinalSending && queued < WriterPipe.CAPACITY
    case ClosesInput => c.pc == ClosingInput
    case SeesClosed => c.pc == AwaitingClosed && c.rc == Exited
    case ChecksRows => c.pc == CheckingRows
    case ChecksPipe => c.pc == CheckingPipe
    case Cancels => c.pc.Returning?
    case Joins => c.pc.Joining? && c.rc == Exited
    case Takes => c.rc == Looping && queued > 0
    case SeesEnd => c.rc == Looping && queued == 0 && c.inputClosed
    case SeesDone => c.rc == Looping && c.cancelled
    case Drops => c.rc == Holding && c.errOccurs
    case Writes => c.rc == Holding && !c.errOccurs
    case FailsToWrite(_) => c.rc == Holding && !c.errOccurs
    case Reports => c.rc == Reporting && c.errCh < 1
    case OthersGet(_) => true
    case OthersPut(_) => true
  }

  /** `nothing` says whether the last buffer would be empty. */
  function MoveProducer(c: Control, nothing: bool, a: Action): Control {
    match a
    case RowFails => c.(pc := Returning(true))
    case FillsBuffer => c.(pc := Selecting)
    case RowsEnd => c.(pc := if nothing then ClosingInput else FinalSending)
    case SeesCancel => c.(pc := Returning(true))
    case SeesError => c.(errCh := 0, errTaken := true, pc := Returning(true))
    case Sends(_) => c.(pc := Working)
    case SendsLast => c.(pc := ClosingInput)
    case ClosesInput => c.(inputClosed := true, pc := AwaitingClosed)
    case SeesClosed => c.(pc := CheckingRows)
    case ChecksRows => c.(pc := if c.rowsFail then Returning(true) else CheckingPipe)
    case ChecksPipe =>
      if c.errCh > 0 then c.(errCh := 0, errTaken := true, pc := Returning(true)) else c.(pc := Returning(false))
    case Cancels => if c.pc.Returning? then c.(cancelled := true, pc := Joining(c.pc.err)) else c
    case Joins => if c.pc.Joining? then c.(pc := Finished(c.pc.err)) else c
    case _ => c
  }

  function MoveRunner(c: Control, a: Action): Control {
    match a
    case Takes => c.(rc := Holding)
    case SeesEnd => c.(rc := Exited)
    case SeesDone => c.(rc := Exited)
    case Drops => c.(rc := Looping)
    case Writes => c.(rc := Looping)
    case FailsToWrite(_) => c.(errOccurs := true, rc := Reporting)
    case Reports => c.(errCh := c.errCh + 1, rc := Looping)
    case _ => c
  }

  predicate OfRunner(a: Action) {
    a in {Takes, SeesEnd, SeesDone, Drops, Writes, Reports} || a.FailsToWrite?
  }

  predicate ByOthers(a: Action) {
    a.OthersGet? || a.OthersPut?
  }

  function Move(c: Control, nothing: bool, a: Action): Control {
    if OfRunner(a) then MoveRunner(c, a) else MoveProducer(c, nothing, a)
  }

  /** What `pool.Get` may return: a pooled buffer as it is, or a new one. */
  predicate Gettable(m: Memory, b: nat) {
    b in m.pool || b == m.next
  }

  /** A buffer leaves the pool; a new one is empty. */
  function Got(m: Memory, b: nat): Memory {
    if b in m.pool then m.(pool := m.pool - {b})
    else m.(heap := m.heap[b := ""], next := m.next + 1)
  }

  /** `Reset` and `Put`. */
  function Recycled(m: Memory, b: nat): Memory {
    m.(heap := m.heap[b := ""], pool := m.pool + {b})
  }

  function Queue(m: Memory): Memory {
    m.(input := m.input + [m.bf], sent := m.sent + Bytes(m.heap, m.bf))
  }

  function Fill(m: Memory, text: string): Memory {
    m.(heap := m.heap[m.bf := Bytes(m.heap, m.bf) + text])
  }

  predicate Possible(m: Memory, a: Action) {
    match a
    case FillsBuffer => m.todo != []
    case Takes => m.input != []
    case Sends(b) => Gettable(m, b)
    case OthersGet(b) => Gettable(m, b)
    case OthersPut(b) => b in m.others
    case _ => true
  }

  function Change(m: Memory, a: Action): Memory
    requires Possible(m, a)
  {
    match a
    case FillsBuffer => Fill(m, m.todo[0]).(todo := m.todo[1..])
    case RowsEnd => Fill(m, m.last).(last := "")
    case Sends(b) => Got(Queue(m), b).(bf := b)
    case SendsLast => Queue(m)
    case Takes => m.(hand := m.input[0], input := m.input[1..])
    case Writes => Recycled(m.(file := m.file + Bytes(m.heap, m.hand)), m.hand)
    case FailsToWrite(junk) => Recycled(m.(file := junk), m.hand)
    case OthersGet(b) => Got(m, b).(others := m.others + {b})
    case OthersPut(b) => Recycled(m, b).(others := m.others - {b})
    case _ => m
  }

  predicate Enabled(s: State, a: Action) {
    Allowed(s.c, |s.m.input|, s.m.todo != [], a) && Possible(s.m, a)
  }

  function Do(s: State, a: Action): State
    requires Enabled(s, a)
  {
    State(Move(s.c, Bytes(s.m.heap, s.m.bf) + s.m.last == "", a), Change(s.m, a))
  }

  // ---- the invariant ----

  predicate ProducerOwns(c: Control) {
    c.pc in {Working, Selecting, FinalSending}
  }

  /** At most one error is ever reported, and it is not lost. */
  predicate OneError(c: Control) {
    && c.errCh <= 1 && (c.errTaken ==> c.errCh == 0 && c.errOccurs)
    && (!c.errOccurs ==> c.errCh == 0 && c.rc != Reporting)
    && (c.errOccurs ==> if c.rc == Reporting then c.errCh == 0 && !c.errTaken else c.errCh == 1 || c.errTaken)
    && (c.errTaken ==> c.pc.Returning? || c.pc.Joining? || c.pc.Finished?)
  }

  predicate Ordered(c: Control, queued: nat) {
    && queued <= WriterPipe.CAPACITY
    && (c.cancelled <==> c.pc.Joining? || c.pc.Finished?)
    && (c.inputClosed ==> !ProducerOwns(c) && c.pc != ClosingInput)
    && (c.pc in {AwaitingClosed, CheckingRows, CheckingPipe} ==> c.inputClosed)
    && (c.pc in {CheckingRows, CheckingPipe} ==> c.rc == Exited)
    && (c.pc == CheckingPipe ==> !c.rowsFail)
    && (c.rc == Exited ==> c.cancelled || (c.inputClosed && queued == 0))
    && (c.pc.Finished? ==> c.rc == Exited)
    && (c.pc in {Returning(false), Joining(false), Finished(false)} ==> c.rc == Exited && queued == 0 && !c.errOccurs && !c.rowsFail)
  }

  function QueuedAfter(queued: nat, a: Action): nat
    requires a == Takes ==> queued > 0
  {
    if a.Sends? || a.SendsLast? then queued + 1 else if a == Takes then queued - 1 else queued
  }

  lemma OneErrorStep(c: Control, queued: nat, rowsLeft: bool, nothing: bool, a: Action)
    requires OneError(c) && Ordered(c, queued) && Allowed(c, queued, rowsLeft, a)
    ensures OneError(Move(c, nothing, a))
  {
  }

  lemma ProducerOrdered(c: Control, queued: nat, rowsLeft: bool, nothing: bool, a: Action)
    requires OneError(c) && Ordered(c, queued) && Allowed(c, queued, rowsLeft, a) && !OfRunner(a)
    ensures Ordered(MoveProducer(c, nothing, a), QueuedAfter(queued, a))
  {
  }

  lemma RunnerOrdered(c: Control, queued: nat, rowsLeft: bool, a: Action)
    requires Ordered(c, queued) && Allowed(c, queued, rowsLeft, a) && OfRunner(a)
    ensures Ordered(MoveRunner(c, a), QueuedAfter(queued, a))
  {
  }

  lemma OrderedStep(c: Control, queued: nat, rowsLeft: bool, nothing: bool, a: Action)
    requires OneError(c) && Ordered(c, queued) && Allowed(c, queued, rowsLeft, a)
    ensures Ordered(Move(c, nothing, a), QueuedAfter(queued, a))
  {
    hide Ordered, OneError, Allowed, MoveProducer, MoveRunner, OfRunner;
    if OfRunner(a) {
      RunnerOrdered(c, queued, rowsLeft, a);
    } else {
      ProducerOrdered(c, queued, rowsLeft, nothing, a);
    }
  }

  /** Every buffer has one owner. */
  predicate Separate(m: Memory, producer: bool, runner: bool) {
    && m.others !! m.pool && m.pool <= m.heap.Keys && m.others <= m.heap.Keys
    && (forall b :: b in m.heap ==> b < m.next)
    && (forall i :: 0 <= i < |m.input| ==> m.input[i] in m.heap && m.input[i] !in m.pool && m.input[i] !in m.others)
    && (forall i, j :: 0 <= i < j < |m.input| ==> m.input[i] != m.input[j])
    && (producer ==> m.bf in m.heap && m.bf !in m.pool && m.bf !in m.others && m.bf !in m.input)
    && (runner ==> m.hand in m.heap && m.hand !in m.pool && m.hand !in m.others && m.hand !in m.input)
    && (producer && runner ==> m.hand != m.bf)
  }

  /** Pooled buffers are empty. */
  predicate PoolClean(m: Memory) {
    forall b :: b in m.pool ==> Bytes(m.heap, b) == ""
  }

  predicate Tidy(s: State) {
    && Separate(s.m, ProducerOwns(s.c), s.c.rc == Holding) && PoolClean(s.m)
    && (s.c.pc == Working ==> Bytes(s.m.heap, s.m.bf) == "")
  }

  lemma GotKeeps(m: Memory, b: nat, producer: bool, runner: bool)
    requires Separate(m, producer, runner) && PoolClean(m) && Gettable(m, b)
    ensures var m' := Got(m, b);
            && Separate(m', producer, runner) && PoolClean(m') && Bytes(m'.heap, b) == ""
            && b in m'.heap && b !in m'.pool && b !in m'.others && b !in m'.input
            && (producer ==> b != m'.bf) && (runner ==> b != m'.hand)
  {
  }

  lemma RecycledKeeps(m: Memory, b: nat, producer: bool, runner: bool)
    requires Separate(m, producer, runner) && PoolClean(m)
    requires b in m.heap && b !in m.others && b !in m.input && (producer ==> b != m.bf) && (runner ==> b != m.hand)
    ensures Separate(Recycled(m, b), producer, runner) && PoolClean(Recycled(m, b))
  {
  }

  lemma ProducerTidy(s: State, a: Action)
    requires Tidy(s) && Enabled(s, a) && !OfRunner(a) && !ByOthers(a)
    ensures Tidy(Do(s, a))
  {
    if a.Sends? {
      QueueKeeps(s.m, s.c.rc == Holding);
      GotKeeps(Queue(s.m), a.buf, false, s.c.rc == Holding);
      hide Queue, Got, PoolClean;
    } else if a.SendsLast? {
      QueueKeeps(s.m, s.c.rc == Holding);
      hide Queue, PoolClean;
    } else if a.FillsBuffer? || a.RowsEnd? {
    } else {
      hide Separate, PoolClean;
    }
  }

  lemma QueueKeeps(m: Memory, runner: bool)
    requires Separate(m, true, runner) && PoolClean(m)
    ensures Separate(Queue(m), false, runner) && PoolClean(Queue(m))
  {
  }

  lemma RunnerTidy(s: State, a: Action)
    requires Tidy(s) && Enabled(s, a) && OfRunner(a)
    ensures Tidy(Do(s, a))
  {
    var m, producer := s.m, ProducerOwns(s.c);
    if a.Takes? {
    } else if a.Writes? {
      RecycledKeeps(m.(file := m.file + Bytes(m.heap, m.hand)), m.hand, producer, false);
      hide Separate, PoolClean;
    } else if a.FailsToWrite? {
      RecycledKeeps(m.(file := a.junk), m.hand, producer, false);
      hide Separate, PoolClean;
    } else {
      LetsGo(m, producer, s.c.rc == Holding);
      hide Separate, PoolClean;
    }
  }

  lemma LetsGo(m: Memory, producer: bool, runner: bool)
    requires Separate(m, producer, runner)
    ensures Separate(m, producer, false)
  {
  }

  lemma OthersTidy(s: State, a: Action)
    requires Tidy(s) && Enabled(s, a) && ByOthers(a)
    ensures Tidy(Do(s, a))
  {
    var m := s.m;
    var producer, runner := ProducerOwns(s.c), s.c.rc == Holding;
    if a.OthersGet? {
      GotKeeps(m, a.buf, producer, runner);
      hide PoolClean;
    } else {
      RecycledKeeps(m.(others := m.others - {a.buf}), a.buf, producer, runner);
    }
  }

  lemma TidyStep(s: State, a: Action)
    requires Tidy(s) && Enabled(s, a)
    ensures Tidy(Do(s, a))
  {
    hide *;
    if OfRunner(a) {
      RunnerTidy(s, a);
    } else if ByOthers(a) {
      OthersTidy(s, a);
    } else {
      ProducerTidy(s, a);
    }
  }

  lemma {:induction false} ContentsFrame(heap: map<nat, string>, bufs: seq<nat>, b: nat, text: string)
    requires b !in bufs
    ensures Contents(heap[b := text], bufs) == Contents(heap, bufs)
  {
    if bufs != [] {
      ContentsFrame(heap, bufs[1..], b, text);
    }
  }

  lemma {:induction false} ContentsAppend(heap: map<nat, string>, bufs: seq<nat>, b: nat)
    ensures Contents(heap, bufs + [b]) == Contents(heap, bufs) + Bytes(heap, b)
  {
    if bufs == [] {
      assert [b][1..] == [];
    } else {
      assert (bufs + [b])[1..] == bufs[1..] + [b];
      ContentsAppend(heap, bufs[1..], b);
    }
  }

  /** The file, the buffer in hand and the queue. */
  function Flight(m: Memory, held: bool): string {
    m.file + ((if held then Bytes(m.heap, m.hand) else "") + Contents(m.heap, m.input))
  }

  /** Until an error, the file and the buffers in flight are what was sent. */
  predicate NothingLost(s: State) {
    !s.c.errOccurs ==> Flight(s.m, s.c.rc == Holding) == s.m.sent
  }

  lemma FlightFrame(m: Memory, m': Memory, held: bool, b: nat, text: string)
    requires m'.heap == m.heap[b := text] && m'.input == m.input && m'.hand == m.hand && m'.file == m.file
    requires b !in m.input && (held ==> b != m.hand)
    ensures Flight(m', held) == Flight(m, held)
  {
    ContentsFrame(m.heap, m.input, b, text);
  }

  lemma FlightSame(m: Memory, m': Memory, held: bool)
    requires m'.heap == m.heap && m'.input == m.input && m'.hand == m.hand && m'.file == m.file
    ensures Flight(m', held) == Flight(m, held)
  {
  }

  lemma FlightQueue(m: Memory, held: bool)
    requires Flight(m, held) == m.sent
    ensures Flight(Queue(m), held) == Queue(m).sent
  {
    ContentsAppend(m.heap, m.input, m.bf);
    var h := if held then Bytes(m.heap, m.hand) else "";
    Regroup(h, Contents(m.heap, m.input), Bytes(m.heap, m.bf));
    Regroup(m.file, h + Contents(m.heap, m.input), Bytes(m.heap, m.bf));
  }

  lemma FlightGot(m: Memory, b: nat, held: bool)
    requires Gettable(m, b) && Separate(m, false, held)
    ensures Flight(Got(m, b), held) == Flight(m, held)
  {
    if b in m.pool {
      FlightSame(m, Got(m, b), held);
    } else {
      FlightFrame(m, Got(m, b), held, b, "");
    }
  }

  lemma FlightTake(m: Memory)
    requires m.input != []
    ensures Flight(m.(hand := m.input[0], input := m.input[1..]), true) == Flight(m, false)
  {
    assert "" + Contents(m.heap, m.input) == Contents(m.heap, m.input);
  }

  lemma FlightWrite(m: Memory)
    requires m.hand !in m.input
    ensures Flight(Recycled(m.(file := m.file + Bytes(m.heap, m.hand)), m.hand), false) == Flight(m, true)
  {
    ContentsFrame(m.heap, m.input, m.hand, "");
    assert "" + Contents(m.heap, m.input) == Contents(m.heap, m.input);
    Regroup(m.file, Bytes(m.heap, m.hand), Contents(m.heap, m.input));
  }

  lemma ProducerControl(s: State, a: Action)
    requires Enabled(s, a) && !OfRunner(a)
    ensures Do(s, a).c.errOccurs == s.c.errOccurs && Do(s, a).c.rc == s.c.rc && Do(s, a).m == Change(s.m, a)
    ensures Possible(s.m, a)
    ensures a.FillsBuffer? || a.RowsEnd? ==> s.c.pc == Working
    ensures a.Sends? || a.SendsLast? ==> ProducerOwns(s.c)
  {
    hide Change;
  }

  lemma FillLosesNothing(m: Memory, held: bool, a: Action)
    requires Separate(m, true, held) && Possible(m, a) && (a.FillsBuffer? || a.RowsEnd?)
    ensures Flight(Change(m, a), held) == Flight(m, held) && Change(m, a).sent == m.sent
  {
    var text := if a.FillsBuffer? then m.todo[0] else m.last;
    FlightFrame(m, Change(m, a), held, m.bf, Bytes(m.heap, m.bf) + text);
    hide Flight, Bytes;
  }

  lemma SendLosesNothing(m: Memory, held: bool, b: nat)
    requires Separate(m, true, held) && PoolClean(m) && Gettable(m, b) && Flight(m, held) == m.sent
    ensures Flight(Change(m, Sends(b)), held) == Change(m, Sends(b)).sent
  {
    FlightQueue(m, held);
    QueueKeeps(m, held);
    FlightGot(Queue(m), b, held);
    FlightSame(Got(Queue(m), b), Change(m, Sends(b)), held);
    hide Flight, Separate, PoolClean, Bytes;
  }

  lemma TidyOwns(s: State)
    requires Tidy(s) && ProducerOwns(s.c)
    ensures Separate(s.m, true, s.c.rc == Holding) && PoolClean(s.m)
  {
    hide Separate, PoolClean;
  }

  lemma LossSeen(s: State)
    ensures NothingLost(s) <==> s.c.errOccurs || Flight(s.m, s.c.rc == Holding) == s.m.sent
  {
  }

  lemma ProducerKeepsMemory(m: Memory, a: Action)
    requires !OfRunner(a) && !ByOthers(a) && !(a.FillsBuffer? || a.RowsEnd? || a.Sends? || a.SendsLast?)
    ensures Possible(m, a) && Change(m, a) == m
  {
  }

  lemma ProducerLosesNothing(s: State, a: Action)
    requires Tidy(s) && NothingLost(s) && Enabled(s, a) && !OfRunner(a) && !ByOthers(a)
    ensures NothingLost(Do(s, a))
  {
    ProducerControl(s, a);
    var m, held := s.m, s.c.rc == Holding;
    hide *;
    LossSeen(s);
    LossSeen(Do(s, a));
    if a.FillsBuffer? || a.RowsEnd? {
      assert ProducerOwns(s.c) by { WorkingOwns(s.c); }
      TidyOwns(s);
      FillLosesNothing(m, held, a);
    } else if a.Sends? {
      TidyOwns(s);
      if !s.c.errOccurs {
        SendIs(m, a);
        SendLosesNothing(m, held, a.buf);
      }
    } else if a.SendsLast? {
      if !s.c.errOccurs {
        SendIs(m, a);
        FlightQueue(m, held);
      }
    } else {
      ProducerKeepsMemory(m, a);
    }
  }

  lemma WorkingOwns(c: Control)
    ensures c.pc == Working ==> ProducerOwns(c)
  {
  }

  lemma SendIs(m: Memory, a: Action)
    requires Possible(m, a)
    ensures a.Sends? ==> Gettable(m, a.buf)
    ensures a.SendsLast? ==> Change(m, a) == Queue(m)
  {
  }

  lemma RunnerLosesNothing(s: State, a: Action)
    requires Tidy(s) && NothingLost(s) && Enabled(s, a) && OfRunner(a)
    ensures NothingLost(Do(s, a))
  {
    hide Flight, PoolClean, Contents;
    if a.Takes? {
      FlightTake(s.m);
    } else if a.Writes? {
      FlightWrite(s.m);
    }
  }

  lemma OthersLoseNothing(s: State, a: Action)
    requires Tidy(s) && NothingLost(s) && Enabled(s, a) && ByOthers(a)
    ensures NothingLost(Do(s, a))
  {
    var m, held := s.m, s.c.rc == Holding;
    hide Flight, PoolClean, Contents;
    if a.OthersGet? {
      FlightGot(m, a.buf, held);
      FlightSame(Got(m, a.buf), Do(s, a).m, held);
    } else {
      FlightFrame(m, Do(s, a).m, held, a.buf, "");
    }
  }

  lemma NothingLostStep(s: State, a: Action)
    requires Tidy(s) && NothingLost(s) && Enabled(s, a)
    ensures NothingLost(Do(s, a))
  {
    hide *;
    if OfRunner(a) {
      RunnerLosesNothing(s, a);
    } else if ByOthers(a) {
      OthersLoseNothing(s, a);
    } else {
      ProducerLosesNothing(s, a);
    }
  }

  /** The texts still to come, in order. */
  function Rest(m: Memory): string {
    Flat(m.todo) + m.last
  }

  /** What was sent, is about to be sent and is still to come is all of `whole`. */
  predicate OnTrack(s: State, whole: string) {
    match s.c.pc
    case Working => s.m.sent + Rest(s.m) == whole
    case Selecting => s.m.sent + (Bytes(s.m.heap, s.m.bf) + Rest(s.m)) == whole
    case FinalSending => s.m.sent + Bytes(s.m.heap, s.m.bf) == whole
    case Returning(err) => !err ==> s.m.sent == whole
    case Joining(err) => !err ==> s.m.sent == whole
    case Finished(err) => !err ==> s.m.sent == whole
    case _ => s.m.sent == whole
  }

  lemma RestFirst(m: Memory)
    requires m.todo != []
    ensures Rest(m) == m.todo[0] + Rest(m.(todo := m.todo[1..]))
  {
    Regroup(m.todo[0], Flat(m.todo[1..]), m.last);
  }

  lemma FillsOnTrack(s: State, whole: string)
    requires Tidy(s) && OnTrack(s, whole) && Enabled(s, FillsBuffer)
    ensures OnTrack(Do(s, FillsBuffer), whole)
  {
    var m, m' := s.m, Do(s, FillsBuffer).m;
    RestFirst(m);
    assert m'.heap[m.bf] == "" + m.todo[0] == m.todo[0];
    assert Rest(m') == Rest(m.(todo := m.todo[1..]));
    hide Flat, Separate, PoolClean;
  }

  lemma EndsOnTrack(s: State, whole: string)
    requires Tidy(s) && OnTrack(s, whole) && Enabled(s, RowsEnd)
    ensures OnTrack(Do(s, RowsEnd), whole)
  {
    var m, m' := s.m, Do(s, RowsEnd).m;
    assert m'.heap[m.bf] == "" + m.last == m.last;
    assert Rest(m) == "" + m.last == m.last;
    assert m.sent + "" == m.sent;
    hide Flat, Separate, PoolClean;
  }

  lemma SendsOnTrack(s: State, b: nat, whole: string)
    requires OnTrack(s, whole) && Enabled(s, Sends(b))
    ensures OnTrack(Do(s, Sends(b)), whole)
  {
    Regroup(s.m.sent, Bytes(s.m.heap, s.m.bf), Rest(s.m));
    hide Flat, Bytes;
  }

  /** What others do to buffers of their own does not matter to the producer's. */
  lemma RestOnTrack(s: State, a: Action, whole: string)
    requires Tidy(s) && OnTrack(s, whole) && Enabled(s, a)
    requires !a.FillsBuffer? && !a.RowsEnd? && !a.Sends?
    ensures OnTrack(Do(s, a), whole)
  {
    OwnBytesStay(s, a);
    hide Flat, PoolClean, Separate, Bytes, Got, Recycled, Tidy;
  }

  lemma OwnBytesStay(s: State, a: Action)
    requires Tidy(s) && Enabled(s, a)
    requires !a.FillsBuffer? && !a.RowsEnd? && !a.Sends?
    ensures ProducerOwns(s.c) ==> Bytes(Do(s, a).m.heap, s.m.bf) == Bytes(s.m.heap, s.m.bf)
    ensures var m, m' := s.m, Do(s, a).m;
            m'.bf == m.bf && m'.todo == m.todo && m'.last == m.last
            && m'.sent == if a.SendsLast? then m.sent + Bytes(m.heap, m.bf) else m.sent
  {
    hide PoolClean;
  }

  lemma OnTrackStep(s: State, a: Action, whole: string)
    requires Tidy(s) && OnTrack(s, whole) && Enabled(s, a)
    ensures OnTrack(Do(s, a), whole)
  {
    hide *;
    match a
    case FillsBuffer => FillsOnTrack(s, whole);
    case RowsEnd => EndsOnTrack(s, whole);
    case Sends(b) => SendsOnTrack(s, b, whole);
    case _ => RestOnTrack(s, a, whole);
  }

  // ---- whole runs ----

  predicate Inv(s: State, whole: string) {
    OneError(s.c) && Ordered(s.c, |s.m.input|) && Tidy(s) && NothingLost(s) && OnTrack(s, whole)
  }

  /** A producer about to fill its first buffer, next to a pool others use too. */
  predicate Start(s: State) {
    && s.c == Control(Working, Looping, false, 0, false, false, false, s.c.rowsFail)
    && s.m.sent == "" && s.m.file == "" && s.m.input == []
    && Separate(s.m, true, false) && PoolClean(s.m) && Bytes(s.m.heap, s.m.bf) == ""
  }

  lemma StartInv(s: State)
    requires Start(s)
    ensures Inv(s, Rest(s.m))
  {
    assert "" + Rest(s.m) == Rest(s.m);
  }

  lemma InputAfter(s: State, a: Action)
    requires Enabled(s, a)
    ensures |Do(s, a).m.input| == QueuedAfter(|s.m.input|, a)
  {
  }

  lemma StepInv(s: State, a: Action, whole: string)
    requires Inv(s, whole) && Enabled(s, a)
    ensures Inv(Do(s, a), whole)
  {
    var nothing := Bytes(s.m.heap, s.m.bf) + s.m.last == "";
    OneErrorStep(s.c, |s.m.input|, s.m.todo != [], nothing, a);
    OrderedStep(s.c, |s.m.input|, s.m.todo != [], nothing, a);
    InputAfter(s, a);
    TidyStep(s, a);
    NothingLostStep(s, a);
    OnTrackStep(s, a, whole);
    hide *;
    InvOf(s, a, whole);
  }

  lemma InvOf(s: State, a: Action, whole: string)
    requires Enabled(s, a)
    requires var nothing := Bytes(s.m.heap, s.m.bf) + s.m.last == "";
             OneError(Move(s.c, nothing, a)) && Ordered(Move(s.c, nothing, a), QueuedAfter(|s.m.input|, a))
    requires |Do(s, a).m.input| == QueuedAfter(|s.m.input|, a)
    requires Tidy(Do(s, a)) && NothingLost(Do(s, a)) && OnTrack(Do(s, a), whole)
    ensures Inv(Do(s, a), whole)
  {
    hide OneError, Ordered, Tidy, NothingLost, OnTrack, Move, Change, Enabled, QueuedAfter;
  }

  /** The states a list of actions leads through, one after another. */
  predicate Runs(s: State, actions: seq<Action>, t: State)
    decreases |actions|
  {
    if actions == [] then s == t
    else Enabled(s, actions[0]) && Runs(Do(s, actions[0]), actions[1..], t)
  }

  lemma {:induction false} RunInv(s: State, actions: seq<Action>, t: State, whole: string)
    requires Inv(s, whole) && Runs(s, actions, t)
    ensures Inv(t, whole)
    decreases |actions|
  {
    hide Inv, Enabled, Do;
    if actions != [] {
      StepInv(s, actions[0], whole);
      RunInv(Do(s, actions[0]), actions[1..], t, whole);
    }
  }

  /** In every run: when the producer returns without an error, the file holds
      every text in order and the row iterator had no error either; buffers in
      the pool are empty; and the error channel is free when the goroutine sends. */
  lemma RunsAreSafe(s: State, actions: seq<Action>, t: State)
    requires Start(s) && Runs(s, actions, t)
    ensures t.c.pc == Finished(false) ==> t.m.file == Rest(s.m) && !t.c.rowsFail
    ensures PoolClean(t.m)
    ensures t.c.rc == Reporting ==> Enabled(t, Reports)
  {
    hide *;
    StartInv(s);
    RunInv(s, actions, t, Rest(s.m));
    InvMeans(t, Rest(s.m));
  }

  lemma InvMeans(t: State, whole: string)
    requires Inv(t, whole)
    ensures t.c.pc == Finished(false) ==> t.m.file == whole && !t.c.rowsFail
    ensures PoolClean(t.m)
    ensures t.c.rc == Reporting ==> Enabled(t, Reports)
  {
    hide Separate, PoolClean;
    if t.c.pc == Finished(false) {
      assert Contents(t.m.heap, t.m.input) == "";
      assert t.m.file + ("" + "") == t.m.file;
    }
  }

  // ---- when the producer returns an error ----

  /** A failing row, a cancellation that is noticed, a failing write. */
  predicate Trouble(a: Action) {
    a.RowFails? || a.SeesCancel? || a.FailsToWrite?
  }

  predicate AnyTrouble(actions: seq<Action>) {
    actions != [] && (Trouble(actions[0]) || AnyTrouble(actions[1..]))
  }

  /** The verdict of a producer that has one; before that only the goroutine can
      have been in trouble. */
  predicate Judged(c: Control, trouble: bool) {
    match c.pc
    case Returning(err) => err <==> c.rowsFail || trouble
    case Joining(err) => err <==> c.rowsFail || trouble
    case Finished(err) => err <==> c.rowsFail || trouble
    case _ => c.errOccurs <==> trouble
  }

  lemma ProducerJudged(c: Control, queued: nat, rowsLeft: bool, nothing: bool, a: Action, trouble: bool)
    requires OneError(c) && Ordered(c, queued) && Allowed(c, queued, rowsLeft, a) && Judged(c, trouble) && !OfRunner(a)
    ensures Judged(MoveProducer(c, nothing, a), trouble || Trouble(a))
  {
  }

  lemma RunnerJudged(c: Control, queued: nat, rowsLeft: bool, a: Action, trouble: bool)
    requires Ordered(c, queued) && Allowed(c, queued, rowsLeft, a) && Judged(c, trouble) && OfRunner(a)
    ensures Judged(MoveRunner(c, a), trouble || Trouble(a))
  {
  }

  lemma JudgedStep(c: Control, queued: nat, rowsLeft: bool, nothing: bool, a: Action, trouble: bool)
    requires OneError(c) && Ordered(c, queued) && Allowed(c, queued, rowsLeft, a) && Judged(c, trouble)
    ensures Judged(Move(c, nothing, a), trouble || Trouble(a))
  {
    hide Judged, Ordered, OneError, Allowed, MoveProducer, MoveRunner, OfRunner, Trouble;
    if OfRunner(a) {
      RunnerJudged(c, queued, rowsLeft, a, trouble);
    } else {
      ProducerJudged(c, queued, rowsLeft, nothing, a, trouble);
    }
  }

  lemma ProducerRowsFail(c: Control, nothing: bool, a: Action)
    ensures MoveProducer(c, nothing, a).rowsFail == c.rowsFail
  {
  }

  lemma RowsFailStays(c: Control, nothing: bool, a: Action)
    ensures Move(c, nothing, a).rowsFail == c.rowsFail
  {
    ProducerRowsFail(c, nothing, a);
    hide MoveProducer;
  }

  lemma JudgedDo(s: State, a: Action, trouble: bool)
    requires OneError(s.c) && Ordered(s.c, |s.m.input|) && Enabled(s, a) && Judged(s.c, trouble)
    ensures Judged(Do(s, a).c, trouble || Trouble(a)) && Do(s, a).c.rowsFail == s.c.rowsFail
  {
    JudgedStep(s.c, |s.m.input|, s.m.todo != [], Bytes(s.m.heap, s.m.bf) + s.m.last == "", a, trouble);
    RowsFailStays(s.c, Bytes(s.m.heap, s.m.bf) + s.m.last == "", a);
    hide OneError, Ordered, Judged, Trouble, Bytes, Change, Move, Possible, Allowed;
  }

  lemma {:induction false} RunJudged(s: State, actions: seq<Action>, t: State, whole: string, trouble: bool)
    requires Inv(s, whole) && Judged(s.c, trouble) && Runs(s, actions, t)
    ensures Judged(t.c, trouble || AnyTrouble(actions)) && t.c.rowsFail == s.c.rowsFail
    decreases |actions|
  {
    hide Enabled, Do, Judged, OneError, Ordered, Tidy, NothingLost, OnTrack, Trouble;
    if actions != [] {
      StepInv(s, actions[0], whole);
      JudgedDo(s, actions[0], trouble);
      hide Inv;
      RunJudged(Do(s, actions[0]), actions[1..], t, whole, trouble || Trouble(actions[0]));
    }
  }

  /** A run returns an error exactly when a row or a write has failed, the rows end
      in an error, or a cancellation was noticed. */
  lemma FailsExactly(s: State, actions: seq<Action>, t: State)
    requires Start(s) && Runs(s, actions, t) && t.c.pc.Finished?
    ensures t.c.pc.err <==> s.c.rowsFail || AnyTrouble(actions)
  {
    StartInv(s);
    hide Inv, Runs, AnyTrouble, Separate, PoolClean;
    assert Judged(s.c, false);
    RunJudged(s, actions, t, Rest(s.m), false);
  }

  // ---- progress ----

  /** A step that can be taken while the producer has not finished. */
  function NextAction(s: State): Action {
    match s.c.pc
    case Working => if s.m.todo != [] then FillsBuffer else RowsEnd
    case Selecting => if |s.m.input| < WriterPipe.CAPACITY then Sends(s.m.next) else RunnerAction(s)
    case FinalSending => if |s.m.input| < WriterPipe.CAPACITY then SendsLast else RunnerAction(s)
    case ClosingInput => ClosesInput
    case AwaitingClosed => if s.c.rc == Exited then SeesClosed else RunnerAction(s)
    case CheckingRows => ChecksRows
    case CheckingPipe => ChecksPipe
    case Returning(_) => Cancels
    case Joining(_) => if s.c.rc == Exited then Joins else RunnerAction(s)
    case Finished(_) => Joins
  }

  function RunnerAction(s: State): Action {
    match s.c.rc
    case Looping => if s.m.input != [] then Takes else if s.c.inputClosed then SeesEnd else SeesDone
    case Holding => if s.c.errOccurs then Drops else Writes
    case Reporting => Reports
    case Exited => SeesDone
  }

  /** No reachable state is deadlocked. */
  lemma NeverStuck(s: State, whole: string)
    requires Inv(s, whole) && !s.c.pc.Finished?
    ensures Enabled(s, NextAction(s)) && !ByOthers(NextAction(s))
  {
    hide NothingLost, OnTrack, Tidy;
  }

  function ProducerRank(pc: ProducerPc): nat {
    match pc
    case Working => 40
    case Selecting => 46
    case FinalSending => 30
    case ClosingInput => 20
    case AwaitingClosed => 19
    case CheckingRows => 18
    case CheckingPipe => 17
    case Returning(_) => 16
    case Joining(_) => 15
    case Finished(_) => 0
  }

  function RunnerRank(rc: RunnerPc): nat {
    match rc
    case Holding => 3
    case Reporting => 2
    case Looping => 1
    case Exited => 0
  }

  lemma ProducerFalls(c: Control, queued: nat, todo: nat, nothing: bool, a: Action)
    requires Allowed(c, queued, todo > 0, a) && !OfRunner(a) && !ByOthers(a)
    ensures 12 * (if a == FillsBuffer then todo - 1 else todo) + ProducerRank(MoveProducer(c, nothing, a).pc) + 4 * QueuedAfter(queued, a)
          < 12 * todo + ProducerRank(c.pc) + 4 * queued
    ensures MoveProducer(c, nothing, a).rc == c.rc
  {
  }

  lemma RunnerFalls(c: Control, queued: nat, rowsLeft: bool, a: Action)
    requires Allowed(c, queued, rowsLeft, a) && OfRunner(a)
    ensures 4 * QueuedAfter(queued, a) + RunnerRank(MoveRunner(c, a).rc) < 4 * queued + RunnerRank(c.rc)
    ensures MoveRunner(c, a).pc == c.pc
  {
  }

  lemma TodoAfter(s: State, a: Action)
    requires Enabled(s, a)
    ensures |Do(s, a).m.todo| == if a == FillsBuffer then |s.m.todo| - 1 else |s.m.todo|
    ensures ByOthers(a) ==> Do(s, a).c == s.c && !OfRunner(a)
    ensures !ByOthers(a) && OfRunner(a) ==> Do(s, a).c == MoveRunner(s.c, a)
    ensures !OfRunner(a) ==> Do(s, a).c == MoveProducer(s.c, Bytes(s.m.heap, s.m.bf) + s.m.last == "", a)
    ensures OfRunner(a) ==> a != FillsBuffer
    ensures Allowed(s.c, |s.m.input|, s.m.todo != [], a)
  {
  }

  function Measure(s: State): nat {
    12 * |s.m.todo| + ProducerRank(s.c.pc) + 4 * |s.m.input| + RunnerRank(s.c.rc)
  }

  /** Every step of the producer or the goroutine brings the end nearer, and other
      users of the pool do not push it away: the protocol always ends. */
  lemma MeasureFalls(s: State, a: Action)
    requires Enabled(s, a)
    ensures if ByOthers(a) then Measure(Do(s, a)) == Measure(s) else Measure(Do(s, a)) < Measure(s)
  {
    InputAfter(s, a);
    TodoAfter(s, a);
    var nothing := Bytes(s.m.heap, s.m.bf) + s.m.last == "";
    hide ProducerRank, RunnerRank, Allowed, MoveProducer, MoveRunner, OfRunner, Do, Enabled;
    if !ByOthers(a) {
      if OfRunner(a) {
        RunnerFalls(s.c, |s.m.input|, s.m.todo != [], a);
      } else {
        ProducerFalls(s.c, |s.m.input|, |s.m.todo|, nothing, a);
      }
    }
  }

  function OwnSteps(actions: seq<Action>): nat {
    if actions == [] then 0 else (if ByOthers(actions[0]) then 0 else 1) + OwnSteps(actions[1..])
  }

  /** So a run takes no more steps of its own than the measure at its start; and
      where it cannot go on, the producer has finished (`NeverStuck`). */
  lemma {:induction false} RunsEnd(s: State, actions: seq<Action>, t: State)
    requires Runs(s, actions, t)
    ensures OwnSteps(actions) + Measure(t) <= Measure(s)
    decreases |actions|
  {
    hide Enabled, Do, Measure;
    if actions != [] {
      MeasureFalls(s, actions[0]);
      RunsEnd(Do(s, actions[0]), actions[1..], t);
    }
  }
}
