/** `writerPipe`: a producer hands buffers to a goroutine that writes them out.
    Here the goroutine's turns are taken inside the producer's channel
    operations, any number of them at each; `PipeProtocol` treats the free
    interleaving. */
module WriterPipe {
  import opened Common
  import opened SqlFile
  import opened Storage

  /** Capacity of the buffer channel. */
  const CAPACITY := 8

  /** Which case of the producer's `select` was taken. */
  datatype Selected = Cancelled | WriteFailed | Sent

  class Pipe {
    const w: FileWriter
    const limits: Limits
    var input: seq<string>
    var inputClosed: bool
    /** An error waits in the error channel, which has room for one. */
    var errCh: bool
    var errOccurs: bool
    var currentFileSize: nat
    var currentStatementSize: nat
    /** All bytes handed over, those written while no error had occurred, whether
        the error was taken out, and how the store was at the start. */
    ghost var sent: string
    ghost var written: string
    ghost var errTaken: bool
    ghost const base: map<string, string>
    ghost const unclosedBase: set<string>
    ghost const failedBase: nat

    ghost predicate Valid()
      reads this`input, this`errCh, this`errOccurs, this`sent, this`written, this`errTaken, w, w.store
    {
      && w.Valid() && |input| <= CAPACITY
      && (forall i :: 0 <= i < |input| ==> input[i] != "")
      && (errCh ==> errOccurs) && (errTaken ==> errOccurs) && (errOccurs ==> errCh || errTaken)
      && Only(base, w.store.files, {w.name}) && OnlyUnclosed(unclosedBase, w.store.unclosed, w.name)
      && w.store.failed == failedBase + (if errOccurs then 1 else 0)
      && (!w.initDone ==> w.store.unclosed == unclosedBase)
      && (!errOccurs ==> Clean())
      && (sent == "" ==> input == [] && !errOccurs)
    }

    /** Without an error the file holds what was written, and only what is queued is missing. */
    ghost predicate Clean()
      reads this`input, this`sent, this`written, w, w.store
    {
      && sent == written + Flat(input)
      && w.initDone == (written != "") && !w.err
      && w.store.files == if written == "" then base else base[w.name := written]
    }

    constructor (w: FileWriter, limits: Limits)
      requires w.Valid() && !w.initDone
      ensures Valid() && this.w == w && this.limits == limits && sent == "" && !errTaken && !inputClosed
      ensures base == w.store.files && unclosedBase == w.store.unclosed && failedBase == w.store.failed
      ensures currentFileSize == 0 && currentStatementSize == 0
    {
      this.w, this.limits := w, limits;
      input, inputClosed, errCh, errOccurs := [], false, false, false;
      currentFileSize, currentStatementSize := 0, 0;
      sent, written, errTaken := "", "", false;
      base, unclosedBase, failedBase := w.store.files, w.store.unclosed, w.store.failed;
    }

    lemma Touched()
      requires Valid()
      ensures w.Valid() && Only(base, w.store.files, {w.name}) && OnlyUnclosed(unclosedBase, w.store.unclosed, w.name)
      ensures !w.initDone ==> w.store.unclosed == unclosedBase
      ensures w.store.failed == failedBase + if errOccurs then 1 else 0
    {
    }

    /** Nothing handed over means nothing created. */
    lemma NothingSent()
      requires Valid()
      ensures sent == "" ==> w.store.files == base && !w.initDone
    {
    }

    /** One turn of `Run` with a buffer at hand. After an error it only drains. */
    method RunStep()
      requires Valid() && input != []
      modifies this, w, w.store`files, w.store`unclosed, w.store`failed
      ensures Valid() && Kept() && input == old(input)[1..]
    {
      var s := input[0];
      assert input == [s] + input[1..];
      FlatHead(s, input[1..]);
      input := input[1..];
      if errOccurs {
        return;
      }
      ghost var before, unclosed := w.store.files, w.store.unclosed;
      assert s != "";
      var ok := w.Write(s);
      OnlyChains(base, before, w.store.files, {w.name});
      UnclosedChains(unclosedBase, unclosed, w.store.unclosed, w.name);
      if ok {
        Regroup(written, s, Flat(input));
        assert base[w.name := written][w.name := written + s] == base[w.name := written + s];
        assert written == "" ==> written + s == s;
        written := written + s;
      } else {
        errOccurs := true;
        errCh := true;
      }
    }

    /** What the goroutine leaves alone. */
    twostate predicate Kept()
      reads this
    {
      && sent == old(sent) && errTaken == old(errTaken) && inputClosed == old(inputClosed)
      && currentFileSize == old(currentFileSize) && currentStatementSize == old(currentStatementSize)
      && |input| <= |old(input)| && (old(errOccurs) ==> errOccurs)
    }

    /** Any number of turns. */
    method RunSome()
      requires Valid()
      modifies this, w, w.store`files, w.store`unclosed, w.store`failed
      ensures Valid() && Kept()
    {
      while *
        invariant Valid() && Kept()
        decreases |input|
      {
        if input == [] {
          break;
        }
        RunStep();
      }
    }

    /** A send that blocks until there is room. */
    method Send(bf: string)
      requires Valid() && bf != ""
      modifies this, w, w.store`files, w.store`unclosed, w.store`failed
      ensures Valid() && sent == old(sent) + bf && errTaken == old(errTaken)
    {
      RunSome();
      while |input| >= CAPACITY
        invariant Valid() && Kept()
        decreases |input|
      {
        RunStep();
      }
      Enqueue(bf);
      RunSome();
    }

    method Enqueue(bf: string)
      requires Valid() && bf != "" && |input| < CAPACITY
      modifies this
      ensures Valid() && input == old(input) + [bf]
      ensures sent == old(sent) + bf && errTaken == old(errTaken) && inputClosed == old(inputClosed)
      ensures errOccurs == old(errOccurs)
      ensures currentFileSize == old(currentFileSize) && currentStatementSize == old(currentStatementSize)
    {
      FlatAppend(input, bf);
      Regroup(written, Flat(input), bf);
      input := input + [bf];
      sent := sent + bf;
    }

    /** The producer's `select` between cancellation, a write error and the send. The
        first two are met only when the context is done or a write has failed. */
    method TrySend(bf: string) returns (r: Selected)
      requires Valid() && bf != ""
      modifies this, w, w.store
      ensures Valid()
      ensures r == Sent ==> sent == old(sent) + bf && errTaken == old(errTaken)
      ensures r == WriteFailed ==> errOccurs
      ensures w.store.interrupted == old(w.store.interrupted) + if r == Cancelled then 1 else 0
      ensures currentFileSize == old(currentFileSize) && currentStatementSize == old(currentStatementSize)
    {
      RunSome();
      while true
        invariant Valid() && Kept() && w.store.interrupted == old(w.store.interrupted)
        decreases |input|
      {
        if {
          case true =>
            w.store.interrupted := w.store.interrupted + 1;
            return Cancelled;
          case errCh =>
            errCh, errTaken := false, true;
            return WriteFailed;
          case |input| < CAPACITY =>
            Enqueue(bf);
            RunSome();
            return Sent;
          case input != [] =>
            RunStep();
        }
      }
    }

    /** `close(wp.input)` and waiting for `Run` to finish. */
    method CloseAndWait()
      requires Valid()
      modifies this, w, w.store`files, w.store`unclosed, w.store`failed
      ensures Valid() && input == [] && sent == old(sent) && errTaken == old(errTaken)
    {
      inputClosed := true;
      while input != []
        invariant Valid() && sent == old(sent) && errTaken == old(errTaken)
        decreases |input|
      {
        RunStep();
      }
    }

    /** The deferred cancel and wait of an early return. */
    method Cancel()
      requires Valid()
      modifies this, w, w.store`files, w.store`unclosed, w.store`failed
      ensures w.Valid() && Only(base, w.store.files, {w.name}) && OnlyUnclosed(unclosedBase, w.store.unclosed, w.name)
      ensures w.store.failed >= old(w.store.failed) >= failedBase
      ensures !w.initDone ==> w.store.unclosed == unclosedBase
      ensures old(sent) == "" ==> w.store.files == base && !w.initDone
    {
      RunSome();
      NothingSent();
      Touched();
    }

    /** `Error`. */
    method Error() returns (err: bool)
      requires Valid() && input == [] && !errTaken
      modifies this
      ensures w.Valid() && Only(base, w.store.files, {w.name})
      ensures err == old(errOccurs) && sent == old(sent)
      ensures old(sent) == "" ==> w.store.files == base && !w.initDone
      ensures !err ==> !w.err
      ensures !err ==> w.store.files == (if sent == "" then base else base[w.name := sent]) && w.somethingIsWritten == (sent != "")
    {
      if sent == written + Flat([]) {
        assert written + "" == written;
      }
      err := errCh;
      if errCh {
        errCh := false;
      }
    }

    predicate ShouldSwitchFile()
      reads this
    {
      FileFull(limits, currentFileSize)
    }

    predicate ShouldSwitchStatement()
      reads this
    {
      StatementFull(limits, currentFileSize, currentStatementSize)
    }

    lemma SwitchMeans()
      ensures ShouldSwitchFile() == FileFull(limits, currentFileSize)
      ensures ShouldSwitchStatement() == StatementFull(limits, currentFileSize, currentStatementSize)
    {
    }

    method AddFileSize(n: nat)
      modifies this`currentFileSize, this`currentStatementSize
      ensures currentFileSize == old(currentFileSize) + n && currentStatementSize == old(currentStatementSize) + n
    {
      currentFileSize := currentFileSize + n;
      currentStatementSize := currentStatementSize + n;
    }
  }

  lemma FlatHead(s: string, rest: seq<string>)
    ensures Flat([s] + rest) == s + Flat(rest)
  {
    assert ([s] + rest)[1..] == rest;
  }
}
