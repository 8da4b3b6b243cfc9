/** A whole table: the rows its chunk queries return, the files the chunks leave
    in one store, and what loading all of them gives. */
module WholeTable {
  import opened Common
  import opened HexText
  import opened RowText
  import opened SqlExpr
  import opened KeyChunks
  import opened CtidChunks
  import opened DataFiles
  import opened Storage
  import opened FileNames
  import opened TableWriter
  import opened Readback
  import EndToEnd
  import DumpLoad
  import TaskQueue

  /** A row of the table: as conditions see it, and as it is dumped. */
  datatype Stored = Stored(row: Row, record: Record)

  /** What a query with this condition returns, in some order. */
  ghost function Selected(condition: seq<Token>, table: seq<Stored>): seq<Record> {
    if |table| == 0 then []
    else (if QuerySelects(condition, table[0].row) then [table[0].record] else []) + Selected(condition, table[1..])
  }

  /** The records all tasks return together. */
  ghost function Gathered(tasks: seq<ChunkTask>, table: seq<Stored>): multiset<Record> {
    if tasks == [] then multiset{}
    else multiset(Selected(tasks[0].condition, table)) + Gathered(tasks[1..], table)
  }

  // ---- counting rows by task or by row ----

  /** How often a record is returned, row by row. */
  ghost function Weight(tasks: seq<ChunkTask>, table: seq<Stored>, x: Record): nat {
    if |table| == 0 then 0
    else (if table[0].record == x then Times(tasks, table[0].row) else 0) + Weight(tasks, table[1..], x)
  }

  lemma SelectedStep(condition: seq<Token>, table: seq<Stored>, x: Record)
    requires |table| > 0
    ensures multiset(Selected(condition, table))[x]
         == (if QuerySelects(condition, table[0].row) && table[0].record == x then 1 else 0)
            + multiset(Selected(condition, table[1..]))[x]
  {
    var head := if QuerySelects(condition, table[0].row) then [table[0].record] else [];
    assert multiset(head + Selected(condition, table[1..])) == multiset(head) + multiset(Selected(condition, table[1..]));
  }

  lemma {:induction false} WeightStep(tasks: seq<ChunkTask>, table: seq<Stored>, x: Record)
    requires tasks != []
    ensures Weight(tasks, table, x) == multiset(Selected(tasks[0].condition, table))[x] + Weight(tasks[1..], table, x)
  {
    if |table| > 0 {
      SelectedStep(tasks[0].condition, table, x);
      WeightStep(tasks, table[1..], x);
      hide QuerySelects, Selected;
    }
  }

  lemma {:induction false} WeightNothing(table: seq<Stored>, x: Record)
    ensures Weight([], table, x) == 0
  {
    if |table| > 0 {
      WeightNothing(table[1..], x);
    }
  }

  lemma {:induction false} GatheredIsWeight(tasks: seq<ChunkTask>, table: seq<Stored>, x: Record)
    ensures Gathered(tasks, table)[x] == Weight(tasks, table, x)
  {
    if tasks == [] {
      WeightNothing(table, x);
    } else {
      WeightStep(tasks, table, x);
      GatheredIsWeight(tasks[1..], table, x);
    }
  }

  /** Each row that `condition` selects is returned once, and the others never. */
  ghost predicate CoverOnce(tasks: seq<ChunkTask>, condition: seq<Token>, table: seq<Stored>) {
    forall i :: 0 <= i < |table| ==> Times(tasks, table[i].row) == if QuerySelects(condition, table[i].row) then 1 else 0
  }

  lemma {:induction false} WeightOnce(tasks: seq<ChunkTask>, condition: seq<Token>, table: seq<Stored>, x: Record)
    requires CoverOnce(tasks, condition, table)
    ensures Weight(tasks, table, x) == multiset(Selected(condition, table))[x]
  {
    if |table| > 0 {
      assert Times(tasks, table[0].row) == if QuerySelects(condition, table[0].row) then 1 else 0;
      SelectedStep(condition, table, x);
      forall i | 0 <= i < |table| - 1
        ensures Times(tasks, table[1..][i].row) == if QuerySelects(condition, table[1..][i].row) then 1 else 0
      {
        assert table[1..][i] == table[i + 1];
      }
      WeightOnce(tasks, condition, table[1..], x);
      hide QuerySelects, Selected, Times;
    }
  }

  /** Chunks that cover once return together what the unchunked query returns. */
  lemma ChunksReturnTheTable(tasks: seq<ChunkTask>, condition: seq<Token>, table: seq<Stored>)
    requires CoverOnce(tasks, condition, table)
    ensures Gathered(tasks, table) == multiset(Selected(condition, table))
  {
    hide *;
    forall x ensures Gathered(tasks, table)[x] == multiset(Selected(condition, table))[x] {
      GatheredIsWeight(tasks, table, x);
      WeightOnce(tasks, condition, table, x);
    }
  }

  /** Integer chunks do, when no user filter is set or no selected key is NULL. */
  lemma IntChunksReturnTheTable(tasks: seq<ChunkTask>, user: seq<Token>, field: string, minv: int, maxv: int,
                                step: nat, total: int,
                                table: seq<Stored>)
    requires step > 0 && IntPlan(tasks, user, field, minv, maxv, step, total)
    requires forall i :: 0 <= i < |table| ==> KeyKnown(table[i].row, user, field, minv, maxv)
    ensures Gathered(tasks, table) == multiset(Selected(Condition(user, []), table))
  {
    forall i | 0 <= i < |table|
      ensures Times(tasks, table[i].row) == if QuerySelects(Condition(user, []), table[i].row) then 1 else 0
    {
      assert KeyKnown(table[i].row, user, field, minv, maxv);
      IntChunksCoverOnce(tasks, user, field, minv, maxv, step, total, table[i].row);
    }
    hide *;
    IsCovered(tasks, Condition(user, []), table);
    ChunksReturnTheTable(tasks, Condition(user, []), table);
  }

  /** A key within the bounds that were read, and not NULL if there is a filter. */
  ghost predicate KeyKnown(row: Row, user: seq<Token>, field: string, minv: int, maxv: int) {
    && ReadsDecimals(row)
    && (QuerySelects(Condition(user, []), row) ==> (row.col(field).Some? ==> minv <= row.col(field).value <= maxv)
                                                   && (user == [] || row.col(field).Some?))
  }

  lemma IsCovered(tasks: seq<ChunkTask>, condition: seq<Token>, table: seq<Stored>)
    requires forall i :: 0 <= i < |table| ==> Times(tasks, table[i].row) == if QuerySelects(condition, table[i].row) then 1 else 0
    ensures CoverOnce(tasks, condition, table)
  {
  }

  /** Chunks by row address always do. */
  lemma CtidChunksReturnTheTable(tasks: seq<ChunkTask>, user: seq<Token>, pages: nat, step: nat, total: int,
                                 table: seq<Stored>)
    requires step >= 1 && pages >= 1 && CtidPlan(tasks, user, pages, step, total)
    requires forall i :: 0 <= i < |table| ==> HasAddress(table[i].row)
    ensures Gathered(tasks, table) == multiset(Selected(Condition(user, []), table))
  {
    forall i | 0 <= i < |table|
      ensures Times(tasks, table[i].row) == if QuerySelects(Condition(user, []), table[i].row) then 1 else 0
    {
      assert HasAddress(table[i].row);
      var block: nat, offset: nat :| offset < OFFSETS && table[i].row.col("ctid") == Some(Ctid(block, offset));
      CtidChunksCoverOnce(tasks, user, pages, step, total, table[i].row, block, offset);
    }
    hide *;
    IsCovered(tasks, Condition(user, []), table);
    ChunksReturnTheTable(tasks, Condition(user, []), table);
  }

  ghost predicate HasAddress(row: Row) {
    && ReadsCtids(row)
    && exists block: nat, offset: nat :: offset < OFFSETS && row.col("ctid") == Some(Ctid(block, offset))
  }

  // ---- many chunks in one store ----

  /** The files of a chunk are in the store, in full. */
  ghost predicate Present(store: map<string, string>, id: ChunkId, files: seq<string>) {
    forall k :: 0 <= k < |files| ==> NameAt(id, k) in store && store[NameAt(id, k)] == files[k]
  }

  /** A chunk that has been written is present. */
  lemma StoredIsPresent(dump: Dump, kinds: seq<ColKind>, rows: seq<Record>, id: ChunkId, before: map<string, string>,
                        after: map<string, string>)
    requires Table(kinds, rows) && ChunkStored(dump, kinds, rows, id, before, after)
    requires EndToEnd.Numbered(id, |FilesOf(dump, kinds, rows)|)
    ensures Present(after, id, FilesOf(dump, kinds, rows))
  {
    NamedIsPresent(before, id, FilesOf(dump, kinds, rows));
    hide FilesOf, Named, Present, EndToEnd.Numbered, Table;
  }

  lemma NamedIsPresent(before: map<string, string>, id: ChunkId, files: seq<string>)
    requires EndToEnd.Numbered(id, |files|)
    ensures Present(before + Named(id, 0, files), id, files)
  {
    hide NameAt, Named;
    forall k | 0 <= k < |files|
      ensures NameAt(id, k) in Named(id, 0, files) && Named(id, 0, files)[NameAt(id, k)] == files[k]
    {
      EndToEnd.NamedAt(id, 0, files, k);
      assert 0 + k == k;
    }
  }

  predicate Reaches(id: ChunkId, bound: Bound, n: nat) {
    forall k :: 0 <= k < n ==> InRange(id.format, bound, id.chunk, k)
  }

  /** Chunks whose names can be told apart, up to `n` files each. */
  predicate Apart(a: ChunkId, b: ChunkId, n: nat) {
    && a.format == b.format && a.ext == b.ext
    && IsBytes(a.db) && IsBytes(a.table) && IsBytes(b.db) && IsBytes(b.table)
    && (a.db, a.table, a.chunk) != (b.db, b.table, b.chunk)
    && ((Reaches(a, ShortFiles, n) && Reaches(b, ShortFiles, n)) || (Reaches(a, ShortChunks, n) && Reaches(b, ShortChunks, n)))
  }

  lemma ApartNames(a: ChunkId, b: ChunkId, n: nat, j: nat, k: nat)
    requires Apart(a, b, n) && j < n && k < n
    ensures NameAt(a, j) != NameAt(b, k)
  {
    var bound := if Reaches(a, ShortFiles, n) && Reaches(b, ShortFiles, n) then ShortFiles else ShortChunks;
    assert InRange(a.format, bound, a.chunk, j) && InRange(b.format, bound, b.chunk, k);
    hide Name, IsBytes, InRange;
    if NameAt(a, j) == NameAt(b, k) {
      NamesUnique(a.format, bound, a.ext, Data(a.db, a.table, a.chunk, j), Data(b.db, b.table, b.chunk, k));
    }
  }

  /** Whatever another chunk's writing does, and however it ends, a chunk that is
      present stays so. */
  lemma OtherChunkKeeps(before: map<string, string>, after: map<string, string>, id: ChunkId, files: seq<string>,
                        other: ChunkId, n: nat)
    requires Present(before, id, files) && |files| <= n
    requires Apart(id, other, n) && Only(before, after, Names(other, 0, n))
    ensures Present(after, id, files)
  {
    hide NameAt, Apart;
    forall k | 0 <= k < |files| ensures NameAt(id, k) in after && after[NameAt(id, k)] == files[k] {
      if NameAt(id, k) in Names(other, 0, n) {
        var j :| 0 <= j < n && NameAt(id, k) == NameAt(other, j);
        ApartNames(id, other, n, k, j);
        assert false;
      }
    }
  }

  lemma {:induction false} PresentFetch(store: map<string, string>, id: ChunkId, files: seq<string>, k: nat)
    requires Present(store, id, files) && k <= |files|
    ensures EndToEnd.Fetch(store, id, k, |files|) == Some(files[k..])
    decreases |files| - k
  {
    hide NameAt;
    if k == |files| {
      assert files[k..] == [];
    } else {
      PresentFetch(store, id, files, k + 1);
      EndToEnd.FetchStep(store, id, k, |files|);
      assert files[k..] == [files[k]] + files[k + 1..];
    }
  }

  /** The rows loaded from the files of some chunks, chunk after chunk. */
  ghost function LoadChunks(g: Grammar, dump: Dump, kinds: seq<ColKind>, store: map<string, string>, ids: seq<ChunkId>,
                            counts: seq<nat>): Option<seq<Record>>
    requires |ids| == |counts| && DumpLoad.Readable(g, dump)
  {
    if ids == [] then Some([])
    else
      match EndToEnd.Fetch(store, ids[0], 0, counts[0])
      case None => None
      case Some(files) => Both(DumpLoad.LoadFiles(g, dump, kinds, files), LoadChunks(g, dump, kinds, store, ids[1..], counts[1..]))
  }

  /** Every chunk is present, and its rows are what its query returned, in any order. */
  ghost predicate ChunksPresent(g: Grammar, dump: Dump, kinds: seq<ColKind>, store: map<string, string>, tasks: seq<ChunkTask>,
                                ids: seq<ChunkId>, chunks: seq<seq<Record>>, counts: seq<nat>, table: seq<Stored>) {
    && |tasks| == |ids| == |chunks| == |counts|
    && forall i :: 0 <= i < |ids| ==>
         && Table(kinds, chunks[i]) && DumpLoad.Safe(g, dump, kinds, chunks[i])
         && counts[i] == |FilesOf(dump, kinds, chunks[i])|
         && Present(store, ids[i], FilesOf(dump, kinds, chunks[i]))
         && multiset(chunks[i]) == multiset(Selected(tasks[i].condition, table))
  }

  lemma {:induction false} ChunksLoad(g: Grammar, dump: Dump, kinds: seq<ColKind>, store: map<string, string>,
                                      tasks: seq<ChunkTask>,
                                      ids: seq<ChunkId>, chunks: seq<seq<Record>>, counts: seq<nat>, table: seq<Stored>)
    requires DumpLoad.Readable(g, dump) && ChunksPresent(g, dump, kinds, store, tasks, ids, chunks, counts, table)
    ensures LoadChunks(g, dump, kinds, store, ids, counts) == Some(Flat(chunks))
    ensures multiset(Flat(chunks)) == Gathered(tasks, table)
    decreases |ids|
  {
    hide Selected, Table, FilesOf, Present, DumpLoad.Safe, DumpLoad.Readable, DumpLoad.LoadFiles, EndToEnd.Fetch;
    if ids != [] {
      ChunkLoads(g, dump, kinds, store, ids[0], chunks[0]);
      assert ChunksPresent(g, dump, kinds, store, tasks[1..], ids[1..], chunks[1..], counts[1..], table);
      ChunksLoad(g, dump, kinds, store, tasks[1..], ids[1..], chunks[1..], counts[1..], table);
      assert multiset(chunks[0] + Flat(chunks[1..])) == multiset(chunks[0]) + multiset(Flat(chunks[1..]));
    }
  }

  lemma ChunkLoads(g: Grammar, dump: Dump, kinds: seq<ColKind>, store: map<string, string>, id: ChunkId, rows: seq<Record>)
    requires DumpLoad.Readable(g, dump) && Table(kinds, rows) && DumpLoad.Safe(g, dump, kinds, rows)
    requires Present(store, id, FilesOf(dump, kinds, rows))
    ensures var fetched := EndToEnd.Fetch(store, id, 0, |FilesOf(dump, kinds, rows)|);
            fetched.Some? && DumpLoad.LoadFiles(g, dump, kinds, fetched.value) == Some(rows)
  {
    hide *;
    var files := FilesOf(dump, kinds, rows);
    PresentFetch(store, id, files, 0);
    assert files[0..] == files;
    DumpLoad.FilesRead(g, dump, kinds, rows);
    DumpLoad.OutcomeDecides(DumpLoad.Safe(g, dump, kinds, rows), rows, DumpLoad.LoadFiles(g, dump, kinds, files));
  }

  // ---- many writers on one store ----

  /** One change to a file of a chunk: its new content, or its removal. */
  datatype Put = Put(chunk: nat, file: nat, content: Option<string>)

  predicate Known(puts: seq<Put>, chunks: nat, n: nat) {
    forall k :: 0 <= k < |puts| ==> puts[k].chunk < chunks && puts[k].file < n
  }

  function PutIn(store: map<string, string>, name: string, content: Option<string>): map<string, string> {
    if content.Some? then store[name := content.value] else store - {name}
  }

  /** The store after the changes of all writers, in the order they happened. */
  function Replay(store: map<string, string>, ids: seq<ChunkId>, puts: seq<Put>, n: nat): map<string, string>
    requires Known(puts, |ids|, n)
    decreases |puts|
  {
    if puts == [] then store
    else
      var p := puts[0];
      assert Known(puts[1..], |ids|, n) by { LaterKnown(puts, |ids|, n); }
      Replay(PutIn(store, NameAt(ids[p.chunk], p.file), p.content), ids, puts[1..], n)
  }

  /** The changes made for one chunk. */
  function Own(puts: seq<Put>, i: nat): seq<Put> {
    if puts == [] then [] else (if puts[0].chunk == i then [puts[0]] else []) + Own(puts[1..], i)
  }

  lemma LaterKnown(puts: seq<Put>, chunks: nat, n: nat)
    requires puts != [] && Known(puts, chunks, n)
    ensures Known(puts[1..], chunks, n)
  {
    forall k | 0 <= k < |puts| - 1 ensures puts[1..][k].chunk < chunks && puts[1..][k].file < n {
      assert puts[1..][k] == puts[k + 1];
    }
  }

  lemma {:induction false} OwnKnown(puts: seq<Put>, i: nat, chunks: nat, n: nat)
    requires Known(puts, chunks, n)
    ensures Known(Own(puts, i), chunks, n)
  {
    if puts != [] {
      LaterKnown(puts, chunks, n);
      OwnKnown(puts[1..], i, chunks, n);
    }
  }

  /** Two stores agree on the files of a chunk. */
  ghost predicate SameFiles(a: map<string, string>, b: map<string, string>, names: set<string>) {
    forall x :: x in names ==> (x in a <==> x in b) && (x in a ==> a[x] == b[x])
  }

  predicate AllApart(ids: seq<ChunkId>, n: nat) {
    forall i, j :: 0 <= i < j < |ids| ==> Apart(ids[i], ids[j], n)
  }

  /** The chunks of one run, as `OutputFileNamer` knows them, with up to `n` files
      each. No chunk comes twice, a table is split only where a number of rows is
      set, a chunk has a second file only where a file size is set, and one of the
      two indexes keeps to its digits. */
  predicate OneRun(ids: seq<ChunkId>, rowsSet: bool, fileSizeSet: bool, ext: string, n: nat) {
    && (forall i :: 0 <= i < |ids| ==>
         && IsBytes(ids[i].db) && IsBytes(ids[i].table)
         && ids[i].format == PickFormat(rowsSet, fileSizeSet) && ids[i].ext == ext
         && (!rowsSet ==> ids[i].chunk == 0)
         && (n > 10000 ==> ids[i].chunk <= 1000000000))
    && (forall i, j :: 0 <= i < j < |ids| ==>
         (ids[i].db, ids[i].table, ids[i].chunk) != (ids[j].db, ids[j].table, ids[j].chunk))
    && (!fileSizeSet ==> n <= 1)
  }

  lemma ReachesPicked(id: ChunkId, rowsSet: bool, fileSizeSet: bool, n: nat)
    requires id.format == PickFormat(rowsSet, fileSizeSet)
    requires !rowsSet ==> id.chunk == 0
    requires !fileSizeSet ==> n <= 1
    ensures n <= 10000 ==> Reaches(id, ShortFiles, n)
    ensures id.chunk <= 1000000000 ==> Reaches(id, ShortChunks, n)
  {
  }

  /** The format that is picked keeps every two chunks of a run apart. */
  lemma IdsApart(ids: seq<ChunkId>, rowsSet: bool, fileSizeSet: bool, ext: string, n: nat)
    requires OneRun(ids, rowsSet, fileSizeSet, ext, n)
    ensures AllApart(ids, n)
  {
    hide IsBytes, Reaches, PickFormat;
    forall i, j | 0 <= i < j < |ids| ensures Apart(ids[i], ids[j], n) {
      ReachesPicked(ids[i], rowsSet, fileSizeSet, n);
      ReachesPicked(ids[j], rowsSet, fileSizeSet, n);
    }
  }

  lemma ApartSwaps(a: ChunkId, b: ChunkId, n: nat)
    requires Apart(a, b, n)
    ensures Apart(b, a, n)
  {
    hide Reaches;
  }

  lemma NotItsName(ids: seq<ChunkId>, n: nat, i: nat, j: nat, k: nat)
    requires AllApart(ids, n) && i < |ids| && j < |ids| && i != j && k < n
    ensures NameAt(ids[j], k) !in Names(ids[i], 0, n)
  {
    hide NameAt, Apart;
    assert Apart(ids[i], ids[j], n) by {
      if j < i {
        ApartSwaps(ids[j], ids[i], n);
      }
    }
    if NameAt(ids[j], k) in Names(ids[i], 0, n) {
      var m :| 0 <= m < n && NameAt(ids[j], k) == NameAt(ids[i], m);
      ApartNames(ids[i], ids[j], n, m, k);
      assert false;
    }
  }

  lemma PutAgrees(a: map<string, string>, b: map<string, string>, names: set<string>, name: string,
                  content: Option<string>)
    requires SameFiles(a, b, names)
    ensures SameFiles(PutIn(a, name, content), PutIn(b, name, content), names)
    ensures name !in names ==> SameFiles(PutIn(a, name, content), b, names)
  {
  }

  lemma OwnStep(puts: seq<Put>, i: nat)
    requires puts != []
    ensures Own(puts, i) == (if puts[0].chunk == i then [puts[0]] else []) + Own(puts[1..], i)
  {
  }

  lemma ReplayStep(store: map<string, string>, ids: seq<ChunkId>, p: Put, later: seq<Put>, n: nat)
    requires Known([p] + later, |ids|, n)
    ensures Known(later, |ids|, n) && p.chunk < |ids| && p.file < n
    ensures Replay(store, ids, [p] + later, n) == Replay(PutIn(store, NameAt(ids[p.chunk], p.file), p.content), ids, later, n)
  {
    LaterKnown([p] + later, |ids|, n);
    assert ([p] + later)[1..] == later && ([p] + later)[0] == p;
  }

  /** Writers do not disturb each other: however the changes of all chunks are
      interleaved, the files of a chunk end up as if it had been written alone. */
  lemma {:induction false} WrittenAsAlone(a: map<string, string>, b: map<string, string>, ids: seq<ChunkId>,
                                          puts: seq<Put>, n: nat, i: nat)
    requires AllApart(ids, n) && Known(puts, |ids|, n) && i < |ids|
    requires SameFiles(a, b, Names(ids[i], 0, n))
    ensures Known(Own(puts, i), |ids|, n)
    ensures SameFiles(Replay(a, ids, puts, n), Replay(b, ids, Own(puts, i), n), Names(ids[i], 0, n))
    decreases |puts|
  {
    OwnKnown(puts, i, |ids|, n);
    if puts != [] {
      hide *;
      var p, later := puts[0], puts[1..];
      assert puts == [p] + later;
      ReplayStep(a, ids, p, later, n);
      OwnStep(puts, i);
      OwnKnown(later, i, |ids|, n);
      var name := NameAt(ids[p.chunk], p.file);
      PutAgrees(a, b, Names(ids[i], 0, n), name, p.content);
      if p.chunk == i {
        ReplayStep(b, ids, p, Own(later, i), n);
        WrittenAsAlone(PutIn(a, name, p.content), PutIn(b, name, p.content), ids, later, n, i);
      } else {
        NotItsName(ids, n, i, p.chunk, p.file);
        assert [] + Own(later, i) == Own(later, i);
        WrittenAsAlone(PutIn(a, name, p.content), b, ids, later, n, i);
      }
    }
  }

  /** A dump of a table's chunks: what each chunk's query returned, and where its
      files go. */
  datatype Work = Work(g: Grammar, dump: Dump, kinds: seq<ColKind>, db: string, table: string, ext: string,
                       rowsSet: bool, tasks: seq<ChunkTask>, ids: seq<ChunkId>, chunks: seq<seq<Record>>,
                       counts: seq<nat>)

  /** Each chunk is named by the namer of its task. A table is split only where a
      number of rows is set, and a chunk has a second file only where a file size is. */
  ghost predicate Prepared(w: Work, table: seq<Stored>, n: nat) {
    && |w.tasks| == |w.ids| == |w.chunks| == |w.counts|
    && IsBytes(w.db) && IsBytes(w.table)
    && (!w.rowsSet ==> |w.tasks| <= 1) && (FileSize(FormatOf(w.dump)) == 0 ==> n <= 1)
    && (n > 10000 ==> |w.tasks| <= 1000000001)
    && forall i :: 0 <= i < |w.ids| ==>
         && Table(w.kinds, w.chunks[i]) && DumpLoad.Safe(w.g, w.dump, w.kinds, w.chunks[i])
         && w.counts[i] == |FilesOf(w.dump, w.kinds, w.chunks[i])| <= n
         && w.ids[i] == ChunkId(w.db, w.table, w.tasks[i].index, PickFormat(w.rowsSet, FileSize(FormatOf(w.dump)) != 0), w.ext)
         && multiset(w.chunks[i]) == multiset(Selected(w.tasks[i].condition, table))
  }

  /** Tasks are numbered as they are sent. */
  predicate Numbered(tasks: seq<ChunkTask>) {
    forall i :: 0 <= i < |tasks| ==> tasks[i].index == i
  }

  lemma WorkApart(w: Work, table: seq<Stored>, n: nat)
    requires Prepared(w, table, n) && Numbered(w.tasks)
    ensures AllApart(w.ids, n)
  {
    hide Table, FilesOf, Selected, FileSize, FormatOf, DumpLoad.Safe, IsBytes, PickFormat, AllApart;
    IdsApart(w.ids, w.rowsSet, FileSize(FormatOf(w.dump)) != 0, w.ext, n);
  }

  /** Writing chunk `i` alone would have been without an error. */
  ghost predicate WroteChunk(w: Work, i: nat, before: map<string, string>, puts: seq<Put>, n: nat)
    requires Known(puts, |w.ids|, n) && i < |w.ids| == |w.chunks|
    requires Table(w.kinds, w.chunks[i])
  {
    OwnKnown(puts, i, |w.ids|, n);
    ChunkStored(w.dump, w.kinds, w.chunks[i], w.ids[i], before, Replay(before, w.ids, Own(puts, i), n))
  }

  /** The queue has sent every chunk's task once, has come to its end without an
      error or a cancellation, and a task counts as handled only when
      `WriteTableData` has returned without an error. */
  ghost predicate Completed(w: Work, before: map<string, string>, puts: seq<Put>, n: nat, s: TaskQueue.State,
                            actions: seq<TaskQueue.Action>, t: TaskQueue.State)
    requires Known(puts, |w.ids|, n) && |w.ids| == |w.chunks|
    requires forall i :: 0 <= i < |w.ids| ==> Table(w.kinds, w.chunks[i])
  {
    && TaskQueue.Start(s) && TaskQueue.Runs(s, actions, t) && TaskQueue.AllStopped(t) && !t.broken
    && (forall i :: 0 <= i < |w.ids| ==> multiset(s.toSend)[i] == 1)
    && (forall i :: 0 <= i < |w.ids| && t.handled[i] == 1 ==> WroteChunk(w, i, before, puts, n))
  }

  lemma ChunkArrives(w: Work, table: seq<Stored>, before: map<string, string>, puts: seq<Put>, n: nat, i: nat)
    requires Prepared(w, table, n) && Numbered(w.tasks) && Known(puts, |w.ids|, n) && i < |w.ids|
    requires WroteChunk(w, i, before, puts, n)
    ensures Present(Replay(before, w.ids, puts, n), w.ids[i], FilesOf(w.dump, w.kinds, w.chunks[i]))
  {
    var files := FilesOf(w.dump, w.kinds, w.chunks[i]);
    OwnKnown(puts, i, |w.ids|, n);
    EndToEnd.FileCount(w.dump, w.kinds, w.chunks[i], w.rowsSet);
    var alone := Replay(before, w.ids, Own(puts, i), n);
    assert ChunkStored(w.dump, w.kinds, w.chunks[i], w.ids[i], before, alone);
    WorkApart(w, table, n);
    assert EndToEnd.Numbered(w.ids[i], |files|) && |files| <= n;
    assert Table(w.kinds, w.chunks[i]);
    hide *;
    StoredIsPresent(w.dump, w.kinds, w.chunks[i], w.ids[i], before, alone);
    Agrees(before, Names(w.ids[i], 0, n));
    WrittenAsAlone(before, before, w.ids, puts, n, i);
    SamePresent(alone, Replay(before, w.ids, puts, n), w.ids[i], files, n);
  }

  lemma Agrees(a: map<string, string>, names: set<string>)
    ensures SameFiles(a, a, names)
  {
  }

  lemma SamePresent(a: map<string, string>, b: map<string, string>, id: ChunkId, files: seq<string>, n: nat)
    requires Present(a, id, files) && |files| <= n && SameFiles(b, a, Names(id, 0, n))
    ensures Present(b, id, files)
  {
    hide NameAt;
    forall k | 0 <= k < |files| ensures NameAt(id, k) in b && b[NameAt(id, k)] == files[k] {
      assert NameAt(id, k) in Names(id, 0, n);
    }
  }

  /** When the queue has come to its end without an error, every chunk is in the
      store in full, whatever the interleaving of the writers. */
  lemma AllArrive(w: Work, table: seq<Stored>, before: map<string, string>, puts: seq<Put>, n: nat,
                  s: TaskQueue.State,
                  actions: seq<TaskQueue.Action>, t: TaskQueue.State)
    requires Prepared(w, table, n) && Numbered(w.tasks) && Known(puts, |w.ids|, n)
    requires Completed(w, before, puts, n, s, actions, t)
    ensures ChunksPresent(w.g, w.dump, w.kinds, Replay(before, w.ids, puts, n), w.tasks, w.ids, w.chunks, w.counts, table)
  {
    TaskQueue.EachTaskOnce(s, actions, t);
    hide WroteChunk, Present, FilesOf, Replay, Selected, Table, DumpLoad.Safe, AllApart, TaskQueue.Start, TaskQueue.Runs;
    forall i | 0 <= i < |w.ids|
      ensures Present(Replay(before, w.ids, puts, n), w.ids[i], FilesOf(w.dump, w.kinds, w.chunks[i]))
    {
      assert t.handled[i] == 1;
      ChunkArrives(w, table, before, puts, n, i);
    }
  }

  /** Nothing lost, nothing twice: when the writers of an integer-keyed table are
      done, loading every file gives exactly the records of the unchunked query. */
  lemma IntTableLoadsBack(w: Work, table: seq<Stored>, before: map<string, string>, puts: seq<Put>, n: nat,
                          s: TaskQueue.State, actions: seq<TaskQueue.Action>, t: TaskQueue.State,
                          user: seq<Token>, field: string, minv: int, maxv: int, step: nat, total: int)
    requires DumpLoad.Readable(w.g, w.dump) && Prepared(w, table, n) && Known(puts, |w.ids|, n)
    requires Completed(w, before, puts, n, s, actions, t)
    requires step > 0 && IntPlan(w.tasks, user, field, minv, maxv, step, total)
    requires forall i :: 0 <= i < |table| ==> KeyKnown(table[i].row, user, field, minv, maxv)
    ensures |w.ids| == |w.counts|
    ensures var loaded := LoadChunks(w.g, w.dump, w.kinds, Replay(before, w.ids, puts, n), w.ids, w.counts);
            loaded.Some? && multiset(loaded.value) == multiset(Selected(Condition(user, []), table))
  {
    assert |w.ids| == |w.counts|;
    hide *;
    AllArrive(w, table, before, puts, n, s, actions, t);
    ChunksLoad(w.g, w.dump, w.kinds, Replay(before, w.ids, puts, n), w.tasks, w.ids, w.chunks, w.counts, table);
    IntChunksReturnTheTable(w.tasks, user, field, minv, maxv, step, total, table);
  }

  /** The same for a table chunked by row address. */
  lemma CtidTableLoadsBack(w: Work, table: seq<Stored>, before: map<string, string>, puts: seq<Put>, n: nat,
                           s: TaskQueue.State, actions: seq<TaskQueue.Action>, t: TaskQueue.State,
                           user: seq<Token>, pages: nat, step: nat, total: int)
    requires DumpLoad.Readable(w.g, w.dump) && Prepared(w, table, n) && Known(puts, |w.ids|, n)
    requires Completed(w, before, puts, n, s, actions, t)
    requires step >= 1 && pages >= 1 && CtidPlan(w.tasks, user, pages, step, total)
    requires forall i :: 0 <= i < |table| ==> HasAddress(table[i].row)
    ensures |w.ids| == |w.counts|
    ensures var loaded := LoadChunks(w.g, w.dump, w.kinds, Replay(before, w.ids, puts, n), w.ids, w.counts);
            loaded.Some? && multiset(loaded.value) == multiset(Selected(Condition(user, []), table))
  {
    assert |w.ids| == |w.counts|;
    hide *;
    AllArrive(w, table, before, puts, n, s, actions, t);
    ChunksLoad(w.g, w.dump, w.kinds, Replay(before, w.ids, puts, n), w.tasks, w.ids, w.chunks, w.counts, table);
    CtidChunksReturnTheTable(w.tasks, user, pages, step, total, table);
  }
}
