/** The write side and the read side put together: what `WriteTableData` leaves
    in the store, found by name and loaded. */
module EndToEnd {
  import opened Common
  import opened RowText
  import opened DataFiles
  import opened FileNames
  import opened TableWriter
  import DumpLoad

  /** The contents of files `k` to `n - 1` of a chunk. */
  function Fetch(files: map<string, string>, id: ChunkId, k: nat, n: nat): Option<seq<string>>
    decreases n - k
  {
    if k >= n then Some([])
    else if NameAt(id, k) !in files then None
    else
      match Fetch(files, id, k + 1, n)
      case None => None
      case Some(more) => Some([files[NameAt(id, k)]] + more)
  }

  /** A format that numbers the files, or a single file. */
  predicate Numbered(id: ChunkId, n: nat) {
    id.format != ChunkOnly || n <= 1
  }

  lemma NamesDiffer(id: ChunkId, j: nat, k: nat)
    requires id.format != ChunkOnly && NameAt(id, j) == NameAt(id, k)
    ensures j == k
  {
    hide Name;
    FilesOfChunkDiffer(id.format, id.ext, id.db, id.table, id.chunk, j, k);
  }

  lemma {:induction false} NamedAt(id: ChunkId, k: nat, contents: seq<string>, i: nat)
    requires i < |contents| && Numbered(id, |contents|)
    ensures NameAt(id, k + i) in Named(id, k, contents) && Named(id, k, contents)[NameAt(id, k + i)] == contents[i]
    decreases |contents|
  {
    hide NameAt;
    var later := Named(id, k + 1, contents[1..]);
    NamedKeys(id, k + 1, contents[1..]);
    if i == 0 {
      if NameAt(id, k) in later {
        var j :| k + 1 <= j < k + |contents| && NameAt(id, k) == NameAt(id, j);
        NamesDiffer(id, k, j);
        assert false;
      }
    } else {
      NamedAt(id, k + 1, contents[1..], i - 1);
      assert (k + 1) + (i - 1) == k + i;
    }
  }

  lemma FetchStep(files: map<string, string>, id: ChunkId, k: nat, n: nat)
    requires k < n && NameAt(id, k) in files
    ensures Fetch(files, id, k, n)
         == match Fetch(files, id, k + 1, n)
            case None => None
            case Some(more) => Some([files[NameAt(id, k)]] + more)
  {
    hide NameAt;
  }

  lemma {:induction false} FetchNamed(files: map<string, string>, id: ChunkId, contents: seq<string>, k: nat)
    requires Numbered(id, |contents|) && k <= |contents|
    ensures Fetch(files + Named(id, 0, contents), id, k, |contents|) == Some(contents[k..])
    decreases |contents| - k
  {
    if k == |contents| {
      hide NameAt;
    } else {
      hide *;
      FetchNamed(files, id, contents, k + 1);
      NamedAt(id, 0, contents, k);
      assert 0 + k == k;
      FetchStep(files + Named(id, 0, contents), id, k, |contents|);
      assert contents[k..] == [contents[k]] + contents[k + 1..];
    }
  }

  lemma FileCount(dump: Dump, kinds: seq<ColKind>, rows: seq<Record>, rowsSet: bool)
    requires Table(kinds, rows)
    ensures PickFormat(rowsSet, FileSize(FormatOf(dump)) != 0) == ChunkOnly ==> |FilesOf(dump, kinds, rows)| <= 1
  {
    hide Items, Content, Taken, Table;
  }

  /** A chunk that was written without an error, by any number of attempts, is
      found under its names file by file and loads as the rows of the table,
      exactly when those rows are safe to write. */
  lemma StoredChunkLoads(g: Grammar, dump: Dump, kinds: seq<ColKind>, rows: seq<Record>, id: ChunkId, rowsSet: bool,
                         before: map<string, string>, after: map<string, string>)
    requires Table(kinds, rows) && DumpLoad.Readable(g, dump)
    requires id.format == PickFormat(rowsSet, FileSize(FormatOf(dump)) != 0)
    requires ChunkStored(dump, kinds, rows, id, before, after)
    ensures var found := Fetch(after, id, 0, |FilesOf(dump, kinds, rows)|);
            && found == Some(FilesOf(dump, kinds, rows))
            && (DumpLoad.LoadFiles(g, dump, kinds, found.value) == Some(rows) <==> DumpLoad.Safe(g, dump, kinds, rows))
  {
    var contents := FilesOf(dump, kinds, rows);
    FileCount(dump, kinds, rows, rowsSet);
    hide DumpLoad.Safe, DumpLoad.LoadFiles, DumpLoad.Readable, FilesOf, Fetch, Named, FileSize, FormatOf;
    FetchNamed(before, id, contents, 0);
    assert contents[0..] == contents;
    DumpLoad.FilesRead(g, dump, kinds, rows);
    DumpLoad.OutcomeDecides(DumpLoad.Safe(g, dump, kinds, rows), rows, DumpLoad.LoadFiles(g, dump, kinds, contents));
  }
}
