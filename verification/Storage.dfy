/** External storage as a map from names to contents, and the lazily unclosed data
    file of `writer_util.go` (`InterceptFileWriter`). */
module Storage {
  /** Nothing outside `names` differs. */
  ghost predicate Only(before: map<string, string>, after: map<string, string>, names: set<string>) {
    forall x :: x !in names ==> (x in before <==> x in after) && (x in before ==> before[x] == after[x])
  }

  lemma OnlySame(a: map<string, string>, names: set<string>)
    ensures Only(a, a, names)
  {
  }

  lemma OnlyChains(a: map<string, string>, b: map<string, string>, c: map<string, string>, names: set<string>)
    requires Only(a, b, names) && Only(b, c, names)
    ensures Only(a, c, names)
  {
  }

  lemma OnlyGrows(a: map<string, string>, b: map<string, string>, names: set<string>, more: set<string>)
    requires Only(a, b, names) && names <= more
    ensures Only(a, b, more)
  {
  }

  /** The same for the names of open files. */
  ghost predicate OnlyUnclosed(before: set<string>, after: set<string>, name: string) {
    before - {name} == after - {name}
  }

  lemma UnclosedSame(a: set<string>, name: string)
    ensures OnlyUnclosed(a, a, name)
  {
  }

  lemma UnclosedChains(a: set<string>, b: set<string>, c: set<string>, name: string)
    requires OnlyUnclosed(a, b, name) && OnlyUnclosed(b, c, name)
    ensures OnlyUnclosed(a, c, name)
  {
  }

  /** Creating a file truncates it. A failing operation may leave anything under
      the name it was called with. */
  class Store {
    var files: map<string, string>
    /** The files that have not been closed: what is in them may still be lost. */
    ghost var unclosed: set<string>
    /** How many operations have failed, and how often something was given up
        because the context was done. */
    ghost var failed: nat
    ghost var interrupted: nat

    constructor ()
      ensures files == map[] && unclosed == {} && failed == 0 && interrupted == 0
    {
      files := map[];
      unclosed, failed, interrupted := {}, 0, 0;
    }

    method Create(name: string) returns (ok: bool)
      modifies `files, `unclosed, `failed
      ensures ok ==> files == old(files)[name := ""] && name in unclosed
      ensures Only(old(files), files, {name}) && OnlyUnclosed(old(unclosed), unclosed, name)
      ensures failed == old(failed) + if ok then 0 else 1
    {
      ok := *;
      if ok {
        files, unclosed := files[name := ""], unclosed + {name};
      } else {
        failed := failed + 1;
        if * {
          var junk: string := *;
          files, unclosed := files[name := junk], unclosed + {name};
        }
      }
    }

    method Append(name: string, p: string) returns (ok: bool)
      requires name in files
      modifies `files, `failed
      ensures ok ==> files == old(files)[name := old(files)[name] + p]
      ensures Only(old(files), files, {name}) && name in files
      ensures failed == old(failed) + if ok then 0 else 1
    {
      ok := *;
      if !ok {
        failed := failed + 1;
      }
      var junk: string := *;
      files := files[name := if ok then files[name] + p else junk];
    }

    method Close(name: string) returns (ok: bool)
      modifies `files, `unclosed, `failed
      ensures ok ==> files == old(files) && name !in unclosed
      ensures Only(old(files), files, {name}) && OnlyUnclosed(old(unclosed), unclosed, name)
      ensures failed == old(failed) + if ok then 0 else 1
    {
      ok := *;
      if ok {
        unclosed := unclosed - {name};
      } else {
        failed := failed + 1;
        var junk: string := *;
        files := files[name := junk];
      }
    }
  }

  class FileWriter {
    const store: Store
    const name: string
    var initDone: bool
    var err: bool
    var isOpen: bool
    var somethingIsWritten: bool

    ghost predicate Valid()
      reads this, store
    {
      && (isOpen ==> initDone && !err && name in store.files)
      && (initDone ==> somethingIsWritten && (err || isOpen))
      && (!initDone ==> !somethingIsWritten && !err && !isOpen)
    }

    constructor (store: Store, name: string)
      ensures this.store == store && this.name == name && Valid() && !initDone
    {
      this.store, this.name := store, name;
      initDone, err, isOpen, somethingIsWritten := false, false, false, false;
    }

    lemma Unwritten()
      requires Valid()
      ensures initDone <==> somethingIsWritten
      ensures !initDone ==> !err
      ensures initDone && !err <==> isOpen
    {
    }

    /** `Write`: the first call creates the file. */
    method Write(p: string) returns (ok: bool)
      requires Valid() && p != ""
      modifies this, store`files, store`unclosed, store`failed
      ensures Valid() && initDone
      ensures !old(err) ==> store.failed == old(store.failed) + (if ok then 0 else 1)
      ensures ok ==> !err && !old(err)
      ensures OnlyUnclosed(old(store.unclosed), store.unclosed, name)
      ensures ok ==> isOpen
      ensures ok && !old(initDone) ==> store.files == old(store.files)[name := p]
      ensures ok && old(initDone) ==> name in old(store.files) && store.files == old(store.files)[name := old(store.files)[name] + p]
      ensures Only(old(store.files), store.files, {name})
    {
      if !initDone {
        initDone := true;
        var created := store.Create(name);
        if created {
          isOpen := true;
        } else {
          err := true;
        }
      }
      if |p| > 0 {
        somethingIsWritten := true;
      }
      if err {
        return false;
      }
      assert "" + p == p;
      ghost var before := store.files;
      ok := store.Append(name, p);
      if ok && !old(initDone) {
        assert store.files == old(store.files)[name := ""][name := p] == old(store.files)[name := p];
      }
      OnlyChains(old(store.files), before, store.files, {name});
    }

    /** The tear-down routine: closes the file if it was unclosed. */
    method TearDown() returns (ok: bool)
      requires Valid()
      modifies store`files, store`unclosed, store`failed
      ensures ok ==> store.files == old(store.files) && (isOpen ==> name !in store.unclosed)
      ensures !initDone ==> ok
      ensures Only(old(store.files), store.files, {name}) && OnlyUnclosed(old(store.unclosed), store.unclosed, name)
      ensures store.failed == old(store.failed) + (if ok then 0 else 1)
      ensures !isOpen ==> store.unclosed == old(store.unclosed)
    {
      if !isOpen {
        return true;
      }
      ok := store.Close(name);
    }
  }
}
