/** What a completed rebuild counts and what it leaves, whatever it starts from. */
module RebuildProofs {
  import opened Seqs
  import opened Messages
  import opened Index
  import opened Disk
  import opened Rebuild

  // ── conservation of the counters ───────────────────────────────────────

  function BadEntries(entries: seq<Entry>): nat {
    if entries == [] then 0 else (if entries[0].BadEntry? then 1 else 0) + BadEntries(entries[1..])
  }

  /** Folders and directory entries that could not be read. */
  function BadReads(ds: seq<Dir>): nat {
    if ds == [] then 0
    else (match ds[0].listing case None => 1 case Some(es) => BadEntries(es)) + BadReads(ds[1..])
  }

  /** How many files are stored, skipped and failed. */
  datatype Tally = Tally(stored: nat, skipped: nat, failed: nat)

  function Plus(a: Tally, b: Tally): Tally { Tally(a.stored + b.stored, a.skipped + b.skipped, a.failed + b.failed) }

  lemma PlusLaws(a: Tally, b: Tally, c: Tally)
    ensures Plus(Plus(a, b), c) == Plus(a, Plus(b, c)) && Plus(Tally(0, 0, 0), a) == a
  {}

  function One(x: Placed, e: Env): Tally {
    match OutcomeOf(x, e) case Store(_) => Tally(1, 0, 0) case Skip => Tally(0, 1, 0) case Fail => Tally(0, 0, 1)
  }

  function Outcomes(files: seq<Placed>, e: Env): (t: Tally)
    ensures t.stored + t.skipped + t.failed == |files|
  {
    if files == [] then Tally(0, 0, 0) else Plus(One(files[0], e), Outcomes(files[1..], e))
  }

  lemma {:induction false} OutcomesConcat(a: seq<Placed>, b: seq<Placed>, e: Env)
    ensures Outcomes(a + b, e) == Plus(Outcomes(a, e), Outcomes(b, e))
  {
    hide One, Plus;
    if a == [] {
      assert a + b == b;
      PlusLaws(Outcomes(b, e), Tally(0, 0, 0), Tally(0, 0, 0));
    } else {
      Uncons(a, b);
      OutcomesConcat(a[1..], b, e);
      PlusLaws(One(a[0], e), Outcomes(a[1..], e), Outcomes(b, e));
    }
  }

  /** The counters after files with these outcomes and `bad` bad reads. */
  predicate Counted(before: Stats, after: Stats, t: Tally, bad: nat) {
    && after.scanned == before.scanned + t.stored + t.skipped + t.failed
    && after.upserted == before.upserted + t.stored
    && after.skipped == before.skipped + t.skipped
    && after.errors == before.errors + t.failed + bad
  }

  lemma CountedChain(a: Stats, b: Stats, c: Stats, t: Tally, u: Tally, m: nat, n: nat)
    requires Counted(a, b, t, m) && Counted(b, c, u, n)
    ensures Counted(a, c, Plus(t, u), m + n)
  {}

  lemma FolderCounted(w: Walk, d: Dir, e: Env)
    ensures Counted(w.stats, WalkFolder(w, d, e).stats, Outcomes(FilesOf(d), e),
                    match d.listing case None => 1 case Some(es) => BadEntries(es))
  {
    hide OutcomeOf, WalkEntries;
    if d.listing.Some? { EntriesCounted(w.(inTxn := false, batch := 0), d.name, d.listing.value, e); }
  }

  lemma OnEntryCounted(w: Walk, dir: string, entry: Entry, e: Env)
    ensures Counted(w.stats, OnEntry(w, dir, entry, e).stats,
                    if entry.Eml? then One(Placed(dir, entry.file), e) else Tally(0, 0, 0),
                    if entry.BadEntry? then 1 else 0)
  {}

  lemma {:induction false} EntriesCounted(w: Walk, dir: string, entries: seq<Entry>, e: Env)
    ensures Counted(w.stats, WalkEntries(w, dir, entries, e).stats,
                    Outcomes(FilterMap(entries, EmlFile(dir)), e), BadEntries(entries))
    decreases |entries|
  {
    hide OnEntry, OutcomeOf;
    if entries != [] {
      OnEntryCounted(w, dir, entries[0], e);
      EntriesCounted(OnEntry(w, dir, entries[0], e), dir, entries[1..], e);
      var rest := FilterMap(entries[1..], EmlFile(dir));
      if entries[0].Eml? { assert ([Placed(dir, entries[0].file)] + rest)[1..] == rest; }
    }
  }

  lemma NothingCounted(s: Stats, e: Env)
    ensures Counted(s, s, Outcomes([], e), 0)
  {}

  lemma {:induction false} FoldersCounted(w: Walk, ds: seq<Dir>, e: Env)
    ensures Counted(w.stats, WalkFolders(w, ds, e).stats, Outcomes(FilesIn(ds), e), BadReads(ds))
    decreases |ds|
  {
    hide WalkFolder, Counted, Outcomes, FilesOf, BadEntries;
    if ds == [] {
      NothingCounted(w.stats, e);
    } else {
      var next := WalkFolder(w, ds[0], e);
      FolderCounted(w, ds[0], e);
      FoldersCounted(next, ds[1..], e);
      OutcomesConcat(FilesOf(ds[0]), FilesIn(ds[1..]), e);
      CountedChain(w.stats, next.stats, WalkFolders(w, ds, e).stats, Outcomes(FilesOf(ds[0]), e),
                   Outcomes(FilesIn(ds[1..]), e),
                   match ds[0].listing case None => 1 case Some(es) => BadEntries(es), BadReads(ds[1..]));
    }
  }

  /** Each counter counts what it says: every file scanned was stored, skipped or
      failed, and the other errors are the unreadable folders and entries. */
  lemma FilesAccountedFor(s: State, entries: seq<Dir>, o: Opts, parse: Parser, clock: nat -> int, tk: Tokenizer)
    ensures var stats := RebuildStats(s, Mail(entries), o, parse, clock, tk).value; var ds := FolderDirs(entries);
      var t := Outcomes(FilesIn(ds), StartEnv(s.db.rows, o, parse, clock));
      && stats.scanned == |FilesIn(ds)|
      && stats.upserted == t.stored && stats.skipped == t.skipped && stats.errors == t.failed + BadReads(ds)
      && stats.scanned + BadReads(ds) == stats.upserted + stats.skipped + stats.errors
  {
    hide WalkFolders, Run, Outcomes, FilesIn, FolderDirs, BadReads;
    FoldersCounted(StartWalk(s.db.rows, o), FolderDirs(entries), StartEnv(s.db.rows, o, parse, clock));
  }

  // ── the rows a completed rebuild leaves ────────────────────────────────

  function RowOfId(rows: map<string, Stored>, id: string): Option<MessageRow> {
    if id in rows then Some(rows[id].row) else None
  }

  /** The row of one id after a statement. */
  function RowAfter(op: Op, id: string, was: Option<MessageRow>): Option<MessageRow> {
    match op
    case Upsert(row, _) => if row.canonicalId == id then Some(row) else was
    case DeleteRows(ids) => if id in ids then None else was
    case _ => was
  }

  function RowThen(ops: seq<Op>, id: string, was: Option<MessageRow>): Option<MessageRow>
    decreases |ops|
  {
    if ops == [] then was else RowAfter(ops[|ops| - 1], id, RowThen(ops[..|ops| - 1], id, was))
  }

  lemma RowThenSnoc(ops: seq<Op>, op: Op, id: string, was: Option<MessageRow>)
    ensures RowThen(ops + [op], id, was) == RowAfter(op, id, RowThen(ops, id, was))
  {
    assert (ops + [op])[..|ops|] == ops;
  }

  /** Transactions do not matter to a run that is not cut short. */
  lemma {:induction false} RunRow(s: State, ops: seq<Op>, id: string, tk: Tokenizer)
    ensures RowOfId(Run(s, ops, tk).db.rows, id) == RowThen(ops, id, RowOfId(s.db.rows, id))
    decreases |ops|
  {
    if ops != [] { RunRow(s, ops[..|ops| - 1], id, tk); }
  }

  /** The last file of an id that is stored, in walking order. */
  function LastStored(files: seq<Placed>, id: string, e: Env): Option<MessageRow> {
    if files == [] then None
    else Or(LastStored(files[1..], id, e), StoredAs(files[0], id, e))
  }

  function StoredAs(x: Placed, id: string, e: Env): Option<MessageRow> {
    var out := OutcomeOf(x, e);
    if x.file.id == id && out.Store? then Some(out.row) else None
  }

  lemma OutcomeId(x: Placed, e: Env)
    ensures OutcomeOf(x, e).Store? ==> OutcomeOf(x, e).row.canonicalId == x.file.id
  {}

  lemma {:induction false} LastStoredConcat(a: seq<Placed>, b: seq<Placed>, id: string, e: Env)
    ensures LastStored(a + b, id, e) == Or(LastStored(b, id, e), LastStored(a, id, e))
  {
    if a == [] {
      assert a + b == b;
    } else {
      Uncons(a, b);
      LastStoredConcat(a[1..], b, id, e);
    }
  }

  lemma StoreRowThen(w: Walk, row: MessageRow, id: string, e: Env, was: Option<MessageRow>)
    ensures RowThen(StoreRow(w, row, e).ops, id, was) ==
            if row.canonicalId == id then Some(row) else RowThen(w.ops, id, was)
  {
    hide RowThen;
    var begun := if w.inTxn then w.ops else w.ops + [Begin];
    var put := Op.Upsert(row, e.clock(w.stats.upserted));
    RowThenSnoc(w.ops, Begin, id, was);
    RowThenSnoc(begun, put, id, was);
    RowThenSnoc(begun + [put], Commit, id, was);
  }

  /** One file. */
  lemma FileRow(w: Walk, x: Placed, id: string, e: Env, was: Option<MessageRow>)
    ensures RowThen(OnFile(w, x, e).ops, id, was) == Or(StoredAs(x, id, e), RowThen(w.ops, id, was))
    ensures OnFile(w, x, e).seen == w.seen + {x.file.id}
  {
    hide RowThen, Load;
    OutcomeId(x, e);
    var v := w.(seen := w.seen + {x.file.id}, stats := w.stats.(scanned := w.stats.scanned + 1));
    match OutcomeOf(x, e)
    case Store(row) => StoreRowThen(v, row, id, e, was);
    case _ =>
  }

  lemma {:induction false} EntriesRow(w: Walk, dir: string, entries: seq<Entry>, id: string, e: Env,
                                      was: Option<MessageRow>)
    ensures var v, files := WalkEntries(w, dir, entries, e), FilterMap(entries, EmlFile(dir));
      && RowThen(v.ops, id, was) == Or(LastStored(files, id, e), RowThen(w.ops, id, was))
      && v.seen == w.seen + Ids(files)
    decreases |entries|
  {
    var files := FilterMap(entries, EmlFile(dir));
    if entries == [] {
      assert Ids(files) == {};
    } else {
      var rest := FilterMap(entries[1..], EmlFile(dir));
      EntriesRow(OnEntry(w, dir, entries[0], e), dir, entries[1..], id, e, was);
      if entries[0].Eml? {
        var x := Placed(dir, entries[0].file);
        FileRow(w, x, id, e, was);
        assert files[1..] == rest;
        IdsCons(x, rest);
      }
    }
  }

  lemma IdsCons(x: Placed, rest: seq<Placed>)
    ensures Ids([x] + rest) == {x.file.id} + Ids(rest)
  {
    assert forall y :: y in [x] + rest <==> y == x || y in rest;
  }

  lemma IdsConcat(a: seq<Placed>, b: seq<Placed>)
    ensures Ids(a + b) == Ids(a) + Ids(b)
  {
    assert forall y :: y in a + b <==> y in a || y in b;
  }

  lemma FolderRow(w: Walk, d: Dir, id: string, e: Env, was: Option<MessageRow>)
    ensures var v := WalkFolder(w, d, e);
      && RowThen(v.ops, id, was) == Or(LastStored(FilesOf(d), id, e), RowThen(w.ops, id, was))
      && v.seen == w.seen + Ids(FilesOf(d))
  {
    if d.listing.Some? {
      var from := w.(inTxn := false, batch := 0);
      EntriesRow(from, d.name, d.listing.value, id, e, was);
      RowThenSnoc(WalkEntries(from, d.name, d.listing.value, e).ops, Commit, id, was);
    }
  }

  lemma {:induction false} FoldersRow(w: Walk, ds: seq<Dir>, id: string, e: Env, was: Option<MessageRow>)
    ensures var v := WalkFolders(w, ds, e);
      && RowThen(v.ops, id, was) == Or(LastStored(FilesIn(ds), id, e), RowThen(w.ops, id, was))
      && v.seen == w.seen + Ids(FilesIn(ds))
    decreases |ds|
  {
    if ds == [] {
      assert Ids(FilesIn(ds)) == {};
    } else {
      FolderRow(w, ds[0], id, e, was);
      FoldersRow(WalkFolder(w, ds[0], e), ds[1..], id, e, was);
      LastStoredConcat(FilesOf(ds[0]), FilesIn(ds[1..]), id, e);
      IdsConcat(FilesOf(ds[0]), FilesIn(ds[1..]));
    }
  }

  /** What a completed rebuild leaves, from any state and for any tree: a row for
      an id on disk is the last one stored for it or, unless forced, the row it
      had; every other row is gone. */
  lemma RebuildLeaves(s: State, entries: seq<Dir>, o: Opts, parse: Parser, clock: nat -> int, tk: Tokenizer, id: string)
    ensures var files, e := FilesIn(FolderDirs(entries)), StartEnv(s.db.rows, o, parse, clock);
      RowOfId(Run(s, RebuildOps(s, Mail(entries), o, parse, clock, tk), tk).db.rows, id) ==
      if id !in Ids(files) then None
      else Or(LastStored(files, id, e), if o.force then None else RowOfId(s.db.rows, id))
  {
    var ds, was := FolderDirs(entries), RowOfId(s.db.rows, id);
    var w := FullWalk(s.db.rows, ds, o, parse, clock);
    var start := StartWalk(s.db.rows, o);
    FoldersRow(start, ds, id, StartEnv(s.db.rows, o, parse, clock), was);
    assert RowThen(start.ops, id, was) == if o.force then None else was;
    RunRow(s, w.ops, id, tk);
    RunSnoc(s, w.ops, DeleteRows(Run(s, w.ops, tk).db.rows.Keys - w.seen), tk);
  }

  /** The file lies in a folder that can be listed. */
  predicate SeenIn(ds: seq<Dir>, id: string) {
    exists d <- ds :: d.listing.Some? && exists f <- d.listing.value :: f.Eml? && f.file.id == id
  }

  lemma {:induction false} SeenIsId(ds: seq<Dir>, id: string)
    ensures id in Ids(FilesIn(ds)) <==> SeenIn(ds, id)
  {
    if ds == [] {
      assert FilesIn(ds) == [];
    } else {
      SeenIsId(ds[1..], id);
      IdsConcat(FilesOf(ds[0]), FilesIn(ds[1..]));
      SeenHere(ds[0], id);
      assert forall d :: d in ds <==> d == ds[0] || d in ds[1..];
    }
  }

  lemma SeenHere(d: Dir, id: string)
    ensures id in Ids(FilesOf(d)) <==> d.listing.Some? && exists f <- d.listing.value :: f.Eml? && f.file.id == id
  {
    if d.listing.Some? { FilterMapIn(d.listing.value, EmlFile(d.name)); }
  }

  /** A folder that cannot be listed counts as an error and no more: an id that is in
      no folder that can be listed loses its row, whatever it was. */
  lemma UnreadableFolderSwept(s: State, entries: seq<Dir>, o: Opts, parse: Parser, clock: nat -> int, tk: Tokenizer,
                              id: string)
    ensures !SeenIn(FolderDirs(entries), id) ==>
            id !in Run(s, RebuildOps(s, Mail(entries), o, parse, clock, tk), tk).db.rows
    ensures SeenIn(FolderDirs(entries), id) && id in s.db.rows && !o.force ==>
            id in Run(s, RebuildOps(s, Mail(entries), o, parse, clock, tk), tk).db.rows
  {
    hide Run, RebuildOps, FolderDirs, SeenIn;
    RebuildLeaves(s, entries, o, parse, clock, tk, id);
    SeenIsId(FolderDirs(entries), id);
  }

  /** So a rebuild that can list no folder empties the index. */
  lemma UnreadableFoldersAreSwept(s: State, entries: seq<Dir>, o: Opts, parse: Parser, clock: nat -> int, tk: Tokenizer)
    requires forall d <- FolderDirs(entries) :: d.listing.None?
    ensures Run(s, RebuildOps(s, Mail(entries), o, parse, clock, tk), tk).db.rows == map[]
  {
    hide Run, RebuildOps, FolderDirs;
    var after := Run(s, RebuildOps(s, Mail(entries), o, parse, clock, tk), tk).db.rows;
    forall id ensures id !in after { UnreadableFolderSwept(s, entries, o, parse, clock, tk, id); }
  }

  // ── a forced rebuild ───────────────────────────────────────────────────

  /** The row of a folder's file of this id, if it loads. */
  function LoadedIn(files: seq<Placed>, id: string, maxEmlBytes: nat, parse: Parser): Option<MessageRow> {
    if files == [] then None
    else
      var row := if files[0].file.id == id then Load(files[0], maxEmlBytes, parse) else None;
      Or(LoadedIn(files[1..], id, maxEmlBytes, parse), row)
  }

  /** The row of the last folder where the id loads. */
  function LastLoaded(ds: seq<Dir>, id: string, maxEmlBytes: nat, parse: Parser): Option<MessageRow>
    decreases |ds|
  {
    if ds == [] then None
    else
      var k := |ds| - 1;
      Or(LoadedIn(FilesOf(ds[k]), id, maxEmlBytes, parse), LastLoaded(ds[..k], id, maxEmlBytes, parse))
  }

  lemma {:induction false} ForcedStores(files: seq<Placed>, id: string, e: Env)
    requires e.opts.force
    ensures LastStored(files, id, e) == LoadedIn(files, id, e.opts.maxEmlBytes, e.parse)
  {
    if files != [] { ForcedStores(files[1..], id, e); }
  }

  lemma {:induction false} ForcedFolders(ds: seq<Dir>, id: string, e: Env)
    requires e.opts.force
    ensures LastStored(FilesIn(ds), id, e) == LastLoaded(ds, id, e.opts.maxEmlBytes, e.parse)
    decreases |ds|
  {
    if ds != [] {
      var k := |ds| - 1;
      assert ds == ds[..k] + [ds[k]];
      FlatMapConcat(ds[..k], [ds[k]], FilesOf);
      OneFolder(ds[k]);
      LastStoredConcat(FilesIn(ds[..k]), FilesOf(ds[k]), id, e);
      ForcedStores(FilesOf(ds[k]), id, e);
      ForcedFolders(ds[..k], id, e);
    }
  }

  lemma OneFolder(d: Dir)
    ensures FilesIn([d]) == FilesOf(d)
  {
    var rest: seq<Dir> := [d][1..];
    assert rest == [] && FilesIn(rest) == [];
    assert FlatMap([d], FilesOf) == FilesOf(d) + FlatMap(rest, FilesOf);
    assert FilesOf(d) + [] == FilesOf(d);
  }

  /** A forced rebuild is a function of the disk: each id's row is the one from the
      last folder where it loads. The old table does not matter. */
  lemma ForcedIsFunctionOfDisk(s: State, entries: seq<Dir>, o: Opts, parse: Parser, clock: nat -> int, tk: Tokenizer,
                               id: string)
    requires o.force
    ensures RowOfId(Run(s, RebuildOps(s, Mail(entries), o, parse, clock, tk), tk).db.rows, id)
         == LastLoaded(FolderDirs(entries), id, o.maxEmlBytes, parse)
  {
    var ds, e := FolderDirs(entries), StartEnv(s.db.rows, o, parse, clock);
    RebuildLeaves(s, entries, o, parse, clock, tk, id);
    ForcedFolders(ds, id, e);
    StoredIsSeen(FilesIn(ds), id, e);
  }

  lemma {:induction false} StoredIsSeen(files: seq<Placed>, id: string, e: Env)
    ensures LastStored(files, id, e).Some? ==> id in Ids(files)
  {
    if files != [] {
      StoredIsSeen(files[1..], id, e);
      assert files == [files[0]] + files[1..];
      IdsCons(files[0], files[1..]);
    }
  }

  // ── the order within a folder ──────────────────────────────────────────

  lemma {:induction false} LoadedInUnique(files: seq<Placed>, i: nat, maxEmlBytes: nat, parse: Parser)
    requires i < |files| && DistinctIds(files)
    ensures LoadedIn(files, files[i].file.id, maxEmlBytes, parse) == Load(files[i], maxEmlBytes, parse)
  {
    if i > 0 {
      LoadedInUnique(files[1..], i - 1, maxEmlBytes, parse);
    } else {
      LoadedInAbsent(files[1..], files[0].file.id, maxEmlBytes, parse);
    }
  }

  lemma {:induction false} LoadedInAbsent(files: seq<Placed>, id: string, maxEmlBytes: nat, parse: Parser)
    requires forall x <- files :: x.file.id != id
    ensures LoadedIn(files, id, maxEmlBytes, parse) == None
  {
    if files != [] {
      assert files[0] in files;
      LoadedInAbsent(files[1..], id, maxEmlBytes, parse);
    }
  }

  /** The listing order of a folder, whose file names are distinct, does not matter. */
  lemma ListingOrderIrrelevant(a: seq<Placed>, b: seq<Placed>, id: string, maxEmlBytes: nat, parse: Parser)
    requires DistinctIds(a) && DistinctIds(b)
    requires (forall x <- a :: x in b) && (forall x <- b :: x in a)
    ensures LoadedIn(a, id, maxEmlBytes, parse) == LoadedIn(b, id, maxEmlBytes, parse)
  {
    if i :| 0 <= i < |a| && a[i].file.id == id {
      assert a[i] in b;
      var j :| 0 <= j < |b| && b[j] == a[i];
      LoadedInUnique(a, i, maxEmlBytes, parse);
      LoadedInUnique(b, j, maxEmlBytes, parse);
    } else {
      LoadedInAbsent(a, id, maxEmlBytes, parse);
      LoadedInAbsent(b, id, maxEmlBytes, parse);
    }
  }

  /** The same folders, each listed in any order. */
  ghost predicate SameTree(a: seq<Dir>, b: seq<Dir>) {
    && |a| == |b|
    && forall i :: 0 <= i < |a| ==>
         && DistinctIds(FilesOf(a[i])) && DistinctIds(FilesOf(b[i]))
         && (forall x <- FilesOf(a[i]) :: x in FilesOf(b[i])) && (forall x <- FilesOf(b[i]) :: x in FilesOf(a[i]))
  }

  lemma {:induction false} SameTreeLoads(a: seq<Dir>, b: seq<Dir>, id: string, maxEmlBytes: nat, parse: Parser)
    requires SameTree(a, b)
    ensures LastLoaded(a, id, maxEmlBytes, parse) == LastLoaded(b, id, maxEmlBytes, parse)
    decreases |a|
  {
    if a != [] {
      var k := |a| - 1;
      ListingOrderIrrelevant(FilesOf(a[k]), FilesOf(b[k]), id, maxEmlBytes, parse);
      SameTreeLoads(a[..k], b[..k], id, maxEmlBytes, parse);
    }
  }

  function Contents(rows: map<string, Stored>): map<string, MessageRow> { map id | id in rows :: rows[id].row }

  lemma SameContents(a: map<string, Stored>, b: map<string, Stored>)
    requires forall id :: RowOfId(a, id) == RowOfId(b, id)
    ensures Contents(a) == Contents(b)
  {
    forall id ensures id in a <==> id in b { assert RowOfId(a, id) == RowOfId(b, id); }
    forall id | id in a ensures a[id].row == b[id].row { assert RowOfId(a, id) == RowOfId(b, id); }
  }

  /** Two forced rebuilds over the same folders agree, whatever the tables before
      them, the listing orders, the batches and the clocks. */
  lemma ForcedRebuildsAgree(s: State, t: State, a: seq<Dir>, b: seq<Dir>, o: Opts, p: Opts, parse: Parser,
                            clock: nat -> int, other: nat -> int, tk: Tokenizer)
    requires o.force && p.force && o.maxEmlBytes == p.maxEmlBytes
    requires SameTree(FolderDirs(a), FolderDirs(b))
    ensures Contents(Run(s, RebuildOps(s, Mail(a), o, parse, clock, tk), tk).db.rows)
         == Contents(Run(t, RebuildOps(t, Mail(b), p, parse, other, tk), tk).db.rows)
  {
    var x := Run(s, RebuildOps(s, Mail(a), o, parse, clock, tk), tk).db.rows;
    var y := Run(t, RebuildOps(t, Mail(b), p, parse, other, tk), tk).db.rows;
    forall id ensures RowOfId(x, id) == RowOfId(y, id) {
      ForcedIsFunctionOfDisk(s, a, o, parse, clock, tk, id);
      ForcedIsFunctionOfDisk(t, b, p, parse, other, tk, id);
      SameTreeLoads(FolderDirs(a), FolderDirs(b), id, o.maxEmlBytes, parse);
    }
    SameContents(x, y);
  }
}
