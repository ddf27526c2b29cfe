/** Stopping a rebuild at any statement: what the crash costs, and that an
    incremental rebuild afterwards makes up for it. */
module CrashProofs {
  import opened Seqs
  import opened Messages
  import opened Index
  import opened Disk
  import opened Rebuild
  import opened RebuildProofs

  // ── where a crash falls back to ────────────────────────────────────────

  /** A transaction is open after these statements. */
  predicate Open(ops: seq<Op>)
    decreases |ops|
  {
    ops != [] &&
    var op := ops[|ops| - 1];
    op.Begin? || (!op.Commit? && Open(ops[..|ops| - 1]))
  }

  /** The length of the longest prefix that is durable. */
  function Point(ops: seq<Op>): (n: nat)
    ensures n <= |ops|
    decreases |ops|
  {
    if ops == [] then 0
    else
      var k := |ops| - 1;
      if Open(ops[..k]) then (if ops[k].Commit? then |ops| else Point(ops[..k]))
      else if ops[k].Begin? then k else |ops|
  }

  function Upserts(ops: seq<Op>): nat
    decreases |ops|
  {
    if ops == [] then 0 else Upserts(ops[..|ops| - 1]) + if ops[|ops| - 1].Upsert? then 1 else 0
  }

  /** The upserts of the open transaction. */
  function Uncommitted(ops: seq<Op>): nat
    decreases |ops|
  {
    if !Open(ops) then 0
    else
      var k := |ops| - 1;
      Uncommitted(ops[..k]) + if ops[k].Upsert? then 1 else 0
  }

  lemma {:induction false} CrashFallsBack(s: State, ops: seq<Op>, tk: Tokenizer)
    requires s.saved.None?
    ensures Run(s, ops, tk).saved.Some? <==> Open(ops)
    ensures Crash(Run(s, ops, tk)) == Run(s, ops[..Point(ops)], tk)
    decreases |ops|
  {
    if ops != [] {
      var k := |ops| - 1;
      CrashFallsBack(s, ops[..k], tk);
      assert ops[..k][..Point(ops[..k])] == ops[..Point(ops[..k])];
      assert ops[..|ops|] == ops;
    }
  }

  lemma {:induction false} LostUpserts(ops: seq<Op>)
    ensures Upserts(ops[Point(ops)..]) == Uncommitted(ops)
    decreases |ops|
  {
    if ops != [] {
      var k, p := |ops| - 1, Point(ops);
      LostUpserts(ops[..k]);
      if Open(ops) {
        assert p <= k && ops[p..][..k - p] == ops[p..k];
        assert Open(ops[..k]) ==> ops[..k][p..] == ops[p..k];
        assert !Open(ops[..k]) ==> p == k;
      }
    }
  }

  // ── the batches bound what is lost ─────────────────────────────────────

  function Max(a: nat, b: nat): nat { if a < b then b else a }

  predicate Bounded(ops: seq<Op>, n: nat) { forall k :: 0 <= k <= |ops| ==> Uncommitted(ops[..k]) <= n }

  lemma UncommittedSnoc(ops: seq<Op>, op: Op)
    ensures Open(ops + [op]) <==> op.Begin? || (!op.Commit? && Open(ops))
    ensures Uncommitted(ops + [op]) ==
      if Open(ops + [op]) then Uncommitted(ops) + (if op.Upsert? then 1 else 0) else 0
  {
    assert (ops + [op])[..|ops|] == ops;
  }

  lemma BoundedSnoc(ops: seq<Op>, op: Op, n: nat)
    requires Bounded(ops, n) && Uncommitted(ops + [op]) <= n
    ensures Bounded(ops + [op], n)
  {
    var all := ops + [op];
    forall k | 0 <= k <= |all| ensures Uncommitted(all[..k]) <= n {
      if k <= |ops| {
        assert all[..k] == ops[..k];
      } else {
        assert all[..k] == all;
      }
    }
  }

  /** The walk counts the open transaction's rows, fewer than a full batch. */
  ghost predicate Batched(w: Walk, cb: nat) {
    && w.inTxn == Open(w.ops)
    && (w.inTxn ==> Uncommitted(w.ops) == w.batch)
    && (!w.inTxn ==> w.batch == 0)
    && w.batch < Max(1, cb)
    && Bounded(w.ops, Max(1, cb))
  }

  lemma StoreBatched(w: Walk, row: MessageRow, e: Env)
    requires Batched(w, e.opts.commitBatch)
    ensures Batched(StoreRow(w, row, e), e.opts.commitBatch)
  {
    hide Open, Uncommitted, Bounded;
    var n := Max(1, e.opts.commitBatch);
    var begun := if w.inTxn then w.ops else w.ops + [Begin];
    var put := Op.Upsert(row, e.clock(w.stats.upserted));
    NotOpen(w.ops);
    UncommittedSnoc(w.ops, Begin);
    if !w.inTxn { BoundedSnoc(w.ops, Begin, n); }
    UncommittedSnoc(begun, put);
    BoundedSnoc(begun, put, n);
    UncommittedSnoc(begun + [put], Commit);
    BoundedSnoc(begun + [put], Commit, n);
  }

  lemma NotOpen(ops: seq<Op>)
    ensures !Open(ops) ==> Uncommitted(ops) == 0
  {}

  lemma {:induction false} EntriesBatched(w: Walk, dir: string, entries: seq<Entry>, e: Env)
    requires Batched(w, e.opts.commitBatch)
    ensures Batched(WalkEntries(w, dir, entries, e), e.opts.commitBatch)
    decreases |entries|
  {
    if entries != [] {
      OnEntryBatched(w, dir, entries[0], e);
      EntriesBatched(OnEntry(w, dir, entries[0], e), dir, entries[1..], e);
    }
  }

  lemma OnEntryBatched(w: Walk, dir: string, entry: Entry, e: Env)
    requires Batched(w, e.opts.commitBatch)
    ensures Batched(OnEntry(w, dir, entry, e), e.opts.commitBatch)
  {
    hide Open, Uncommitted, Bounded, StoreRow;
    if entry.Eml? {
      var x := Placed(dir, entry.file);
      match OutcomeOf(x, e)
      case Store(row) =>
        StoreBatched(w.(seen := w.seen + {x.file.id}, stats := w.stats.(scanned := w.stats.scanned + 1)), row, e);
      case _ =>
    }
  }

  lemma {:induction false} FoldersBatched(w: Walk, ds: seq<Dir>, e: Env)
    requires Batched(w, e.opts.commitBatch) && !w.inTxn
    ensures Batched(WalkFolders(w, ds, e), e.opts.commitBatch) && !WalkFolders(w, ds, e).inTxn
    decreases |ds|
  {
    if ds != [] {
      FolderBatched(w, ds[0], e);
      FoldersBatched(WalkFolder(w, ds[0], e), ds[1..], e);
    }
  }

  lemma FolderBatched(w: Walk, d: Dir, e: Env)
    requires Batched(w, e.opts.commitBatch) && !w.inTxn
    ensures !WalkFolder(w, d, e).inTxn && Batched(WalkFolder(w, d, e), e.opts.commitBatch)
  {
    hide Open, Uncommitted, Bounded;
    if d.listing.Some? {
      var from := w.(inTxn := false, batch := 0);
      EntriesBatched(from, d.name, d.listing.value, e);
      var v := WalkEntries(from, d.name, d.listing.value, e);
      UncommittedSnoc(v.ops, Commit);
      if v.inTxn { BoundedSnoc(v.ops, Commit, Max(1, e.opts.commitBatch)); }
    }
  }

  lemma StartBatched(rows: map<string, Stored>, o: Opts)
    ensures Batched(StartWalk(rows, o), o.commitBatch)
  {
    var ops := StartOps(rows, o);
    forall k | 0 <= k <= |ops| ensures Uncommitted(ops[..k]) == 0 {
      assert k == 0 ==> ops[..k] == [];
      assert k == |ops| ==> ops[..k] == ops;
    }
  }

  /** A crash anywhere in a rebuild leaves the state of an earlier statement, with
      no transaction open, and at most one batch of upserts (one row when the
      batch size is 0) is lost. */
  lemma CrashLosesOneBatch(s: State, entries: seq<Dir>, o: Opts, parse: Parser, clock: nat -> int, tk: Tokenizer,
                           k: nat)
    requires s.saved.None? && k <= |RebuildOps(s, Mail(entries), o, parse, clock, tk)|
    ensures var done := RebuildOps(s, Mail(entries), o, parse, clock, tk)[..k]; var kept := done[..Point(done)];
      && Crash(Run(s, done, tk)) == Run(s, kept, tk)
      && Run(s, kept, tk).saved.None?
      && Upserts(done[Point(done)..]) <= Max(1, o.commitBatch)
  {
    var ops := RebuildOps(s, Mail(entries), o, parse, clock, tk);
    var done := ops[..k];
    CrashFallsBack(s, done, tk);
    LostUpserts(done);
    RebuildBounded(s, entries, o, parse, clock, tk);
  }

  lemma RebuildBounded(s: State, entries: seq<Dir>, o: Opts, parse: Parser, clock: nat -> int, tk: Tokenizer)
    ensures Bounded(RebuildOps(s, Mail(entries), o, parse, clock, tk), Max(1, o.commitBatch))
  {
    hide Open, Uncommitted, Bounded, WalkFolders;
    var ds := FolderDirs(entries);
    var w := FullWalk(s.db.rows, ds, o, parse, clock);
    StartBatched(s.db.rows, o);
    FoldersBatched(StartWalk(s.db.rows, o), ds, StartEnv(s.db.rows, o, parse, clock));
    var sweep := DeleteRows(Run(s, w.ops, tk).db.rows.Keys - w.seen);
    UncommittedSnoc(w.ops, sweep);
    BoundedSnoc(w.ops, sweep, Max(1, o.commitBatch));
  }

  // ── when a tree can be rebuilt from ────────────────────────────────────

  predicate AllLoad(files: seq<Placed>, maxEmlBytes: nat, parse: Parser) {
    forall x <- files :: Load(x, maxEmlBytes, parse).Some?
  }

  /** What a further incremental rebuild stores for an id whose row was written at `at`. */
  function Again(files: seq<Placed>, id: string, at: int, maxEmlBytes: nat, parse: Parser): Option<MessageRow> {
    LastStored(files, id, Env(Opts(false, 0, maxEmlBytes), map[id := at], parse, (n: nat) => 0))
  }

  predicate LoadAlike(files: seq<Placed>, id: string, maxEmlBytes: nat, parse: Parser) {
    forall x <- files :: x.file.id == id ==> Load(x, maxEmlBytes, parse) == LoadedIn(files, id, maxEmlBytes, parse)
  }

  /** Stored again, the id gets what its last file loads to; not stored again, all
      its files load alike. */
  predicate SteadyAt(files: seq<Placed>, id: string, at: int, maxEmlBytes: nat, parse: Parser) {
    match Again(files, id, at, maxEmlBytes, parse)
    case Some(row) => LoadedIn(files, id, maxEmlBytes, parse) == Some(row)
    case None => LoadAlike(files, id, maxEmlBytes, parse)
  }

  /** This holds for every id, whenever its row was written. */
  ghost predicate Steady(files: seq<Placed>, maxEmlBytes: nat, parse: Parser) {
    forall id, at :: id in Ids(files) ==> SteadyAt(files, id, at, maxEmlBytes, parse)
  }

  /** A row that would not be stored again is what the last file of its id loads to. */
  predicate UpToDate(rows: map<string, Stored>, files: seq<Placed>, maxEmlBytes: nat, parse: Parser) {
    forall id :: id in rows && id in Ids(files) && Again(files, id, rows[id].indexedAt, maxEmlBytes, parse).None? ==>
      LoadedIn(files, id, maxEmlBytes, parse) == Some(rows[id].row)
  }

  /** Two files of one id load to the same row. */
  predicate Agree(files: seq<Placed>, maxEmlBytes: nat, parse: Parser) {
    forall x <- files :: forall y <- files ::
      x.file.id == y.file.id ==> Load(x, maxEmlBytes, parse) == Load(y, maxEmlBytes, parse)
  }

  predicate TimesReadable(files: seq<Placed>) { forall x <- files :: x.file.mtime.Some? }

  lemma {:induction false} SameKnown(files: seq<Placed>, id: string, e: Env, f: Env)
    requires !e.opts.force && !f.opts.force && e.opts.maxEmlBytes == f.opts.maxEmlBytes && e.parse == f.parse
    requires id in e.known && id in f.known && e.known[id] == f.known[id]
    ensures LastStored(files, id, e) == LastStored(files, id, f)
  {
    hide Load;
    if files != [] { SameKnown(files[1..], id, e, f); }
  }

  /** An id without a row, or any id under force, gets what its last file loads to. */
  lemma {:induction false} NothingSkipped(files: seq<Placed>, id: string, e: Env)
    requires e.opts.force || id !in e.known
    ensures LastStored(files, id, e) == LoadedIn(files, id, e.opts.maxEmlBytes, e.parse)
  {
    hide Load;
    if files != [] { NothingSkipped(files[1..], id, e); }
  }

  /** What is stored or loaded for an id comes from one of its files. */
  lemma {:induction false} StoredFrom(files: seq<Placed>, id: string, e: Env)
    ensures var r := LastStored(files, id, e);
      r.Some? ==> exists x <- files :: x.file.id == id && Load(x, e.opts.maxEmlBytes, e.parse) == r
  {
    hide Load;
    if files != [] {
      StoredFrom(files[1..], id, e);
      assert files[0] in files && forall x <- files[1..] :: x in files;
    }
  }

  lemma {:induction false} LoadedFrom(files: seq<Placed>, id: string, maxEmlBytes: nat, parse: Parser)
    requires AllLoad(files, maxEmlBytes, parse) && id in Ids(files)
    ensures var r := LoadedIn(files, id, maxEmlBytes, parse);
      r.Some? && exists x <- files :: x.file.id == id && Load(x, maxEmlBytes, parse) == r
  {
    hide Load;
    var rest := files[1..];
    assert files == [files[0]] + rest && files[0] in files && forall x <- rest :: x in files;
    IdsCons(files[0], rest);
    if id in Ids(rest) {
      LoadedFrom(rest, id, maxEmlBytes, parse);
    } else {
      LoadedInAbsent(rest, id, maxEmlBytes, parse);
    }
  }

  /** Nothing stored means that every file of the id was skipped. */
  lemma {:induction false} AllSkipped(files: seq<Placed>, id: string, at: int, maxEmlBytes: nat, parse: Parser)
    requires AllLoad(files, maxEmlBytes, parse)
    ensures Again(files, id, at, maxEmlBytes, parse).None? <==>
            forall x <- files :: x.file.id == id ==> x.file.mtime.Some? && x.file.mtime.value <= at
  {
    hide Load;
    if files != [] {
      assert files[0] in files && forall x <- files[1..] :: x in files;
      assert forall x <- files :: x == files[0] || x in files[1..];
      AllSkipped(files[1..], id, at, maxEmlBytes, parse);
    }
  }

  lemma AgreeIsSteady(files: seq<Placed>, maxEmlBytes: nat, parse: Parser)
    requires AllLoad(files, maxEmlBytes, parse) && Agree(files, maxEmlBytes, parse)
    ensures Steady(files, maxEmlBytes, parse)
  {
    hide Load;
    forall id, at | id in Ids(files) ensures SteadyAt(files, id, at, maxEmlBytes, parse) {
      StoredFrom(files, id, Env(Opts(false, 0, maxEmlBytes), map[id := at], parse, (n: nat) => 0));
      LoadedFrom(files, id, maxEmlBytes, parse);
    }
  }

  function MaxTime(files: seq<Placed>): (t: int)
    ensures forall x <- files :: x.file.mtime.Some? ==> x.file.mtime.value <= t
  {
    if files == [] then 0
    else
      var t := MaxTime(files[1..]);
      if files[0].file.mtime.Some? && files[0].file.mtime.value > t then files[0].file.mtime.value else t
  }

  /** Where every modification time can be read, steady means that files of one id agree. */
  lemma SteadyIsAgree(files: seq<Placed>, maxEmlBytes: nat, parse: Parser)
    requires AllLoad(files, maxEmlBytes, parse) && TimesReadable(files)
    ensures Steady(files, maxEmlBytes, parse) <==> Agree(files, maxEmlBytes, parse)
  {
    hide Load, LoadedIn, Again;
    if Agree(files, maxEmlBytes, parse) { AgreeIsSteady(files, maxEmlBytes, parse); }
    if Steady(files, maxEmlBytes, parse) {
      forall x, y | x in files && y in files && x.file.id == y.file.id
        ensures Load(x, maxEmlBytes, parse) == Load(y, maxEmlBytes, parse)
      {
        assert x.file.id in Ids(files);
        AllSkipped(files, x.file.id, MaxTime(files), maxEmlBytes, parse);
        assert SteadyAt(files, x.file.id, MaxTime(files), maxEmlBytes, parse);
      }
    }
  }

  // ── rows stay up to date ───────────────────────────────────────────────

  /** An upsert writes what some file loads to. */
  predicate FromDisk(op: Op, files: seq<Placed>, maxEmlBytes: nat, parse: Parser) {
    op.Upsert? ==> exists x <- files :: Load(x, maxEmlBytes, parse) == Some(op.row)
  }

  predicate AllFromDisk(ops: seq<Op>, files: seq<Placed>, maxEmlBytes: nat, parse: Parser) {
    forall i :: 0 <= i < |ops| ==> FromDisk(ops[i], files, maxEmlBytes, parse)
  }

  lemma StepUpToDate(s: State, op: Op, files: seq<Placed>, maxEmlBytes: nat, parse: Parser, tk: Tokenizer)
    requires Steady(files, maxEmlBytes, parse) && FromDisk(op, files, maxEmlBytes, parse)
    requires UpToDate(s.db.rows, files, maxEmlBytes, parse)
    ensures UpToDate(Step(s, op, tk).db.rows, files, maxEmlBytes, parse)
  {
    hide Postings, Sum, Load, LoadedIn, Again, NextRowid;
    if op.Upsert? {
      var y :| y in files && Load(y, maxEmlBytes, parse) == Some(op.row);
      LoadId(y, maxEmlBytes, parse);
      assert y.file.id in Ids(files) && SteadyAt(files, y.file.id, op.at, maxEmlBytes, parse);
    }
  }

  lemma LoadId(x: Placed, maxEmlBytes: nat, parse: Parser)
    ensures var r := Load(x, maxEmlBytes, parse); r.Some? ==> r.value.canonicalId == x.file.id
  {}

  lemma {:induction false} RunUpToDate(s: State, ops: seq<Op>, files: seq<Placed>, maxEmlBytes: nat, parse: Parser,
                                       tk: Tokenizer)
    requires Steady(files, maxEmlBytes, parse) && AllFromDisk(ops, files, maxEmlBytes, parse)
    requires UpToDate(s.db.rows, files, maxEmlBytes, parse)
    ensures UpToDate(Run(s, ops, tk).db.rows, files, maxEmlBytes, parse)
    decreases |ops|
  {
    hide Steady, UpToDate, FromDisk, Step;
    if ops != [] {
      var k := |ops| - 1;
      RunUpToDate(s, ops[..k], files, maxEmlBytes, parse, tk);
      StepUpToDate(Run(s, ops[..k], tk), ops[k], files, maxEmlBytes, parse, tk);
    }
  }

  // ── every upsert of a rebuild comes from the disk ──────────────────────

  lemma FileFromDisk(w: Walk, x: Placed, files: seq<Placed>, e: Env)
    requires x in files && AllFromDisk(w.ops, files, e.opts.maxEmlBytes, e.parse)
    ensures AllFromDisk(OnFile(w, x, e).ops, files, e.opts.maxEmlBytes, e.parse)
  {
    hide Load;
    match OutcomeOf(x, e)
    case Store(row) => assert FromDisk(Op.Upsert(row, e.clock(w.stats.upserted)), files, e.opts.maxEmlBytes, e.parse);
    case _ =>
  }

  lemma {:induction false} EntriesFromDisk(w: Walk, dir: string, entries: seq<Entry>, files: seq<Placed>, e: Env)
    requires AllFromDisk(w.ops, files, e.opts.maxEmlBytes, e.parse)
    requires forall x <- FilterMap(entries, EmlFile(dir)) :: x in files
    ensures AllFromDisk(WalkEntries(w, dir, entries, e).ops, files, e.opts.maxEmlBytes, e.parse)
    decreases |entries|
  {
    hide FromDisk, AllFromDisk, OnFile;
    if entries != [] {
      if entries[0].Eml? {
        var x := Placed(dir, entries[0].file);
        assert FilterMap(entries, EmlFile(dir))[0] == x;
        FileFromDisk(w, x, files, e);
        assert FilterMap(entries, EmlFile(dir))[1..] == FilterMap(entries[1..], EmlFile(dir));
      }
      EntriesFromDisk(OnEntry(w, dir, entries[0], e), dir, entries[1..], files, e);
    }
  }

  lemma {:induction false} FoldersFromDisk(w: Walk, ds: seq<Dir>, files: seq<Placed>, e: Env)
    requires AllFromDisk(w.ops, files, e.opts.maxEmlBytes, e.parse)
    requires forall x <- FilesIn(ds) :: x in files
    ensures AllFromDisk(WalkFolders(w, ds, e).ops, files, e.opts.maxEmlBytes, e.parse)
    decreases |ds|
  {
    if ds != [] {
      assert forall x <- FilesOf(ds[0]) :: x in FilesIn(ds);
      assert forall x <- FilesIn(ds[1..]) :: x in FilesIn(ds);
      if ds[0].listing.Some? {
        EntriesFromDisk(w.(inTxn := false, batch := 0), ds[0].name, ds[0].listing.value, files, e);
      }
      FoldersFromDisk(WalkFolder(w, ds[0], e), ds[1..], files, e);
    }
  }

  lemma RebuildFromDiskOnly(s: State, entries: seq<Dir>, o: Opts, parse: Parser, clock: nat -> int, tk: Tokenizer)
    ensures AllFromDisk(RebuildOps(s, Mail(entries), o, parse, clock, tk), FilesIn(FolderDirs(entries)), o.maxEmlBytes,
                        parse)
  {
    var ds := FolderDirs(entries);
    FoldersFromDisk(StartWalk(s.db.rows, o), ds, FilesIn(ds), StartEnv(s.db.rows, o, parse, clock));
  }

  // ── a completed rebuild reaches the disk ───────────────────────────────

  /** With up-to-date rows a completed rebuild of a steady tree, forced or not,
      leaves exactly the rows the last files of the ids load to. */
  lemma RebuildReachesDisk(s: State, entries: seq<Dir>, o: Opts, parse: Parser, clock: nat -> int, tk: Tokenizer,
                           id: string)
    requires AllLoad(FilesIn(FolderDirs(entries)), o.maxEmlBytes, parse)
    requires Steady(FilesIn(FolderDirs(entries)), o.maxEmlBytes, parse)
    requires UpToDate(s.db.rows, FilesIn(FolderDirs(entries)), o.maxEmlBytes, parse)
    ensures RowOfId(Run(s, RebuildOps(s, Mail(entries), o, parse, clock, tk), tk).db.rows, id)
         == LoadedIn(FilesIn(FolderDirs(entries)), id, o.maxEmlBytes, parse)
  {
    hide Load, Run, RebuildOps, LoadedIn, LastStored;
    var files, e := FilesIn(FolderDirs(entries)), StartEnv(s.db.rows, o, parse, clock);
    RebuildLeaves(s, entries, o, parse, clock, tk, id);
    if id !in Ids(files) {
      LoadedInAbsent(files, id, o.maxEmlBytes, parse);
    } else {
      LoadedFrom(files, id, o.maxEmlBytes, parse);
      if o.force || id !in s.db.rows {
        NothingSkipped(files, id, e);
      } else {
        var at := s.db.rows[id].indexedAt;
        SameKnown(files, id, e, Env(Opts(false, 0, o.maxEmlBytes), map[id := at], parse, (n: nat) => 0));
        assert SteadyAt(files, id, at, o.maxEmlBytes, parse);
      }
    }
  }

  // ── crash, then rebuild ────────────────────────────────────────────────

  /** A rebuild that dies after `k` statements. */
  datatype Attempt = Attempt(o: Opts, clock: nat -> int, k: nat)

  function Take<T>(s: seq<T>, k: nat): seq<T> { if k <= |s| then s[..k] else s }

  ghost function AfterCrash(s: State, entries: seq<Dir>, a: Attempt, parse: Parser, tk: Tokenizer): State {
    Crash(Run(s, Take(RebuildOps(s, Mail(entries), a.o, parse, a.clock, tk), a.k), tk))
  }

  ghost function AfterCrashes(s: State, entries: seq<Dir>, attempts: seq<Attempt>, parse: Parser, tk: Tokenizer): State
    decreases |attempts|
  {
    if attempts == [] then s
    else AfterCrashes(AfterCrash(s, entries, attempts[0], parse, tk), entries, attempts[1..], parse, tk)
  }

  lemma CrashKeepsUpToDate(s: State, entries: seq<Dir>, a: Attempt, parse: Parser, tk: Tokenizer)
    requires s.saved.None? && Steady(FilesIn(FolderDirs(entries)), a.o.maxEmlBytes, parse)
    requires UpToDate(s.db.rows, FilesIn(FolderDirs(entries)), a.o.maxEmlBytes, parse)
    ensures var t := AfterCrash(s, entries, a, parse, tk);
      t.saved.None? && UpToDate(t.db.rows, FilesIn(FolderDirs(entries)), a.o.maxEmlBytes, parse)
  {
    hide Steady, UpToDate;
    var files := FilesIn(FolderDirs(entries));
    var ops := RebuildOps(s, Mail(entries), a.o, parse, a.clock, tk);
    var done := Take(ops, a.k);
    RebuildFromDiskOnly(s, entries, a.o, parse, a.clock, tk);
    CrashFallsBack(s, done, tk);
    RunUpToDate(s, done[..Point(done)], files, a.o.maxEmlBytes, parse, tk);
  }

  lemma {:induction false} CrashesKeepUpToDate(s: State, entries: seq<Dir>, attempts: seq<Attempt>, maxEmlBytes: nat,
                                               parse: Parser, tk: Tokenizer)
    requires s.saved.None? && Steady(FilesIn(FolderDirs(entries)), maxEmlBytes, parse)
    requires UpToDate(s.db.rows, FilesIn(FolderDirs(entries)), maxEmlBytes, parse)
    requires forall a <- attempts :: a.o.maxEmlBytes == maxEmlBytes
    ensures var t := AfterCrashes(s, entries, attempts, parse, tk);
      t.saved.None? && UpToDate(t.db.rows, FilesIn(FolderDirs(entries)), maxEmlBytes, parse)
    decreases |attempts|
  {
    hide Steady, UpToDate, AfterCrash;
    if attempts != [] {
      assert attempts[0] in attempts;
      CrashKeepsUpToDate(s, entries, attempts[0], parse, tk);
      CrashesKeepUpToDate(AfterCrash(s, entries, attempts[0], parse, tk), entries, attempts[1..], maxEmlBytes, parse,
                          tk);
    }
  }

  /** After rebuilds that died, one completed rebuild leaves the rows an
      uninterrupted rebuild of the starting state leaves. */
  ghost predicate Resumes(s: State, entries: seq<Dir>, attempts: seq<Attempt>, last: Opts, whole: Opts, parse: Parser,
                          clock: nat -> int, other: nat -> int, tk: Tokenizer)
  {
    var t := AfterCrashes(s, entries, attempts, parse, tk);
    Contents(Run(t, RebuildOps(t, Mail(entries), last, parse, clock, tk), tk).db.rows)
    == Contents(Run(s, RebuildOps(s, Mail(entries), whole, parse, other, tk), tk).db.rows)
  }

  /** However many rebuilds of a steady tree, forced or incremental, die at whatever
      statements. */
  lemma CrashResume(s: State, entries: seq<Dir>, attempts: seq<Attempt>, last: Opts, whole: Opts, parse: Parser,
                    clock: nat -> int, other: nat -> int, tk: Tokenizer)
    requires s.saved.None? && last.maxEmlBytes == whole.maxEmlBytes
    requires AllLoad(FilesIn(FolderDirs(entries)), whole.maxEmlBytes, parse)
    requires Steady(FilesIn(FolderDirs(entries)), whole.maxEmlBytes, parse)
    requires UpToDate(s.db.rows, FilesIn(FolderDirs(entries)), whole.maxEmlBytes, parse)
    requires forall a <- attempts :: a.o.maxEmlBytes == whole.maxEmlBytes
    ensures Resumes(s, entries, attempts, last, whole, parse, clock, other, tk)
  {
    hide Run, RebuildOps, AfterCrashes, Steady, UpToDate, AllLoad;
    var t := AfterCrashes(s, entries, attempts, parse, tk);
    CrashesKeepUpToDate(s, entries, attempts, whole.maxEmlBytes, parse, tk);
    var a := Run(t, RebuildOps(t, Mail(entries), last, parse, clock, tk), tk).db.rows;
    var b := Run(s, RebuildOps(s, Mail(entries), whole, parse, other, tk), tk).db.rows;
    forall id ensures RowOfId(a, id) == RowOfId(b, id) {
      RebuildReachesDisk(t, entries, last, parse, clock, tk, id);
      RebuildReachesDisk(s, entries, whole, parse, other, tk, id);
    }
    SameContents(a, b);
  }

  // ── and only then ──────────────────────────────────────────────────────

  const NEW := State(Db(map[], multiset{}), None)

  /** The clock stands still. */
  function Still(at: int): nat -> int { (n: nat) => at }

  predicate OpsAt(ops: seq<Op>, at: int) { forall i :: 0 <= i < |ops| ==> ops[i].Upsert? ==> ops[i].at == at }

  predicate RowsAt(rows: map<string, Stored>, at: int) { forall id :: id in rows ==> rows[id].indexedAt == at }

  lemma {:induction false} RunAt(s: State, ops: seq<Op>, at: int, tk: Tokenizer)
    requires OpsAt(ops, at) && RowsAt(s.db.rows, at)
    ensures RowsAt(Run(s, ops, tk).db.rows, at)
    decreases |ops|
  {
    hide Postings, Sum, NextRowid;
    if ops != [] { RunAt(s, ops[..|ops| - 1], at, tk); }
  }

  lemma {:induction false} EntriesAt(w: Walk, dir: string, entries: seq<Entry>, e: Env, at: int)
    requires OpsAt(w.ops, at) && forall n :: e.clock(n) == at
    ensures OpsAt(WalkEntries(w, dir, entries, e).ops, at) && w.ops <= WalkEntries(w, dir, entries, e).ops
    decreases |entries|
  {
    hide OutcomeOf;
    if entries != [] { EntriesAt(OnEntry(w, dir, entries[0], e), dir, entries[1..], e, at); }
  }

  lemma FolderAt(w: Walk, d: Dir, e: Env, at: int)
    requires OpsAt(w.ops, at) && forall n :: e.clock(n) == at
    ensures OpsAt(WalkFolder(w, d, e).ops, at) && w.ops <= WalkFolder(w, d, e).ops
  {
    hide WalkEntries;
    if d.listing.Some? { EntriesAt(w.(inTxn := false, batch := 0), d.name, d.listing.value, e, at); }
  }

  lemma {:induction false} FoldersAt(w: Walk, ds: seq<Dir>, e: Env, at: int)
    requires OpsAt(w.ops, at) && forall n :: e.clock(n) == at
    ensures OpsAt(WalkFolders(w, ds, e).ops, at) && w.ops <= WalkFolders(w, ds, e).ops
    decreases |ds|
  {
    hide WalkFolder;
    if ds != [] {
      FolderAt(w, ds[0], e, at);
      FoldersAt(WalkFolder(w, ds[0], e), ds[1..], e, at);
    }
  }

  lemma {:induction false} FoldersConcat(w: Walk, a: seq<Dir>, b: seq<Dir>, e: Env)
    ensures WalkFolders(w, a + b, e) == WalkFolders(WalkFolders(w, a, e), b, e)
    decreases |a|
  {
    hide WalkFolder;
    if a == [] {
      assert a + b == b;
    } else {
      Uncons(a, b);
      FoldersConcat(WalkFolder(w, a[0], e), a[1..], b, e);
    }
  }

  /** Names are unique within a folder, so ids are. */
  predicate FoldersApart(ds: seq<Dir>) { forall d <- ds :: DistinctIds(FilesOf(d)) }

  /** A rebuild of an empty index runs the statements of its first folders first. */
  lemma StatementsUpTo(entries: seq<Dir>, j: nat, o: Opts, parse: Parser, at: int, tk: Tokenizer)
    requires j <= |FolderDirs(entries)| && !o.force
    ensures var e := StartEnv(NEW.db.rows, o, parse, Still(at));
      var done := WalkFolders(StartWalk(NEW.db.rows, o), FolderDirs(entries)[..j], e).ops;
      Take(RebuildOps(NEW, Mail(entries), o, parse, Still(at), tk), |done|) == done
  {
    hide WalkFolders, Run;
    var ds, e := FolderDirs(entries), StartEnv(NEW.db.rows, o, parse, Still(at));
    var start := StartWalk(NEW.db.rows, o);
    var w := WalkFolders(start, ds[..j], e);
    assert ds == ds[..j] + ds[j..];
    FoldersConcat(start, ds[..j], ds[j..], e);
    FoldersAt(start, ds[..j], e, at);
    FoldersAt(w, ds[j..], e, at);
  }

  /** The end of folder `j` of a rebuild of an empty index: no transaction is open
      and the row of an id is the last one so far. */
  lemma EndOfFolder(entries: seq<Dir>, j: nat, o: Opts, parse: Parser, at: int, tk: Tokenizer, id: string)
    returns (k: nat)
    requires j <= |FolderDirs(entries)| && !o.force
    ensures var t := AfterCrash(NEW, entries, Attempt(o, Still(at), k), parse, tk);
      && t.saved.None? && RowsAt(t.db.rows, at)
      && RowOfId(t.db.rows, id) == LoadedIn(FilesIn(FolderDirs(entries)[..j]), id, o.maxEmlBytes, parse)
  {
    hide WalkFolders, LoadedIn, LastStored, Open, Run, RebuildOps, FolderDirs, FilesIn;
    var ds, e := FolderDirs(entries), StartEnv(NEW.db.rows, o, parse, Still(at));
    var start := StartWalk(NEW.db.rows, o);
    var w := WalkFolders(start, ds[..j], e);
    k := |w.ops|;
    StatementsUpTo(entries, j, o, parse, at, tk);
    FoldersAt(start, ds[..j], e, at);
    WalkClosed(start, ds[..j], o, e);
    CrashFallsBack(NEW, w.ops, tk);
    CrashClosed(NEW, w.ops, tk);
    RunAt(NEW, w.ops, at, tk);
    FoldersRow(start, ds[..j], id, e, None);
    RunRow(NEW, w.ops, id, tk);
    NothingSkipped(FilesIn(ds[..j]), id, e);
  }

  lemma WalkClosed(start: Walk, ds: seq<Dir>, o: Opts, e: Env)
    requires start == StartWalk(NEW.db.rows, o) && e.opts == o
    ensures !Open(WalkFolders(start, ds, e).ops)
  {
    hide WalkFolders;
    StartBatched(NEW.db.rows, o);
    FoldersBatched(start, ds, e);
  }

  /** With no transaction open a crash loses nothing. */
  lemma CrashClosed(s: State, ops: seq<Op>, tk: Tokenizer)
    requires s.saved.None? && !Open(ops)
    ensures Crash(Run(s, ops, tk)) == Run(s, ops, tk)
  {
    CrashFallsBack(s, ops, tk);
  }

  /** An incremental rebuild from a table all written at `at`. */
  lemma RebuiltAgain(s: State, entries: seq<Dir>, o: Opts, parse: Parser, clock: nat -> int, tk: Tokenizer, id: string,
                     at: int)
    requires !o.force && RowsAt(s.db.rows, at) && id in s.db.rows && id in Ids(FilesIn(FolderDirs(entries)))
    ensures RowOfId(Run(s, RebuildOps(s, Mail(entries), o, parse, clock, tk), tk).db.rows, id)
         == Or(Again(FilesIn(FolderDirs(entries)), id, at, o.maxEmlBytes, parse), RowOfId(s.db.rows, id))
  {
    hide Run, RebuildOps, LastStored;
    var files := FilesIn(FolderDirs(entries));
    RebuildLeaves(s, entries, o, parse, clock, tk, id);
    SameKnown(files, id, StartEnv(s.db.rows, o, parse, clock),
              Env(Opts(false, 0, o.maxEmlBytes), map[id := at], parse, (n: nat) => 0));
  }

  /** A whole rebuild of an empty index. */
  lemma WholeFromNothing(entries: seq<Dir>, o: Opts, parse: Parser, clock: nat -> int, tk: Tokenizer, id: string)
    requires !o.force && id in Ids(FilesIn(FolderDirs(entries)))
    ensures RowOfId(Run(NEW, RebuildOps(NEW, Mail(entries), o, parse, clock, tk), tk).db.rows, id)
         == LoadedIn(FilesIn(FolderDirs(entries)), id, o.maxEmlBytes, parse)
  {
    hide Run, RebuildOps, LastStored, LoadedIn;
    RebuildLeaves(NEW, entries, o, parse, clock, tk, id);
    NothingSkipped(FilesIn(FolderDirs(entries)), id, StartEnv(NEW.db.rows, o, parse, clock));
  }

  /** The folder at whose end the crash does harm: the last one if a further rebuild
      stores the wrong row, that of a file which loads differently if it stores none. */
  lemma HarmfulFolder(ds: seq<Dir>, id: string, at: int, maxEmlBytes: nat, parse: Parser) returns (j: nat)
    requires AllLoad(FilesIn(ds), maxEmlBytes, parse) && FoldersApart(ds) && id in Ids(FilesIn(ds))
    requires !SteadyAt(FilesIn(ds), id, at, maxEmlBytes, parse)
    ensures j <= |ds|
    ensures var sofar := LoadedIn(FilesIn(ds[..j]), id, maxEmlBytes, parse);
      && sofar.Some?
      && Or(Again(FilesIn(ds), id, at, maxEmlBytes, parse), sofar) != LoadedIn(FilesIn(ds), id, maxEmlBytes, parse)
  {
    hide Load, LoadedIn, Again, DistinctIds;
    var files := FilesIn(ds);
    LoadedFrom(files, id, maxEmlBytes, parse);
    if Again(files, id, at, maxEmlBytes, parse).Some? {
      j := |ds|;
      assert ds[..j] == ds;
    } else {
      var x :| x in files && x.file.id == id && Load(x, maxEmlBytes, parse) != LoadedIn(files, id, maxEmlBytes, parse);
      j := FolderOf(ds, x);
      UpToFolder(ds, j, x, maxEmlBytes, parse);
      j := j + 1;
    }
  }

  lemma {:induction false} FolderOf(ds: seq<Dir>, x: Placed) returns (j: nat)
    requires x in FilesIn(ds)
    ensures j < |ds| && x in FilesOf(ds[j])
  {
    if x in FilesOf(ds[0]) {
      j := 0;
    } else {
      j := FolderOf(ds[1..], x);
      j := j + 1;
    }
  }

  /** Up to and including the folder of a file, that file is the last of its id. */
  lemma UpToFolder(ds: seq<Dir>, j: nat, x: Placed, maxEmlBytes: nat, parse: Parser)
    requires j < |ds| && x in FilesOf(ds[j]) && DistinctIds(FilesOf(ds[j])) && Load(x, maxEmlBytes, parse).Some?
    ensures LoadedIn(FilesIn(ds[..j + 1]), x.file.id, maxEmlBytes, parse) == Load(x, maxEmlBytes, parse)
  {
    hide Load, LoadedIn;
    assert ds[..j + 1] == ds[..j] + [ds[j]];
    FlatMapConcat(ds[..j], [ds[j]], FilesOf);
    OneFolder(ds[j]);
    LoadedInConcat(FilesIn(ds[..j]), FilesOf(ds[j]), x.file.id, maxEmlBytes, parse);
    var i :| 0 <= i < |FilesOf(ds[j])| && FilesOf(ds[j])[i] == x;
    LoadedInUnique(FilesOf(ds[j]), i, maxEmlBytes, parse);
  }

  lemma {:induction false} LoadedInConcat(a: seq<Placed>, b: seq<Placed>, id: string, maxEmlBytes: nat, parse: Parser)
    ensures LoadedIn(a + b, id, maxEmlBytes, parse)
         == Or(LoadedIn(b, id, maxEmlBytes, parse), LoadedIn(a, id, maxEmlBytes, parse))
  {
    hide Load;
    if a == [] {
      assert a + b == b;
    } else {
      Uncons(a, b);
      LoadedInConcat(a[1..], b, id, maxEmlBytes, parse);
    }
  }

  /** A rebuild of an empty index of a tree that is not steady, stopped at the end of
      some folder and resumed, leaves another table than a whole one. */
  lemma ResumeFails(entries: seq<Dir>, o: Opts, parse: Parser, clock: nat -> int, tk: Tokenizer) returns (a: Attempt)
    requires !o.force && FoldersApart(FolderDirs(entries))
    requires AllLoad(FilesIn(FolderDirs(entries)), o.maxEmlBytes, parse)
    requires !Steady(FilesIn(FolderDirs(entries)), o.maxEmlBytes, parse)
    ensures a.o == o && !Resumes(NEW, entries, [a], o, o, parse, clock, clock, tk)
  {
    hide SteadyAt, LoadedIn, Again, Run, RebuildOps, AfterCrash, FoldersApart, AllLoad;
    var ds := FolderDirs(entries);
    var id, at :| id in Ids(FilesIn(ds)) && !SteadyAt(FilesIn(ds), id, at, o.maxEmlBytes, parse);
    var j := HarmfulFolder(ds, id, at, o.maxEmlBytes, parse);
    var k := EndOfFolder(entries, j, o, parse, at, tk, id);
    a := Attempt(o, Still(at), k);
    var t := AfterCrash(NEW, entries, a, parse, tk);
    assert [a][1..] == [] && AfterCrashes(t, entries, [], parse, tk) == t;
    assert AfterCrashes(NEW, entries, [a], parse, tk) == t;
    RebuiltAgain(t, entries, o, parse, clock, tk, id, at);
    WholeFromNothing(entries, o, parse, clock, tk, id);
    DifferentRows(Run(t, RebuildOps(t, Mail(entries), o, parse, clock, tk), tk).db.rows,
                  Run(NEW, RebuildOps(NEW, Mail(entries), o, parse, clock, tk), tk).db.rows, id);
  }

  lemma DifferentRows(a: map<string, Stored>, b: map<string, Stored>, id: string)
    ensures RowOfId(a, id) != RowOfId(b, id) ==> Contents(a) != Contents(b)
  {
    assert forall m: map<string, Stored> :: RowOfId(m, id) == if id in Contents(m) then Some(Contents(m)[id]) else None;
  }

  /** Every resumed rebuild of the tree, from any up-to-date table. */
  ghost predicate AlwaysResumes(entries: seq<Dir>, maxEmlBytes: nat, parse: Parser, tk: Tokenizer) {
    forall s: State, attempts: seq<Attempt>, last: Opts, whole: Opts, clock: nat -> int, other: nat -> int ::
      && s.saved.None? && UpToDate(s.db.rows, FilesIn(FolderDirs(entries)), maxEmlBytes, parse)
      && last.maxEmlBytes == whole.maxEmlBytes == maxEmlBytes
      && (forall a <- attempts :: a.o.maxEmlBytes == maxEmlBytes)
      ==> Resumes(s, entries, attempts, last, whole, parse, clock, other, tk)
  }

  /** The exact condition, checkable on the disk before any rebuild. */
  lemma ResumesExactly(entries: seq<Dir>, maxEmlBytes: nat, parse: Parser, tk: Tokenizer)
    requires AllLoad(FilesIn(FolderDirs(entries)), maxEmlBytes, parse) && FoldersApart(FolderDirs(entries))
    ensures AlwaysResumes(entries, maxEmlBytes, parse, tk) <==> Steady(FilesIn(FolderDirs(entries)), maxEmlBytes, parse)
  {
    hide Steady, Resumes, AllLoad, FoldersApart;
    if Steady(FilesIn(FolderDirs(entries)), maxEmlBytes, parse) {
      forall s: State, attempts: seq<Attempt>, last: Opts, whole: Opts, clock: nat -> int, other: nat -> int |
        && s.saved.None? && UpToDate(s.db.rows, FilesIn(FolderDirs(entries)), maxEmlBytes, parse)
        && last.maxEmlBytes == whole.maxEmlBytes == maxEmlBytes
        && (forall a <- attempts :: a.o.maxEmlBytes == maxEmlBytes)
        ensures Resumes(s, entries, attempts, last, whole, parse, clock, other, tk)
      {
        CrashResume(s, entries, attempts, last, whole, parse, clock, other, tk);
      }
    } else {
      var o := Opts(false, 200, maxEmlBytes);
      var a := ResumeFails(entries, o, parse, Still(0), tk);
      assert forall x <- [a] :: x == a;
      assert UpToDate(NEW.db.rows, FilesIn(FolderDirs(entries)), maxEmlBytes, parse);
    }
  }

  // ── an id in two folders ───────────────────────────────────────────────

  /** A folder with one file. */
  function OneFile(name: string, f: File): Dir { Dir(name, true, Some([Eml(f)])) }

  lemma TwoFoldersWalked(f: File, g: File)
    ensures var ds := [OneFile("A", f), OneFile("B", g)];
      FolderDirs(ds) == ds && FilesIn(ds) == [Placed("A", f), Placed("B", g)] && FoldersApart(ds)
  {
    var a, b := OneFile("A", f), OneFile("B", g);
    var ds := [a, b];
    assert ds[1..] == [b] && [b][1..] == [];
    assert FolderDirs([b]) == [b];
    OneEntry("A", f);
    OneEntry("B", g);
    assert FilesIn(ds) == FilesOf(a) + FilesIn([b]);
    OneFolder(b);
  }

  lemma OneEntry(name: string, f: File)
    ensures FilesOf(OneFile(name, f)) == [Placed(name, f)]
  {
    var rest := [Eml(f)][1..];
    assert FilterMap(rest, EmlFile(name)) == [];
  }

  /** One id in folders A and B, no sidecar naming another folder: the rows differ,
      and a crash between the two makes the next incremental rebuild keep the
      wrong one. */
  lemma TwoFoldersCrash(f: File, g: File, o: Opts, parse: Parser, clock: nat -> int, tk: Tokenizer)
    returns (a: Attempt)
    requires !o.force && f.id == g.id && f.mtime.Some? && g.mtime.Some?
    requires Load(Placed("A", f), o.maxEmlBytes, parse).Some? && f.meta.folderPath.None?
    requires Load(Placed("B", g), o.maxEmlBytes, parse).Some? && g.meta.folderPath.None?
    ensures Load(Placed("A", f), o.maxEmlBytes, parse) != Load(Placed("B", g), o.maxEmlBytes, parse)
    ensures !Resumes(NEW, [OneFile("A", f), OneFile("B", g)], [a], o, o, parse, clock, clock, tk)
    ensures !AlwaysResumes([OneFile("A", f), OneFile("B", g)], o.maxEmlBytes, parse, tk)
  {
    var x, y := Placed("A", f), Placed("B", g);
    var ds := [OneFile("A", f), OneFile("B", g)];
    assert Load(x, o.maxEmlBytes, parse).value.folder == "A" && Load(y, o.maxEmlBytes, parse).value.folder == "B";
    hide Load, AlwaysResumes, Resumes;
    TwoFoldersWalked(f, g);
    assert x in FilesIn(ds) && y in FilesIn(ds);
    SteadyIsAgree(FilesIn(ds), o.maxEmlBytes, parse);
    ResumesExactly(ds, o.maxEmlBytes, parse, tk);
    a := ResumeFails(ds, o, parse, clock, tk);
  }
}
