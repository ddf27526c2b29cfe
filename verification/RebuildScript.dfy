/** The shape of a rebuild's statements: transactions around the upserts, and the times
    they carry. */
module RebuildScript {
  import opened Seqs
  import opened Messages
  import opened Index
  import opened Disk
  import opened Rebuild
  import opened CrashProofs

  /** Every upsert has a transaction open around it. */
  predicate Inside(ops: seq<Op>) { forall k :: 0 <= k < |ops| && ops[k].Upsert? ==> Open(ops[..k]) }

  function TimeOf(): Op -> Option<int> { (op: Op) => match op case Upsert(_, at) => Some(at) case _ => None }

  /** The first `n` readings of the clock. */
  function Readings(n: nat, clock: nat -> int): (r: seq<int>)
    ensures |r| == n && forall i :: 0 <= i < n ==> r[i] == clock(i)
  {
    seq(n, i requires 0 <= i < n => clock(i))
  }

  predicate Scripted(w: Walk, clock: nat -> int) {
    && w.inTxn == Open(w.ops) && Inside(w.ops)
    && FilterMap(w.ops, TimeOf()) == Readings(w.stats.upserted, clock)
  }

  lemma InsideSnoc(ops: seq<Op>, op: Op)
    requires Inside(ops) && (op.Upsert? ==> Open(ops))
    ensures Inside(ops + [op])
    ensures Open(ops + [op]) <==> op.Begin? || (!op.Commit? && Open(ops))
  {
    hide Open;
    var all := ops + [op];
    UncommittedSnoc(ops, op);
    forall k | 0 <= k < |all| && all[k].Upsert? ensures Open(all[..k]) {
      assert all[..k] == ops[..k] && ops[..|ops|] == ops;
    }
  }

  lemma TimesSnoc(ops: seq<Op>, op: Op)
    ensures FilterMap(ops + [op], TimeOf()) ==
            FilterMap(ops, TimeOf()) + (if op.Upsert? then [op.at] else [])
  {
    FilterMapConcat(ops, [op], TimeOf());
    assert [op] == [op] + [];
    FilterMapCons(op, [], TimeOf());
  }

  lemma StoreScripted(w: Walk, row: MessageRow, e: Env)
    requires Scripted(w, e.clock)
    ensures Scripted(StoreRow(w, row, e), e.clock)
  {
    hide Open, Inside, FilterMap;
    var begun := if w.inTxn then w.ops else w.ops + [Begin];
    var put := Op.Upsert(row, e.clock(w.stats.upserted));
    if !w.inTxn { InsideSnoc(w.ops, Begin); }
    TimesSnoc(w.ops, Begin);
    InsideSnoc(begun, put);
    TimesSnoc(begun, put);
    InsideSnoc(begun + [put], Commit);
    TimesSnoc(begun + [put], Commit);
    var n := w.stats.upserted;
    assert Readings(n, e.clock) + [e.clock(n)] == Readings(n + 1, e.clock);
    assert Readings(n + 1, e.clock) + [] == Readings(n + 1, e.clock);
    assert Readings(n, e.clock) + [] == Readings(n, e.clock);
  }

  lemma EntryScripted(w: Walk, dir: string, entry: Entry, e: Env)
    requires Scripted(w, e.clock)
    ensures Scripted(OnEntry(w, dir, entry, e), e.clock)
  {
    hide Open, Inside, FilterMap, StoreRow, OutcomeOf;
    if entry.Eml? {
      var x := Placed(dir, entry.file);
      match OutcomeOf(x, e)
      case Store(row) =>
        StoreScripted(w.(seen := w.seen + {x.file.id}, stats := w.stats.(scanned := w.stats.scanned + 1)), row, e);
      case _ =>
    }
  }

  lemma {:induction false} EntriesScripted(w: Walk, dir: string, entries: seq<Entry>, e: Env)
    requires Scripted(w, e.clock)
    ensures Scripted(WalkEntries(w, dir, entries, e), e.clock)
    decreases |entries|
  {
    hide Scripted, OnEntry;
    if entries != [] {
      EntryScripted(w, dir, entries[0], e);
      EntriesScripted(OnEntry(w, dir, entries[0], e), dir, entries[1..], e);
    }
  }

  lemma FolderScripted(w: Walk, d: Dir, e: Env)
    requires Scripted(w, e.clock) && !w.inTxn
    ensures Scripted(WalkFolder(w, d, e), e.clock) && !WalkFolder(w, d, e).inTxn
  {
    hide Open, Inside, FilterMap, WalkEntries;
    if d.listing.Some? {
      var from := w.(inTxn := false, batch := 0);
      EntriesScripted(from, d.name, d.listing.value, e);
      var v := WalkEntries(from, d.name, d.listing.value, e);
      InsideSnoc(v.ops, Commit);
      TimesSnoc(v.ops, Commit);
      assert FilterMap(v.ops, TimeOf()) + [] == FilterMap(v.ops, TimeOf());
    }
  }

  lemma {:induction false} FoldersScripted(w: Walk, ds: seq<Dir>, e: Env)
    requires Scripted(w, e.clock) && !w.inTxn
    ensures Scripted(WalkFolders(w, ds, e), e.clock) && !WalkFolders(w, ds, e).inTxn
    decreases |ds|
  {
    hide Scripted, WalkFolder;
    if ds != [] {
      FolderScripted(w, ds[0], e);
      FoldersScripted(WalkFolder(w, ds[0], e), ds[1..], e);
    }
  }

  lemma StartScripted(rows: map<string, Stored>, o: Opts, clock: nat -> int)
    ensures Scripted(StartWalk(rows, o), clock)
  {
    var drop := DeleteRows(rows.Keys);
    InsideSnoc([], drop);
    TimesSnoc([], drop);
    assert [] + [drop] == [drop] && FilterMap<Op, int>([], TimeOf()) == [];
    assert [] + [] == Readings(0, clock);
  }

  /** In a rebuild every upsert runs inside a transaction, none is open at the end, and
      the n-th upsert carries the clock's n-th reading. */
  lemma RebuildStatements(s: State, entries: seq<Dir>, o: Opts, parse: Parser, clock: nat -> int, tk: Tokenizer)
    ensures var ops := RebuildOps(s, Mail(entries), o, parse, clock, tk);
      && Inside(ops) && !Open(ops)
      && FilterMap(ops, TimeOf()) == Readings(|FilterMap(ops, TimeOf())|, clock)
  {
    hide Open, Inside, FilterMap, WalkFolders;
    var e, ds := StartEnv(s.db.rows, o, parse, clock), FolderDirs(entries);
    var start := StartWalk(s.db.rows, o);
    StartScripted(s.db.rows, o, clock);
    FoldersScripted(start, ds, e);
    var w := FullWalk(s.db.rows, ds, o, parse, clock);
    var sweep := DeleteRows(Run(s, w.ops, tk).db.rows.Keys - w.seen);
    InsideSnoc(w.ops, sweep);
    TimesSnoc(w.ops, sweep);
    assert FilterMap(w.ops, TimeOf()) + [] == FilterMap(w.ops, TimeOf());
  }
}
