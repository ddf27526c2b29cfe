/** `rebuild_from_disk`: the statements it runs against the index, and its counters. */
module Rebuild {
  import opened Seqs
  import opened Messages
  import opened Index
  import opened Disk

  datatype Stats = Stats(scanned: nat, upserted: nat, skipped: nat, orphaned: nat, errors: nat)

  const NO_STATS := Stats(0, 0, 0, 0, 0)

  /** The options, the `indexed_at` values read at the start, the parser, and the
      clock: the time of the n-th upsert. */
  datatype Env = Env(opts: Opts, known: map<string, int>, parse: Parser, clock: nat -> int)

  datatype Outcome = Skip | Fail | Store(row: MessageRow)

  function OutcomeOf(x: Placed, e: Env): Outcome {
    var f := x.file;
    if !e.opts.force && f.id in e.known && f.mtime.Some? && f.mtime.value <= e.known[f.id] then Skip
    else match Load(x, e.opts.maxEmlBytes, e.parse) case Some(row) => Store(row) case None => Fail
  }

  // ── the walk as a function ─────────────────────────────────────────────

  datatype Walk = Walk(inTxn: bool, batch: nat, seen: set<string>, stats: Stats, ops: seq<Op>)

  function StoreRow(w: Walk, row: MessageRow, e: Env): Walk {
    var begun := if w.inTxn then w.ops else w.ops + [Begin];
    var put := begun + [Op.Upsert(row, e.clock(w.stats.upserted))];
    var stats := w.stats.(upserted := w.stats.upserted + 1);
    if w.batch + 1 >= e.opts.commitBatch then w.(inTxn := false, batch := 0, stats := stats, ops := put + [Commit])
    else w.(inTxn := true, batch := w.batch + 1, stats := stats, ops := put)
  }

  function OnFile(w: Walk, x: Placed, e: Env): Walk {
    var v := w.(seen := w.seen + {x.file.id}, stats := w.stats.(scanned := w.stats.scanned + 1));
    match OutcomeOf(x, e)
    case Skip => v.(stats := v.stats.(skipped := v.stats.skipped + 1))
    case Fail => v.(stats := v.stats.(errors := v.stats.errors + 1))
    case Store(row) => StoreRow(v, row, e)
  }

  function OnEntry(w: Walk, dir: string, entry: Entry, e: Env): Walk {
    match entry
    case BadEntry => w.(stats := w.stats.(errors := w.stats.errors + 1))
    case Other => w
    case Eml(f) => OnFile(w, Placed(dir, f), e)
  }

  function WalkEntries(w: Walk, dir: string, entries: seq<Entry>, e: Env): Walk
    decreases |entries|
  {
    if entries == [] then w else WalkEntries(OnEntry(w, dir, entries[0], e), dir, entries[1..], e)
  }

  /** The folder ends: an open transaction is committed. */
  function EndFolder(w: Walk): Walk { if w.inTxn then w.(inTxn := false, batch := 0, ops := w.ops + [Commit]) else w }

  function WalkFolder(w: Walk, d: Dir, e: Env): Walk {
    match d.listing
    case None => w.(stats := w.stats.(errors := w.stats.errors + 1))
    case Some(entries) => EndFolder(WalkEntries(w.(inTxn := false, batch := 0), d.name, entries, e))
  }

  function WalkFolders(w: Walk, ds: seq<Dir>, e: Env): Walk
    decreases |ds|
  {
    if ds == [] then w else WalkFolders(WalkFolder(w, ds[0], e), ds[1..], e)
  }

  function KnownAt(rows: map<string, Stored>): map<string, int> { map id | id in rows :: rows[id].indexedAt }

  function StartEnv(rows: map<string, Stored>, o: Opts, parse: Parser, clock: nat -> int): Env {
    Env(o, if o.force then map[] else KnownAt(rows), parse, clock)
  }

  /** `drop_all_messages`, for a forced rebuild. */
  function StartOps(rows: map<string, Stored>, o: Opts): seq<Op> { if o.force then [DeleteRows(rows.Keys)] else [] }

  function StartWalk(rows: map<string, Stored>, o: Opts): Walk { Walk(false, 0, {}, NO_STATS, StartOps(rows, o)) }

  /** The walk over all folders of a rebuild that starts from `rows`. */
  function FullWalk(rows: map<string, Stored>, ds: seq<Dir>, o: Opts, parse: Parser, clock: nat -> int): Walk {
    WalkFolders(StartWalk(rows, o), ds, StartEnv(rows, o, parse, clock))
  }

  /** Every statement of a rebuild; the last one is the orphan sweep. */
  ghost function RebuildOps(s: State, mail: Mail, o: Opts, parse: Parser, clock: nat -> int, tk: Tokenizer): seq<Op> {
    match mail
    case NoMail => []
    case Unlistable => StartOps(s.db.rows, o)
    case Mail(entries) =>
      var w := FullWalk(s.db.rows, FolderDirs(entries), o, parse, clock);
      w.ops + [DeleteRows(Run(s, w.ops, tk).db.rows.Keys - w.seen)]
  }

  /** The stats returned; None is an error. */
  ghost function RebuildStats(s: State, mail: Mail, o: Opts, parse: Parser, clock: nat -> int,
                              tk: Tokenizer): Option<Stats>
  {
    match mail
    case NoMail => Some(NO_STATS)
    case Unlistable => None
    case Mail(entries) =>
      var w := FullWalk(s.db.rows, FolderDirs(entries), o, parse, clock);
      Some(w.stats.(orphaned := |Run(s, w.ops, tk).db.rows.Keys - w.seen|))
  }

  // ── the methods ────────────────────────────────────────────────────────

  /** The index has run the statements of the walk, from state `s0` on. */
  ghost predicate At(index: SearchIndex, s0: State, base: seq<Op>, w: Walk)
    reads index
  {
    index.Valid() && index.Now() == Run(s0, w.ops, index.tk) && index.log == base + w.ops
  }

  lemma AtSnoc(s0: State, base: seq<Op>, ops: seq<Op>, op: Op, tk: Tokenizer)
    ensures Run(s0, ops + [op], tk) == Step(Run(s0, ops, tk), op, tk)
    ensures base + ops + [op] == base + (ops + [op])
  {
    RunSnoc(s0, ops, op, tk);
  }

  /** The part of the loop body that writes: BEGIN on the first row, the upsert,
      and COMMIT when the batch is full. */
  method WriteRow(index: SearchIndex, row: MessageRow, e: Env, inTxn: bool, batch: nat, stats: Stats,
                  ghost s0: State, ghost base: seq<Op>, ghost w: Walk)
    returns (inTxn': bool, batch': nat, stats': Stats)
    requires At(index, s0, base, w) && w.inTxn == inTxn && w.batch == batch && w.stats == stats
    modifies index
    ensures At(index, s0, base, StoreRow(w, row, e))
    ensures var v := StoreRow(w, row, e); inTxn' == v.inTxn && batch' == v.batch && stats' == v.stats
  {
    hide Sound, Run, Step;
    ghost var ops := w.ops;
    inTxn', batch', stats' := inTxn, batch, stats;
    if !inTxn' {
      AtSnoc(s0, base, ops, Begin, index.tk);
      index.BeginImmediate();
      ops := ops + [Begin];
      inTxn' := true;
    }
    ghost var put := Op.Upsert(row, e.clock(stats.upserted));
    AtSnoc(s0, base, ops, put, index.tk);
    index.UpsertMessage(row, e.clock(stats.upserted));
    ops := ops + [put];
    stats' := stats'.(upserted := stats'.upserted + 1);
    batch' := batch' + 1;
    if batch' >= e.opts.commitBatch {
      AtSnoc(s0, base, ops, Commit, index.tk);
      index.CommitTxn();
      batch' := 0;
      inTxn' := false;
    }
  }

  method RebuildOneFolder(index: SearchIndex, d: Dir, e: Env, seen: set<string>, stats: Stats,
                          ghost s0: State, ghost base: seq<Op>, ghost start: Walk)
    returns (seen': set<string>, stats': Stats)
    requires At(index, s0, base, start) && start.seen == seen && start.stats == stats
    modifies index
    ensures At(index, s0, base, WalkFolder(start, d, e))
    ensures var v := WalkFolder(start, d, e); seen' == v.seen && stats' == v.stats
  {
    hide Sound, Run, Step;
    seen', stats' := seen, stats;
    if d.listing.None? {
      stats' := stats'.(errors := stats'.errors + 1);
      return;
    }
    var inTxn, batch := false, 0;
    var rest := d.listing.value;
    ghost var w := start.(inTxn := false, batch := 0);
    while rest != []
      invariant At(index, s0, base, w)
      invariant w.inTxn == inTxn && w.batch == batch && w.seen == seen' && w.stats == stats'
      invariant WalkEntries(w, d.name, rest, e) ==
                WalkEntries(start.(inTxn := false, batch := 0), d.name, d.listing.value, e)
      decreases |rest|
    {
      var entry := rest[0];
      ghost var before := w;
      w := OnEntry(w, d.name, entry, e);
      rest := rest[1..];
      match entry {
        case BadEntry => stats' := stats'.(errors := stats'.errors + 1);
        case Other =>
        case Eml(f) =>
          var x := Placed(d.name, f);
          stats' := stats'.(scanned := stats'.scanned + 1);
          seen' := seen' + {f.id};
          if !e.opts.force && f.id in e.known && f.mtime.Some? && f.mtime.value <= e.known[f.id] {
            stats' := stats'.(skipped := stats'.skipped + 1);
            continue;
          }
          var row := Load(x, e.opts.maxEmlBytes, e.parse);
          if row.None? {
            stats' := stats'.(errors := stats'.errors + 1);
            continue;
          }
          inTxn, batch, stats' := WriteRow(index, row.value, e, inTxn, batch, stats', s0, base,
                                           before.(seen := seen', stats := stats'));
      }
    }
    if inTxn {
      AtSnoc(s0, base, w.ops, Commit, index.tk);
      index.CommitTxn();
    }
  }

  method RebuildFromDisk(index: SearchIndex, mail: Mail, o: Opts, parse: Parser, clock: nat -> int)
    returns (result: Option<Stats>)
    requires index.Valid() && index.saved.None?
    modifies index
    ensures index.Valid()
    ensures index.log == old(index.log) + RebuildOps(old(index.Now()), mail, o, parse, clock, index.tk)
    ensures index.Now() ==
            Run(old(index.Now()), RebuildOps(old(index.Now()), mail, o, parse, clock, index.tk), index.tk)
    ensures result == RebuildStats(old(index.Now()), mail, o, parse, clock, index.tk)
  {
    hide Sound, Step;
    if mail.NoMail? { return Some(NO_STATS); }
    ghost var s0, base := index.Now(), index.log;
    var e := StartEnv(index.rows, o, parse, clock);
    ghost var w := StartWalk(index.rows, o);
    if o.force {
      AtSnoc(s0, base, [], DeleteRows(index.rows.Keys), index.tk);
      var _ := index.DeleteAll(index.rows.Keys);
    }
    if mail.Unlistable? { return None; }
    var seen: set<string>, stats := {}, NO_STATS;
    var rest := FolderDirs(mail.entries);
    while rest != []
      invariant At(index, s0, base, w)
      invariant w.seen == seen && w.stats == stats
      invariant WalkFolders(w, rest, e) == FullWalk(s0.db.rows, FolderDirs(mail.entries), o, parse, clock)
      decreases |rest|
    {
      var d := rest[0];
      seen, stats := RebuildOneFolder(index, d, e, seen, stats, s0, base, w);
      w := WalkFolder(w, d, e);
      rest := rest[1..];
    }
    AtSnoc(s0, base, w.ops, DeleteRows(index.rows.Keys - seen), index.tk);
    var removed := index.DeleteAll(index.rows.Keys - seen);
    result := Some(stats.(orphaned := removed));
  }
}
