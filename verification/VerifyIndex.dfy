/** `verify`: the report on orphan rows and unindexed files, and what
    `verify(clean = true)` repairs. */
module VerifyIndex {
  import opened Seqs
  import opened Index
  import opened Disk
  import opened Rebuild
  import opened IndexedRows
  import opened RebuildProofs
  import opened CrashProofs

  datatype Report = Report(orphans: seq<string>, unindexed: seq<(string, string)>, cleaned: bool)

  /** A folder that cannot be listed is an error, here. */
  predicate Readable(mail: Mail) {
    !mail.Unlistable? && (mail.Mail? ==> forall d <- FolderDirs(mail.entries) :: d.listing.Some?)
  }

  function FilesOn(mail: Mail): seq<Placed> { if mail.Mail? then FilesIn(FolderDirs(mail.entries)) else [] }

  /** The folder recorded for each id: the last one it is found in. */
  function FolderById(files: seq<Placed>): map<string, string>
    decreases |files|
  {
    if files == [] then map[]
    else var x := files[|files| - 1]; FolderById(files[..|files| - 1])[x.file.id := x.dir]
  }

  lemma {:induction false} FolderByIdKeys(files: seq<Placed>)
    ensures FolderById(files).Keys == Ids(files)
    decreases |files|
  {
    if files != [] {
      var k := |files| - 1;
      FolderByIdKeys(files[..k]);
      assert files == files[..k] + [files[k]];
      IdsConcat(files[..k], [files[k]]);
    }
  }

  predicate Distinct<T(==)>(s: seq<T>) { forall i, j :: 0 <= i < j < |s| ==> s[i] != s[j] }

  /** The report is right: orphans are rows without a file, unindexed are files
      without a row, each listed once, in any order. */
  ghost predicate IsReport(r: Report, rows: map<string, Stored>, files: seq<Placed>) {
    && Distinct(r.orphans) && Distinct(r.unindexed)
    && (forall id :: id in r.orphans <==> id in rows && id !in Ids(files))
    && (forall id, dir :: (id, dir) in r.unindexed <==>
         id in FolderById(files) && id !in rows && FolderById(files)[id] == dir)
  }

  function DeleteOne(id: string): Op { DeleteRows({id}) }

  /** The statements of a cleaning run, given its report. */
  ghost function CleanOps(s: State, r: Report, mail: Mail, parse: Parser, clock: nat -> int, tk: Tokenizer): seq<Op> {
    var dels := Map(r.orphans, DeleteOne);
    if r.unindexed == [] then dels
    else dels + RebuildOps(Run(s, dels, tk), mail, INCREMENTAL, parse, clock, tk)
  }

  lemma OnDiskMeans(entries: seq<Dir>, id: string)
    ensures id in Ids(FilesIn(FolderDirs(entries))) <==> exists dir, f :: HasFile(entries, dir, f) && f.id == id
  {
    hide HasFile, FolderDirs, FilesIn;
    var files := FilesIn(FolderDirs(entries));
    if id in Ids(files) {
      var x :| x in files && x.file.id == id;
      FilesWalked(entries, x);
    }
    forall dir, f | HasFile(entries, dir, f) && f.id == id ensures id in Ids(files) {
      FilesWalked(entries, Placed(dir, f));
      assert Placed(dir, f) in files;
    }
  }

  lemma {:induction false} FolderIsOne(files: seq<Placed>, id: string)
    requires id in FolderById(files)
    ensures exists x <- files :: x.file.id == id && x.dir == FolderById(files)[id]
    decreases |files|
  {
    var k := |files| - 1;
    assert files[k] in files && forall x <- files[..k] :: x in files;
    if files[k].file.id != id { FolderIsOne(files[..k], id); }
  }

  /** Of several folders the last one walked is told. */
  lemma {:induction false} LastFolderTold(before: seq<Placed>, x: Placed, after: seq<Placed>)
    requires x.file.id !in Ids(after)
    ensures var told := FolderById(before + [x] + after); x.file.id in told && told[x.file.id] == x.dir
    decreases |after|
  {
    var files := before + [x] + after;
    if after == [] {
      assert files == before + [x] && files[..|before|] == before;
    } else {
      var k := |after| - 1;
      assert files[..|files| - 1] == before + [x] + after[..k] && files[|files| - 1] == after[k];
      assert after[k] in after && forall y <- after[..k] :: y in after;
      LastFolderTold(before, x, after[..k]);
    }
  }

  /** The report against the tree itself: an orphan is a row whose id no file of a mail
      folder has, an unindexed file is one whose id has no row, and the folder told for
      it is one that holds it. */
  lemma ReportMeans(r: Report, rows: map<string, Stored>, entries: seq<Dir>)
    requires IsReport(r, rows, FilesOn(Mail(entries)))
    ensures forall id :: id in r.orphans <==> id in rows && !exists dir, f :: HasFile(entries, dir, f) && f.id == id
    ensures forall id :: (exists dir :: (id, dir) in r.unindexed) <==>
      id !in rows && exists dir, f :: HasFile(entries, dir, f) && f.id == id
    ensures forall id, dir :: (id, dir) in r.unindexed ==> exists f :: HasFile(entries, dir, f) && f.id == id
  {
    hide HasFile, FolderDirs, FolderById;
    var files := FilesIn(FolderDirs(entries));
    FolderByIdKeys(files);
    forall id ensures id in Ids(files) <==> exists dir, f :: HasFile(entries, dir, f) && f.id == id {
      OnDiskMeans(entries, id);
    }
    forall id | id !in rows && id in Ids(files) ensures exists dir :: (id, dir) in r.unindexed {
      assert (id, FolderById(files)[id]) in r.unindexed;
    }
    forall id, dir | (id, dir) in r.unindexed ensures exists f :: HasFile(entries, dir, f) && f.id == id {
      FolderIsOne(files, id);
      var x :| x in files && x.file.id == id && x.dir == dir;
      FilesWalked(entries, x);
    }
  }

  // ── the method ─────────────────────────────────────────────────────────

  method ScanFolder(entries: seq<Entry>, dir: string, found: map<string, string>, ghost before: seq<Placed>)
    returns (found': map<string, string>)
    requires found == FolderById(before)
    ensures found' == FolderById(before + FilterMap(entries, EmlFile(dir)))
  {
    found' := found;
    var rest := entries;
    ghost var done := before;
    while rest != []
      invariant found' == FolderById(done)
      invariant done + FilterMap(rest, EmlFile(dir)) == before + FilterMap(entries, EmlFile(dir))
      decreases |rest|
    {
      if rest[0].Eml? {
        ghost var x := Placed(dir, rest[0].file);
        found' := found'[rest[0].file.id := dir];
        Snoc(done, x, FilterMap(rest[1..], EmlFile(dir)));
        assert (done + [x])[..|done|] == done;
        done := done + [x];
      }
      rest := rest[1..];
    }
    assert done + [] == done;
  }

  method ScanDisk(mail: Mail) returns (found: Option<map<string, string>>)
    ensures found.Some? <==> Readable(mail)
    ensures found.Some? ==> found.value == FolderById(FilesOn(mail))
  {
    if mail.Unlistable? { return None; }
    if mail.NoMail? { return Some(map[]); }
    var ids: map<string, string> := map[];
    var ds := FolderDirs(mail.entries);
    var rest := ds;
    ghost var done: seq<Placed> := [];
    while rest != []
      invariant ids == FolderById(done) && done + FilesIn(rest) == FilesIn(ds)
      invariant forall d <- rest :: d in ds
      invariant forall d <- ds :: d in rest || d.listing.Some?
      decreases |rest|
    {
      var d := rest[0];
      if d.listing.None? { return None; }
      ids := ScanFolder(d.listing.value, d.name, ids, done);
      Assoc(done, FilesOf(d), FilesIn(rest[1..]));
      done := done + FilesOf(d);
      rest := rest[1..];
    }
    assert done + [] == done;
    found := Some(ids);
  }

  method ListSet<T(==)>(s: set<T>) returns (r: seq<T>)
    ensures Distinct(r) && forall x :: x in r <==> x in s
  {
    r := [];
    var rest := s;
    while rest != {}
      invariant Distinct(r) && rest <= s && forall x :: x in s <==> x in rest || x in r
      invariant forall x <- r :: x !in rest
      decreases |rest|
    {
      var x :| x in rest;
      rest := rest - {x};
      r := r + [x];
    }
  }

  lemma MakesReport(r: Report, rows: map<string, Stored>, files: seq<Placed>)
    requires Distinct(r.orphans) && Distinct(r.unindexed)
    requires var disk := FolderById(files);
      && (forall id :: id in r.orphans <==> id in rows.Keys - disk.Keys)
      && forall x :: x in r.unindexed <==> x in (set id | id in disk.Keys && id !in rows :: (id, disk[id]))
    ensures IsReport(r, rows, files)
  {
    FolderByIdKeys(files);
  }

  /** None is the error of a folder that cannot be listed; nothing has run then. */
  method Verify(index: SearchIndex, mail: Mail, clean: bool, parse: Parser, clock: nat -> int)
    returns (r: Option<Report>)
    requires index.Valid() && index.saved.None?
    modifies index
    ensures index.Valid() && (r.Some? <==> Readable(mail))
    ensures r.Some? ==> IsReport(r.value, old(index.rows), FilesOn(mail)) && r.value.cleaned == clean
    ensures r.None? || !clean ==> index.Now() == old(index.Now()) && index.log == old(index.log)
    ensures r.Some? && clean ==> var ops := CleanOps(old(index.Now()), r.value, mail, parse, clock, index.tk);
      index.Now() == Run(old(index.Now()), ops, index.tk) && index.log == old(index.log) + ops
  {
    hide Sound, Step, IsReport, FolderById, FilesOn, Readable, Synced, DeleteOne;
    var found := ScanDisk(mail);
    if found.None? { return None; }
    var disk := found.value;
    var orphans := ListSet(index.rows.Keys - disk.Keys);
    var unindexed := ListSet(set id | id in disk.Keys && id !in index.rows :: (id, disk[id]));
    var report := Report(orphans, unindexed, clean);
    MakesReport(report, index.rows, FilesOn(mail));
    if clean {
      ghost var s0, base := index.Now(), index.log;
      DeleteOrphans(index, orphans, s0, base);
      ghost var dels := Map(orphans, DeleteOne);
      if unindexed != [] {
        var _ := RebuildFromDisk(index, mail, INCREMENTAL, parse, clock);
        ghost var more := RebuildOps(Run(s0, dels, index.tk), mail, INCREMENTAL, parse, clock, index.tk);
        RunConcat(s0, dels, more, index.tk);
        Assoc(base, dels, more);
      }
    }
    r := Some(report);
  }

  method DeleteOrphans(index: SearchIndex, orphans: seq<string>, ghost s0: State, ghost base: seq<Op>)
    requires index.Valid() && index.saved.None? && index.Now() == s0 && index.log == base
    modifies index
    ensures index.Valid() && index.saved.None?
    ensures index.Now() == Run(s0, Map(orphans, DeleteOne), index.tk) && index.log == base + Map(orphans, DeleteOne)
  {
    hide Sound, Step;
    var i := 0;
    assert base + [] == base;
    while i < |orphans|
      invariant 0 <= i <= |orphans|
      invariant index.Valid() && index.saved.None?
      invariant index.Now() == Run(s0, Map(orphans[..i], DeleteOne), index.tk)
      invariant index.log == base + Map(orphans[..i], DeleteOne)
    {
      ghost var done := Map(orphans[..i], DeleteOne);
      assert orphans[..i + 1] == orphans[..i] + [orphans[i]];
      MapSnoc(orphans[..i], orphans[i], DeleteOne);
      AtSnoc(s0, base, done, DeleteRows({orphans[i]}), index.tk);
      DeleteAny(index, orphans[i]);
      i := i + 1;
    }
    assert orphans[..i] == orphans;
  }

  /** `DELETE … WHERE canonical_id = ?1`, the row there or not. */
  method DeleteAny(index: SearchIndex, id: string)
    requires index.Valid() && index.saved.None?
    modifies index
    ensures index.Valid() && index.saved.None?
    ensures index.Now() == Step(old(index.Now()), DeleteRows({id}), index.tk)
    ensures index.log == old(index.log) + [DeleteRows({id})]
  {
    if id in index.rows {
      var _ := index.DeleteAll({id});
    } else {
      index.DeleteNothing({id});
    }
  }

  // ── it repairs ─────────────────────────────────────────────────────────

  lemma {:induction false} AfterDeletes(s: State, ids: seq<string>, id: string, tk: Tokenizer)
    ensures RowOfId(Run(s, Map(ids, DeleteOne), tk).db.rows, id) == if id in ids then None else RowOfId(s.db.rows, id)
    decreases |ids|
  {
    if ids == [] {
      assert Map(ids, DeleteOne) == [];
    } else {
      var k := |ids| - 1;
      assert ids == ids[..k] + [ids[k]];
      MapSnoc(ids[..k], ids[k], DeleteOne);
      RunSnoc(s, Map(ids[..k], DeleteOne), DeleteOne(ids[k]), tk);
      AfterDeletes(s, ids[..k], id, tk);
    }
  }

  /** Some file of this id can be indexed. */
  predicate Loads(files: seq<Placed>, id: string, maxEmlBytes: nat, parse: Parser) {
    exists x <- files :: x.file.id == id && Indexable(x.file, maxEmlBytes, parse)
  }

  /** An id without a row is never skipped: it is stored if any file of it loads. */
  lemma {:induction false} UnknownStored(files: seq<Placed>, id: string, e: Env)
    requires id !in e.known
    ensures LastStored(files, id, e).Some? <==> Loads(files, id, e.opts.maxEmlBytes, e.parse)
  {
    hide Load, Indexable;
    if files != [] {
      UnknownStored(files[1..], id, e);
      LoadSays(files[0], e.opts.maxEmlBytes, e.parse);
      assert files[0] in files;
      assert forall x <- files :: x == files[0] || x in files[1..];
    }
  }

  /** The keys after a cleaning run: every id on disk that had a row or can be indexed
      within the default cap of 50 MiB. */
  lemma KeysAfterClean(s: State, r: Report, mail: Mail, parse: Parser, clock: nat -> int, tk: Tokenizer, id: string)
    requires IsReport(r, s.db.rows, FilesOn(mail))
    ensures id in Run(s, CleanOps(s, r, mail, parse, clock, tk), tk).db.rows <==>
      id in Ids(FilesOn(mail)) && (id in s.db.rows || Loads(FilesOn(mail), id, 52428800, parse))
  {
    hide Load, Loads, Run, RebuildOps, LastStored, FolderById, Ids, FilesIn, FolderDirs, Readable, DeleteOne;
    var files, dels := FilesOn(mail), Map(r.orphans, DeleteOne);
    FolderByIdKeys(files);
    AfterDeletes(s, r.orphans, id, tk);
    if r.unindexed == [] {
      if id in Ids(files) && id !in s.db.rows {
        UnindexedListed(r, s.db.rows, files, id);
        assert false;
      }
    } else {
      var t := Run(s, dels, tk);
      assert mail.Mail? by { SomeFile(r, files); }
      RunConcat(s, dels, RebuildOps(t, mail, INCREMENTAL, parse, clock, tk), tk);
      RebuildLeaves(t, mail.entries, INCREMENTAL, parse, clock, tk, id);
      if id !in t.db.rows { UnknownStored(files, id, StartEnv(t.db.rows, INCREMENTAL, parse, clock)); }
    }
  }

  lemma UnindexedListed(r: Report, rows: map<string, Stored>, files: seq<Placed>, id: string)
    requires IsReport(r, rows, files) && id in FolderById(files) && id !in rows
    ensures r.unindexed != []
  {
    assert (id, FolderById(files)[id]) in r.unindexed;
  }

  lemma SomeFile(r: Report, files: seq<Placed>)
    requires r.unindexed != [] && forall id, dir :: (id, dir) in r.unindexed ==> id in FolderById(files)
    ensures files != []
  {
    var p := r.unindexed[0];
    assert (p.0, p.1) in r.unindexed;
  }

  /** After `verify(clean = true)` any further report shows no orphan, and as
      unindexed exactly the ids that had no row and of which no file loads. */
  lemma VerifyRepairs(s: State, r: Report, next: Report, mail: Mail, parse: Parser, clock: nat -> int, tk: Tokenizer)
    requires IsReport(r, s.db.rows, FilesOn(mail))
    requires IsReport(next, Run(s, CleanOps(s, r, mail, parse, clock, tk), tk).db.rows, FilesOn(mail))
    ensures next.orphans == []
    ensures forall id :: (exists dir :: (id, dir) in next.unindexed) <==>
      id in Ids(FilesOn(mail)) && id !in s.db.rows && !Loads(FilesOn(mail), id, 52428800, parse)
  {
    hide Run, CleanOps, Loads;
    var files, rows := FilesOn(mail), Run(s, CleanOps(s, r, mail, parse, clock, tk), tk).db.rows;
    FolderByIdKeys(files);
    if next.orphans != [] {
      var id := next.orphans[0];
      assert id in next.orphans;
      KeysAfterClean(s, r, mail, parse, clock, tk, id);
      assert false;
    }
    forall id ensures (exists dir :: (id, dir) in next.unindexed) <==>
      id in Ids(files) && id !in s.db.rows && !Loads(files, id, 52428800, parse)
    {
      KeysAfterClean(s, r, mail, parse, clock, tk, id);
      if id in FolderById(files) && id !in rows { assert (id, FolderById(files)[id]) in next.unindexed; }
    }
  }

  /** A crash in the rebuild of a cleaning run loses at most a batch of 200 rows. */
  lemma CleaningLosesOneBatch(s: State, entries: seq<Dir>, parse: Parser, clock: nat -> int, tk: Tokenizer, k: nat)
    requires s.saved.None? && k <= |RebuildOps(s, Mail(entries), INCREMENTAL, parse, clock, tk)|
    ensures var done := RebuildOps(s, Mail(entries), INCREMENTAL, parse, clock, tk)[..k];
      var kept := done[..Point(done)];
      Crash(Run(s, done, tk)) == Run(s, kept, tk) && Upserts(done[|kept|..]) <= 200
  {
    CrashLosesOneBatch(s, entries, INCREMENTAL, parse, clock, tk, k);
  }

  /** When every file loads, the table then has exactly the ids on disk. */
  lemma CleanWhenAllLoad(s: State, r: Report, mail: Mail, parse: Parser, clock: nat -> int, tk: Tokenizer)
    requires IsReport(r, s.db.rows, FilesOn(mail))
    requires AllLoad(FilesOn(mail), 52428800, parse)
    ensures Run(s, CleanOps(s, r, mail, parse, clock, tk), tk).db.rows.Keys == Ids(FilesOn(mail))
  {
    hide Run, CleanOps, Load, Indexable;
    forall x | x in FilesOn(mail) ensures Indexable(x.file, 52428800, parse) { LoadSays(x, 52428800, parse); }
    forall id ensures id in Run(s, CleanOps(s, r, mail, parse, clock, tk), tk).db.rows <==> id in Ids(FilesOn(mail)) {
      KeysAfterClean(s, r, mail, parse, clock, tk, id);
    }
  }
}
