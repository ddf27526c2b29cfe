/** What a rebuild makes of a mail file, said of the file's own parts: its size,
    its sidecar, its bytes and what the parser reads in them. */
module IndexedRows {
  import opened Seqs
  import opened Messages
  import opened Index
  import opened Disk
  import opened Rebuild
  import opened RebuildProofs

  /** A readable size within the cap, a sidecar that reads, bytes, and a parse. */
  predicate Indexable(f: File, maxEmlBytes: nat, parse: Parser) {
    && f.size.Some? && f.size.value <= maxEmlBytes
    && f.meta.Good? && f.raw.Some?
    && parse(f.raw.value, f.meta.internalDate).Some?
  }

  /** The row says of the file what its sidecar and its parse say: the folder is the
      sidecar's, else the directory; source id and flags are the sidecar's, and so is
      the size if it has one; the rest is read from the bytes. */
  predicate Says(row: MessageRow, dir: string, f: File, parse: Parser)
    requires f.meta.Good? && f.raw.Some? && parse(f.raw.value, f.meta.internalDate).Some?
  {
    var p := parse(f.raw.value, f.meta.internalDate).value;
    && row.canonicalId == f.id
    && row.folder == (match f.meta.folderPath case Some(folder) => folder case None => dir)
    && row.sourceId == (match f.meta.id case Some(id) => id case None => "")
    && row.size == Some(match f.meta.size case Some(n) => n case None => |f.raw.value|)
    && row.flags == f.meta.flags
    && row.messageId == p.messageId && row.fromAddr == p.fromAddr && row.fromName == p.fromName
    && row.toAddrs == p.toAddrs && row.ccAddrs == p.ccAddrs && row.subject == p.subject && row.body == p.body
    && row.dateUnix == p.dateUnix && row.hasAttach == p.hasAttach
  }

  /** Loading succeeds exactly on such files, and the row says so. */
  lemma LoadSays(x: Placed, maxEmlBytes: nat, parse: Parser)
    ensures Load(x, maxEmlBytes, parse).Some? <==> Indexable(x.file, maxEmlBytes, parse)
    ensures Indexable(x.file, maxEmlBytes, parse) ==> Says(Load(x, maxEmlBytes, parse).value, x.dir, x.file, parse)
  {}

  // ── where the files are ────────────────────────────────────────────────

  /** A directory whose name starts with neither an underscore nor a dot. */
  predicate MailFolder(d: Dir) { d.isDir && !("_" <= d.name) && !("." <= d.name) }

  /** The tree has this file in a mail folder of this name that can be listed. */
  predicate HasFile(entries: seq<Dir>, dir: string, f: File) {
    exists d <- entries :: MailFolder(d) && d.name == dir && d.listing.Some? && Eml(f) in d.listing.value
  }

  lemma InFolder(d: Dir, x: Placed)
    ensures x in FilesOf(d) <==> d.name == x.dir && d.listing.Some? && Eml(x.file) in d.listing.value
  {
    if d.listing.Some? {
      FilterMapIn(d.listing.value, EmlFile(d.name));
      if Eml(x.file) in d.listing.value { assert EmlFile(d.name)(Eml(x.file)) == Some(Placed(d.name, x.file)); }
    }
  }

  lemma FilesWalked(entries: seq<Dir>, x: Placed)
    ensures x in FilesIn(FolderDirs(entries)) <==> HasFile(entries, x.dir, x.file)
  {
    var ds := FolderDirs(entries);
    FlatMapIn(ds, FilesOf);
    forall d | d in entries ensures d in ds <==> MailFolder(d) {
      assert "_" <= d.name <==> d.name != "" && d.name[0] == '_';
      assert "." <= d.name <==> d.name != "" && d.name[0] == '.';
    }
    if x in FilesIn(ds) {
      var d :| d in ds && x in FilesOf(d);
      InFolder(d, x);
    }
    if HasFile(entries, x.dir, x.file) {
      var d :| d in entries && MailFolder(d) && d.name == x.dir && d.listing.Some? && Eml(x.file) in d.listing.value;
      InFolder(d, x);
    }
  }

  // ── the row of an id after a rebuild ───────────────────────────────────

  /** Not forced, the row is at least as new as the file. */
  predicate LeftAlone(rows: map<string, Stored>, f: File, o: Opts) {
    !o.force && f.id in rows && f.mtime.Some? && f.mtime.value <= rows[f.id].indexedAt
  }

  lemma StoredSays(s: State, x: Placed, o: Opts, parse: Parser, clock: nat -> int)
    ensures var r := StoredAs(x, x.file.id, StartEnv(s.db.rows, o, parse, clock));
      && (r.Some? <==> !LeftAlone(s.db.rows, x.file, o) && Indexable(x.file, o.maxEmlBytes, parse))
      && (r.Some? ==> Says(r.value, x.dir, x.file, parse))
  {
    hide Load, Indexable, Says;
    LoadSays(x, o.maxEmlBytes, parse);
  }

  lemma {:induction false} OnlyStored(files: seq<Placed>, x: Placed, e: Env)
    requires forall y <- files :: y.file.id == x.file.id ==> y == x
    ensures LastStored(files, x.file.id, e) == if x in files then StoredAs(x, x.file.id, e) else None
  {
    hide OutcomeOf;
    if files != [] {
      OnlyStored(files[1..], x, e);
      assert files[0] in files && forall y <- files :: y == files[0] || y in files[1..];
    }
  }

  /** The row of an id that one file of the tree has: the old one if that is left alone,
      else what the file says if it can be indexed, else the old one unless forced. */
  lemma OnlyFileRow(s: State, entries: seq<Dir>, o: Opts, parse: Parser, clock: nat -> int, tk: Tokenizer,
                    dir: string, f: File)
    requires HasFile(entries, dir, f)
    requires forall d, g :: HasFile(entries, d, g) && g.id == f.id ==> d == dir && g == f
    ensures var before, after := s.db.rows, Run(s, RebuildOps(s, Mail(entries), o, parse, clock, tk), tk).db.rows;
      if LeftAlone(before, f, o) then f.id in after && after[f.id].row == before[f.id].row
      else if Indexable(f, o.maxEmlBytes, parse) then f.id in after && Says(after[f.id].row, dir, f, parse)
      else if o.force || f.id !in before then f.id !in after
      else f.id in after && after[f.id].row == before[f.id].row
  {
    hide Run, RebuildOps, FolderDirs, Load, Says, Indexable, OutcomeOf, HasFile;
    var files, e, x := FilesIn(FolderDirs(entries)), StartEnv(s.db.rows, o, parse, clock), Placed(dir, f);
    forall y | y in files && y.file.id == f.id ensures y == x { FilesWalked(entries, y); }
    FilesWalked(entries, x);
    RebuildLeaves(s, entries, o, parse, clock, tk, f.id);
    OnlyStored(files, x, e);
    StoredSays(s, x, o, parse, clock);
  }

  /** Of several files the last one decides, in the order of the walk, unless it is
      left alone or cannot be indexed. */
  lemma LastFileRow(s: State, entries: seq<Dir>, o: Opts, parse: Parser, clock: nat -> int, tk: Tokenizer,
                    before: seq<Placed>, x: Placed, after: seq<Placed>)
    requires FilesIn(FolderDirs(entries)) == before + ([x] + after) && x.file.id !in Ids(after)
    requires !LeftAlone(s.db.rows, x.file, o) && Indexable(x.file, o.maxEmlBytes, parse)
    ensures var rows := Run(s, RebuildOps(s, Mail(entries), o, parse, clock, tk), tk).db.rows;
      x.file.id in rows && Says(rows[x.file.id].row, x.dir, x.file, parse)
  {
    hide Run, RebuildOps, FolderDirs, Load, Says, Indexable, OutcomeOf, LeftAlone;
    var id, e := x.file.id, StartEnv(s.db.rows, o, parse, clock);
    RebuildLeaves(s, entries, o, parse, clock, tk, id);
    StoredSays(s, x, o, parse, clock);
    StoredIsSeen(after, id, e);
    LastStoredConcat(before, [x] + after, id, e);
    LastStoredConcat([x], after, id, e);
    assert [x][1..] == [];
    IdsConcat(before, [x] + after);
    IdsCons(x, after);
  }

  /** An id none of whose files can be indexed has no row after a forced rebuild: not
      one over the cap, not one without a sidecar, not one that does not parse. */
  lemma NoneIndexed(s: State, entries: seq<Dir>, o: Opts, parse: Parser, clock: nat -> int, tk: Tokenizer, id: string)
    requires forall d, f :: HasFile(entries, d, f) && f.id == id ==> !Indexable(f, o.maxEmlBytes, parse)
    ensures var after := Run(s, RebuildOps(s, Mail(entries), o, parse, clock, tk), tk).db.rows;
      id in after ==> !o.force && id in s.db.rows && after[id].row == s.db.rows[id].row
  {
    hide Run, RebuildOps, FolderDirs, Load, Indexable, OutcomeOf, HasFile;
    var files, e := FilesIn(FolderDirs(entries)), StartEnv(s.db.rows, o, parse, clock);
    RebuildLeaves(s, entries, o, parse, clock, tk, id);
    forall x | x in files && x.file.id == id ensures StoredAs(x, id, e).None? {
      FilesWalked(entries, x);
      StoredSays(s, x, o, parse, clock);
    }
    NoneStored(files, id, e);
  }

  lemma {:induction false} NoneStored(files: seq<Placed>, id: string, e: Env)
    requires forall x <- files :: x.file.id == id ==> StoredAs(x, id, e).None?
    ensures LastStored(files, id, e).None?
  {
    hide OutcomeOf;
    if files != [] {
      assert files[0] in files;
      NoneStored(files[1..], id, e);
    }
  }
}
