/** The mail tree as the rebuild reads it: folders, `.eml` files and their
    `.meta.json` sidecars, and what one file loads to. */
module Disk {
  import opened Seqs
  import opened Messages
  import Order

  datatype Meta =
    | Missing
    | Unreadable
    | BadJson
    | Good(id: Option<string>, folderPath: Option<string>, internalDate: Option<string>, size: Option<nat>,
           flags: seq<string>)

  /** `None` stands for a failing call: no mtime, no metadata, no bytes. */
  datatype File = File(id: string, mtime: Option<int>, size: Option<nat>, meta: Meta, raw: Option<string>)

  /** `Other` is an entry that is no `.eml` file, or whose stem is no text. */
  datatype Entry = BadEntry | Other | Eml(file: File)

  datatype Dir = Dir(name: string, isDir: bool, listing: Option<seq<Entry>>)

  /** The `mail` directory: absent, not to be listed, or its entries in any order. */
  datatype Mail = NoMail | Unlistable | Mail(entries: seq<Dir>)

  // ── folders ────────────────────────────────────────────────────────────

  predicate Visible(d: Dir) { d.isDir && (d.name == "" || (d.name[0] != '_' && d.name[0] != '.')) }

  function InsertDir(d: Dir, ds: seq<Dir>): (r: seq<Dir>)
    ensures |r| == |ds| + 1 && forall x :: x in r <==> x == d || x in ds
  {
    if ds == [] then [d] else if Order.Before(ds[0].name, d.name) then [ds[0]] + InsertDir(d, ds[1..]) else [d] + ds
  }

  /** `read_folder_dirs` */
  function FolderDirs(entries: seq<Dir>): (r: seq<Dir>)
    ensures forall d :: d in r <==> d in entries && Visible(d)
  {
    if entries == [] then []
    else if Visible(entries[0]) then InsertDir(entries[0], FolderDirs(entries[1..]))
    else FolderDirs(entries[1..])
  }

  predicate SortedDirs(ds: seq<Dir>) {
    forall i, j :: 0 <= i < j < |ds| ==> Order.Before(ds[i].name, ds[j].name)
  }

  /** Names are unique within a directory. */
  predicate DistinctNames(ds: seq<Dir>) {
    forall i, j :: 0 <= i < j < |ds| ==> ds[i].name != ds[j].name
  }

  lemma {:induction false} InsertDirSorted(d: Dir, ds: seq<Dir>)
    requires SortedDirs(ds) && forall x <- ds :: x.name != d.name
    ensures SortedDirs(InsertDir(d, ds))
  {
    if ds != [] {
      assert ds[0] in ds;
      Order.BeforeTotal(ds[0].name, d.name);
      if Order.Before(ds[0].name, d.name) {
        InsertDirSorted(d, ds[1..]);
        var rest := InsertDir(d, ds[1..]);
        forall j | 0 <= j < |rest| ensures Order.Before(ds[0].name, rest[j].name) {
          assert rest[j] in rest;
          assert forall x <- ds[1..] :: Order.Before(ds[0].name, x.name);
        }
      } else {
        forall j | 0 <= j < |ds| ensures Order.Before(d.name, ds[j].name) {
          if j > 0 { Order.BeforeTransitive(d.name, ds[0].name, ds[j].name); }
        }
      }
    }
  }

  /** The folders are walked in the order of their names. */
  lemma {:induction false} FoldersSorted(entries: seq<Dir>)
    requires DistinctNames(entries)
    ensures SortedDirs(FolderDirs(entries))
  {
    if entries != [] {
      FoldersSorted(entries[1..]);
      if Visible(entries[0]) {
        forall x | x in FolderDirs(entries[1..]) ensures x.name != entries[0].name {
          assert x in entries[1..];
        }
        InsertDirSorted(entries[0], FolderDirs(entries[1..]));
      }
    }
  }

  // ── files ──────────────────────────────────────────────────────────────

  datatype Placed = Placed(dir: string, file: File)

  function EmlFile(dir: string): Entry -> Option<Placed> {
    (e: Entry) => match e case Eml(f) => Some(Placed(dir, f)) case _ => None
  }

  /** The `.eml` files of one folder; none when it cannot be listed. */
  function FilesOf(d: Dir): seq<Placed> {
    if d.listing.None? then [] else FilterMap(d.listing.value, EmlFile(d.name))
  }

  function FilesIn(ds: seq<Dir>): seq<Placed> { FlatMap(ds, FilesOf) }

  predicate DistinctIds(files: seq<Placed>) {
    forall i, j :: 0 <= i < j < |files| ==> files[i].file.id != files[j].file.id
  }

  function Ids(files: seq<Placed>): set<string> { set x | x in files :: x.file.id }

  // ── loading ────────────────────────────────────────────────────────────

  datatype Opts = Opts(force: bool, commitBatch: nat, maxEmlBytes: nat)

  const INCREMENTAL := Opts(false, 200, 50 * 1024 * 1024)

  /** What `parse_eml` takes from the bytes and the fallback date. */
  datatype Parsed = Parsed(
    messageId: Option<string>, fromAddr: Option<string>, fromName: Option<string>, toAddrs: Option<string>,
    ccAddrs: Option<string>, subject: Option<string>, body: Option<string>, dateUnix: Option<int>, hasAttach: bool)

  type Parser = (string, Option<string>) -> Option<Parsed>

  function RowOf(dir: string, id: string, m: Meta, raw: string, p: Parsed): (r: MessageRow)
    requires m.Good?
    ensures r.canonicalId == id
  {
    MessageRow(id, UnwrapOr(m.folderPath, dir), UnwrapOr(m.id, ""), p.messageId, p.fromAddr, p.fromName, p.toAddrs,
               p.ccAddrs,
               p.subject, p.body, p.dateUnix, Some(UnwrapOr(m.size, |raw|)), m.flags, p.hasAttach)
  }

  /** The row of a file, or None for any of the errors the rebuild counts. */
  function Load(x: Placed, maxEmlBytes: nat, parse: Parser): (r: Option<MessageRow>)
    ensures r.Some? ==> r.value.canonicalId == x.file.id
  {
    var f := x.file;
    if f.size.None? || f.size.value > maxEmlBytes then None
    else if !f.meta.Good? || f.raw.None? then None
    else match parse(f.raw.value, f.meta.internalDate)
      case None => None
      case Some(p) => Some(RowOf(x.dir, f.id, f.meta, f.raw.value, p))
  }
}
