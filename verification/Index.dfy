/** The search index as a state machine: the `messages` table, the FTS sidecar
    its triggers keep, and the open transaction a crash discards. */
module Index {
  import opened Seqs
  import opened Messages
  import Like

  // ── the table and the sidecar ──────────────────────────────────────────

  datatype Stored = Stored(rowid: nat, row: MessageRow, indexedAt: int)

  datatype FtsColumn = FtsSubject | FtsFromName | FtsToAddrs | FtsBody

  datatype Posting = Posting(rowid: nat, column: FtsColumn, token: string)

  /** FTS5's tokenizer. */
  type Tokenizer = string -> seq<string>

  function ColumnPostings(rowid: nat, c: FtsColumn, text: Option<string>, tk: Tokenizer): multiset<Posting> {
    if text.None? then multiset{} else multiset(Map(tk(text.value), t => Posting(rowid, c, t)))
  }

  /** What one row contributes to the sidecar. */
  function Postings(s: Stored, tk: Tokenizer): multiset<Posting> {
    ColumnPostings(s.rowid, FtsSubject, s.row.subject, tk) + ColumnPostings(s.rowid, FtsFromName, s.row.fromName, tk)
    + ColumnPostings(s.rowid, FtsToAddrs, s.row.toAddrs, tk) + ColumnPostings(s.rowid, FtsBody, s.row.body, tk)
  }

  datatype Db = Db(rows: map<string, Stored>, fts: multiset<Posting>)

  function TextOf(row: MessageRow, c: FtsColumn): Option<string> {
    match c
    case FtsSubject => row.subject
    case FtsFromName => row.fromName
    case FtsToAddrs => row.toAddrs
    case FtsBody => row.body
  }

  predicate Says(text: Option<string>, token: string, tk: Tokenizer) { text.Some? && token in tk(text.value) }

  /** A row mentions a token in its subject, sender name, recipients or body. */
  predicate Mentions(row: MessageRow, token: string, tk: Tokenizer) {
    Says(row.subject, token, tk) || Says(row.fromName, token, tk) || Says(row.toAddrs, token, tk)
    || Says(row.body, token, tk)
  }

  // ── sums over sets of rows ─────────────────────────────────────────────

  ghost function Sum(rows: map<string, Stored>, ids: set<string>, tk: Tokenizer): multiset<Posting>
    requires ids <= rows.Keys
    decreases |ids|
  {
    if ids == {} then multiset{}
    else
      var id :| id in ids;
      Postings(rows[id], tk) + Sum(rows, ids - {id}, tk)
  }

  lemma SumNone(rows: map<string, Stored>, tk: Tokenizer)
    ensures Sum(rows, {}, tk) == multiset{}
  {}

  /** Any row may be taken out of the sum first. */
  lemma {:induction false} SumRemove(rows: map<string, Stored>, ids: set<string>, x: string, tk: Tokenizer)
    requires ids <= rows.Keys && x in ids
    ensures Sum(rows, ids, tk) == Postings(rows[x], tk) + Sum(rows, ids - {x}, tk)
    decreases |ids|
  {
    var id :| id in ids && Sum(rows, ids, tk) == Postings(rows[id], tk) + Sum(rows, ids - {id}, tk);
    if id != x {
      SumRemove(rows, ids - {id}, x, tk);
      SumRemove(rows, ids - {x}, id, tk);
      assert ids - {id} - {x} == ids - {x} - {id};
    }
  }

  /** The sum depends on the rows it ranges over alone. */
  lemma {:induction false} SumFrame(a: map<string, Stored>, b: map<string, Stored>, ids: set<string>, tk: Tokenizer)
    requires ids <= a.Keys && ids <= b.Keys && forall id <- ids :: a[id] == b[id]
    ensures Sum(a, ids, tk) == Sum(b, ids, tk)
    decreases |ids|
  {
    if ids != {} {
      var id :| id in ids;
      SumRemove(a, ids, id, tk);
      SumRemove(b, ids, id, tk);
      SumFrame(a, b, ids - {id}, tk);
    }
  }

  lemma {:induction false} SumUnion(rows: map<string, Stored>, a: set<string>, b: set<string>, tk: Tokenizer)
    requires a + b <= rows.Keys && a !! b
    ensures Sum(rows, a + b, tk) == Sum(rows, a, tk) + Sum(rows, b, tk)
    decreases |a|
  {
    hide Postings;
    if a == {} {
      assert a + b == b;
    } else {
      var id :| id in a;
      SumRemove(rows, a + b, id, tk);
      SumRemove(rows, a, id, tk);
      SumUnion(rows, a - {id}, b, tk);
      assert a + b - {id} == (a - {id}) + b;
    }
  }

  lemma {:induction false} SumMembers(rows: map<string, Stored>, ids: set<string>, p: Posting, tk: Tokenizer)
    requires ids <= rows.Keys
    ensures p in Sum(rows, ids, tk) <==> exists id :: id in ids && p in Postings(rows[id], tk)
    decreases |ids|
  {
    if ids != {} {
      var id :| id in ids;
      SumRemove(rows, ids, id, tk);
      SumMembers(rows, ids - {id}, p, tk);
      assert forall x :: x in ids <==> x == id || x in ids - {id};
    }
  }

  // ── the invariant ──────────────────────────────────────────────────────

  predicate DistinctRowids(rows: map<string, Stored>) {
    forall a, b :: a in rows && b in rows && a != b ==> rows[a].rowid != rows[b].rowid
  }

  predicate Keyed(rows: map<string, Stored>) { forall id :: id in rows ==> rows[id].row.canonicalId == id }

  /** The posting multiset is the sum of each row's tokens. */
  ghost predicate Synced(db: Db, tk: Tokenizer) {
    && DistinctRowids(db.rows)
    && Keyed(db.rows)
    && db.fts == Sum(db.rows, db.rows.Keys, tk)
  }

  // ── rowids ─────────────────────────────────────────────────────────────

  function Rowids(rows: map<string, Stored>): set<nat> { set id | id in rows :: rows[id].rowid }

  predicate IsMax(s: set<nat>, m: nat) { m in s && forall y <- s :: y <= m }

  lemma OneMax(s: set<nat>)
    ensures forall a: nat, b: nat :: IsMax(s, a) && IsMax(s, b) ==> a == b
  {}

  lemma {:induction false} HasMax(s: set<nat>)
    requires s != {}
    ensures exists m: nat :: IsMax(s, m)
    decreases |s|
  {
    var x :| x in s;
    var rest := s - {x};
    assert s == {x} + rest;
    if rest == {} {
      assert IsMax(s, x);
    } else {
      HasMax(rest);
      var m: nat :| IsMax(rest, m);
      assert IsMax(s, if m < x then x else m);
    }
  }

  /** SQLite gives a new row the largest rowid plus one. */
  function NextRowid(rows: map<string, Stored>): (n: nat)
    ensures n !in Rowids(rows)
  {
    var s := Rowids(rows);
    if s == {} then 1
    else
      HasMax(s);
      OneMax(s);
      var m: nat :| IsMax(s, m);
      m + 1
  }

  // ── steps ──────────────────────────────────────────────────────────────

  /** The statements the index runs. A DELETE names the rows it removes. */
  datatype Op = Begin | Commit | Upsert(row: MessageRow, at: int) | DeleteRows(ids: set<string>)

  /** `saved` is what a crash falls back to while a transaction is open. */
  datatype State = State(db: Db, saved: Option<Db>)

  function StoredFor(rows: map<string, Stored>, row: MessageRow, at: int): Stored {
    Stored(if row.canonicalId in rows then rows[row.canonicalId].rowid else NextRowid(rows), row, at)
  }

  function UpsertDb(db: Db, row: MessageRow, at: int, tk: Tokenizer): Db {
    var id, now := row.canonicalId, StoredFor(db.rows, row, at);
    Db(db.rows[id := now],
       (if id in db.rows then db.fts - Postings(db.rows[id], tk) else db.fts) + Postings(now, tk))
  }

  ghost function DeleteDb(db: Db, ids: set<string>, tk: Tokenizer): Db {
    Db(db.rows - ids, db.fts - Sum(db.rows, ids * db.rows.Keys, tk))
  }

  /** BEGIN inside a transaction is refused and changes nothing. */
  ghost function Step(s: State, op: Op, tk: Tokenizer): State {
    match op
    case Begin => if s.saved.None? then State(s.db, Some(s.db)) else s
    case Commit => State(s.db, None)
    case Upsert(row, at) => s.(db := UpsertDb(s.db, row, at, tk))
    case DeleteRows(ids) => s.(db := DeleteDb(s.db, ids, tk))
  }

  ghost function Run(s: State, ops: seq<Op>, tk: Tokenizer): State
    decreases |ops|
  {
    if ops == [] then s else Step(Run(s, ops[..|ops| - 1], tk), ops[|ops| - 1], tk)
  }

  /** The process dies: the open transaction is gone. */
  function Crash(s: State): State { State(if s.saved.Some? then s.saved.value else s.db, None) }

  lemma RunSnoc(s: State, ops: seq<Op>, op: Op, tk: Tokenizer)
    ensures Run(s, ops + [op], tk) == Step(Run(s, ops, tk), op, tk)
  {
    assert (ops + [op])[..|ops|] == ops;
  }

  lemma {:induction false} RunConcat(s: State, a: seq<Op>, b: seq<Op>, tk: Tokenizer)
    ensures Run(s, a + b, tk) == Run(Run(s, a, tk), b, tk)
    decreases |b|
  {
    if b == [] {
      assert a + b == a;
    } else {
      var k := |b| - 1;
      assert a + b == (a + b[..k]) + [b[k]];
      RunSnoc(s, a + b[..k], b[k], tk);
      RunConcat(s, a, b[..k], tk);
    }
  }

  // ── every step keeps the sidecar in step ───────────────────────────────

  lemma UpsertSynced(db: Db, row: MessageRow, at: int, tk: Tokenizer)
    requires Synced(db, tk)
    ensures Synced(UpsertDb(db, row, at, tk), tk)
  {
    hide Sum, Postings, StoredFor, DistinctRowids;
    UpsertRowids(db, row, at, tk);
    assert UpsertDb(db, row, at, tk).rows.Keys == db.rows.Keys + {row.canonicalId};
    UpsertKeyed(db.rows, row, at);
    SumUpdate(db.rows, row.canonicalId, StoredFor(db.rows, row, at), tk);
  }

  lemma UpsertKeyed(rows: map<string, Stored>, row: MessageRow, at: int)
    requires Keyed(rows)
    ensures Keyed(rows[row.canonicalId := StoredFor(rows, row, at)])
  {}

  /** Writing one row exchanges its postings in the sum. */
  lemma SumUpdate(rows: map<string, Stored>, id: string, now: Stored, tk: Tokenizer)
    ensures Sum(rows[id := now], rows.Keys + {id}, tk) ==
            (if id in rows then Sum(rows, rows.Keys, tk) - Postings(rows[id], tk) else Sum(rows, rows.Keys, tk))
            + Postings(now, tk)
  {
    hide Sum, Postings;
    var others := rows.Keys - {id};
    SumRemove(rows[id := now], rows.Keys + {id}, id, tk);
    assert rows.Keys + {id} - {id} == others;
    SumFrame(rows, rows[id := now], others, tk);
    if id in rows {
      SumRemove(rows, rows.Keys, id, tk);
    } else {
      assert others == rows.Keys;
    }
  }

  lemma UpsertRowids(db: Db, row: MessageRow, at: int, tk: Tokenizer)
    requires DistinctRowids(db.rows)
    ensures DistinctRowids(UpsertDb(db, row, at, tk).rows)
  {
    hide Postings, IsMax;
    assert forall a :: a in db.rows ==> db.rows[a].rowid in Rowids(db.rows);
  }

  lemma DeleteSynced(db: Db, ids: set<string>, tk: Tokenizer)
    requires Synced(db, tk)
    ensures Synced(DeleteDb(db, ids, tk), tk)
  {
    var out, gone := DeleteDb(db, ids, tk), ids * db.rows.Keys;
    assert out.rows.Keys == db.rows.Keys - gone;
    assert gone + out.rows.Keys == db.rows.Keys;
    SumUnion(db.rows, gone, out.rows.Keys, tk);
    SumFrame(db.rows, out.rows, out.rows.Keys, tk);
  }

  ghost predicate Sound(s: State, tk: Tokenizer) {
    Synced(s.db, tk) && (s.saved.Some? ==> Synced(s.saved.value, tk))
  }

  lemma StepSound(s: State, op: Op, tk: Tokenizer)
    requires Sound(s, tk)
    ensures Sound(Step(s, op, tk), tk)
  {
    match op
    case Upsert(row, at) => UpsertSynced(s.db, row, at, tk);
    case DeleteRows(ids) => DeleteSynced(s.db, ids, tk);
    case _ =>
  }

  /** After any run of statements, and after a crash anywhere in it, the postings
      are the sum of the rows' tokens. */
  lemma {:induction false} SidecarAlwaysAgrees(s: State, ops: seq<Op>, tk: Tokenizer)
    requires Sound(s, tk)
    ensures Sound(Run(s, ops, tk), tk)
    ensures Synced(Crash(Run(s, ops, tk)).db, tk)
    decreases |ops|
  {
    if ops != [] {
      SidecarAlwaysAgrees(s, ops[..|ops| - 1], tk);
      StepSound(Run(s, ops[..|ops| - 1], tk), ops[|ops| - 1], tk);
    }
  }

  /** `SELECT canonical_id … WHERE rowid IN (SELECT rowid FROM messages_fts …)`
      for one token. */
  function Lookup(db: Db, token: string): set<string> {
    var rowids := set p | p in db.fts && p.token == token :: p.rowid;
    set id | id in db.rows && db.rows[id].rowid in rowids
  }

  lemma PostingIn(s: Stored, p: Posting, tk: Tokenizer)
    ensures p in Postings(s, tk) <==>
      p.rowid == s.rowid && TextOf(s.row, p.column).Some? && p.token in tk(TextOf(s.row, p.column).value)
  {
    ColumnPosting(s.rowid, FtsSubject, s.row.subject, p, tk);
    ColumnPosting(s.rowid, FtsFromName, s.row.fromName, p, tk);
    ColumnPosting(s.rowid, FtsToAddrs, s.row.toAddrs, p, tk);
    ColumnPosting(s.rowid, FtsBody, s.row.body, p, tk);
  }

  lemma ColumnPosting(rowid: nat, c: FtsColumn, text: Option<string>, p: Posting, tk: Tokenizer)
    ensures p in ColumnPostings(rowid, c, text, tk) <==>
      p.rowid == rowid && p.column == c && text.Some? && p.token in tk(text.value)
  {
    if text.Some? {
      var all := Map(tk(text.value), t => Posting(rowid, c, t));
      assert p in multiset(all) <==> p in all;
      if p.rowid == rowid && p.column == c && p.token in tk(text.value) {
        var i :| 0 <= i < |tk(text.value)| && tk(text.value)[i] == p.token;
        assert all[i] == p;
      }
    }
  }

  lemma MentionsColumn(row: MessageRow, token: string, tk: Tokenizer)
    ensures Mentions(row, token, tk) <==> exists c: FtsColumn :: Says(TextOf(row, c), token, tk)
  {
    hide Says;
    if Mentions(row, token, tk) {
      var c := if Says(row.subject, token, tk) then FtsSubject
               else if Says(row.fromName, token, tk) then FtsFromName
               else if Says(row.toAddrs, token, tk) then FtsToAddrs else FtsBody;
      assert Says(TextOf(row, c), token, tk);
    }
  }

  /** A token lookup in a synced index equals a scan of every row. */
  lemma LookupIsScan(db: Db, token: string, tk: Tokenizer)
    requires Synced(db, tk)
    ensures Lookup(db, token) == set id | id in db.rows && Mentions(db.rows[id].row, token, tk)
  {
    forall id | id in db.rows ensures id in Lookup(db, token) <==> Mentions(db.rows[id].row, token, tk) {
      if Mentions(db.rows[id].row, token, tk) {
        MentionFound(db, id, token, tk);
      }
      if id in Lookup(db, token) {
        var p :| p in db.fts && p.token == token && p.rowid == db.rows[id].rowid;
        SumMembers(db.rows, db.rows.Keys, p, tk);
        var other :| other in db.rows && p in Postings(db.rows[other], tk);
        PostingIn(db.rows[other], p, tk);
        assert other == id && Says(TextOf(db.rows[id].row, p.column), token, tk);
        MentionsColumn(db.rows[id].row, token, tk);
      }
    }
  }

  lemma MentionFound(db: Db, id: string, token: string, tk: Tokenizer)
    requires Synced(db, tk) && id in db.rows && Mentions(db.rows[id].row, token, tk)
    ensures id in Lookup(db, token)
  {
    var row := db.rows[id].row;
    MentionsColumn(row, token, tk);
    var c: FtsColumn :| Says(TextOf(row, c), token, tk);
    var p := Posting(db.rows[id].rowid, c, token);
    PostingIn(db.rows[id], p, tk);
    SumMembers(db.rows, db.rows.Keys, p, tk);
  }

  // ── the class ──────────────────────────────────────────────────────────

  function FolderRows(rows: map<string, Stored>, folder: string): set<string> {
    set id | id in rows && Like.Under(rows[id].row.folder, folder)
  }

  /** The rows of the folder and of its strict descendants. */
  function RowsBelow(rows: map<string, Stored>, folder: string): set<string> {
    set id | id in rows && (rows[id].row.folder == folder || Like.Descendant(rows[id].row.folder, folder))
  }

  /** Whatever the table, `delete_folder` takes the folder and its strict
      descendants and no other, such as a sibling that merely begins with the
      name, exactly when the folder name has no wildcard. */
  lemma FolderRowsExact(folder: string)
    ensures Like.NoWildcards(folder) <==> forall rows :: FolderRows(rows, folder) == RowsBelow(rows, folder)
  {
    Like.UnderExactly(folder);
    if Like.NoWildcards(folder) {
      forall rows: map<string, Stored> ensures FolderRows(rows, folder) == RowsBelow(rows, folder) {
        assert forall id :: id in rows ==>
          (Like.Under(rows[id].row.folder, folder) <==>
           rows[id].row.folder == folder || Like.Descendant(rows[id].row.folder, folder));
      }
    } else {
      Like.OtherFolder(folder);
      var rows := map["x" := OneRow("x", Like.Filled(folder) + "/")];
      assert "x" in FolderRows(rows, folder) && "x" !in RowsBelow(rows, folder);
    }
  }

  function OneRow(id: string, folder: string): Stored {
    Stored(1, MessageRow(id, folder, "", None, None, None, None, None, None, None, None, None, [], false), 0)
  }

  class SearchIndex {
    var rows: map<string, Stored>
    var fts: multiset<Posting>
    var saved: Option<Db>
    const tk: Tokenizer
    /** Every statement run so far. */
    ghost var log: seq<Op>

    ghost function Now(): State
      reads this
    {
      State(Db(rows, fts), saved)
    }

    ghost predicate Valid()
      reads this
    {
      Sound(Now(), tk)
    }

    constructor (tokenizer: Tokenizer)
      ensures Valid() && tk == tokenizer && Now() == State(Db(map[], multiset{}), None) && log == []
    {
      rows, fts, saved, tk, log := map[], multiset{}, None, tokenizer, [];
    }

    method BeginImmediate()
      requires Valid()
      modifies this
      ensures Valid() && Now() == Step(old(Now()), Begin, tk) && log == old(log) + [Begin]
    {
      if saved.None? { saved := Some(Db(rows, fts)); }
      log := log + [Begin];
    }

    method CommitTxn()
      requires Valid()
      modifies this
      ensures Valid() && Now() == Step(old(Now()), Commit, tk) && log == old(log) + [Commit]
    {
      saved := None;
      log := log + [Commit];
    }

    /** Trigger `messages_ai`. */
    method AfterInsert(added: Stored)
      modifies this`fts
      ensures fts == old(fts) + Postings(added, tk)
    {
      fts := fts + Postings(added, tk);
    }

    /** Trigger `messages_ad`. */
    method AfterDelete(was: Stored)
      modifies this`fts
      ensures fts == old(fts) - Postings(was, tk)
    {
      fts := fts - Postings(was, tk);
    }

    /** Trigger `messages_au`. */
    method AfterUpdate(was: Stored, now: Stored)
      modifies this`fts
      ensures fts == old(fts) - Postings(was, tk) + Postings(now, tk)
    {
      fts := fts - Postings(was, tk);
      fts := fts + Postings(now, tk);
    }

    /** `upsert_message_on`: insert, or on conflict update every column and keep
        the rowid. */
    method UpsertMessage(row: MessageRow, at: int)
      requires Valid()
      modifies this
      ensures Valid() && Now() == Step(old(Now()), Op.Upsert(row, at), tk) && log == old(log) + [Op.Upsert(row, at)]
      ensures row.canonicalId in rows && rows[row.canonicalId].row == row && rows[row.canonicalId].indexedAt == at
      ensures row.canonicalId in old(rows) ==> rows[row.canonicalId].rowid == old(rows)[row.canonicalId].rowid
    {
      hide Postings, Sound, NextRowid;
      StepSound(Now(), Op.Upsert(row, at), tk);
      var id := row.canonicalId;
      if id in rows {
        var was := rows[id];
        rows := rows[id := Stored(was.rowid, row, at)];
        AfterUpdate(was, rows[id]);
      } else {
        rows := rows[id := Stored(NextRowid(rows), row, at)];
        AfterInsert(rows[id]);
      }
      log := log + [Op.Upsert(row, at)];
    }

    /** Each row goes and fires its trigger. */
    method DeleteEach(ids: set<string>) returns (n: nat)
      requires ids <= rows.Keys
      modifies this`rows, this`fts
      ensures rows == old(rows) - ids && fts == old(fts) - Sum(old(rows), ids, tk) && n == |ids|
    {
      hide Postings, Sum;
      ghost var before := rows;
      var doomed := ids;
      n := 0;
      SumNone(rows, tk);
      assert ids - doomed == {};
      while doomed != {}
        invariant doomed <= ids && doomed <= rows.Keys && n == |ids| - |doomed|
        invariant rows == before - (ids - doomed)
        invariant fts == old(fts) - Sum(before, ids - doomed, tk)
        decreases |doomed|
      {
        var id :| id in doomed;
        var was := rows[id];
        rows := rows - {id};
        AfterDelete(was);
        assert ids - (doomed - {id}) - {id} == ids - doomed;
        SumRemove(before, ids - (doomed - {id}), id, tk);
        doomed := doomed - {id};
        n := n + 1;
      }
      assert ids - doomed == ids;
    }

    /** One DELETE statement. */
    method DeleteAll(ids: set<string>) returns (n: nat)
      requires Valid() && ids <= rows.Keys
      modifies this
      ensures Valid() && Now() == Step(old(Now()), DeleteRows(ids), tk) && log == old(log) + [DeleteRows(ids)]
      ensures n == |ids|
    {
      hide Postings, Sound, Sum;
      StepSound(Now(), DeleteRows(ids), tk);
      n := DeleteEach(ids);
      assert ids * old(rows).Keys == ids;
      log := log + [DeleteRows(ids)];
    }

    /** A DELETE that finds no row. */
    method DeleteNothing(ids: set<string>)
      requires Valid() && ids !! rows.Keys
      modifies this`log
      ensures Valid() && Now() == Step(old(Now()), DeleteRows(ids), tk) && log == old(log) + [DeleteRows(ids)]
    {
      assert ids * rows.Keys == {} && rows - ids == rows;
      SumNone(rows, tk);
      log := log + [DeleteRows(ids)];
    }

    /** `delete_message` */
    method DeleteMessage(id: string) returns (n: nat)
      requires Valid()
      modifies this
      ensures Valid() && n == (if id in old(rows) then 1 else 0)
      ensures rows == old(rows) - {id} && saved == old(saved)
    {
      hide Postings, Sound, Sum;
      var doomed := if id in rows then {id} else {};
      assert rows - doomed == rows - {id};
      n := DeleteAll(doomed);
    }

    /** `delete_folder` */
    method DeleteFolder(folder: string) returns (n: nat)
      requires Valid()
      modifies this
      ensures Valid() && n == |FolderRows(old(rows), folder)| && saved == old(saved)
      ensures rows == old(rows) - FolderRows(old(rows), folder)
    {
      hide Postings, Sound, Sum;
      n := DeleteAll(FolderRows(rows, folder));
    }
  }
}
