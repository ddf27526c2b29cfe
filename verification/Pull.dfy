/** `pull_calendar`: the tree takes on the events of the remote. */
module Pull {
  import opened Seqs
  import opened Tree

  datatype Calendar = Calendar(id: string, name: string)

  datatype CalendarEvent = CalendarEvent(
    id: string, uid: Option<string>, calendarId: Option<string>, ical: Option<string>, etag: Option<string>,
    updatedAt: Option<string>)

  /** A calendar's directory: `_calendar.json` and `events/`. */
  datatype Node = Node(manifest: Option<Calendar>, files: Files)

  /** What comes from outside: SHA-256, and the order `read_dir` lists names in. */
  datatype Env = Env(hash: string -> string, listing: Files -> seq<string>)

  ghost predicate Lists(env: Env) { forall files: Files, n :: n in env.listing(files) <==> n in files }

  datatype Summary = Summary(added: nat, updated: nat, deleted: nat)

  function OrEmpty(o: Option<string>): string { if o.Some? then o.value else "" }

  /** `event_key` */
  function Key(e: CalendarEvent): string { FilenameSafe(if e.uid.Some? then e.uid.value else e.id) }

  function Body(e: CalendarEvent): string { OrEmpty(e.ical) }

  /** `calendar_dir`, below `calendars/` */
  function DirName(c: Calendar): string { FilenameSafe(c.id) }

  function MetaOf(e: CalendarEvent, env: Env): EventMeta {
    EventMeta(e.id, e.uid, e.calendarId, Some(env.hash(Body(e))), e.etag, e.updatedAt)
  }

  /** The diff: by etag where both sides have one, else by content hash. */
  predicate Changed(prev: Option<EventMeta>, e: CalendarEvent, env: Env) {
    match prev
    case None => true
    case Some(p) =>
      if e.etag.Some? && p.etag.Some? then e.etag.value != p.etag.value
      else p.contentSha256 != Some(env.hash(Body(e)))
  }

  function Find<V>(m: map<string, V>, k: string): Option<V> { if k in m then Some(m[k]) else None }

  // ── one calendar ───────────────────────────────────────────────────────

  datatype Work = Work(files: Files, sum: Summary)

  function OnEvent(w: Work, e: CalendarEvent, local: map<string, EventMeta>, env: Env): Work {
    var prev := Find(local, Key(e));
    if !Changed(prev, e, env) then w
    else Work(Put(w.files, Key(e), Body(e), MetaOf(e, env)),
              if prev.Some? then w.sum.(updated := w.sum.updated + 1) else w.sum.(added := w.sum.added + 1))
  }

  function OnEvents(w: Work, events: seq<CalendarEvent>, local: map<string, EventMeta>, env: Env): Work
    decreases |events|
  {
    if events == [] then w else OnEvents(OnEvent(w, events[0], local, env), events[1..], local, env)
  }

  function Keys(events: seq<CalendarEvent>): set<string> { set e | e in events :: Key(e) }

  function Deletions(w: Work, stale: set<string>): Work {
    Work(Without(w.files, stale), w.sum.(deleted := w.sum.deleted + |stale|))
  }

  /** One calendar's directory; None when a local meta file does not parse. */
  function PullOne(files: Files, events: seq<CalendarEvent>, sum: Summary, env: Env): Option<Work> {
    var local := ReadMetas(files, env.listing(files));
    if local.None? then None
    else Some(Deletions(OnEvents(Work(files, sum), events, local.value, env), local.value.Keys - Keys(events)))
  }

  // ── all calendars ──────────────────────────────────────────────────────

  predicate In(e: CalendarEvent, calendar: string) { OrEmpty(e.calendarId) == calendar }

  function EventsOf(events: seq<CalendarEvent>, calendar: string): seq<CalendarEvent> {
    if events == [] then []
    else if In(events[0], calendar) then [events[0]] + EventsOf(events[1..], calendar)
    else EventsOf(events[1..], calendar)
  }

  /** `remote_by_cal.remove(&c.id)`: a second listing of a calendar finds nothing. */
  function Drained(events: seq<CalendarEvent>, calendar: string, done: set<string>): seq<CalendarEvent> {
    if calendar in done then [] else EventsOf(events, calendar)
  }

  type CalTree = map<string, Node>

  function NodeAt(tree: CalTree, dir: string): Node { if dir in tree then tree[dir] else Node(None, map[]) }

  function Manifests(tree: CalTree, cals: seq<Calendar>): CalTree
    decreases |cals|
  {
    if cals == [] then tree
    else Manifests(tree[DirName(cals[0]) := NodeAt(tree, DirName(cals[0])).(manifest := Some(cals[0]))], cals[1..])
  }

  datatype Pulled = Pulled(tree: CalTree, sum: Summary, ok: bool)

  function PullAll(p: Pulled, cals: seq<Calendar>, done: set<string>, events: seq<CalendarEvent>, env: Env): Pulled
    decreases |cals|
  {
    if cals == [] then p
    else
      var c := cals[0];
      var node := NodeAt(p.tree, DirName(c));
      var work := PullOne(node.files, Drained(events, c.id, done), p.sum, env);
      if work.None? then p.(ok := false)
      else PullAll(Pulled(p.tree[DirName(c) := node.(files := work.value.files)], work.value.sum, p.ok),
                   cals[1..], done + {c.id}, events, env)
  }

  function Dirs(cals: seq<Calendar>): set<string> { set c | c in cals :: DirName(c) }

  /** `cleanup_removed_calendars` */
  function Cleanup(tree: CalTree, cals: seq<Calendar>): CalTree { map d | d in tree && d in Dirs(cals) :: tree[d] }

  const ZERO := Summary(0, 0, 0)

  /** The whole pull: the tree, the counts, and whether it went through. */
  function PullCalendar(tree: CalTree, cals: seq<Calendar>, events: seq<CalendarEvent>, env: Env): Pulled {
    var p := PullAll(Pulled(Manifests(tree, cals), ZERO, true), cals, {}, events, env);
    if p.ok then p.(tree := Cleanup(p.tree, cals)) else p
  }

  // ── the methods ────────────────────────────────────────────────────────

  /** The working tree of the backup repository. */
  class Repo {
    var tree: CalTree

    constructor ()
      ensures tree == map[]
    {
      tree := map[];
    }

    method WriteManifest(c: Calendar)
      modifies this
      ensures tree == old(tree)[DirName(c) := NodeAt(old(tree), DirName(c)).(manifest := Some(c))]
    {
      var d := DirName(c);
      tree := tree[d := NodeAt(tree, d).(manifest := Some(c))];
    }

    method WriteFile(dir: string, name: string, content: Content)
      modifies this
      ensures tree == old(tree)[dir := NodeAt(old(tree), dir).(files := NodeAt(old(tree), dir).files[name := content])]
    {
      var node := NodeAt(tree, dir);
      tree := tree[dir := node.(files := node.files[name := content])];
    }

    /** `remove_file`; a missing file is ignored. */
    method RemoveFile(dir: string, name: string)
      requires dir in tree
      modifies this
      ensures tree == old(tree)[dir := old(tree)[dir].(files := old(tree)[dir].files - {name})]
    {
      tree := tree[dir := tree[dir].(files := tree[dir].files - {name})];
    }

    /** `remove_dir_all` */
    method RemoveDir(dir: string)
      modifies this
      ensures tree == old(tree) - {dir}
    {
      tree := tree - {dir};
    }
  }

  method ListLocal(repo: Repo, dir: string, env: Env) returns (local: Option<map<string, EventMeta>>)
    ensures local == ReadMetas(NodeAt(repo.tree, dir).files, env.listing(NodeAt(repo.tree, dir).files))
  {
    var files := NodeAt(repo.tree, dir).files;
    var names := env.listing(files);
    var found: map<string, EventMeta> := map[];
    var i := 0;
    while i < |names|
      invariant 0 <= i <= |names| && ReadMetas(files, names[..i]) == Some(found)
    {
      var name := names[i];
      assert names[..i + 1][..i] == names[..i];
      if EndsWith(name, META) && name in files {
        match files[name]
        case MetaJson(m) => found := found[Stem(name) := m];
        case Text(_) =>
          Unparsable(files, names, i + 1);
          return None;
      }
      i := i + 1;
    }
    assert names[..i] == names;
    local := Some(found);
  }

  /** Once a meta file fails to parse the rest does not matter. */
  lemma {:induction false} Unparsable(files: Files, names: seq<string>, i: nat)
    requires i <= |names| && ReadMetas(files, names[..i]).None?
    ensures ReadMetas(files, names).None?
    decreases |names|
  {
    if i == |names| {
      assert names[..i] == names;
    } else {
      assert names[..|names| - 1][..i] == names[..i];
      Unparsable(files, names[..|names| - 1], i);
    }
  }

  /** One event: compare, write both files, count. */
  method StoreEvent(repo: Repo, dir: string, e: CalendarEvent, local: map<string, EventMeta>, env: Env, sum: Summary)
    returns (sum': Summary)
    requires dir in repo.tree
    modifies repo
    ensures var w := OnEvent(Work(old(repo.tree)[dir].files, sum), e, local, env);
      repo.tree == old(repo.tree)[dir := old(repo.tree)[dir].(files := w.files)] && sum' == w.sum
  {
    sum' := sum;
    var key, ical := Key(e), Body(e);
    var contentHash := env.hash(ical);
    var prev := Find(local, key);
    var changed := match prev
      case None => true
      case Some(p) =>
        if e.etag.Some? && p.etag.Some? then e.etag.value != p.etag.value else p.contentSha256 != Some(contentHash);
    if changed {
      repo.WriteFile(dir, IcsName(key), Text(ical));
      var meta := EventMeta(e.id, e.uid, e.calendarId, Some(contentHash), e.etag, e.updatedAt);
      repo.WriteFile(dir, MetaName(key), MetaJson(meta));
      if prev.Some? { sum' := sum'.(updated := sum'.updated + 1); } else { sum' := sum'.(added := sum'.added + 1); }
    } else {
      assert repo.tree == old(repo.tree)[dir := old(repo.tree)[dir].(files := old(repo.tree)[dir].files)];
    }
  }

  /** The deletions within a calendar, in any order. */
  method RemoveStale(repo: Repo, dir: string, stale: set<string>, sum: Summary) returns (sum': Summary)
    requires dir in repo.tree
    modifies repo
    ensures repo.tree == old(repo.tree)[dir := old(repo.tree)[dir].(files := Without(old(repo.tree)[dir].files, stale))]
    ensures sum' == sum.(deleted := sum.deleted + |stale|)
  {
    hide IcsName, MetaName, KeyNames;
    sum' := sum;
    ghost var before := repo.tree;
    ghost var files := before[dir].files;
    var rest := stale;
    WithoutNone(files);
    assert stale - rest == {};
    while rest != {}
      invariant rest <= stale && dir in repo.tree
      invariant files == Without(before[dir].files, stale - rest)
      invariant repo.tree == before[dir := before[dir].(files := files)]
      invariant sum' == sum.(deleted := sum.deleted + |stale| - |rest|)
      decreases |rest|
    {
      var key :| key in rest;
      WithoutOneMore(before[dir].files, stale - rest, key);
      assert stale - (rest - {key}) == stale - rest + {key};
      rest := rest - {key};
      repo.RemoveFile(dir, IcsName(key));
      repo.RemoveFile(dir, MetaName(key));
      files := files - {IcsName(key)} - {MetaName(key)};
      sum' := sum'.(deleted := sum'.deleted + 1);
    }
    assert stale - rest == stale;
  }

  lemma WithoutNone(files: Files)
    ensures Without(files, {}) == files
  {
    assert KeyNames({}) == {};
  }

  lemma WithoutOneMore(files: Files, gone: set<string>, key: string)
    ensures Without(files, gone + {key}) == Without(files, gone) - {IcsName(key)} - {MetaName(key)}
  {
    hide IcsName, MetaName;
    KeyNamesPlus(gone, key);
  }

  method StoreEvents(repo: Repo, dir: string, events: seq<CalendarEvent>, local: map<string, EventMeta>, env: Env,
                     sum: Summary)
    returns (sum': Summary)
    requires dir in repo.tree
    modifies repo
    ensures var w := OnEvents(Work(old(repo.tree)[dir].files, sum), events, local, env);
      repo.tree == old(repo.tree)[dir := old(repo.tree)[dir].(files := w.files)] && sum' == w.sum
  {
    hide OnEvent;
    ghost var before := repo.tree;
    ghost var w := Work(before[dir].files, sum);
    sum' := sum;
    var rest := events;
    while rest != []
      invariant dir in repo.tree
      invariant repo.tree == before[dir := before[dir].(files := w.files)] && sum' == w.sum
      invariant OnEvents(w, rest, local, env) == OnEvents(Work(before[dir].files, sum), events, local, env)
      decreases |rest|
    {
      sum' := StoreEvent(repo, dir, rest[0], local, env, sum');
      w := OnEvent(w, rest[0], local, env);
      rest := rest[1..];
    }
  }

  method PullOneCalendar(repo: Repo, dir: string, events: seq<CalendarEvent>, sum: Summary, env: Env)
    returns (ok: bool, sum': Summary)
    requires dir in repo.tree
    modifies repo
    ensures var w := PullOne(old(repo.tree)[dir].files, events, sum, env);
      && ok == w.Some?
      && (ok ==> sum' == w.value.sum
                 && repo.tree == old(repo.tree)[dir := old(repo.tree)[dir].(files := w.value.files)])
      && (!ok ==> repo.tree == old(repo.tree) && sum' == sum)
  {
    hide ReadMetas, Without, OnEvents, Keys;
    var local := ListLocal(repo, dir, env);
    if local.None? { return false, sum; }
    sum' := StoreEvents(repo, dir, events, local.value, env, sum);
    sum' := RemoveStale(repo, dir, local.value.Keys - Keys(events), sum');
    ok := true;
  }

  /** None is the error of a local meta file that does not parse. */
  method RunPull(repo: Repo, cals: seq<Calendar>, events: seq<CalendarEvent>, env: Env)
    returns (result: Option<Summary>)
    modifies repo
    ensures var p := PullCalendar(old(repo.tree), cals, events, env);
      repo.tree == p.tree && result == if p.ok then Some(p.sum) else None
  {
    hide PullOne;
    ghost var start := repo.tree;
    var rest := cals;
    while rest != []
      invariant Manifests(repo.tree, rest) == Manifests(start, cals)
      decreases |rest|
    {
      repo.WriteManifest(rest[0]);
      rest := rest[1..];
    }
    ManifestsThere(start, cals);
    rest := cals;
    var done: set<string>, sum := {}, ZERO;
    while rest != []
      invariant Dirs(cals) <= repo.tree.Keys && forall c <- rest :: c in cals
      invariant PullAll(Pulled(repo.tree, sum, true), rest, done, events, env)
             == PullAll(Pulled(Manifests(start, cals), ZERO, true), cals, {}, events, env)
      decreases |rest|
    {
      var c := rest[0];
      assert DirName(c) in Dirs(cals);
      var ok: bool;
      ok, sum := PullOneCalendar(repo, DirName(c), Drained(events, c.id, done), sum, env);
      if !ok { return None; }
      done := done + {c.id};
      rest := rest[1..];
    }
    CleanDirs(repo, Dirs(cals));
    result := Some(sum);
  }

  lemma {:induction false} ManifestsThere(tree: CalTree, cals: seq<Calendar>)
    ensures Manifests(tree, cals).Keys == tree.Keys + Dirs(cals)
    decreases |cals|
  {
    if cals == [] {
      assert Dirs(cals) == {};
    } else {
      var d := DirName(cals[0]);
      ManifestsThere(tree[d := NodeAt(tree, d).(manifest := Some(cals[0]))], cals[1..]);
      assert forall c :: c in cals <==> c == cals[0] || c in cals[1..];
    }
  }

  method CleanDirs(repo: Repo, keep: set<string>)
    modifies repo
    ensures repo.tree == map d | d in old(repo.tree) && d in keep :: old(repo.tree)[d]
  {
    ghost var before := repo.tree;
    var rest := repo.tree.Keys;
    while rest != {}
      invariant rest <= repo.tree.Keys <= before.Keys
      invariant forall d :: d in repo.tree <==> d in before && (d in rest || d in keep)
      invariant forall d :: d in repo.tree ==> repo.tree[d] == before[d]
      decreases |rest|
    {
      var d :| d in rest;
      rest := rest - {d};
      if d !in keep { repo.RemoveDir(d); }
    }
  }
}
