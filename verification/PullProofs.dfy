/** After a pull the tree mirrors the remote, the counts balance, and a second
    pull of the same remote does nothing. */
module PullProofs {
  import opened Seqs
  import opened Tree
  import opened Pull

  // ── one calendar, by event key ─────────────────────────────────────────

  type Entries = map<string, Entry>

  function OnEntries(m: Entries, events: seq<CalendarEvent>, local: map<string, EventMeta>, env: Env): Entries
    decreases |events|
  {
    if events == [] then m
    else
      var e := events[0];
      var next := if Changed(Find(local, Key(e)), e, env) then m[Key(e) := Entry(Body(e), MetaOf(e, env))] else m;
      OnEntries(next, events[1..], local, env)
  }

  /** The events a calendar's directory stands for after a pull. */
  function After(m: Entries, events: seq<CalendarEvent>, env: Env): Entries {
    OnEntries(m, events, Metas(m), env) - (m.Keys - Keys(events))
  }

  lemma {:induction false} OnEventsRender(w: Work, m: Entries, events: seq<CalendarEvent>,
                                          local: map<string, EventMeta>, env: Env)
    requires Renders(w.files, m)
    ensures Renders(OnEvents(w, events, local, env).files, OnEntries(m, events, local, env))
    decreases |events|
  {
    hide Renders;
    if events != [] {
      var e := events[0];
      PutRenders(w.files, m, Key(e), Body(e), MetaOf(e, env));
      var next := if Changed(Find(local, Key(e)), e, env) then m[Key(e) := Entry(Body(e), MetaOf(e, env))] else m;
      OnEventsRender(OnEvent(w, e, local, env), next, events[1..], local, env);
    }
  }

  predicate DistinctKeys(events: seq<CalendarEvent>) {
    forall i, j :: 0 <= i < j < |events| ==> Key(events[i]) != Key(events[j])
  }

  lemma KeysCons(events: seq<CalendarEvent>)
    requires events != []
    ensures Keys(events) == {Key(events[0])} + Keys(events[1..])
    ensures DistinctKeys(events) ==> Key(events[0]) !in Keys(events[1..]) && DistinctKeys(events[1..])
  {
    assert forall e :: e in events <==> e == events[0] || e in events[1..];
  }

  /** A key without an event keeps its entry. */
  lemma {:induction false} OnEntriesKeeps(m: Entries, events: seq<CalendarEvent>, local: map<string, EventMeta>,
                                          env: Env, k: string)
    requires k !in Keys(events)
    ensures Find(OnEntries(m, events, local, env), k) == Find(m, k)
    decreases |events|
  {
    hide Changed, MetaOf, Key, Keys;
    if events != [] {
      var e := events[0];
      InKeys(events, k);
      var next := if Changed(Find(local, Key(e)), e, env) then m[Key(e) := Entry(Body(e), MetaOf(e, env))] else m;
      OnEntriesKeeps(next, events[1..], local, env, k);
    }
  }

  lemma InKeys(events: seq<CalendarEvent>, k: string)
    requires events != []
    ensures k in Keys(events) <==> k == Key(events[0]) || k in Keys(events[1..])
  {
    KeysCons(events);
  }

  /** The key of a changed event gets its new entry. */
  lemma {:induction false} OnEntriesAt(m: Entries, events: seq<CalendarEvent>, local: map<string, EventMeta>,
                                       env: Env, e: CalendarEvent)
    requires DistinctKeys(events) && e in events
    ensures Find(OnEntries(m, events, local, env), Key(e)) ==
            if Changed(Find(local, Key(e)), e, env) then Some(Entry(Body(e), MetaOf(e, env))) else Find(m, Key(e))
    decreases |events|
  {
    var first, rest := events[0], events[1..];
    KeysCons(events);
    var next := if Changed(Find(local, Key(first)), first, env)
                then m[Key(first) := Entry(Body(first), MetaOf(first, env))] else m;
    if e == first {
      hide Changed, MetaOf, Key, Keys;
      OnEntriesKeeps(next, rest, local, env, Key(e));
    } else {
      assert e in rest && Key(e) in Keys(rest);
      hide Changed, MetaOf, Key, Keys;
      OnEntriesAt(next, rest, local, env, e);
    }
  }

  /** The stored events that have changed. */
  function Updates(events: seq<CalendarEvent>, local: map<string, EventMeta>, env: Env): set<string> {
    set e | e in events && Key(e) in local && Changed(Find(local, Key(e)), e, env) :: Key(e)
  }

  lemma UpdatesCons(events: seq<CalendarEvent>, local: map<string, EventMeta>, env: Env)
    requires events != [] && DistinctKeys(events)
    ensures |Updates(events, local, env)| == |Updates(events[1..], local, env)| + UpdateOf(events[0], local, env)
  {
    hide Key, Changed, DistinctKeys;
    var e, rest := events[0], Updates(events[1..], local, env);
    KeysCons(events);
    assert rest <= Keys(events[1..]);
    assert forall x :: x in events <==> x == e || x in events[1..];
    assert Updates(events, local, env) == if UpdateOf(e, local, env) == 1 then {Key(e)} + rest else rest;
  }

  function UpdateOf(e: CalendarEvent, local: map<string, EventMeta>, env: Env): nat {
    if Key(e) in local && Changed(Find(local, Key(e)), e, env) then 1 else 0
  }

  /** The counts of the event loop. */
  lemma {:induction false} EventCounts(w: Work, events: seq<CalendarEvent>, local: map<string, EventMeta>, env: Env)
    requires DistinctKeys(events)
    ensures var sum := OnEvents(w, events, local, env).sum;
      && sum.added == w.sum.added + |Keys(events) - local.Keys| && sum.deleted == w.sum.deleted
      && sum.updated == w.sum.updated + |Updates(events, local, env)|
    decreases |events|
  {
    hide OnEvent, Key, Keys, DistinctKeys, Updates, UpdateOf;
    if events == [] {
      NoKeys(local, env);
    } else {
      UpdatesCons(events, local, env);
      var e := events[0];
      KeysCons(events);
      OneCount(w, e, local, env);
      EventCounts(OnEvent(w, e, local, env), events[1..], local, env);
      OneMore(Keys(events[1..]), Key(e), local.Keys);
    }
  }

  lemma NoKeys(local: map<string, EventMeta>, env: Env)
    ensures Keys([]) == {} && Updates([], local, env) == {}
  {}

  lemma OneMore(rest: set<string>, k: string, known: set<string>)
    requires k !in rest
    ensures |{k} + rest - known| == |rest - known| + if k in known then 0 else 1
  {
    assert {k} + rest - known == if k in known then rest - known else {k} + (rest - known);
  }

  lemma OneCount(w: Work, e: CalendarEvent, local: map<string, EventMeta>, env: Env)
    ensures var sum := OnEvent(w, e, local, env).sum;
      && sum.added == w.sum.added + (if Key(e) in local then 0 else 1) && sum.deleted == w.sum.deleted
      && sum.updated == w.sum.updated + UpdateOf(e, local, env)
  {}

  // ── what a pulled directory satisfies ──────────────────────────────────

  /** The directory's events are the remote's: same keys, same bodies, and metas
      against which nothing has changed. */
  predicate Mirrors(m: Entries, events: seq<CalendarEvent>, env: Env) {
    && m.Keys == Keys(events)
    && forall e <- events :: Key(e) in m && m[Key(e)].text == Body(e) && !Changed(Some(m[Key(e)].meta), e, env)
  }

  /** Etags and hashes tell the truth: an event found unchanged has the body that
      is stored. */
  predicate Faithful(m: Entries, events: seq<CalendarEvent>, env: Env) {
    forall e <- events :: Key(e) in m && !Changed(Some(m[Key(e)].meta), e, env) ==> m[Key(e)].text == Body(e)
  }

  lemma StoredUnchanged(e: CalendarEvent, env: Env)
    ensures !Changed(Some(MetaOf(e, env)), e, env)
  {}

  lemma AfterMirrors(m: Entries, events: seq<CalendarEvent>, env: Env)
    requires DistinctKeys(events) && Faithful(m, events, env)
    ensures Mirrors(After(m, events, env), events, env)
  {
    hide Changed, MetaOf, Key, OnEntries;
    var put, out := OnEntries(m, events, Metas(m), env), After(m, events, env);
    forall k ensures k in out <==> k in Keys(events) {
      AfterKey(m, events, env, k);
    }
    forall e | e in events
      ensures Key(e) in out && out[Key(e)].text == Body(e) && !Changed(Some(out[Key(e)].meta), e, env)
    {
      OnEntriesAt(m, events, Metas(m), env, e);
      AfterKey(m, events, env, Key(e));
      StoredUnchanged(e, env);
      NewIsChanged(e, env);
      assert Key(e) in Keys(events);
    }
  }

  lemma NewIsChanged(e: CalendarEvent, env: Env)
    ensures Changed(None, e, env)
  {}

  lemma AfterKey(m: Entries, events: seq<CalendarEvent>, env: Env, k: string)
    requires DistinctKeys(events)
    ensures k in After(m, events, env) <==> k in Keys(events)
  {
    hide MetaOf, Key, OnEntries, Changed;
    if k in Keys(events) {
      var e :| e in events && Key(e) == k;
      OnEntriesAt(m, events, Metas(m), env, e);
      NewIsChanged(e, env);
      assert k !in m ==> Find(Metas(m), k) == None;
    } else {
      OnEntriesKeeps(m, events, Metas(m), env, k);
    }
  }

  lemma SetCounts(a: set<string>, b: set<string>)
    ensures |a| + |b - a| == |b| + |a - b|
  {
    assert a == (a - b) + a * b && b == (b - a) + a * b;
  }

  /** One calendar: the pull succeeds, the directory mirrors the remote, the counts
      are of the new, the changed and the vanished keys, and the number of events
      after is the number before plus added less deleted. */
  lemma PullOneMirrors(files: Files, m: Entries, events: seq<CalendarEvent>, sum: Summary, env: Env)
    requires Lists(env) && Renders(files, m) && PlainKeys(m.Keys)
    requires DistinctKeys(events) && Faithful(m, events, env)
    ensures var w := PullOne(files, events, sum, env);
      && w.Some?
      && Renders(w.value.files, After(m, events, env))
      && Mirrors(After(m, events, env), events, env)
      && w.value.sum.added == sum.added + |Keys(events) - m.Keys|
      && w.value.sum.updated == sum.updated + |Updates(events, Metas(m), env)|
      && w.value.sum.deleted == sum.deleted + |m.Keys - Keys(events)|
      && |After(m, events, env)| + (w.value.sum.deleted - sum.deleted) == |m| + (w.value.sum.added - sum.added)
  {
    hide Renders, OnEvents, OnEntries, Mirrors, Faithful, Without, Updates;
    var stale := m.Keys - Keys(events);
    ReadsMetas(files, m, env);
    var put := OnEvents(Work(files, sum), events, Metas(m), env);
    OnEventsRender(Work(files, sum), m, events, Metas(m), env);
    WithoutRenders(put.files, OnEntries(m, events, Metas(m), env), stale);
    EventCounts(Work(files, sum), events, Metas(m), env);
    AfterMirrors(m, events, env);
    MirrorSize(After(m, events, env), events, env);
    SetCounts(Keys(events), m.Keys);
    assert Metas(m).Keys == m.Keys;
    assert |m.Keys| == |m|;
  }

  lemma ReadsMetas(files: Files, m: Entries, env: Env)
    requires Lists(env) && Renders(files, m) && PlainKeys(m.Keys)
    ensures ReadMetas(files, env.listing(files)).Some? && ReadMetas(files, env.listing(files)).value == Metas(m)
  {
    hide Renders, ReadMetas;
    ReadMetasRender(files, m, env.listing(files));
  }

  lemma MirrorSize(m: Entries, events: seq<CalendarEvent>, env: Env)
    requires Mirrors(m, events, env)
    ensures |m| == |Keys(events)|
  {
    assert |m| == |m.Keys|;
  }

  /** Pulling a directory that already mirrors the remote does nothing. */
  lemma NothingToPull(files: Files, m: Entries, events: seq<CalendarEvent>, sum: Summary, env: Env)
    requires Lists(env) && Renders(files, m) && PlainKeys(m.Keys) && Mirrors(m, events, env)
    ensures PullOne(files, events, sum, env) == Some(Work(files, sum))
  {
    hide Renders, Without, Changed;
    ReadsMetas(files, m, env);
    forall e | e in events ensures !Changed(Find(Metas(m), Key(e)), e, env) {
      assert Key(e) in m;
    }
    AllUnchanged(Work(files, sum), events, Metas(m), env);
    WithoutNone(files);
    assert Metas(m).Keys - Keys(events) == {};
  }

  lemma {:induction false} AllUnchanged(w: Work, events: seq<CalendarEvent>, local: map<string, EventMeta>, env: Env)
    requires forall e <- events :: !Changed(Find(local, Key(e)), e, env)
    ensures OnEvents(w, events, local, env) == w
    decreases |events|
  {
    hide Changed;
    if events != [] {
      assert events[0] in events;
      AllUnchanged(w, events[1..], local, env);
    }
  }

  // ── the whole tree ─────────────────────────────────────────────────────

  predicate DistinctDirs(cals: seq<Calendar>) {
    forall i, j :: 0 <= i < j < |cals| ==> DirName(cals[i]) != DirName(cals[j])
  }

  /** What the directories of the listed calendars stand for. */
  type Dirwise = map<string, Entries>

  /** A calendar's directory can be read, and its remote events can be stored. */
  ghost predicate Pullable(files: Files, m: Entries, events: seq<CalendarEvent>, env: Env) {
    && Renders(files, m) && PlainKeys(m.Keys)
    && DistinctKeys(events) && PlainKeys(Keys(events)) && Faithful(m, events, env)
  }

  function FilesAt(tree: CalTree, c: Calendar): Files { NodeAt(tree, DirName(c)).files }

  ghost predicate AllPullable(tree: CalTree, ms: Dirwise, cals: seq<Calendar>, events: seq<CalendarEvent>, env: Env) {
    && DistinctDirs(cals)
    && forall c <- cals :: DirName(c) in ms && Pullable(FilesAt(tree, c), ms[DirName(c)], EventsOf(events, c.id), env)
  }

  /** The directory mirrors the remote. */
  ghost predicate DirMirrors(files: Files, events: seq<CalendarEvent>, env: Env) {
    exists m: Entries :: Renders(files, m) && PlainKeys(m.Keys) && Mirrors(m, events, env)
  }

  /** The tree has exactly the listed calendars, each with its manifest and the
      remote's events. */
  ghost predicate Mirrored(tree: CalTree, cals: seq<Calendar>, events: seq<CalendarEvent>, env: Env) {
    && tree.Keys == Dirs(cals)
    && forall c <- cals ::
      tree[DirName(c)].manifest == Some(c) && DirMirrors(FilesAt(tree, c), EventsOf(events, c.id), env)
  }

  /** Listed calendars that share a directory are one calendar. */
  predicate SameOrApart(cals: seq<Calendar>) {
    forall x <- cals :: forall y <- cals :: DirName(x) == DirName(y) ==> x == y
  }

  lemma {:induction false} ManifestsKeep(tree: CalTree, cals: seq<Calendar>, d: string)
    ensures NodeAt(Manifests(tree, cals), d).files == NodeAt(tree, d).files
    ensures d !in Dirs(cals) ==> NodeAt(Manifests(tree, cals), d) == NodeAt(tree, d)
    ensures SameOrApart(cals) ==>
      forall c <- cals :: DirName(c) == d ==> NodeAt(Manifests(tree, cals), d).manifest == Some(c)
    decreases |cals|
  {
    hide DirName;
    if cals != [] {
      var dir := DirName(cals[0]);
      DirsCons(cals);
      ManifestsKeep(tree[dir := NodeAt(tree, dir).(manifest := Some(cals[0]))], cals[1..], d);
      assert cals[0] in cals && forall c <- cals[1..] :: c in cals;
      assert forall c <- cals :: c == cals[0] || c in cals[1..];
      if d in Dirs(cals[1..]) { var c :| c in cals[1..] && DirName(c) == d; }
    }
  }

  lemma DirsCons(cals: seq<Calendar>)
    requires cals != []
    ensures Dirs(cals) == {DirName(cals[0])} + Dirs(cals[1..])
    ensures DistinctDirs(cals) ==> DirName(cals[0]) !in Dirs(cals[1..]) && DistinctDirs(cals[1..])
  {
    assert forall c :: c in cals <==> c == cals[0] || c in cals[1..];
  }

  /** The events the listed directories stand for, counted. */
  function Total(ms: Dirwise, cals: seq<Calendar>): nat {
    if cals == [] then 0
    else (if DirName(cals[0]) in ms then |ms[DirName(cals[0])]| else 0) + Total(ms, cals[1..])
  }

  /** What the pull makes of each listed calendar. */
  function AfterAll(ms: Dirwise, cals: seq<Calendar>, events: seq<CalendarEvent>, env: Env): Dirwise {
    if cals == [] then map[]
    else
      var d := DirName(cals[0]);
      var m := if d in ms then ms[d] else map[];
      AfterAll(ms, cals[1..], events, env)[d := After(m, EventsOf(events, cals[0].id), env)]
  }

  predicate NoneDone(cals: seq<Calendar>, done: set<string>) { forall c <- cals :: c.id !in done }

  lemma DoneCons(cals: seq<Calendar>, done: set<string>)
    requires cals != [] && NoneDone(cals, done) && DistinctDirs(cals)
    ensures cals[0].id !in done && NoneDone(cals[1..], done + {cals[0].id})
  {
    assert cals[0] in cals;
    forall c | c in cals[1..] ensures c.id != cals[0].id {
      var i :| 0 <= i < |cals[1..]| && cals[1..][i] == c;
      assert DirName(cals[0]) != DirName(cals[i + 1]);
    }
  }

  lemma AfterMirrorKeys(m: Entries, events: seq<CalendarEvent>, env: Env)
    requires Mirrors(After(m, events, env), events, env) && PlainKeys(Keys(events))
    ensures PlainKeys(After(m, events, env).Keys)
  {}

  /** The directory can be read and these events stored in it. */
  ghost predicate PullableDir(files: Files, events: seq<CalendarEvent>, env: Env) {
    exists m: Entries :: Pullable(files, m, events, env)
  }

  ghost predicate Untouched(a: CalTree, b: CalTree, dirs: set<string>) {
    forall d :: d !in dirs ==> NodeAt(b, d) == NodeAt(a, d)
  }

  ghost predicate CalendarDone(a: CalTree, b: CalTree, c: Calendar, events: seq<CalendarEvent>, env: Env) {
    && NodeAt(b, DirName(c)).manifest == NodeAt(a, DirName(c)).manifest
    && DirMirrors(FilesAt(b, c), events, env)
  }

  /** The state after a calendar of the loop for which these events are left. */
  function Next(p: Pulled, c: Calendar, events: seq<CalendarEvent>, env: Env): Pulled {
    var node := NodeAt(p.tree, DirName(c));
    var w := PullOne(node.files, events, p.sum, env);
    if w.None? then p.(ok := false)
    else Pulled(p.tree[DirName(c) := node.(files := w.value.files)], w.value.sum, p.ok)
  }

  lemma NextDone(p: Pulled, c: Calendar, events: seq<CalendarEvent>, env: Env)
    requires Lists(env) && p.ok && PullableDir(FilesAt(p.tree, c), events, env)
    ensures var q := Next(p, c, events, env);
      && q.ok && q.tree.Keys == p.tree.Keys + {DirName(c)}
      && Untouched(p.tree, q.tree, {DirName(c)}) && CalendarDone(p.tree, q.tree, c, events, env)
  {
    hide DirName, PullOne, Renders, Mirrors, After, Faithful, DistinctKeys;
    var m: Entries :| Pullable(FilesAt(p.tree, c), m, events, env);
    PullOneMirrors(FilesAt(p.tree, c), m, events, p.sum, env);
    AfterMirrorKeys(m, events, env);
  }

  lemma PullAllStep(p: Pulled, cals: seq<Calendar>, done: set<string>, events: seq<CalendarEvent>, env: Env)
    requires cals != [] && Next(p, cals[0], Drained(events, cals[0].id, done), env).ok
    ensures PullAll(p, cals, done, events, env)
         == PullAll(Next(p, cals[0], Drained(events, cals[0].id, done), env),
                    cals[1..], done + {cals[0].id}, events, env)
  {
    hide PullOne;
  }

  // ── calendars listed more than once ────────────────────────────────────

  /** The calendar is listed at least twice. */
  predicate Twice(cals: seq<Calendar>, c: Calendar) {
    cals != [] && ((cals[0] == c && c in cals[1..]) || Twice(cals[1..], c))
  }

  lemma {:induction false} TwiceAt(cals: seq<Calendar>, c: Calendar)
    ensures Twice(cals, c) <==> exists i, j :: 0 <= i < j < |cals| && cals[i] == c == cals[j]
    ensures Twice(cals, c) ==> c in cals
  {
    if cals != [] {
      var rest := cals[1..];
      TwiceAt(rest, c);
      if cals[0] == c && c in rest {
        var j :| 0 <= j < |rest| && rest[j] == c;
        assert cals[0] == c == cals[j + 1];
      }
      if i, j :| 0 <= i < j < |rest| && rest[i] == c == rest[j] { assert cals[i + 1] == c == cals[j + 1]; }
      if i, j :| 0 <= i < j < |cals| && cals[i] == c == cals[j] {
        assert rest[j - 1] == c;
        if i > 0 { assert rest[i - 1] == c; }
      }
    }
  }

  /** The events the last listing of a calendar finds. */
  function Left(cals: seq<Calendar>, done: set<string>, c: Calendar, events: seq<CalendarEvent>): seq<CalendarEvent> {
    if c.id in done || Twice(cals, c) then [] else EventsOf(events, c.id)
  }

  ghost predicate AllReadable(tree: CalTree, cals: seq<Calendar>, done: set<string>, events: seq<CalendarEvent>,
                              env: Env)
  {
    forall c <- cals :: PullableDir(FilesAt(tree, c), Drained(events, c.id, done), env)
  }

  /** What the loop over `cals` makes of tree `a`. */
  ghost predicate TreeDone(a: CalTree, q: Pulled, cals: seq<Calendar>, done: set<string>, events: seq<CalendarEvent>,
                           env: Env)
  {
    && q.ok && q.tree.Keys == a.Keys + Dirs(cals) && Untouched(a, q.tree, Dirs(cals))
    && forall c <- cals :: CalendarDone(a, q.tree, c, Left(cals, done, c, events), env)
  }

  /** A directory just pulled can be pulled again with nothing left. */
  lemma MirrorPullable(files: Files, events: seq<CalendarEvent>, env: Env)
    requires DirMirrors(files, events, env)
    ensures PullableDir(files, [], env)
  {
    hide Renders, Mirrors;
    var m: Entries :| Renders(files, m) && PlainKeys(m.Keys) && Mirrors(m, events, env);
    NoKeys(map[], env);
    assert Pullable(files, m, [], env);
  }

  lemma NextReadable(a: CalTree, b: CalTree, cals: seq<Calendar>, done: set<string>, events: seq<CalendarEvent>,
                     env: Env)
    requires cals != [] && SameOrApart(cals) && AllReadable(a, cals, done, events, env)
    requires Untouched(a, b, {DirName(cals[0])})
    requires CalendarDone(a, b, cals[0], Drained(events, cals[0].id, done), env)
    ensures SameOrApart(cals[1..]) && AllReadable(b, cals[1..], done + {cals[0].id}, events, env)
  {
    hide PullableDir, DirMirrors, EventsOf;
    var c := cals[0];
    assert c in cals && forall x <- cals[1..] :: x in cals;
    forall x | x in cals[1..] ensures PullableDir(FilesAt(b, x), Drained(events, x.id, done + {c.id}), env) {
      if x == c {
        MirrorPullable(FilesAt(b, c), Drained(events, c.id, done), env);
      } else {
        assert DirName(x) != DirName(c);
      }
    }
  }

  /** What is done to a calendar from the tree after `c` is done from the tree before it. */
  lemma CarriedBack(a: CalTree, b: CalTree, q: CalTree, c: Calendar, x: Calendar, events: seq<CalendarEvent>, env: Env)
    requires NodeAt(b, DirName(c)).manifest == NodeAt(a, DirName(c)).manifest
    requires Untouched(a, b, {DirName(c)}) && CalendarDone(b, q, x, events, env)
    ensures CalendarDone(a, q, x, events, env)
  {
    hide DirMirrors, NodeAt, DirName;
  }

  lemma DoneChain(a: CalTree, b: CalTree, q: Pulled, cals: seq<Calendar>, done: set<string>, events: seq<CalendarEvent>,
                  env: Env)
    requires cals != [] && SameOrApart(cals) && b.Keys == a.Keys + {DirName(cals[0])}
    requires Untouched(a, b, {DirName(cals[0])})
    requires CalendarDone(a, b, cals[0], Drained(events, cals[0].id, done), env)
    requires TreeDone(b, q, cals[1..], done + {cals[0].id}, events, env)
    ensures TreeDone(a, q, cals, done, events, env)
  {
    hide DirMirrors, Dirs, NodeAt, DirName, Twice, EventsOf;
    var c, rest := cals[0], cals[1..];
    DirsCons(cals);
    assert c in cals;
    forall x | x in cals ensures CalendarDone(a, q.tree, x, Left(cals, done, x, events), env) {
      if x in rest {
        SameLeft(cals, done, x, events);
        CarriedBack(a, b, q.tree, c, x, Left(rest, done + {c.id}, x, events), env);
      } else {
        LeftLast(cals, done, events);
        NotBelow(cals, c);
      }
    }
  }

  lemma LeftLast(cals: seq<Calendar>, done: set<string>, events: seq<CalendarEvent>)
    requires cals != [] && cals[0] !in cals[1..]
    ensures Left(cals, done, cals[0], events) == Drained(events, cals[0].id, done)
  {
    TwiceAt(cals[1..], cals[0]);
  }

  lemma SameLeft(cals: seq<Calendar>, done: set<string>, x: Calendar, events: seq<CalendarEvent>)
    requires cals != [] && SameOrApart(cals) && x in cals[1..]
    ensures Left(cals[1..], done + {cals[0].id}, x, events) == Left(cals, done, x, events)
  {
    hide EventsOf;
    assert cals[0] in cals && x in cals;
    if x.id == cals[0].id { assert DirName(x) == DirName(cals[0]); }
  }

  /** A calendar not listed again keeps its directory to itself. */
  lemma NotBelow(cals: seq<Calendar>, c: Calendar)
    requires cals != [] && SameOrApart(cals) && c == cals[0] && c !in cals[1..]
    ensures DirName(c) !in Dirs(cals[1..])
  {
    hide DirName;
    assert c in cals && forall x <- cals[1..] :: x in cals;
  }

  lemma {:induction false} PullAllTree(p: Pulled, cals: seq<Calendar>, done: set<string>, events: seq<CalendarEvent>,
                                       env: Env)
    requires Lists(env) && p.ok && SameOrApart(cals) && AllReadable(p.tree, cals, done, events, env)
    ensures TreeDone(p.tree, PullAll(p, cals, done, events, env), cals, done, events, env)
    decreases |cals|
  {
    hide DirName, Next, CalendarDone, Untouched, Dirs, PullAll, TreeDone, Drained, SameOrApart;
    if cals == [] {
      NoCalendars(p, done, events, env);
    } else {
      var c, es := cals[0], Drained(events, cals[0].id, done);
      var next := Next(p, c, es, env);
      assert c in cals;
      NextDone(p, c, es, env);
      NextReadable(p.tree, next.tree, cals, done, events, env);
      PullAllStep(p, cals, done, events, env);
      PullAllTree(next, cals[1..], done + {c.id}, events, env);
      DoneChain(p.tree, next.tree, PullAll(p, cals, done, events, env), cals, done, events, env);
    }
  }

  lemma DirsIn(cals: seq<Calendar>, c: Calendar)
    requires c in cals
    ensures DirName(c) in Dirs(cals)
  {}

  lemma NoCalendars(p: Pulled, done: set<string>, events: seq<CalendarEvent>, env: Env)
    ensures PullAll(p, [], done, events, env) == p && Dirs([]) == {}
    ensures p.ok ==> TreeDone(p.tree, p, [], done, events, env)
  {}

  // ── exactly when a pull mirrors the remote ─────────────────────────────

  /** Every two listed entries with one directory are one calendar, and it has no
      remote events. */
  predicate Separable(cals: seq<Calendar>, events: seq<CalendarEvent>) {
    forall i, j :: 0 <= i < j < |cals| && DirName(cals[i]) == DirName(cals[j]) ==>
      cals[i] == cals[j] && EventsOf(events, cals[i].id) == []
  }

  lemma SeparableParts(cals: seq<Calendar>, events: seq<CalendarEvent>)
    ensures Separable(cals, events) <==>
            SameOrApart(cals) && forall c <- cals :: Twice(cals, c) ==> EventsOf(events, c.id) == []
  {
    hide EventsOf, DirName;
    if Separable(cals, events) {
      forall x, y | x in cals && y in cals && DirName(x) == DirName(y) ensures x == y {
        var i :| 0 <= i < |cals| && cals[i] == x;
        var j :| 0 <= j < |cals| && cals[j] == y;
        assert i < j || j < i || i == j;
      }
      forall c | c in cals && Twice(cals, c) ensures EventsOf(events, c.id) == [] { TwiceAt(cals, c); }
    }
    if SameOrApart(cals) && forall c <- cals :: Twice(cals, c) ==> EventsOf(events, c.id) == [] {
      forall i, j | 0 <= i < j < |cals| && DirName(cals[i]) == DirName(cals[j])
        ensures cals[i] == cals[j] && EventsOf(events, cals[i].id) == []
      {
        assert cals[i] in cals && cals[j] in cals;
        TwiceAt(cals, cals[i]);
      }
    }
  }

  lemma ManifestsReadable(tree: CalTree, cals: seq<Calendar>, events: seq<CalendarEvent>, env: Env)
    requires forall c <- cals :: PullableDir(FilesAt(tree, c), EventsOf(events, c.id), env)
    ensures AllReadable(Manifests(tree, cals), cals, {}, events, env)
  {
    hide PullableDir, DirName, EventsOf;
    forall c | c in cals ensures FilesAt(Manifests(tree, cals), c) == FilesAt(tree, c) {
      ManifestsKeep(tree, cals, DirName(c));
    }
  }

  /** After the pull each listed directory has its manifest and mirrors what the
      last listing of its calendar found. */
  lemma PullLeaves(tree: CalTree, cals: seq<Calendar>, events: seq<CalendarEvent>, env: Env)
    requires Lists(env) && SameOrApart(cals)
    requires forall c <- cals :: PullableDir(FilesAt(tree, c), EventsOf(events, c.id), env)
    ensures var p := PullCalendar(tree, cals, events, env);
      && p.ok && p.tree.Keys == Dirs(cals)
      && forall c <- cals :: p.tree[DirName(c)].manifest == Some(c)
           && DirMirrors(FilesAt(p.tree, c), Left(cals, {}, c, events), env)
  {
    hide DirName, PullAll, DirMirrors, PullableDir, Dirs, Left, SameOrApart;
    var start := Pulled(Manifests(tree, cals), ZERO, true);
    ManifestsReadable(tree, cals, events, env);
    PullAllTree(start, cals, {}, events, env);
    ManifestsThere(tree, cals);
    forall c | c in cals ensures DirName(c) in Dirs(cals) && NodeAt(start.tree, DirName(c)).manifest == Some(c) {
      DirsIn(cals, c);
      ManifestsKeep(tree, cals, DirName(c));
    }
  }

  lemma MirrorNames(files: Files, es: seq<CalendarEvent>, env: Env)
    requires DirMirrors(files, es, env)
    ensures files.Keys == KeyNames(Keys(es))
  {
    hide KeyNames, Keys, Changed;
    var m: Entries :| Renders(files, m) && Mirrors(m, es, env);
  }

  /** A directory mirrors events and no events only if there are none, and then it
      is empty. */
  lemma MirrorsBoth(files: Files, es: seq<CalendarEvent>, env: Env)
    requires DirMirrors(files, es, env) && DirMirrors(files, [], env)
    ensures es == [] && files == map[]
  {
    hide DirMirrors, Keys;
    MirrorNames(files, es, env);
    MirrorNames(files, [], env);
    NoKeys(map[], env);
    SomeName(Keys(es));
    SomeKey(es);
    assert files.Keys == {};
  }

  lemma SomeName(keys: set<string>)
    ensures keys == {} || KeyNames(keys) != {}
  {
    hide IcsName, MetaName;
    if k :| k in keys { assert IcsName(k) in KeyNames(keys); }
  }

  lemma SomeKey(es: seq<CalendarEvent>)
    ensures es == [] || Keys(es) != {}
  {
    if es != [] { assert Key(es[0]) in Keys(es); }
  }

  /** Whatever the tree: a pull mirrors the remote exactly when every two listed
      entries with one directory are one calendar without remote events. */
  lemma PullMirrorsExactly(tree: CalTree, cals: seq<Calendar>, events: seq<CalendarEvent>, env: Env)
    requires Lists(env) && forall c <- cals :: PullableDir(FilesAt(tree, c), EventsOf(events, c.id), env)
    ensures var p := PullCalendar(tree, cals, events, env);
      p.ok && Mirrored(p.tree, cals, events, env) <==> Separable(cals, events)
  {
    hide PullableDir, DirMirrors, PullCalendar, Separable;
    SeparableParts(cals, events);
    var p := PullCalendar(tree, cals, events, env);
    if Mirrored(p.tree, cals, events, env) { OneManifest(p.tree, cals, events, env); }
    if SameOrApart(cals) {
      PullLeaves(tree, cals, events, env);
      forall c | c in cals && Twice(cals, c) && Mirrored(p.tree, cals, events, env)
        ensures EventsOf(events, c.id) == []
      {
        MirrorsBoth(FilesAt(p.tree, c), EventsOf(events, c.id), env);
      }
    }
  }

  lemma OneManifest(tree: CalTree, cals: seq<Calendar>, events: seq<CalendarEvent>, env: Env)
    requires Mirrored(tree, cals, events, env)
    ensures SameOrApart(cals)
  {
    hide DirMirrors, DirName;
    forall x, y | x in cals && y in cals && DirName(x) == DirName(y) ensures x == y {
      assert tree[DirName(x)].manifest == Some(x) && tree[DirName(y)].manifest == Some(y);
    }
  }

  /** A calendar listed twice loses all its files, whatever the remote holds. */
  lemma ListedTwice(tree: CalTree, cals: seq<Calendar>, events: seq<CalendarEvent>, env: Env, c: Calendar)
    requires Lists(env) && SameOrApart(cals) && Twice(cals, c)
    requires forall x <- cals :: PullableDir(FilesAt(tree, x), EventsOf(events, x.id), env)
    ensures FilesAt(PullCalendar(tree, cals, events, env).tree, c) == map[]
  {
    hide PullableDir, DirMirrors, PullCalendar, SameOrApart;
    TwiceAt(cals, c);
    PullLeaves(tree, cals, events, env);
    MirrorsBoth(FilesAt(PullCalendar(tree, cals, events, env).tree, c), [], env);
  }

  /** Two listed calendars with one directory: neither the tree nor the remote can
      make a pull mirror them. */
  lemma CollidingIds(tree: CalTree, cals: seq<Calendar>, a: Calendar, b: Calendar, events: seq<CalendarEvent>, env: Env)
    requires a in cals && b in cals && a != b && DirName(a) == DirName(b)
    ensures !Mirrored(PullCalendar(tree, cals, events, env).tree, cals, events, env)
  {
    hide PullCalendar, Mirrored, DirName;
    var p := PullCalendar(tree, cals, events, env);
    if Mirrored(p.tree, cals, events, env) { OneManifest(p.tree, cals, events, env); }
  }

  /** Such as two whose ids differ in a character that a directory name may not hold. */
  lemma SlashCollides(tree: CalTree, a: string, b: string, events: seq<CalendarEvent>, env: Env)
    ensures var cals := [Calendar("a/b", a), Calendar("a_b", b)];
      !Mirrored(PullCalendar(tree, cals, events, env).tree, cals, events, env)
  {
    hide PullCalendar, Mirrored;
    var cals := [Calendar("a/b", a), Calendar("a_b", b)];
    assert DirName(cals[0]) == "a_b" == DirName(cals[1]) && "a/b"[1] != "a_b"[1];
    assert cals[0] in cals && cals[1] in cals;
    CollidingIds(tree, cals, cals[0], cals[1], events, env);
  }

  // ── the counts over all calendars ──────────────────────────────────────

  lemma AllPullableDistinct(tree: CalTree, ms: Dirwise, cals: seq<Calendar>, events: seq<CalendarEvent>, env: Env)
    requires AllPullable(tree, ms, cals, events, env)
    ensures DistinctDirs(cals) && forall c <- cals :: DirName(c) in ms
  {}

  lemma NextCounted(p: Pulled, ms: Dirwise, cals: seq<Calendar>, events: seq<CalendarEvent>, env: Env)
    requires Lists(env) && p.ok && cals != [] && AllPullable(p.tree, ms, cals, events, env)
    ensures var c, es := cals[0], EventsOf(events, cals[0].id); var q, d := Next(p, c, es, env), DirName(c);
      && q.ok && AllPullable(q.tree, ms, cals[1..], events, env)
      && Renders(FilesAt(q.tree, c), After(ms[d], es, env))
      && |After(ms[d], es, env)| + q.sum.deleted + p.sum.added == |ms[d]| + q.sum.added + p.sum.deleted
  {
    hide DirName, PullOne, Renders, Mirrors, Faithful, DistinctKeys, After, PlainKeys;
    var c, es := cals[0], EventsOf(events, cals[0].id);
    assert c in cals;
    PullOneMirrors(FilesAt(p.tree, c), ms[DirName(c)], es, p.sum, env);
    StepKeepsOthers(p.tree, ms, cals, Next(p, c, es, env).tree, events, env);
  }

  lemma {:induction false} PullAllCounts(p: Pulled, ms: Dirwise, cals: seq<Calendar>, done: set<string>,
                                         events: seq<CalendarEvent>, env: Env)
    requires Lists(env) && p.ok && AllPullable(p.tree, ms, cals, events, env) && NoneDone(cals, done)
    ensures var q := PullAll(p, cals, done, events, env);
      Total(AfterAll(ms, cals, events, env), cals) + q.sum.deleted + p.sum.added ==
      Total(ms, cals) + q.sum.added + p.sum.deleted
    decreases |cals|
  {
    hide DirName, Next, AllPullable, Dirs, DistinctDirs, NoneDone, PullAll, After, CalendarDone, TreeDone;
    if cals == [] {
      NoCalendars(p, done, events, env);
    } else {
      var c := cals[0];
      var next := Next(p, c, EventsOf(events, c.id), env);
      AllPullableDistinct(p.tree, ms, cals, events, env);
      assert c in cals;
      DirsCons(cals);
      DoneCons(cals, done);
      assert Drained(events, c.id, done) == EventsOf(events, c.id);
      NextCounted(p, ms, cals, events, env);
      PullAllStep(p, cals, done, events, env);
      PullAllCounts(next, ms, cals[1..], done + {c.id}, events, env);
      TotalSplit(ms, cals, events, env);
    }
  }

  lemma StepKeepsOthers(tree: CalTree, ms: Dirwise, cals: seq<Calendar>, next: CalTree, events: seq<CalendarEvent>,
                        env: Env)
    requires cals != [] && AllPullable(tree, ms, cals, events, env)
    requires forall d :: d != DirName(cals[0]) ==> NodeAt(next, d) == NodeAt(tree, d)
    ensures AllPullable(next, ms, cals[1..], events, env)
  {
    hide Pullable, DirName;
    DirsCons(cals);
    forall c | c in cals[1..] ensures FilesAt(next, c) == FilesAt(tree, c) && c in cals {
      assert DirName(c) in Dirs(cals[1..]);
    }
  }

  lemma {:induction false} TotalSame(a: Dirwise, b: Dirwise, cals: seq<Calendar>)
    requires forall c <- cals :: Find(a, DirName(c)) == Find(b, DirName(c))
    ensures Total(a, cals) == Total(b, cals)
  {
    hide DirName;
    if cals != [] {
      assert cals[0] in cals;
      assert Find(a, DirName(cals[0])) == Find(b, DirName(cals[0]));
      TotalSame(a, b, cals[1..]);
    }
  }

  lemma TotalSplit(ms: Dirwise, cals: seq<Calendar>, events: seq<CalendarEvent>, env: Env)
    requires cals != [] && DistinctDirs(cals) && DirName(cals[0]) in ms
    ensures Total(AfterAll(ms, cals, events, env), cals)
         == |After(ms[DirName(cals[0])], EventsOf(events, cals[0].id), env)|
           + Total(AfterAll(ms, cals[1..], events, env), cals[1..])
  {
    hide DirName, After;
    DirsCons(cals);
    forall c | c in cals[1..]
      ensures Find(AfterAll(ms, cals, events, env), DirName(c)) ==
              Find(AfterAll(ms, cals[1..], events, env), DirName(c))
    {
      assert DirName(c) in Dirs(cals[1..]);
    }
    TotalSame(AfterAll(ms, cals, events, env), AfterAll(ms, cals[1..], events, env), cals[1..]);
  }

  /** What each listed directory stands for after the loop. */
  ghost predicate AllRender(tree: CalTree, ms: Dirwise, cals: seq<Calendar>) {
    forall c <- cals :: DirName(c) in ms && Renders(FilesAt(tree, c), ms[DirName(c)])
  }

  lemma PullableReadable(tree: CalTree, ms: Dirwise, cals: seq<Calendar>, done: set<string>,
                         events: seq<CalendarEvent>, env: Env)
    requires AllPullable(tree, ms, cals, events, env) && NoneDone(cals, done)
    ensures SameOrApart(cals) && AllReadable(tree, cals, done, events, env)
  {
    hide Pullable, DirName, EventsOf;
    forall x, y | x in cals && y in cals && DirName(x) == DirName(y) ensures x == y {
      var i :| 0 <= i < |cals| && cals[i] == x;
      var j :| 0 <= j < |cals| && cals[j] == y;
      assert i < j || j < i || i == j;
    }
  }

  lemma {:induction false} PullAllRenders(p: Pulled, ms: Dirwise, cals: seq<Calendar>, done: set<string>,
                                          events: seq<CalendarEvent>, env: Env)
    requires Lists(env) && p.ok && AllPullable(p.tree, ms, cals, events, env) && NoneDone(cals, done)
    ensures AllRender(PullAll(p, cals, done, events, env).tree, AfterAll(ms, cals, events, env), cals)
    decreases |cals|
  {
    hide DirName, Next, AllPullable, Dirs, DistinctDirs, NoneDone, PullAll, After, CalendarDone, Renders, NodeAt,
      SameOrApart, AllReadable;
    if cals != [] {
      var c := cals[0];
      var next := Next(p, c, EventsOf(events, c.id), env);
      AllPullableDistinct(p.tree, ms, cals, events, env);
      assert c in cals;
      DirsCons(cals);
      DoneCons(cals, done);
      assert Drained(events, c.id, done) == EventsOf(events, c.id);
      NextCounted(p, ms, cals, events, env);
      PullAllStep(p, cals, done, events, env);
      PullAllRenders(next, ms, cals[1..], done + {c.id}, events, env);
      PullableReadable(next.tree, ms, cals[1..], done + {c.id}, events, env);
      PullAllTree(next, cals[1..], done + {c.id}, events, env);
      RendersCons(next.tree, PullAll(p, cals, done, events, env).tree, ms, cals, events, env);
    }
  }

  /** The calendars after the first leave its directory alone. */
  lemma RendersCons(a: CalTree, b: CalTree, ms: Dirwise, cals: seq<Calendar>, events: seq<CalendarEvent>, env: Env)
    requires cals != [] && DirName(cals[0]) in ms && DirName(cals[0]) !in Dirs(cals[1..])
    requires Renders(FilesAt(a, cals[0]), After(ms[DirName(cals[0])], EventsOf(events, cals[0].id), env))
    requires Untouched(a, b, Dirs(cals[1..])) && AllRender(b, AfterAll(ms, cals[1..], events, env), cals[1..])
    ensures AllRender(b, AfterAll(ms, cals, events, env), cals)
  {
    hide DirName, Renders, After, NodeAt, EventsOf;
    DirsCons(cals);
    forall c | c in cals
      ensures DirName(c) in AfterAll(ms, cals, events, env)
      ensures Renders(FilesAt(b, c), AfterAll(ms, cals, events, env)[DirName(c)])
    {
      if c in cals[1..] { DirsIn(cals[1..], c); }
    }
  }

  /** A pull leaves exactly the listed calendars, each mirroring the remote; each
      directory stands for its entry of `AfterAll`, and the number of events over
      them changes by added less deleted. */
  lemma PullMirrors(tree: CalTree, ms: Dirwise, cals: seq<Calendar>, events: seq<CalendarEvent>, env: Env)
    requires Lists(env) && AllPullable(tree, ms, cals, events, env)
    ensures var p, after := PullCalendar(tree, cals, events, env), AfterAll(ms, cals, events, env);
      && p.ok && Mirrored(p.tree, cals, events, env) && AllRender(p.tree, after, cals)
      && Total(after, cals) + p.sum.deleted == Total(ms, cals) + p.sum.added
  {
    hide DirName, PullAll, DirMirrors, Dirs, Total, AfterAll, Pullable, EventsOf, Mirrored, AllRender;
    PullMirrorsExactly(tree, cals, events, env);
    ManifestsPullable(tree, ms, cals, events, env);
    PullAllCounts(Pulled(Manifests(tree, cals), ZERO, true), ms, cals, {}, events, env);
    PullAllRenders(Pulled(Manifests(tree, cals), ZERO, true), ms, cals, {}, events, env);
    CleanupRenders(PullAll(Pulled(Manifests(tree, cals), ZERO, true), cals, {}, events, env).tree,
                   AfterAll(ms, cals, events, env), cals);
  }

  lemma CleanupRenders(tree: CalTree, ms: Dirwise, cals: seq<Calendar>)
    requires AllRender(tree, ms, cals)
    ensures AllRender(Cleanup(tree, cals), ms, cals)
  {
    hide DirName, Renders;
    forall c | c in cals ensures FilesAt(Cleanup(tree, cals), c) == FilesAt(tree, c) { DirsIn(cals, c); }
  }

  lemma ManifestsPullable(tree: CalTree, ms: Dirwise, cals: seq<Calendar>, events: seq<CalendarEvent>, env: Env)
    requires AllPullable(tree, ms, cals, events, env)
    ensures AllPullable(Manifests(tree, cals), ms, cals, events, env)
  {
    hide Pullable, DirName;
    forall c | c in cals ensures FilesAt(Manifests(tree, cals), c) == FilesAt(tree, c) {
      ManifestsKeep(tree, cals, DirName(c));
    }
  }

  // ── the second pull ────────────────────────────────────────────────────

  lemma {:induction false} ManifestsFixed(tree: CalTree, cals: seq<Calendar>)
    requires forall c <- cals :: DirName(c) in tree && tree[DirName(c)].manifest == Some(c)
    ensures Manifests(tree, cals) == tree
    decreases |cals|
  {
    hide DirName;
    if cals != [] {
      var c := cals[0];
      assert c in cals;
      assert tree[DirName(c) := NodeAt(tree, DirName(c)).(manifest := Some(c))] == tree;
      ManifestsFixed(tree, cals[1..]);
    }
  }

  /** Nothing is left to drain from a calendar that comes again. */
  predicate Drainable(cals: seq<Calendar>, done: set<string>, events: seq<CalendarEvent>) {
    forall c <- cals :: c.id in done || Twice(cals, c) ==> EventsOf(events, c.id) == []
  }

  lemma DrainableCons(cals: seq<Calendar>, done: set<string>, events: seq<CalendarEvent>)
    requires cals != [] && SameOrApart(cals) && Drainable(cals, done, events)
    ensures SameOrApart(cals[1..]) && Drainable(cals[1..], done + {cals[0].id}, events)
    ensures Drained(events, cals[0].id, done) == EventsOf(events, cals[0].id)
  {
    hide EventsOf;
    assert cals[0] in cals && forall x <- cals[1..] :: x in cals;
    forall c | c in cals[1..] && (c.id in done + {cals[0].id} || Twice(cals[1..], c))
      ensures EventsOf(events, c.id) == []
    {
      if c.id == cals[0].id { assert DirName(c) == DirName(cals[0]); }
    }
  }

  lemma {:induction false} PullAllFixed(p: Pulled, cals: seq<Calendar>, done: set<string>, events: seq<CalendarEvent>,
                                        env: Env)
    requires Lists(env) && SameOrApart(cals) && Drainable(cals, done, events)
    requires forall c <- cals :: DirName(c) in p.tree && DirMirrors(FilesAt(p.tree, c), EventsOf(events, c.id), env)
    ensures PullAll(p, cals, done, events, env) == p
    decreases |cals|
  {
    hide DirName, PullOne, DirMirrors, SameOrApart, Drainable;
    if cals != [] {
      var c := cals[0];
      assert c in cals;
      DrainableCons(cals, done, events);
      MirroredDirFixed(FilesAt(p.tree, c), EventsOf(events, c.id), p.sum, env);
      assert p.tree[DirName(c) := p.tree[DirName(c)].(files := FilesAt(p.tree, c))] == p.tree;
      PullAllFixed(p, cals[1..], done + {c.id}, events, env);
    }
  }

  lemma MirroredDirFixed(files: Files, events: seq<CalendarEvent>, sum: Summary, env: Env)
    requires Lists(env) && DirMirrors(files, events, env)
    ensures PullOne(files, events, sum, env) == Some(Work(files, sum))
  {
    hide Renders, Mirrors, PullOne;
    var m: Entries :| Renders(files, m) && PlainKeys(m.Keys) && Mirrors(m, events, env);
    NothingToPull(files, m, events, sum, env);
  }

  /** A second pull of the same remote counts 0/0/0 and leaves the tree alone. */
  lemma SecondPullIsNoop(tree: CalTree, cals: seq<Calendar>, events: seq<CalendarEvent>, env: Env)
    requires Lists(env) && Separable(cals, events) && Mirrored(tree, cals, events, env)
    ensures PullCalendar(tree, cals, events, env) == Pulled(tree, ZERO, true)
  {
    hide DirName, PullAll, DirMirrors, Separable, EventsOf;
    SeparableParts(cals, events);
    forall c | c in cals ensures DirName(c) in tree { assert DirName(c) in Dirs(cals); }
    ManifestsFixed(tree, cals);
    PullAllFixed(Pulled(tree, ZERO, true), cals, {}, events, env);
    assert Cleanup(tree, cals) == tree;
  }

  // ── what mirroring says of the files ───────────────────────────────────

  /** In a mirrored directory the `.ics` files are exactly the remote events, under
      their keys, with their bodies. */
  lemma MirroredIcsFiles(files: Files, events: seq<CalendarEvent>, env: Env, name: string, text: string)
    requires DirMirrors(files, events, env)
    ensures (EndsWith(name, ICS) && name in files && files[name] == Text(text)) <==>
            exists e <- events :: name == IcsName(Key(e)) && text == Body(e)
  {
    hide IcsName, MetaName, EndsWith, KeyNames, Key, Changed;
    var m: Entries :| Renders(files, m) && PlainKeys(m.Keys) && Mirrors(m, events, env);
    if EndsWith(name, ICS) && name in files && files[name] == Text(text) {
      var k := KeyOf(m.Keys, name);
      MetaIsNoIcs(k);
      var e :| e in events && Key(e) == k;
    }
    if e :| e in events && name == IcsName(Key(e)) && text == Body(e) {
      IcsIsIcs(Key(e));
      assert Key(e) in m;
    }
  }

  lemma MetaIsNoIcs(k: string)
    ensures !EndsWith(MetaName(k), ICS)
  {
    assert MetaName(k)[|k| + 9] == 'n' && ICS[3] == 's';
  }

  lemma IcsIsIcs(k: string)
    ensures EndsWith(IcsName(k), ICS)
  {
    assert IcsName(k)[|k|..] == ICS;
  }
}
