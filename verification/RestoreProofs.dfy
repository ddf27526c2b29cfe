/** A bulk restore reaches the past: planned again it has nothing to do, events it
    does not name are untouched, and the re-pulled tree holds the historical files. */
module RestoreProofs {
  import opened Seqs
  import opened Tree
  import opened Pull
  import opened PullProofs
  import opened Paths
  import opened Restore

  // ── the live event of a uid ────────────────────────────────────────────

  predicate SafeUid(u: string) { FilenameSafe(u) == u && !EndsWith(u, META) }

  predicate WellFormed(e: CalendarEvent, s: Server) {
    && e.uid.Some? && SafeUid(e.uid.value) && e.calendarId.Some?
    && e.ical.Some? && e.etag == s.tag(e.ical.value)
  }

  /** Two events of one calendar differ in uid and in id. */
  predicate Apart(a: CalendarEvent, b: CalendarEvent) {
    a.calendarId == b.calendarId ==> a.uid != b.uid && a.id != b.id
  }

  ghost predicate Proper(events: seq<CalendarEvent>, s: Server) {
    && (forall e <- events :: WellFormed(e, s))
    && forall i, j :: 0 <= i < j < |events| ==> Apart(events[i], events[j])
  }

  lemma {:induction false} LiveFound(events: seq<CalendarEvent>, cal: string, uid: string)
    ensures var l := Live(events, cal, uid);
      if l.Some? then l.value in events && Is(l.value, cal, uid) else forall e <- events :: !Is(e, cal, uid)
  {
    if events != [] { LiveFound(events[1..], cal, uid); }
  }

  lemma SameEvent(events: seq<CalendarEvent>, s: Server, a: CalendarEvent, b: CalendarEvent)
    requires Proper(events, s) && a in events && b in events
    ensures a == b || Apart(a, b)
  {
    var i :| 0 <= i < |events| && events[i] == a;
    var j :| 0 <= j < |events| && events[j] == b;
    assert i < j || j < i || i == j;
  }

  function Rewrite(e: CalendarEvent, cal: string, id: string, ical: string, s: Server): CalendarEvent {
    if HasId(e, cal, id) then WithBody(e, ical, s) else e
  }

  lemma {:induction false} UpdatedAt(events: seq<CalendarEvent>, cal: string, id: string, ical: string, s: Server)
    ensures |Updated(events, cal, id, ical, s)| == |events|
    ensures forall i :: 0 <= i < |events| ==>
              Updated(events, cal, id, ical, s)[i] == Rewrite(events[i], cal, id, ical, s)
  {
    if events != [] { UpdatedAt(events[1..], cal, id, ical, s); }
  }

  lemma {:induction false} UpdatedLive(events: seq<CalendarEvent>, cal: string, id: string, ical: string, s: Server,
                                       c: string, u: string)
    ensures Live(Updated(events, cal, id, ical, s), c, u) ==
      match Live(events, c, u) case None => None case Some(e) => Some(Rewrite(e, cal, id, ical, s))
  {
    if events != [] { UpdatedLive(events[1..], cal, id, ical, s, c, u); }
  }

  lemma {:induction false} AppendedLive(events: seq<CalendarEvent>, n: CalendarEvent, c: string, u: string)
    ensures Live(events + [n], c, u) ==
      if Live(events, c, u).Some? then Live(events, c, u) else if Is(n, c, u) then Some(n) else None
  {
    if events == [] {
      assert events + [n] == [n] && [n][1..] == [];
    } else {
      Uncons(events, [n]);
      AppendedLive(events[1..], n, c, u);
    }
  }

  lemma UpdatedProper(events: seq<CalendarEvent>, cal: string, id: string, ical: string, s: Server)
    requires Proper(events, s)
    ensures Proper(Updated(events, cal, id, ical, s), s)
  {
    hide SafeUid;
    UpdatedAt(events, cal, id, ical, s);
    var out := Updated(events, cal, id, ical, s);
    forall e | e in out ensures WellFormed(e, s) {
      var i :| 0 <= i < |out| && out[i] == e;
      assert events[i] in events;
    }
  }

  ghost predicate FreshIds(s: Server) {
    forall events: seq<CalendarEvent>, i :: 0 <= i < |events| ==> events[i].id != s.newId(events)
  }

  lemma CreatedProper(events: seq<CalendarEvent>, cal: string, uid: string, ical: string, s: Server)
    requires Proper(events, s) && FreshIds(s) && SafeUid(uid) && Live(events, cal, uid).None?
    ensures Proper(Created(events, cal, uid, ical, s), s)
  {
    hide SafeUid;
    LiveFound(events, cal, uid);
    var out := Created(events, cal, uid, ical, s);
    forall i | 0 <= i < |events| ensures Apart(events[i], out[|events|]) {
      assert !Is(events[i], cal, uid);
      assert WellFormed(events[i], s);
    }
  }

  // ── pulling a proper store ─────────────────────────────────────────────

  /** Etags are given to all bodies or to none, and tell bodies apart; so do hashes. */
  ghost predicate Honest(s: Server, env: Env) {
    && (forall a, b :: s.tag(a).Some? <==> s.tag(b).Some?)
    && (forall a, b :: s.tag(a).Some? && s.tag(a) == s.tag(b) ==> a == b)
    && (forall a, b :: env.hash(a) == env.hash(b) ==> a == b)
  }

  /** An event with this body, as the server would give it. */
  function Sample(text: string, s: Server): CalendarEvent {
    CalendarEvent("", None, None, Some(text), s.tag(text), None)
  }

  /** The meta is about the stored text. */
  predicate Consistent(x: Entry, s: Server, env: Env) { !Changed(Some(x.meta), Sample(x.text, s), env) }

  /** A local directory whose metas agree with its `.ics` files. */
  ghost predicate TidyDir(files: Files, s: Server, env: Env) {
    exists m: Entries :: Renders(files, m) && PlainKeys(m.Keys) && forall k <- m.Keys :: Consistent(m[k], s, env)
  }

  ghost function Pick(files: Files, s: Server, env: Env): (m: Entries)
    requires TidyDir(files, s, env)
    ensures Renders(files, m) && PlainKeys(m.Keys) && forall k <- m.Keys :: Consistent(m[k], s, env)
  {
    var m: Entries :| Renders(files, m) && PlainKeys(m.Keys) && forall k <- m.Keys :: Consistent(m[k], s, env);
    m
  }

  ghost predicate Tidy(tree: CalTree, t: Setting) {
    forall c <- t.cals :: TidyDir(FilesAt(tree, c), t.server, t.env)
  }

  ghost predicate GoodSetting(t: Setting) {
    && Lists(t.env) && Honest(t.server, t.env) && FreshIds(t.server)
    && DistinctDirs(t.cals) && forall c <- t.cals :: DirName(c) == c.id
  }

  lemma ConsistentFaithful(x: Entry, e: CalendarEvent, s: Server, env: Env)
    requires Honest(s, env) && WellFormed(e, s) && Consistent(x, s, env) && !Changed(Some(x.meta), e, env)
    ensures x.text == Body(e)
  {
    assert s.tag(x.text).Some? <==> s.tag(Body(e)).Some?;
  }

  lemma UnchangedConsistent(x: Entry, e: CalendarEvent, s: Server, env: Env)
    requires WellFormed(e, s) && x.text == Body(e) && !Changed(Some(x.meta), e, env)
    ensures Consistent(x, s, env)
  {}

  lemma {:induction false} EventsOfIn(events: seq<CalendarEvent>, c: string)
    ensures forall e :: e in EventsOf(events, c) <==> e in events && In(e, c)
  {
    if events != [] {
      EventsOfIn(events[1..], c);
      assert forall e :: e in events <==> e == events[0] || e in events[1..];
    }
  }

  lemma KeyIsUid(e: CalendarEvent, s: Server)
    requires WellFormed(e, s)
    ensures Key(e) == e.uid.value && !EndsWith(Key(e), META)
  {}

  lemma ApartKeys(a: CalendarEvent, b: CalendarEvent, c: string, s: Server)
    requires WellFormed(a, s) && WellFormed(b, s) && Apart(a, b) && In(a, c) && In(b, c)
    ensures Key(a) != Key(b)
  {
    hide SafeUid, Key;
    KeyIsUid(a, s);
    KeyIsUid(b, s);
  }

  lemma {:induction false} ProperKeys(events: seq<CalendarEvent>, c: string, s: Server)
    requires Proper(events, s)
    ensures DistinctKeys(EventsOf(events, c)) && PlainKeys(Keys(EventsOf(events, c)))
  {
    hide WellFormed, Key, In, Apart, EndsWith;
    EventsOfIn(events, c);
    forall e | e in EventsOf(events, c) ensures !EndsWith(Key(e), META) { KeyIsUid(e, s); }
    if events != [] {
      ProperTail(events, s);
      ProperKeys(events[1..], c, s);
      EventsOfIn(events[1..], c);
      var e, rest := events[0], EventsOf(events[1..], c);
      forall i | 0 <= i < |rest| && In(e, c) ensures Key(rest[i]) != Key(e) {
        assert rest[i] in rest;
        FirstApart(events, rest[i], s);
        ApartKeys(e, rest[i], c, s);
      }
    }
  }

  lemma ProperTail(events: seq<CalendarEvent>, s: Server)
    requires events != [] && Proper(events, s)
    ensures Proper(events[1..], s) && WellFormed(events[0], s)
  {
    hide WellFormed, Apart;
    assert forall e <- events[1..] :: e in events;
    assert events[0] in events;
  }

  lemma FirstApart(events: seq<CalendarEvent>, x: CalendarEvent, s: Server)
    requires events != [] && Proper(events, s) && x in events[1..]
    ensures Apart(events[0], x) && WellFormed(x, s)
  {
    hide WellFormed, Apart;
    var i :| 0 <= i < |events[1..]| && events[1..][i] == x;
    assert events[i + 1] == x && x in events;
  }

  /** A proper store can be pulled into a tidy tree, which then mirrors it. */
  lemma ProperPull(tree: CalTree, events: seq<CalendarEvent>, t: Setting)
    requires GoodSetting(t) && Proper(events, t.server) && Tidy(tree, t)
    ensures var p := PullCalendar(tree, t.cals, events, t.env); p.ok && Mirrored(p.tree, t.cals, events, t.env)
  {
    hide Proper, TidyDir, Renders, DirName, PlainKeys, DistinctKeys, Faithful, PullCalendar, Mirrored;
    var ms: Dirwise := map d | d in Dirs(t.cals) && TidyDir(NodeAt(tree, d).files, t.server, t.env)
                         :: Pick(NodeAt(tree, d).files, t.server, t.env);
    forall c | c in t.cals
      ensures DirName(c) in ms && Pullable(FilesAt(tree, c), ms[DirName(c)], EventsOf(events, c.id), t.env)
    {
      DirsIn(t.cals, c);
      assert TidyDir(FilesAt(tree, c), t.server, t.env);
      ProperKeys(events, c.id, t.server);
      TidyFaithful(ms[DirName(c)], events, c.id, t);
    }
    PullMirrors(tree, ms, t.cals, events, t.env);
  }

  lemma TidyFaithful(m: Entries, events: seq<CalendarEvent>, c: string, t: Setting)
    requires GoodSetting(t) && Proper(events, t.server) && forall k <- m.Keys :: Consistent(m[k], t.server, t.env)
    ensures Faithful(m, EventsOf(events, c), t.env)
  {
    hide WellFormed, Consistent, Changed, Honest;
    EventsOfIn(events, c);
    forall e | e in EventsOf(events, c) && Key(e) in m && !Changed(Some(m[Key(e)].meta), e, t.env)
      ensures m[Key(e)].text == Body(e)
    {
      ConsistentFaithful(m[Key(e)], e, t.server, t.env);
    }
  }

  /** A tree that mirrors a proper store is tidy. */
  lemma MirroredTidy(tree: CalTree, events: seq<CalendarEvent>, t: Setting)
    requires Proper(events, t.server) && Mirrored(tree, t.cals, events, t.env)
    ensures Tidy(tree, t)
  {
    forall c | c in t.cals ensures TidyDir(FilesAt(tree, c), t.server, t.env) {
      MirrorTidyDir(FilesAt(tree, c), events, c.id, t);
    }
  }

  lemma MirrorTidyDir(files: Files, events: seq<CalendarEvent>, c: string, t: Setting)
    requires Proper(events, t.server) && DirMirrors(files, EventsOf(events, c), t.env)
    ensures TidyDir(files, t.server, t.env)
  {
    hide WellFormed, Consistent, Changed, Renders, PlainKeys, Key;
    var es := EventsOf(events, c);
    EventsOfIn(events, c);
    var m: Entries :| Renders(files, m) && PlainKeys(m.Keys) && Mirrors(m, es, t.env);
    forall k | k in m.Keys ensures Consistent(m[k], t.server, t.env) {
      var e :| e in es && Key(e) == k;
      UnchangedConsistent(m[k], e, t.server, t.env);
    }
  }

  // ── one sub-plan ───────────────────────────────────────────────────────

  /** What a path names: an event and its historical body. */
  datatype Named = Named(cal: string, uid: string, text: string)

  /** A plan made for `n` when the store was `events`. */
  predicate Planned(p: Plan, n: Named, events: seq<CalendarEvent>) {
    var live := Live(events, n.cal, n.uid);
    && p.calendarId == n.cal && p.eventUid == n.uid && p.operation == OperationFor(live, n.text)
    && p.liveEventId == match live case None => None case Some(e) => Some(e.id)
  }

  predicate Names(n: Named, e: CalendarEvent) { Is(e, n.cal, n.uid) }

  ghost predicate Ready(w: World, t: Setting) { Proper(w.events, t.server) && Tidy(w.tree, t) }

  /** The live event of this name has the historical body. */
  predicate Restored(events: seq<CalendarEvent>, n: Named) {
    var live := Live(events, n.cal, n.uid);
    live.Some? && live.value.ical == Some(n.text)
  }

  predicate Same(n: Named, m: Named) { n.cal == m.cal && n.uid == m.uid }

  /** Everything but `n` is as it was. */
  ghost predicate OthersKept(before: seq<CalendarEvent>, after: seq<CalendarEvent>, n: Named) {
    && (forall e :: !Names(n, e) ==> (e in after <==> e in before))
    && forall c, u :: !(c == n.cal && u == n.uid) ==> Live(after, c, u) == Live(before, c, u)
  }

  /** An update by id reaches the live event of that uid and no other. */
  lemma UpdateOne(events: seq<CalendarEvent>, n: Named, s: Server)
    requires Proper(events, s) && Live(events, n.cal, n.uid).Some?
    ensures var after := Updated(events, n.cal, Live(events, n.cal, n.uid).value.id, n.text, s);
      Restored(after, n) && OthersKept(events, after, n)
  {
    hide Proper;
    var l := Live(events, n.cal, n.uid).value;
    var after := Updated(events, n.cal, l.id, n.text, s);
    LiveFound(events, n.cal, n.uid);
    UpdatedLive(events, n.cal, l.id, n.text, s, n.cal, n.uid);
    forall c, u | !(c == n.cal && u == n.uid) ensures Live(after, c, u) == Live(events, c, u) {
      UpdatedLive(events, n.cal, l.id, n.text, s, c, u);
      LiveFound(events, c, u);
      if Live(events, c, u).Some? { OnlyLive(events, n.cal, l, Live(events, c, u).value, s); }
    }
    forall e | !Names(n, e) ensures e in after <==> e in events { UpdateKeeps(events, n, l, e, s); }
  }

  lemma OnlyLive(events: seq<CalendarEvent>, cal: string, l: CalendarEvent, e: CalendarEvent, s: Server)
    requires Proper(events, s) && l in events && e in events && l.calendarId == Some(cal)
    ensures HasId(e, cal, l.id) ==> e == l
  {
    SameEvent(events, s, l, e);
  }

  lemma UpdateKeeps(events: seq<CalendarEvent>, n: Named, l: CalendarEvent, e: CalendarEvent, s: Server)
    requires Proper(events, s) && l in events && Is(l, n.cal, n.uid) && !Names(n, e)
    ensures e in Updated(events, n.cal, l.id, n.text, s) <==> e in events
  {
    hide WellFormed;
    var after := Updated(events, n.cal, l.id, n.text, s);
    UpdatedAt(events, n.cal, l.id, n.text, s);
    if e in events {
      var i :| 0 <= i < |events| && events[i] == e;
      OnlyLive(events, n.cal, l, e, s);
      assert after[i] == e;
    }
    if e in after {
      var i :| 0 <= i < |after| && after[i] == e;
      OnlyLive(events, n.cal, l, events[i], s);
    }
  }

  lemma CreateOne(events: seq<CalendarEvent>, n: Named, s: Server)
    requires Live(events, n.cal, n.uid).None?
    ensures var after := Created(events, n.cal, n.uid, n.text, s); Restored(after, n) && OthersKept(events, after, n)
  {
    var after := Created(events, n.cal, n.uid, n.text, s);
    var e := after[|events|];
    AppendedLive(events, e, n.cal, n.uid);
    forall c, u | !(c == n.cal && u == n.uid)
      ensures Live(after, c, u) == Live(events, c, u)
    {
      AppendedLive(events, e, c, u);
    }
  }

  /** A write that goes through restores its event and keeps the rest. */
  lemma WriteRestores(events: seq<CalendarEvent>, p: Plan, n: Named, t: Setting)
    requires GoodSetting(t) && Proper(events, t.server) && SafeUid(n.uid) && Planned(p, n, events)
    requires Write(events, p, t.server).Some?
    ensures var after := Write(events, p, t.server).value;
      Proper(after, t.server) && Restored(after, n) && OthersKept(events, after, n)
  {
    hide Proper, SafeUid, OthersKept, Lists, Honest;
    LiveFound(events, n.cal, n.uid);
    match p.operation
    case NoOp => KeptByNothing(events, n);
    case UpdateIcal(_) =>
      UpdateOne(events, n, t.server);
      UpdatedProper(events, n.cal, p.liveEventId.value, n.text, t.server);
    case Recreate(_) =>
      CreateOne(events, n, t.server);
      CreatedProper(events, n.cal, n.uid, n.text, t.server);
  }

  lemma KeptByNothing(events: seq<CalendarEvent>, n: Named)
    ensures OthersKept(events, events, n)
  {}

  /** The server refuses the write of a sub-plan. */
  predicate Refused(p: Plan, n: Named, s: Server) { !p.operation.NoOp? && s.refuses(n.cal, n.text) }

  /** A sub-plan fits the store it was made for: only a refusal stops its write. */
  lemma WriteUnlessRefused(events: seq<CalendarEvent>, p: Plan, n: Named, s: Server)
    requires Planned(p, n, events)
    ensures Write(events, p, s).Some? <==> !Refused(p, n, s)
    ensures p.operation.NoOp? ==> Write(events, p, s) == Some(events)
  {
    LiveFound(events, n.cal, n.uid);
    if p.operation.UpdateIcal? {
      var e := Live(events, n.cal, n.uid).value;
      assert HasId(e, p.calendarId, p.liveEventId.value);
    }
  }

  /** One sub-plan: refused, it changes nothing; otherwise it restores its event,
      keeps every other, and re-pulls the tree to mirror the store. */
  lemma ApplyRestores(w: World, p: Plan, n: Named, t: Setting)
    requires GoodSetting(t) && Ready(w, t) && SafeUid(n.uid) && Planned(p, n, w.events)
    ensures var a := Apply(w, p, t);
      && a.ok == !Refused(p, n, t.server)
      && (!a.ok ==> a.world == w)
      && (a.ok ==> Restored(a.world.events, n) && OthersKept(w.events, a.world.events, n))
      && Ready(a.world, t)
      && (p.operation.NoOp? ==> a.world == w)
      && (a.ok && !p.operation.NoOp? ==> Mirrored(a.world.tree, t.cals, a.world.events, t.env))
  {
    hide GoodSetting, Proper, Tidy, Planned, Write, PullCalendar, Mirrored, OthersKept, Restored, SafeUid;
    WriteUnlessRefused(w.events, p, n, t.server);
    if Write(w.events, p, t.server).Some? {
      WriteRestores(w.events, p, n, t);
      if !p.operation.NoOp? {
        var events := Write(w.events, p, t.server).value;
        ProperPull(w.tree, events, t);
        MirroredTidy(PullCalendar(w.tree, t.cals, events, t.env).tree, events, t);
      }
    }
  }

  // ── all sub-plans ──────────────────────────────────────────────────────

  predicate DistinctNames(ns: seq<Named>) { forall i, j :: 0 <= i < j < |ns| ==> !Same(ns[i], ns[j]) }

  ghost predicate AllPlanned(plans: seq<Plan>, ns: seq<Named>, events: seq<CalendarEvent>) {
    |plans| == |ns| && forall i :: 0 <= i < |ns| ==> Planned(plans[i], ns[i], events) && SafeUid(ns[i].uid)
  }

  /** Every sub-plan is accounted for: applied or reported, also after a failure. */
  lemma {:induction false} EveryPlanTried(a: Tally, plans: seq<Plan>, t: Setting)
    ensures var z := ApplyAll(a, plans, t); z.ok + |z.errors| == a.ok + |a.errors| + |plans|
    decreases |plans|
  {
    hide Apply;
    if plans != [] { EveryPlanTried(ApplyNext(a, plans[0], t), plans[1..], t); }
  }

  ghost predicate NoneNames(ns: seq<Named>, e: CalendarEvent) { forall i :: 0 <= i < |ns| ==> !Names(ns[i], e) }

  ghost predicate NoneSame(ns: seq<Named>, c: string, u: string) {
    forall i :: 0 <= i < |ns| ==> !(ns[i].cal == c && ns[i].uid == u)
  }

  ghost predicate AllRestored(events: seq<CalendarEvent>, ns: seq<Named>) {
    forall i :: 0 <= i < |ns| ==> Restored(events, ns[i])
  }

  ghost predicate UnnamedKept(before: seq<CalendarEvent>, after: seq<CalendarEvent>, ns: seq<Named>) {
    && (forall e :: NoneNames(ns, e) ==> (e in after <==> e in before))
    && forall c, u :: NoneSame(ns, c, u) ==> Live(after, c, u) == Live(before, c, u)
  }

  /** Sub-plans still fit a store in which only another event has changed. */
  lemma RestPlanned(plans: seq<Plan>, ns: seq<Named>, before: seq<CalendarEvent>, after: seq<CalendarEvent>)
    requires ns != [] && AllPlanned(plans, ns, before) && DistinctNames(ns)
    requires before == after || OthersKept(before, after, ns[0])
    ensures AllPlanned(plans[1..], ns[1..], after) && DistinctNames(ns[1..])
  {
    hide SafeUid, Live;
    forall i | 0 <= i < |ns[1..]| ensures Planned(plans[1..][i], ns[1..][i], after) {
      assert !Same(ns[0], ns[i + 1]);
    }
  }

  lemma ChainKept(a: seq<CalendarEvent>, b: seq<CalendarEvent>, c: seq<CalendarEvent>, ns: seq<Named>)
    requires ns != [] && OthersKept(a, b, ns[0]) && UnnamedKept(b, c, ns[1..]) && DistinctNames(ns)
    requires Restored(b, ns[0]) && AllRestored(c, ns[1..])
    ensures UnnamedKept(a, c, ns) && AllRestored(c, ns)
  {
    hide Live, Names;
    forall e | NoneNames(ns, e) ensures e in c <==> e in a {
      assert !Names(ns[0], e);
      forall i | 0 <= i < |ns[1..]| ensures !Names(ns[1..][i], e) { assert !Names(ns[i + 1], e); }
    }
    forall x, u | NoneSame(ns, x, u) ensures Live(c, x, u) == Live(a, x, u) { SameTail(ns, x, u); }
    FirstElsewhere(ns);
    forall i | 0 <= i < |ns| ensures Restored(c, ns[i]) {
      if i > 0 { assert Restored(c, ns[1..][i - 1]); }
    }
  }

  lemma SameTail(ns: seq<Named>, c: string, u: string)
    requires ns != [] && NoneSame(ns, c, u)
    ensures !(c == ns[0].cal && u == ns[0].uid) && NoneSame(ns[1..], c, u)
  {}

  lemma FirstElsewhere(ns: seq<Named>)
    requires ns != [] && DistinctNames(ns)
    ensures NoneSame(ns[1..], ns[0].cal, ns[0].uid)
  {
    forall i | 0 <= i < |ns[1..]| ensures !(ns[1..][i].cal == ns[0].cal && ns[1..][i].uid == ns[0].uid) {
      assert !Same(ns[0], ns[i + 1]);
    }
  }

  /** The names whose writes the server accepts, and the uids of the others. */
  function Accepted(plans: seq<Plan>, ns: seq<Named>, s: Server): (r: seq<Named>)
    requires |plans| == |ns|
    ensures |r| <= |ns|
  {
    if ns == [] then []
    else if Refused(plans[0], ns[0], s) then Accepted(plans[1..], ns[1..], s)
    else [ns[0]] + Accepted(plans[1..], ns[1..], s)
  }

  function RefusedUids(plans: seq<Plan>, ns: seq<Named>, s: Server): seq<string>
    requires |plans| == |ns|
  {
    if ns == [] then []
    else if Refused(plans[0], ns[0], s) then [ns[0].uid] + RefusedUids(plans[1..], ns[1..], s)
    else RefusedUids(plans[1..], ns[1..], s)
  }

  lemma {:induction false} AcceptedFrom(plans: seq<Plan>, ns: seq<Named>, s: Server)
    requires |plans| == |ns|
    ensures forall i :: 0 <= i < |ns| && !Refused(plans[i], ns[i], s) ==> ns[i] in Accepted(plans, ns, s)
    ensures forall n <- Accepted(plans, ns, s) ::
      exists i :: 0 <= i < |ns| && ns[i] == n && !Refused(plans[i], ns[i], s)
  {
    hide Refused;
    if ns != [] {
      var rest := Accepted(plans[1..], ns[1..], s);
      AcceptedFrom(plans[1..], ns[1..], s);
      forall i | 0 <= i < |ns| && !Refused(plans[i], ns[i], s) ensures ns[i] in Accepted(plans, ns, s) {
        if i > 0 { assert ns[1..][i - 1] in rest; }
      }
      forall n | n in rest ensures exists i :: 0 <= i < |ns| && ns[i] == n && !Refused(plans[i], ns[i], s) {
        var i :| 0 <= i < |ns[1..]| && ns[1..][i] == n && !Refused(plans[1..][i], ns[1..][i], s);
        assert ns[i + 1] == n && plans[i + 1] == plans[1..][i];
      }
    }
  }

  lemma {:induction false} AcceptedDistinct(plans: seq<Plan>, ns: seq<Named>, s: Server)
    requires |plans| == |ns| && DistinctNames(ns)
    ensures DistinctNames(Accepted(plans, ns, s))
  {
    hide Refused, Same;
    if ns != [] {
      forall i, j | 0 <= i < j < |ns[1..]| ensures !Same(ns[1..][i], ns[1..][j]) { assert !Same(ns[i + 1], ns[j + 1]); }
      AcceptedDistinct(plans[1..], ns[1..], s);
      AcceptedFrom(plans[1..], ns[1..], s);
      var rest := Accepted(plans[1..], ns[1..], s);
      forall j | 0 <= j < |rest| ensures !Same(ns[0], rest[j]) {
        assert rest[j] in rest;
        var i :| 0 <= i < |ns[1..]| && ns[1..][i] == rest[j];
        assert !Same(ns[0], ns[i + 1]);
      }
    }
  }

  /** Something was written. */
  ghost predicate SomeWritten(plans: seq<Plan>, ns: seq<Named>, s: Server)
    requires |plans| == |ns|
  {
    exists i :: 0 <= i < |plans| && !plans[i].operation.NoOp? && !Refused(plans[i], ns[i], s)
  }

  /** The sub-plans restore every event whose write is accepted and nothing else;
      the errors are exactly the refusals, in order. */
  lemma {:induction false} AllRestore(a: Tally, plans: seq<Plan>, ns: seq<Named>, t: Setting)
    requires GoodSetting(t) && Ready(a.world, t) && AllPlanned(plans, ns, a.world.events) && DistinctNames(ns)
    ensures |plans| == |ns|
    ensures var z := ApplyAll(a, plans, t); var ok := Accepted(plans, ns, t.server);
      && z.errors == a.errors + RefusedUids(plans, ns, t.server)
      && Ready(z.world, t) && AllRestored(z.world.events, ok) && UnnamedKept(a.world.events, z.world.events, ok)
      && (Mirrored(a.world.tree, t.cals, a.world.events, t.env) || SomeWritten(plans, ns, t.server)
          ==> Mirrored(z.world.tree, t.cals, z.world.events, t.env))
    decreases |plans|
  {
    hide GoodSetting, Ready, Mirrored, AllPlanned, DistinctNames, AllRestored, UnnamedKept, OthersKept, Restored, Apply;
    hide SafeUid, Planned, Refused;
    AllPlannedSize(plans, ns, a.world.events);
    if plans == [] {
      NothingNamed(a.world.events, []);
    } else {
      var next := ApplyNext(a, plans[0], t);
      ApplyRestores(a.world, plans[0], ns[0], t);
      RestPlanned(plans, ns, a.world.events, next.world.events);
      AllRestore(next, plans[1..], ns[1..], t);
      AfterFirst(a, next, plans, ns, t);
      WrittenTail(plans, ns, t.server);
    }
  }

  /** The first sub-plan and all the others. */
  lemma AfterFirst(a: Tally, next: Tally, plans: seq<Plan>, ns: seq<Named>, t: Setting)
    requires |plans| == |ns| && plans != [] && DistinctNames(ns) && next == ApplyNext(a, plans[0], t)
    requires Planned(plans[0], ns[0], a.world.events)
    requires Apply(a.world, plans[0], t).ok == !Refused(plans[0], ns[0], t.server)
    requires if Refused(plans[0], ns[0], t.server) then next.world == a.world
             else Restored(next.world.events, ns[0]) && OthersKept(a.world.events, next.world.events, ns[0])
    requires var z := ApplyAll(next, plans[1..], t); var ok := Accepted(plans[1..], ns[1..], t.server);
      && z.errors == next.errors + RefusedUids(plans[1..], ns[1..], t.server)
      && AllRestored(z.world.events, ok) && UnnamedKept(next.world.events, z.world.events, ok)
    ensures var z := ApplyAll(a, plans, t); var ok := Accepted(plans, ns, t.server);
      && z == ApplyAll(next, plans[1..], t)
      && z.errors == a.errors + RefusedUids(plans, ns, t.server)
      && AllRestored(z.world.events, ok) && UnnamedKept(a.world.events, z.world.events, ok)
  {
    hide DistinctNames, AllRestored, UnnamedKept, OthersKept, Restored, Apply, Refused;
    var z, ok := ApplyAll(a, plans, t), Accepted(plans, ns, t.server);
    AcceptedDistinct(plans, ns, t.server);
    if Refused(plans[0], ns[0], t.server) {
      assert plans[0].eventUid == ns[0].uid;
      Snoc(a.errors, ns[0].uid, RefusedUids(plans[1..], ns[1..], t.server));
    } else {
      assert ok[1..] == Accepted(plans[1..], ns[1..], t.server);
      ChainKept(a.world.events, next.world.events, z.world.events, ok);
    }
  }

  lemma WrittenTail(plans: seq<Plan>, ns: seq<Named>, s: Server)
    requires |plans| == |ns| && plans != []
    ensures SomeWritten(plans, ns, s) <==>
      (!plans[0].operation.NoOp? && !Refused(plans[0], ns[0], s)) || SomeWritten(plans[1..], ns[1..], s)
  {
    hide Refused;
    if i :| 0 <= i < |plans| && !plans[i].operation.NoOp? && !Refused(plans[i], ns[i], s) {
      if i > 0 { assert plans[1..][i - 1] == plans[i] && ns[1..][i - 1] == ns[i]; }
    }
    if i :| 0 <= i < |plans[1..]| && !plans[1..][i].operation.NoOp? && !Refused(plans[1..][i], ns[1..][i], s) {
      assert plans[i + 1] == plans[1..][i] && ns[i + 1] == ns[1..][i];
    }
  }

  lemma AllPlannedSize(plans: seq<Plan>, ns: seq<Named>, events: seq<CalendarEvent>)
    requires AllPlanned(plans, ns, events)
    ensures |plans| == |ns|
    ensures ns != [] ==> Planned(plans[0], ns[0], events) && SafeUid(ns[0].uid)
  {}

  lemma NothingNamed(events: seq<CalendarEvent>, ns: seq<Named>)
    ensures UnnamedKept(events, events, ns) && (ns == [] ==> AllRestored(events, ns))
  {}

  // ── when a bulk plan fails, and what it collects ───────────────────────

  predicate TwoDots(s: string) { |s| >= 2 && (s[..2] == ".." || TwoDots(s[1..])) }

  lemma {:induction false} TwoDotsFound(s: string)
    ensures HasDotDot(s) <==> TwoDots(s)
  {
    if |s| >= 2 {
      TwoDotsFound(s[1..]);
      assert s[..2] == ".." <==> s[0] == '.' && s[1] == '.';
      if i :| 0 <= i < |s| - 1 && s[i] == '.' && s[i + 1] == '.' {
        if i > 0 { assert s[1..][i - 1] == '.' && s[1..][i - 1 + 1] == '.'; }
      }
      if i :| 0 <= i < |s[1..]| - 1 && s[1..][i] == '.' && s[1..][i + 1] == '.' {
        assert s[i + 1] == '.' && s[i + 1 + 1] == '.';
      }
    }
  }

  /** An event path whose blob cannot be read at the commit. */
  predicate Unreadable(h: History, sha: string, path: string) {
    EventOfPath(path).Some? && (TwoDots(path) || (sha, path) !in h.blobs)
  }

  lemma FileFails(b: BulkPlan, h: History, live: seq<CalendarEvent>, path: string, sha: string)
    ensures AddFile(b, h, live, path, sha).None? <==> Unreadable(h, sha, path)
  {
    hide ContactUid, SieveName, EventOfPath, HasDotDot, TwoDots, EventPath;
    TwoDotsFound(path);
    KindsDisjoint(path);
    ExtractedFrom(path);
  }

  lemma {:induction false} FilesFail(b: BulkPlan, h: History, live: seq<CalendarEvent>, paths: seq<string>, sha: string)
    ensures AddFiles(b, h, live, paths, sha).None? <==> exists p <- paths :: Unreadable(h, sha, p)
    decreases |paths|
  {
    hide AddFile, Unreadable;
    if paths != [] {
      FileFails(b, h, live, paths[0], sha);
      assert forall p :: p in paths <==> p == paths[0] || p in paths[1..];
      if AddFile(b, h, live, paths[0], sha).Some? {
        FilesFail(AddFile(b, h, live, paths[0], sha).value, h, live, paths[1..], sha);
      }
    }
  }

  /** A bulk plan fails exactly when the prefix has dots, the tree cannot be listed at
      the commit, or an event path has dots or no blob there. */
  lemma PlanFailsExactly(h: History, live: seq<CalendarEvent>, prefix: string, sha: string)
    ensures PlanOf(h, live, prefix, sha).None? <==>
      TwoDots(prefix) || h.files(sha, prefix).None?
      || exists p <- h.files(sha, prefix).value :: Unreadable(h, sha, p)
  {
    hide AddFiles, TwoDots, Unreadable, HasDotDot;
    TwoDotsFound(prefix);
    if h.files(sha, prefix).Some? { FilesFail(EMPTY, h, live, h.files(sha, prefix).value, sha); }
  }

  /** The contacts and scripts set aside are those the paths name, in order. */
  lemma {:induction false} CollectedPaths(b: BulkPlan, h: History, live: seq<CalendarEvent>, paths: seq<string>,
                                          sha: string)
    requires AddFiles(b, h, live, paths, sha).Some?
    ensures var r := AddFiles(b, h, live, paths, sha).value;
      && r.contacts == b.contacts + FilterMap(paths, ContactUid)
      && r.sieve == b.sieve + FilterMap(paths, SieveName)
    decreases |paths|
  {
    hide ContactUid, SieveName, EventOfPath, PlanCalendar;
    if paths != [] {
      var c := AddFile(b, h, live, paths[0], sha).value;
      KindsDisjoint(paths[0]);
      CollectedPaths(c, h, live, paths[1..], sha);
      if ContactUid(paths[0]).Some? { Snoc(b.contacts, ContactUid(paths[0]).value, FilterMap(paths[1..], ContactUid)); }
      if SieveName(paths[0]).Some? { Snoc(b.sieve, SieveName(paths[0]).value, FilterMap(paths[1..], SieveName)); }
    }
  }

  // ── the bulk restore ───────────────────────────────────────────────────

  /** The event a path names, with its body at the commit. */
  function NamedBy(h: History, sha: string): string -> Option<Named> {
    (path: string) =>
      match EventOfPath(path)
      case None => None
      case Some((cal, uid)) => Some(Named(cal, uid, BlobAt(h, sha, path)))
  }

  /** The blob of the commit at this path. */
  function BlobAt(h: History, sha: string, path: string): string {
    if (sha, path) in h.blobs then h.blobs[(sha, path)] else ""
  }

  function NamesIn(h: History, paths: seq<string>, sha: string): seq<Named> { FilterMap(paths, NamedBy(h, sha)) }

  /** Each path adds the plan of the event it names. */
  lemma {:induction false} PlansOf(b: BulkPlan, h: History, live: seq<CalendarEvent>, paths: seq<string>, sha: string)
    requires AddFiles(b, h, live, paths, sha).Some?
    ensures var plans := AddFiles(b, h, live, paths, sha).value.events; var ns := NamesIn(h, paths, sha);
      && |plans| == |b.events| + |ns|
      && (forall i :: 0 <= i < |b.events| ==> plans[i] == b.events[i])
      && forall i :: 0 <= i < |ns| ==> Planned(plans[|b.events| + i], ns[i], live)
    decreases |paths|
  {
    hide Planned, EventOfPath, ContactUid, SieveName, PlanCalendar;
    if paths != [] {
      var c := AddFile(b, h, live, paths[0], sha).value;
      KindsDisjoint(paths[0]);
      PlansOf(c, h, live, paths[1..], sha);
      var ns, rest := NamesIn(h, paths, sha), NamesIn(h, paths[1..], sha);
      if EventOfPath(paths[0]).Some? {
        var (cal, uid) := EventOfPath(paths[0]).value;
        ExtractedFrom(paths[0]);
        PlanIsPlanned(h, live, cal, uid, sha);
        assert ns == [NamedBy(h, sha)(paths[0]).value] + rest;
      }
    }
  }

  lemma PlanIsPlanned(h: History, live: seq<CalendarEvent>, cal: string, uid: string, sha: string)
    ensures var p := PlanCalendar(h, live, cal, uid, sha);
      p.Some? ==> Planned(p.value, Named(cal, uid, BlobAt(h, sha, EventPath(cal, uid))), live)
  {}

  /** Whether a plan can be made does not depend on the live store. */
  lemma {:induction false} PlannableAgain(b: BulkPlan, c: BulkPlan, h: History, live: seq<CalendarEvent>,
                                          now: seq<CalendarEvent>,
                                          paths: seq<string>, sha: string)
    requires AddFiles(b, h, live, paths, sha).Some?
    ensures AddFiles(c, h, now, paths, sha).Some?
    decreases |paths|
  {
    hide EventOfPath, ContactUid, SieveName;
    if paths != [] {
      PlannableAgain(AddFile(b, h, live, paths[0], sha).value, AddFile(c, h, now, paths[0], sha).value, h, live, now,
                     paths[1..], sha);
    }
  }

  predicate DistinctPaths(paths: seq<string>) { forall i, j :: 0 <= i < j < |paths| ==> paths[i] != paths[j] }

  lemma {:induction false} NamesDiffer(h: History, paths: seq<string>, sha: string)
    requires DistinctPaths(paths)
    ensures DistinctNames(NamesIn(h, paths, sha))
    ensures forall n <- NamesIn(h, paths, sha) :: exists p <- paths :: EventOfPath(p) == Some((n.cal, n.uid))
  {
    hide EventOfPath;
    if paths != [] {
      var rest := NamesIn(h, paths[1..], sha);
      NamesDiffer(h, paths[1..], sha);
      forall p | p in paths[1..] && EventOfPath(p).Some? ensures EventOfPath(p) != EventOfPath(paths[0]) {
        var i :| 0 <= i < |paths[1..]| && paths[1..][i] == p;
        assert paths[0] != paths[i + 1];
        if EventOfPath(p) == EventOfPath(paths[0]) { ExtractInjective(p, paths[0]); }
      }
      assert paths[0] in paths && forall p <- paths[1..] :: p in paths;
      assert forall i :: 0 <= i < |rest| ==> rest[i] in rest;
    }
  }

  /** No path comes twice, and the events named have safe uids. */
  predicate Restorable(paths: seq<string>) {
    DistinctPaths(paths) && forall p <- paths :: EventOfPath(p).Some? ==> SafeUid(EventOfPath(p).value.1)
  }

  /** The event is in a calendar that the server still lists. */
  predicate Listed(n: Named, t: Setting) { exists c <- t.cals :: c.id == n.cal }

  /** The file of a named event in a tree. */
  function FileOf(tree: CalTree, n: Named): Option<Content> { Find(NodeAt(tree, n.cal).files, IcsName(n.uid)) }

  /** The file a pull leaves for a restored event: calendars that are not listed
      have no directory. */
  function PulledFile(n: Named, t: Setting): Option<Content> { if Listed(n, t) then Some(Text(n.text)) else None }

  lemma RestoredNoOp(p: Plan, n: Named, events: seq<CalendarEvent>)
    requires Planned(p, n, events) && Restored(events, n)
    ensures p.operation == NoOp
  {}

  /** A mirrored tree has the body of every restored event of a listed calendar, and
      nothing of the other calendars. */
  lemma MirroredFile(w: World, n: Named, t: Setting)
    requires GoodSetting(t) && Proper(w.events, t.server) && Mirrored(w.tree, t.cals, w.events, t.env)
    requires Restored(w.events, n)
    ensures FileOf(w.tree, n) == PulledFile(n, t)
  {
    if Listed(n, t) {
      MirroredBody(w, n, t);
    } else {
      assert n.cal !in Dirs(t.cals);
    }
  }

  lemma MirroredBody(w: World, n: Named, t: Setting)
    requires GoodSetting(t) && Proper(w.events, t.server) && Mirrored(w.tree, t.cals, w.events, t.env)
    requires Restored(w.events, n) && Listed(n, t)
    ensures FileOf(w.tree, n) == Some(Text(n.text))
  {
    hide IcsName, Proper, DirMirrors, EndsWith;
    var c :| c in t.cals && c.id == n.cal;
    var e := Live(w.events, n.cal, n.uid).value;
    LiveFound(w.events, n.cal, n.uid);
    EventsOfIn(w.events, c.id);
    LiveKey(w.events, e, t.server);
    MirroredIcsFiles(FilesAt(w.tree, c), EventsOf(w.events, c.id), t.env, IcsName(n.uid), n.text);
  }

  lemma LiveKey(events: seq<CalendarEvent>, e: CalendarEvent, s: Server)
    requires Proper(events, s) && e in events
    ensures e.uid.Some? && Key(e) == e.uid.value
  {
    KeyIsUid(e, s);
  }

  /** What the bulk restore promises of the world after it: the events accepted
      have their historical bodies, all others are as they were, and the re-pulled
      tree, which is the one left behind if anything was written, has the files of
      those in listed calendars. */
  ghost predicate ReachesPast(before: World, after: World, b: BulkPlan, ns: seq<Named>, t: Setting)
    requires |b.events| == |ns|
  {
    var ok := Accepted(b.events, ns, t.server);
    && AllRestored(after.events, ok)
    && UnnamedKept(before.events, after.events, ok)
    && (var p := PullCalendar(after.tree, t.cals, after.events, t.env);
        p.ok && forall n <- ok :: FileOf(p.tree, n) == PulledFile(n, t))
    && (SomeWritten(b.events, ns, t.server) ==> forall n <- ok :: FileOf(after.tree, n) == PulledFile(n, t))
  }

  /** Planning again: nothing to do for what was accepted, the same as before for
      what was refused. */
  ghost predicate ReplansRest(b: BulkPlan, again: BulkPlan, ns: seq<Named>, s: Server)
    requires |b.events| == |ns|
  {
    && |again.events| == |ns|
    && forall i :: 0 <= i < |ns| ==>
         again.events[i].operation == if Refused(b.events[i], ns[i], s) then b.events[i].operation else NoOp
  }

  /** A bulk restore, whatever the server refuses. */
  lemma BulkRestoreExactly(h: History, prefix: string, sha: string, w: World, t: Setting)
    requires GoodSetting(t) && Ready(w, t)
    requires PlanOf(h, w.events, prefix, sha).Some? && Restorable(h.files(sha, prefix).value)
    ensures var b, ns := PlanOf(h, w.events, prefix, sha).value, NamesIn(h, h.files(sha, prefix).value, sha);
      var z := ApplyAll(Tally(w, 0, []), b.events, t);
      && |b.events| == |ns|
      && z.errors == RefusedUids(b.events, ns, t.server)
      && ReachesPast(w, z.world, b, ns, t)
      && var again := PlanOf(h, z.world.events, prefix, sha); again.Some? && ReplansRest(b, again.value, ns, t.server)
  {
    hide GoodSetting, Ready, AddFiles, ApplyAll, ReachesPast, ReplansRest, NamesIn, EventOfPath, AllPlanned,
      AllRestored;
    hide UnnamedKept, SomeWritten;
    var paths := h.files(sha, prefix).value;
    var b, ns := PlanOf(h, w.events, prefix, sha).value, NamesIn(h, paths, sha);
    NamesFit(h, paths, sha);
    BulkPlanned(h, w.events, paths, sha);
    AllRestore(Tally(w, 0, []), b.events, ns, t);
    var z := ApplyAll(Tally(w, 0, []), b.events, t);
    Reaches(w, z.world, b, ns, t);
    Replans(h, w.events, z.world.events, paths, sha, t);
  }

  /** Without an error planning again gives NoOps only, events not named are as they
      were, and the re-pulled tree holds the historical files. */
  lemma BulkRestoreReachesPast(h: History, prefix: string, sha: string, w: World, t: Setting)
    requires GoodSetting(t) && Ready(w, t)
    requires PlanOf(h, w.events, prefix, sha).Some? && Restorable(h.files(sha, prefix).value)
    requires ApplyAll(Tally(w, 0, []), PlanOf(h, w.events, prefix, sha).value.events, t).errors == []
    ensures var b, ns := PlanOf(h, w.events, prefix, sha).value, NamesIn(h, h.files(sha, prefix).value, sha);
      var after := ApplyAll(Tally(w, 0, []), b.events, t).world;
      && AllRestored(after.events, ns) && UnnamedKept(w.events, after.events, ns)
      && (var p := PullCalendar(after.tree, t.cals, after.events, t.env);
          p.ok && forall n <- ns :: FileOf(p.tree, n) == PulledFile(n, t))
      && ((exists i :: 0 <= i < |b.events| && !b.events[i].operation.NoOp?) ==>
          forall n <- ns :: FileOf(after.tree, n) == PulledFile(n, t))
      && var again := PlanOf(h, after.events, prefix, sha);
         again.Some? && forall p <- again.value.events :: p.operation == NoOp
  {
    hide GoodSetting, Ready, AddFiles, ApplyAll, NamesIn, PullCalendar, AllRestored, UnnamedKept, Restorable, Refused;
    BulkRestoreExactly(h, prefix, sha, w, t);
    NoneRefused(PlanOf(h, w.events, prefix, sha).value.events, NamesIn(h, h.files(sha, prefix).value, sha), t.server);
  }

  /** Of one event file of the commit, whatever else the commit holds: unless the
      server refuses its body, the live event has the body the commit has at that very
      path, and so has the re-pulled file if the calendar is listed. */
  lemma RestoredFromCommit(h: History, prefix: string, sha: string, w: World, t: Setting, path: string, cal: string,
                           uid: string)
    requires GoodSetting(t) && Ready(w, t)
    requires PlanOf(h, w.events, prefix, sha).Some? && Restorable(h.files(sha, prefix).value)
    requires path in h.files(sha, prefix).value && '/' !in cal
    requires path == "calendars/" + cal + "/" + "events/" + uid + ".ics"
    ensures (sha, path) in h.blobs
    ensures var old_ := h.blobs[(sha, path)];
      var z := ApplyAll(Tally(w, 0, []), PlanOf(h, w.events, prefix, sha).value.events, t).world;
      var tree := PullCalendar(z.tree, t.cals, z.events, t.env).tree;
      !t.server.refuses(cal, old_) ==>
        && (exists e <- z.events :: e.calendarId == Some(cal) && e.uid == Some(uid) && e.ical == Some(old_))
        && ((exists c <- t.cals :: c.id == cal) ==>
            cal in tree && Find(tree[cal].files, uid + ".ics") == Some(Text(old_)))
  {
    hide GoodSetting, Ready, AddFiles, ApplyAll, NamesIn, PullCalendar, EventOfPath, Accepted, Restorable, HasDotDot;
    hide Restored;
    EventSpelled(path, cal, uid);
    PlanFailsExactly(h, w.events, prefix, sha);
    assert !Unreadable(h, sha, path);
    var n := Named(cal, uid, h.blobs[(sha, path)]);
    var b, ns := PlanOf(h, w.events, prefix, sha).value, NamesIn(h, h.files(sha, prefix).value, sha);
    BulkRestoreExactly(h, prefix, sha, w, t);
    var z := ApplyAll(Tally(w, 0, []), b.events, t).world;
    NamedOnce(h, h.files(sha, prefix).value, sha, path);
    if !t.server.refuses(cal, n.text) {
      AcceptedFrom(b.events, ns, t.server);
      assert n in Accepted(b.events, ns, t.server);
      var ok := Accepted(b.events, ns, t.server);
      var i :| 0 <= i < |ok| && ok[i] == n;
      RestoredMeans(z.events, n);
      FileThere(PullCalendar(z.tree, t.cals, z.events, t.env).tree, n);
    }
  }

  lemma NamedOnce(h: History, paths: seq<string>, sha: string, path: string)
    requires path in paths && EventOfPath(path).Some? && (sha, path) in h.blobs
    ensures var (cal, uid) := EventOfPath(path).value; Named(cal, uid, h.blobs[(sha, path)]) in NamesIn(h, paths, sha)
  {
    hide EventOfPath;
    FilterMapIn(paths, NamedBy(h, sha));
    assert NamedBy(h, sha)(path).Some?;
  }

  lemma {:induction false} RestoredMeans(events: seq<CalendarEvent>, n: Named)
    requires Restored(events, n)
    ensures exists e <- events :: e.calendarId == Some(n.cal) && e.uid == Some(n.uid) && e.ical == Some(n.text)
  {
    if Is(events[0], n.cal, n.uid) {
      assert events[0] in events;
    } else {
      RestoredMeans(events[1..], n);
    }
  }

  lemma FileThere(tree: CalTree, n: Named)
    ensures FileOf(tree, n).Some? ==> n.cal in tree && Find(tree[n.cal].files, n.uid + ".ics") == FileOf(tree, n)
  {}

  lemma {:induction false} NoneRefused(plans: seq<Plan>, ns: seq<Named>, s: Server)
    requires |plans| == |ns| && RefusedUids(plans, ns, s) == []
    ensures Accepted(plans, ns, s) == ns && forall i :: 0 <= i < |ns| ==> !Refused(plans[i], ns[i], s)
  {
    hide Refused;
    if ns != [] {
      NoneRefused(plans[1..], ns[1..], s);
      forall i | 0 <= i < |ns| ensures !Refused(plans[i], ns[i], s) {
        if i > 0 { assert plans[i] == plans[1..][i - 1] && ns[i] == ns[1..][i - 1]; }
      }
    }
  }

  lemma NamesFit(h: History, paths: seq<string>, sha: string)
    requires Restorable(paths)
    ensures var ns := NamesIn(h, paths, sha); DistinctNames(ns) && forall n <- ns :: SafeUid(n.uid)
  {
    hide EventOfPath, SafeUid, NamesIn;
    NamesDiffer(h, paths, sha);
    var ns := NamesIn(h, paths, sha);
    forall n | n in ns ensures SafeUid(n.uid) {
      var p :| p in paths && EventOfPath(p) == Some((n.cal, n.uid));
    }
  }

  lemma BulkPlanned(h: History, live: seq<CalendarEvent>, paths: seq<string>, sha: string)
    requires AddFiles(EMPTY, h, live, paths, sha).Some? && Restorable(paths)
    ensures AllPlanned(AddFiles(EMPTY, h, live, paths, sha).value.events, NamesIn(h, paths, sha), live)
  {
    hide Planned, SafeUid, Restorable, AddFiles, NamesIn;
    PlansOf(EMPTY, h, live, paths, sha);
    NamesFit(h, paths, sha);
    var plans, ns := AddFiles(EMPTY, h, live, paths, sha).value.events, NamesIn(h, paths, sha);
    forall i | 0 <= i < |ns| ensures Planned(plans[i], ns[i], live) && SafeUid(ns[i].uid) {
      assert ns[i] in ns;
      assert plans[|EMPTY.events| + i] == plans[i];
    }
  }

  lemma Reaches(w: World, after: World, b: BulkPlan, ns: seq<Named>, t: Setting)
    requires |b.events| == |ns| && GoodSetting(t) && Ready(after, t)
    requires var ok := Accepted(b.events, ns, t.server);
      AllRestored(after.events, ok) && UnnamedKept(w.events, after.events, ok)
    requires SomeWritten(b.events, ns, t.server) ==> Mirrored(after.tree, t.cals, after.events, t.env)
    ensures ReachesPast(w, after, b, ns, t)
  {
    hide GoodSetting, Proper, Tidy, Mirrored, UnnamedKept, PullCalendar, FileOf, Restored, SomeWritten, Refused;
    hide PulledFile;
    ProperPull(after.tree, after.events, t);
    var p := PullCalendar(after.tree, t.cals, after.events, t.env);
    forall n | n in Accepted(b.events, ns, t.server)
      ensures FileOf(p.tree, n) == PulledFile(n, t)
      ensures SomeWritten(b.events, ns, t.server) ==> FileOf(after.tree, n) == PulledFile(n, t)
    {
      MirroredFile(World(after.events, p.tree), n, t);
      if SomeWritten(b.events, ns, t.server) { MirroredFile(after, n, t); }
    }
  }

  lemma Replans(h: History, live: seq<CalendarEvent>, now: seq<CalendarEvent>, paths: seq<string>, sha: string,
                t: Setting)
    requires AddFiles(EMPTY, h, live, paths, sha).Some? && DistinctNames(NamesIn(h, paths, sha))
    requires var b, ns := AddFiles(EMPTY, h, live, paths, sha).value, NamesIn(h, paths, sha);
      && |b.events| == |ns|
      && var ok := Accepted(b.events, ns, t.server); AllRestored(now, ok) && UnnamedKept(live, now, ok)
    ensures var again := AddFiles(EMPTY, h, now, paths, sha);
      again.Some? && ReplansRest(AddFiles(EMPTY, h, live, paths, sha).value, again.value, NamesIn(h, paths, sha),
                                 t.server)
  {
    hide Planned, AddFiles, NamesIn, Restored, Refused, UnnamedKept, DistinctNames;
    PlannableAgain(EMPTY, EMPTY, h, live, now, paths, sha);
    PlansOf(EMPTY, h, live, paths, sha);
    PlansOf(EMPTY, h, now, paths, sha);
    var b, again := AddFiles(EMPTY, h, live, paths, sha).value, AddFiles(EMPTY, h, now, paths, sha).value;
    var ns := NamesIn(h, paths, sha);
    forall i | 0 <= i < |ns|
      ensures again.events[i].operation == if Refused(b.events[i], ns[i], t.server) then b.events[i].operation else NoOp
    {
      assert again.events[|EMPTY.events| + i] == again.events[i] && b.events[|EMPTY.events| + i] == b.events[i];
      if Refused(b.events[i], ns[i], t.server) {
        RefusedElsewhere(b.events, ns, t.server, i);
        SamePlan(b.events[i], again.events[i], ns[i], live, now, Accepted(b.events, ns, t.server));
      } else {
        AcceptedFrom(b.events, ns, t.server);
        RestoredNoOp(again.events[i], ns[i], now);
      }
    }
  }

  lemma RefusedElsewhere(plans: seq<Plan>, ns: seq<Named>, s: Server, i: nat)
    requires |plans| == |ns| && i < |ns| && DistinctNames(ns) && Refused(plans[i], ns[i], s)
    ensures NoneSame(Accepted(plans, ns, s), ns[i].cal, ns[i].uid)
  {
    hide Refused;
    AcceptedFrom(plans, ns, s);
    var ok := Accepted(plans, ns, s);
    forall k | 0 <= k < |ok| ensures !(ok[k].cal == ns[i].cal && ok[k].uid == ns[i].uid) {
      assert ok[k] in ok;
      var j :| 0 <= j < |ns| && ns[j] == ok[k] && !Refused(plans[j], ns[j], s);
      assert i != j && (i < j ==> !Same(ns[i], ns[j])) && (j < i ==> !Same(ns[j], ns[i]));
    }
  }

  lemma SamePlan(p: Plan, q: Plan, n: Named, live: seq<CalendarEvent>, now: seq<CalendarEvent>, ok: seq<Named>)
    requires Planned(p, n, live) && Planned(q, n, now) && UnnamedKept(live, now, ok) && NoneSame(ok, n.cal, n.uid)
    ensures q.operation == p.operation
  {
    assert Live(now, n.cal, n.uid) == Live(live, n.cal, n.uid);
  }

  // ── calendar ids that are no directory names ───────────────────────────

  /** Why calendar ids must be directory names: the id in an event's backup path is
      the directory's. The plan made from that path finds the live event, which
      still has the historical body, exactly when sanitising kept the id. */
  lemma SanitisedIdMissed(h: History, sha: string, events: seq<CalendarEvent>, s: Server, e: CalendarEvent)
    requires Proper(events, s) && e in events
    requires var dir := FilenameSafe(e.calendarId.value);
      && ReadBlob(h, sha, EventPath(dir, e.uid.value)) == e.ical
      && forall x <- events :: x.calendarId == Some(dir) ==> e.calendarId == Some(dir)
    ensures var dir := FilenameSafe(e.calendarId.value);
      && EventOfPath(EventPath(dir, e.uid.value)) == Some((dir, e.uid.value))
      && var p := PlanCalendar(h, events, dir, e.uid.value, sha);
         p.Some? && (p.value.operation == NoOp <==> dir == e.calendarId.value)
         && (dir != e.calendarId.value ==> p.value.operation == Recreate(e.ical.value))
  {
    hide SafeUid;
    var cal, uid := e.calendarId.value, e.uid.value;
    var dir := FilenameSafe(cal);
    NoSlash(cal);
    EventPathRoundTrip(dir, uid);
    LiveFound(events, dir, uid);
    if dir == cal { SameEvent(events, s, Live(events, dir, uid).value, e); }
  }

  lemma NoSlash(s: string)
    ensures '/' !in FilenameSafe(s)
  {}
}
