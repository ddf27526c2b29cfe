/** Calendar restore: a plan against history, its application to the live store
    and the re-pull; and the bulk restore over a list of paths. */
module Restore {
  import opened Seqs
  import opened Pull
  import opened Paths

  // ── history ────────────────────────────────────────────────────────────

  /** `git show <sha>:<path>` and `git ls-tree` at a commit. */
  datatype History = History(blobs: map<(string, string), string>, files: (string, string) -> Option<seq<string>>)

  predicate HasDotDot(s: string) { exists i :: 0 <= i < |s| - 1 && s[i] == '.' && s[i + 1] == '.' }

  /** `read_git_blob`: a path with `..` is refused, a missing blob is an error. */
  function ReadBlob(h: History, sha: string, path: string): Option<string> {
    if HasDotDot(path) || (sha, path) !in h.blobs then None else Some(h.blobs[(sha, path)])
  }

  // ── the live store ─────────────────────────────────────────────────────

  /** The server: which writes it refuses, the etag it gives a body, and the id of
      a new event. It stores bodies verbatim. */
  datatype Server = Server(
    refuses: (string, string) -> bool, tag: string -> Option<string>, newId: seq<CalendarEvent> -> string)

  predicate Is(e: CalendarEvent, cal: string, uid: string) { e.calendarId == Some(cal) && e.uid == Some(uid) }

  predicate HasId(e: CalendarEvent, cal: string, id: string) { e.calendarId == Some(cal) && e.id == id }

  /** The first live event of this calendar with this iCalendar uid. */
  function Live(events: seq<CalendarEvent>, cal: string, uid: string): Option<CalendarEvent> {
    if events == [] then None else if Is(events[0], cal, uid) then Some(events[0]) else Live(events[1..], cal, uid)
  }

  function WithBody(e: CalendarEvent, ical: string, s: Server): CalendarEvent {
    e.(ical := Some(ical), etag := s.tag(ical))
  }

  /** `update_event`, by calendar and event id. */
  function Updated(events: seq<CalendarEvent>, cal: string, id: string, ical: string, s: Server): seq<CalendarEvent> {
    if events == [] then []
    else [if HasId(events[0], cal, id) then WithBody(events[0], ical, s) else events[0]]
         + Updated(events[1..], cal, id, ical, s)
  }

  /** `create_event`, addressed by uid. */
  function Created(events: seq<CalendarEvent>, cal: string, uid: string, ical: string, s: Server): seq<CalendarEvent> {
    events + [CalendarEvent(s.newId(events), Some(uid), Some(cal), Some(ical), s.tag(ical), None)]
  }

  // ── plans ──────────────────────────────────────────────────────────────

  datatype Operation = UpdateIcal(target: string) | Recreate(ical: string) | NoOp

  datatype Plan = Plan(
    path: string, atSha: string, calendarId: string, eventUid: string, operation: Operation,
    liveEventId: Option<string>)

  function OperationFor(live: Option<CalendarEvent>, historical: string): Operation {
    match live
    case None => Recreate(historical)
    case Some(e) => if e.ical == Some(historical) then NoOp else UpdateIcal(historical)
  }

  /** `plan_calendar` */
  function PlanCalendar(h: History, events: seq<CalendarEvent>, cal: string, uid: string, sha: string): Option<Plan> {
    var path := EventPath(cal, uid);
    match ReadBlob(h, sha, path)
    case None => None
    case Some(historical) =>
      var live := Live(events, cal, uid);
      Some(Plan(path, sha, cal, uid, OperationFor(live, historical),
                match live case None => None case Some(e) => Some(e.id)))
  }

  // ── applying ───────────────────────────────────────────────────────────

  datatype World = World(events: seq<CalendarEvent>, tree: CalTree)

  /** What stays the same during a restore. */
  datatype Setting = Setting(cals: seq<Calendar>, env: Env, server: Server, token: Plan -> string)

  datatype Applied = Applied(world: World, ok: bool)

  /** The write of a plan; None when the server refuses or the event is not there. */
  function Write(events: seq<CalendarEvent>, p: Plan, s: Server): Option<seq<CalendarEvent>> {
    match p.operation
    case NoOp => Some(events)
    case UpdateIcal(target) =>
      if p.liveEventId.None? || s.refuses(p.calendarId, target)
         || !(exists e <- events :: HasId(e, p.calendarId, p.liveEventId.value)) then None
      else Some(Updated(events, p.calendarId, p.liveEventId.value, target, s))
    case Recreate(ical) =>
      if s.refuses(p.calendarId, ical) then None else Some(Created(events, p.calendarId, p.eventUid, ical, s))
  }

  /** `apply_calendar`: a NoOp returns at once; otherwise the write and the re-pull. */
  function Apply(w: World, p: Plan, t: Setting): Applied {
    if p.operation.NoOp? then Applied(w, true)
    else match Write(w.events, p, t.server)
      case None => Applied(w, false)
      case Some(events) =>
        var pulled := PullCalendar(w.tree, t.cals, events, t.env);
        Applied(World(events, pulled.tree), pulled.ok)
  }

  /** The sub-plans one after the other; an error does not stop the rest. */
  datatype Tally = Tally(world: World, ok: nat, errors: seq<string>)

  function ApplyNext(a: Tally, p: Plan, t: Setting): Tally {
    var r := Apply(a.world, p, t);
    if r.ok then Tally(r.world, a.ok + 1, a.errors) else Tally(r.world, a.ok, a.errors + [p.eventUid])
  }

  function ApplyAll(a: Tally, plans: seq<Plan>, t: Setting): Tally
    decreases |plans|
  {
    if plans == [] then a else ApplyAll(ApplyNext(a, plans[0], t), plans[1..], t)
  }

  // ── bulk plans ─────────────────────────────────────────────────────────

  /** The contacts and scripts found, and a plan per event. */
  datatype BulkPlan = BulkPlan(contacts: seq<string>, sieve: seq<string>, events: seq<Plan>)

  function AddFile(b: BulkPlan, h: History, live: seq<CalendarEvent>, path: string, sha: string): Option<BulkPlan> {
    if ContactUid(path).Some? then Some(b.(contacts := b.contacts + [ContactUid(path).value]))
    else if SieveName(path).Some? then Some(b.(sieve := b.sieve + [SieveName(path).value]))
    else match EventOfPath(path)
      case None => Some(b)
      case Some((cal, uid)) =>
        match PlanCalendar(h, live, cal, uid, sha)
        case None => None
        case Some(p) => Some(b.(events := b.events + [p]))
  }

  function AddFiles(b: BulkPlan, h: History, live: seq<CalendarEvent>, paths: seq<string>,
                    sha: string): Option<BulkPlan>
    decreases |paths|
  {
    if paths == [] then Some(b)
    else match AddFile(b, h, live, paths[0], sha)
      case None => None
      case Some(c) => AddFiles(c, h, live, paths[1..], sha)
  }

  const EMPTY := BulkPlan([], [], [])

  /** `plan_bulk` */
  function PlanOf(h: History, live: seq<CalendarEvent>, prefix: string, sha: string): Option<BulkPlan> {
    if HasDotDot(prefix) then None
    else match h.files(sha, prefix)
      case None => None
      case Some(paths) => AddFiles(EMPTY, h, live, paths, sha)
  }

  // ── the methods ────────────────────────────────────────────────────────

  class CalendarStore {
    var events: seq<CalendarEvent>

    constructor (initial: seq<CalendarEvent>)
      ensures events == initial
    {
      events := initial;
    }

    method UpdateEvent(cal: string, id: string, ical: string, s: Server) returns (ok: bool)
      modifies this
      ensures ok == (!s.refuses(cal, ical) && exists e <- old(events) :: HasId(e, cal, id))
      ensures events == if ok then Updated(old(events), cal, id, ical, s) else old(events)
    {
      ok := !s.refuses(cal, ical) && exists e <- events :: HasId(e, cal, id);
      if ok { events := Updated(events, cal, id, ical, s); }
    }

    method CreateEvent(cal: string, uid: string, ical: string, s: Server) returns (ok: bool)
      modifies this
      ensures ok == !s.refuses(cal, ical)
      ensures events == if ok then Created(old(events), cal, uid, ical, s) else old(events)
    {
      ok := !s.refuses(cal, ical);
      if ok { events := Created(events, cal, uid, ical, s); }
    }
  }

  /** A wrong token changes nothing. */
  method ApplyCalendar(store: CalendarStore, repo: Repo, p: Plan, supplied: string, t: Setting) returns (ok: bool)
    modifies store, repo
    ensures supplied != t.token(p) ==> !ok && store.events == old(store.events) && repo.tree == old(repo.tree)
    ensures supplied == t.token(p) ==>
      Applied(World(store.events, repo.tree), ok) == Apply(World(old(store.events), old(repo.tree)), p, t)
  {
    if t.token(p) != supplied { return false; }
    var written: bool;
    match p.operation {
      case NoOp => return true;
      case UpdateIcal(target) =>
        if p.liveEventId.None? { return false; }
        written := store.UpdateEvent(p.calendarId, p.liveEventId.value, target, t.server);
      case Recreate(ical) =>
        written := store.CreateEvent(p.calendarId, p.eventUid, ical, t.server);
    }
    if !written { return false; }
    var pulled := RunPull(repo, t.cals, store.events, t.env);
    ok := pulled.Some?;
  }

  method PlanBulk(store: CalendarStore, h: History, prefix: string, sha: string) returns (plan: Option<BulkPlan>)
    ensures plan == PlanOf(h, store.events, prefix, sha)
  {
    if HasDotDot(prefix) { return None; }
    var paths := h.files(sha, prefix);
    if paths.None? { return None; }
    var b := EMPTY;
    var rest := paths.value;
    while rest != []
      invariant AddFiles(b, h, store.events, rest, sha) == AddFiles(EMPTY, h, store.events, paths.value, sha)
      decreases |rest|
    {
      var path := rest[0];
      rest := rest[1..];
      var uid := ContactUid(path);
      if uid.Some? {
        b := b.(contacts := b.contacts + [uid.value]);
        continue;
      }
      var name := SieveName(path);
      if name.Some? {
        b := b.(sieve := b.sieve + [name.value]);
        continue;
      }
      var event := EventOfPath(path);
      if event.Some? {
        var p := PlanCalendar(h, store.events, event.value.0, event.value.1, sha);
        if p.None? { return None; }
        b := b.(events := b.events + [p.value]);
      }
    }
    plan := Some(b);
  }

  /** The calendar loop of `apply_bulk`, behind the bulk token. None is the token
      mismatch. */
  method ApplyBulk(store: CalendarStore, repo: Repo, b: BulkPlan, bulkToken: BulkPlan -> string, supplied: string,
                   t: Setting)
    returns (result: Option<(nat, seq<string>)>)
    modifies store, repo
    ensures result.None? <==> supplied != bulkToken(b)
    ensures result.None? ==> store.events == old(store.events) && repo.tree == old(repo.tree)
    ensures result.Some? ==>
      Tally(World(store.events, repo.tree), result.value.0, result.value.1)
      == ApplyAll(Tally(World(old(store.events), old(repo.tree)), 0, []), b.events, t)
  {
    hide Apply;
    if bulkToken(b) != supplied { return None; }
    var okCount: nat, errors: seq<string> := 0, [];
    ghost var start := Tally(World(store.events, repo.tree), 0, []);
    var rest := b.events;
    while rest != []
      invariant ApplyAll(Tally(World(store.events, repo.tree), okCount, errors), rest, t) ==
          ApplyAll(start, b.events, t)
      decreases |rest|
    {
      var p := rest[0];
      rest := rest[1..];
      var ok := ApplyCalendar(store, repo, p, t.token(p), t);
      if ok { okCount := okCount + 1; } else { errors := errors + [p.eventUid]; }
    }
    result := Some((okCount, errors));
  }
}
