/** The files a pull leaves, said of the remote's own events: their names, their
    bodies and their sidecars. */
module PulledFiles {
  import opened Seqs
  import opened Tree
  import opened Pull
  import opened PullProofs

  // ── names ──────────────────────────────────────────────────────────────

  /** None of the five characters that a name in the tree may not hold. */
  predicate Portable(s: string) { '/' !in s && '\\' !in s && '\0' !in s && '\n' !in s && '\r' !in s }

  /** Sanitising puts an underscore in the place of these five characters and changes
      nothing else. */
  lemma FilenameSafeExactly(s: string)
    ensures |FilenameSafe(s)| == |s|
    ensures forall i :: 0 <= i < |s| ==> FilenameSafe(s)[i] == if Portable([s[i]]) then s[i] else '_'
    ensures FilenameSafe(s) == s <==> Portable(s)
  {
    var r := FilenameSafe(s);
    forall i | 0 <= i < |s| ensures r[i] == if Portable([s[i]]) then s[i] else '_' { OneSafe(s[i]); }
    PortableAll(s);
    OneSafe('_');
    assert r == s <==> forall i :: 0 <= i < |s| ==> r[i] == s[i];
  }

  lemma OneSafe(c: char)
    ensures SafeChar(c) == if Portable([c]) then c else '_'
    ensures Portable([c]) <==> c != '/' && c != '\\' && c != '\0' && c != '\n' && c != '\r'
  {
    assert [c][0] == c;
  }

  lemma PortableAll(s: string)
    ensures Portable(s) <==> forall i :: 0 <= i < |s| ==> Portable([s[i]])
  {
    forall i | 0 <= i < |s| ensures Portable([s[i]]) <==>
      s[i] != '/' && s[i] != '\\' && s[i] != '\0' && s[i] != '\n' && s[i] != '\r'
    {
      OneSafe(s[i]);
    }
    assert forall c: char :: c in s <==> exists i :: 0 <= i < |s| && s[i] == c;
  }

  // ── files ──────────────────────────────────────────────────────────────

  lemma {:induction false} AfterAllAt(ms: Dirwise, cals: seq<Calendar>, events: seq<CalendarEvent>, env: Env,
                                      c: Calendar)
    requires DistinctDirs(cals) && c in cals && DirName(c) in ms
    ensures DirName(c) in AfterAll(ms, cals, events, env)
    ensures AfterAll(ms, cals, events, env)[DirName(c)] == After(ms[DirName(c)], EventsOf(events, c.id), env)
  {
    hide DirName, After, EventsOf;
    DirsCons(cals);
    if c in cals[1..] {
      assert DirName(c) in Dirs(cals[1..]);
      AfterAllAt(ms, cals[1..], events, env, c);
    }
  }

  /** The name an event goes by: its uid, else its id. */
  function NameOf(e: CalendarEvent): string { match e.uid case Some(u) => u case None => e.id }

  function TextOf(e: CalendarEvent): string { match e.ical case Some(t) => t case None => "" }

  predicate Belongs(e: CalendarEvent, c: Calendar) { c.id == match e.calendarId case Some(id) => id case None => "" }

  /** What was stored is current: the etags agree or, when one is missing, the hash of
      the body does. */
  predicate Current(m: EventMeta, e: CalendarEvent, env: Env) {
    if e.etag.Some? && m.etag.Some? then e.etag == m.etag else m.contentSha256 == Some(env.hash(TextOf(e)))
  }

  /** After a pull an event of a listed calendar is a file of its name with its body,
      beside a sidecar: the one that was there if it is current, else one with the
      event's id, uid, calendar, etag and time and the hash of the body. */
  lemma PulledEvent(tree: CalTree, ms: Dirwise, cals: seq<Calendar>, events: seq<CalendarEvent>, env: Env,
                    c: Calendar, e: CalendarEvent)
    requires Lists(env) && AllPullable(tree, ms, cals, events, env)
    requires c in cals && e in events && Belongs(e, c) && Portable(c.id) && Portable(NameOf(e))
    ensures c.id in ms
    ensures var p := PullCalendar(tree, cals, events, env);
      && p.ok && c.id in p.tree && p.tree[c.id].manifest == Some(c)
      && var files, was := p.tree[c.id].files, Find(ms[c.id], NameOf(e));
         && Find(files, NameOf(e) + ".ics") == Some(Text(TextOf(e)))
         && Find(files, NameOf(e) + ".meta.json") == Some(MetaJson(
              if was.Some? && Current(was.value.meta, e, env) then was.value.meta
              else EventMeta(e.id, e.uid, e.calendarId, Some(env.hash(TextOf(e))), e.etag, e.updatedAt)))
  {
    hide PullCalendar, AfterAll, DirMirrors, Renders, Mirrors, Faithful, DistinctDirs, After;
    FilenameSafeExactly(c.id);
    FilenameSafeExactly(NameOf(e));
    assert DirName(c) == c.id && Key(e) == NameOf(e) && Body(e) == TextOf(e) && In(e, c.id);
    PullMirrors(tree, ms, cals, events, env);
    AfterAllAt(ms, cals, events, env, c);
    var p := PullCalendar(tree, cals, events, env);
    var es := EventsOf(events, c.id);
    InCalendar(events, e, c.id);
    EntryAfter(ms[c.id], es, env, e);
    DirsIn(cals, c);
    FilesOfEntry(FilesAt(p.tree, c), After(ms[c.id], es, env), Key(e));
  }

  lemma {:induction false} InCalendar(events: seq<CalendarEvent>, e: CalendarEvent, c: string)
    requires e in events && In(e, c)
    ensures e in EventsOf(events, c)
  {
    if e != events[0] { InCalendar(events[1..], e, c); }
  }

  lemma EntryAfter(m: Entries, es: seq<CalendarEvent>, env: Env, e: CalendarEvent)
    requires DistinctKeys(es) && Faithful(m, es, env) && e in es
    ensures var k, after := Key(e), After(m, es, env);
      && k in after && after[k].text == Body(e)
      && after[k].meta == (if k in m && Current(m[k].meta, e, env) then m[k].meta else MetaOf(e, env))
  {
    hide Key, OnEntries;
    OnEntriesAt(m, es, Metas(m), env, e);
    AfterMirrors(m, es, env);
    assert Key(e) in Keys(es);
  }

  lemma FilesOfEntry(files: Files, m: Entries, k: string)
    requires Renders(files, m) && k in m
    ensures Find(files, k + ".ics") == Some(Text(m[k].text))
    ensures Find(files, k + ".meta.json") == Some(MetaJson(m[k].meta))
  {
    assert IcsName(k) == k + ".ics" && MetaName(k) == k + ".meta.json";
  }
}
