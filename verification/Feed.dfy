/** `merge_calendar` of `feed.rs`: many stored payloads, one feed. */
module Feed {
  import opened Seqs
  import opened Text
  import opened Lines
  import opened Vevent
  import opened Components
  import opened Zones
  import opened Order

  datatype CalendarEvent = CalendarEvent(ical: Option<string>)

  // ── VTIMEZONE identifiers ──────────────────────────────────────────────

  /** The property name of any line, with or without a colon. */
  function FieldName(line: string): string {
    var head := line[..Find(line, ':')];
    head[..Find(head, ';')]
  }

  /** `scan_field` over lines: the first line of that name decides. */
  function ScanFieldLines(ls: seq<string>, name: string): Option<string> {
    if ls == [] then None
    else if SameName(FieldName(ls[0]), name) then
      var colon := Find(ls[0], ':');
      if colon < |ls[0]| then Some(ls[0][colon + 1..]) else None
    else ScanFieldLines(ls[1..], name)
  }

  function ScanField(text: string, name: string): Option<string> {
    ScanFieldLines(LogicalLines(text), name)
  }

  function ZoneId(zone: Block): Option<string> { ScanField(Unlines(zone), "TZID") }

  // ── the ordered table of zones ─────────────────────────────────────────

  type Table<V> = seq<(string, V)>

  predicate Sorted<V>(t: Table<V>) {
    forall i, j :: 0 <= i < j < |t| ==> Before(t[i].0, t[j].0)
  }

  /** `BTreeMap::entry(k).or_insert(v)` */
  function InsertNew<V>(t: Table<V>, k: string, v: V): Table<V> {
    if t == [] then [(k, v)]
    else if t[0].0 == k then t
    else if Before(k, t[0].0) then [(k, v)] + t
    else [t[0]] + InsertNew(t[1..], k, v)
  }

  function Lookup<V>(t: Table<V>, k: string): Option<V> {
    if t == [] then None else if t[0].0 == k then Some(t[0].1) else Lookup(t[1..], k)
  }

  lemma {:induction false} InsertLookup<V>(t: Table<V>, k: string, v: V, q: string)
    ensures Lookup(InsertNew(t, k, v), q) ==
            if Lookup(t, q).Some? || q != k then Lookup(t, q) else Some(v)
    requires Sorted(t)
  {
    if t != [] && t[0].0 != k {
      if Before(k, t[0].0) {
        if q == k { AllAfter(t, k); }
        assert ([(k, v)] + t)[1..] == t;
      } else {
        InsertLookup(t[1..], k, v, q);
        assert ([t[0]] + InsertNew(t[1..], k, v))[1..] == InsertNew(t[1..], k, v);
      }
    }
  }

  lemma {:induction false} AllAfter<V>(t: Table<V>, k: string)
    requires Sorted(t) && t != [] && Before(k, t[0].0)
    ensures Lookup(t, k) == None
  {
    BeforeIrreflexive(k);
    if |t| > 1 {
      BeforeTransitive(k, t[0].0, t[1].0);
      AllAfter(t[1..], k);
    }
  }

  lemma {:induction false} InsertSorted<V>(t: Table<V>, k: string, v: V)
    requires Sorted(t)
    ensures Sorted(InsertNew(t, k, v))
    ensures forall e <- InsertNew(t, k, v) :: e == (k, v) || e in t
  {
    if t != [] && t[0].0 != k {
      BeforeTotal(k, t[0].0);
      if Before(k, t[0].0) {
        forall i | 0 <= i < |t| ensures Before(k, t[i].0) {
          if i > 0 { BeforeTransitive(k, t[0].0, t[i].0); }
        }
      } else {
        InsertSorted(t[1..], k, v);
        var r := InsertNew(t[1..], k, v);
        forall i | 0 <= i < |r| ensures Before(t[0].0, r[i].0) {
          assert r[i] in r;
          if r[i] != (k, v) {
            var j :| 0 <= j < |t[1..]| && t[1..][j] == r[i];
            assert t[j + 1] == r[i];
          }
        }
      }
    }
  }

  function TextEntry(e: (string, Block)): (string, string) { (e.0, Unlines(e.1)) }

  function Texts(t: Table<Block>): Table<string> { Map(t, TextEntry) }

  lemma {:induction false} InsertText(t: Table<Block>, k: string, b: Block)
    ensures Texts(InsertNew(t, k, b)) == InsertNew(Texts(t), k, Unlines(b))
  {
    hide Unlines, Before;
    if t == [] {
      assert Texts([(k, b)]) == [(k, Unlines(b))];
    } else {
      InsertText(t[1..], k, b);
      assert Texts(t)[1..] == Texts(t[1..]);
      MapCons(t[0], InsertNew(t[1..], k, b), TextEntry);
      MapCons((k, b), t, TextEntry);
    }
  }

  // ── collecting ─────────────────────────────────────────────────────────

  function AddZones(t: Table<Block>, zoneBlocks: seq<Block>): Table<Block>
    decreases |zoneBlocks|
  {
    if zoneBlocks == [] then t
    else
      AddZones(match ZoneId(zoneBlocks[0]) case Some(id) => InsertNew(t, id, zoneBlocks[0]) case None => t,
               zoneBlocks[1..])
  }

  predicate Usable(ev: CalendarEvent) { ev.ical.Some? && Trim(ev.ical.value) != "" }

  /** The blocks one event contributes after rewriting. */
  function Parts(zones: map<string, string>, ev: CalendarEvent, name: string): seq<Block> {
    if ev.ical.None? then [] else Extract(RewriteWindowsTzids(zones, ev.ical.value), name)
  }

  /** Every block of the payloads, in order. */
  function AllParts(zones: map<string, string>, events: seq<CalendarEvent>, name: string): seq<Block> {
    if events == [] then [] else Parts(zones, events[0], name) + AllParts(zones, events[1..], name)
  }

  function Header(calName: string, prodid: string): seq<string> {
    ["BEGIN:VCALENDAR", "VERSION:2.0", "PRODID:" + prodid, "CALSCALE:GREGORIAN", "METHOD:PUBLISH",
     "X-WR-CALNAME:" + calName]
  }

  function Second<V>(t: Table<V>): seq<V> { Map(t, (e: (string, V)) => e.1) }

  /** The lines of the feed. */
  function FeedLines(calName: string, prodid: string, table: Table<Block>, vevents: seq<Block>): seq<string> {
    Header(calName, prodid) + (Concat(Second(table)) + (Concat(vevents) + ["END:VCALENDAR"]))
  }

  lemma {:induction false} AddZonesConcat(t: Table<Block>, a: seq<Block>, b: seq<Block>)
    ensures AddZones(t, a + b) == AddZones(AddZones(t, a), b)
    decreases |a|
  {
    if a == [] {
      assert a + b == b;
    } else {
      Uncons(a, b);
      AddZonesConcat(match ZoneId(a[0]) case Some(id) => InsertNew(t, id, a[0]) case None => t, a[1..], b);
    }
  }

  lemma {:induction false} AllPartsConcat(zones: map<string, string>, a: seq<CalendarEvent>, b: seq<CalendarEvent>,
                                          name: string)
    ensures AllParts(zones, a + b, name) == AllParts(zones, a, name) + AllParts(zones, b, name)
  {
    if a == [] {
      assert a + b == b;
    } else {
      Uncons(a, b);
      AllPartsConcat(zones, a[1..], b, name);
      Assoc(Parts(zones, a[0], name), AllParts(zones, a[1..], name), AllParts(zones, b, name));
    }
  }

  lemma PartsUpTo(zones: map<string, string>, events: seq<CalendarEvent>, i: nat, name: string)
    requires i < |events|
    ensures AllParts(zones, events[..i + 1], name) == AllParts(zones, events[..i], name) + Parts(zones, events[i], name)
  {
    assert events[..i + 1] == events[..i] + [events[i]];
    AllPartsConcat(zones, events[..i], [events[i]], name);
    assert [events[i]][1..] == [];
  }

  // ── payloads of white space only contribute nothing, skipped or not ────

  lemma {:induction false} TrimmedAway(s: string)
    requires Trim(s) == ""
    ensures AllWhite(s)
  {
    EndTrimmed(TrimStart(s));
    StartTrimmed(s);
  }

  lemma {:induction false} StartTrimmed(s: string)
    requires AllWhite(TrimStart(s))
    ensures AllWhite(s)
  {
    if s != "" && IsWhite(s[0]) {
      StartTrimmed(s[1..]);
      assert s == [s[0]] + s[1..];
    }
  }

  lemma {:induction false} EndTrimmed(s: string)
    requires TrimEnd(s) == ""
    ensures AllWhite(s)
  {
    if s != "" {
      EndTrimmed(s[..|s| - 1]);
      assert s == s[..|s| - 1] + [s[|s| - 1]];
    }
  }

  lemma {:induction false} UnfoldWhite(s: string)
    requires AllWhite(s)
    ensures AllWhite(Unfold(s))
    decreases |s|
  {
    if s != "" {
      assert s[0] in s;
      UnfoldWhite(s[1..]);
      UnfoldCons(s[0], s[1..]);
      assert s == [s[0]] + s[1..];
      if OpensFold(s[0], s[1..]) && s[0] == '\n' { UnfoldWhite(s[1..][1..]); }
    }
  }

  /** A line the rewriting changes holds a letter. */
  lemma ChangedNotWhite(zones: map<string, string>, core: string)
    requires RewriteCore(zones, core) != core
    ensures !AllWhite(core)
  {
    hide ToIana, TzidSpan;
    Letters();
    if PROPERTY <= core {
      assert core[0] == PROPERTY[0];
    } else {
      var from := TzidSpan(core).value.from;
      assert core[from - 5] == core[from - 6..from][1] == PARAMETER[1];
    }
  }

  lemma Letters()
    ensures !IsWhite(PROPERTY[0]) && !IsWhite(PARAMETER[1])
  {}

  lemma {:induction false} RewriteWhite(zones: map<string, string>, s: string)
    requires AllWhite(s)
    ensures RewriteText(zones, s) == s
    decreases |s|
  {
    hide RewriteTzidLine;
    if s != "" {
      var line := FirstLine(s);
      assert AllWhite(AfterBreak(s)) && AllWhite(line);
      RewriteWhite(zones, AfterBreak(s));
      WhiteLineKept(zones, line);
    }
  }

  lemma WhiteLineKept(zones: map<string, string>, line: string)
    requires AllWhite(line)
    ensures RewriteTzidLine(zones, line) == line
  {
    hide RewriteCore;
    var core := TrimBreak(line);
    if RewriteCore(zones, core) != core { ChangedNotWhite(zones, core); }
  }

  lemma MarkerNotWhite(name: string)
    ensures !AllWhite("BEGIN:" + name)
  {
    var begin := "BEGIN:" + name;
    assert begin[0] == 'B';
  }

  lemma BlankContributesNothing(zones: map<string, string>, ev: CalendarEvent, name: string)
    requires !Usable(ev)
    ensures Parts(zones, ev, name) == []
  {
    if ev.ical.Some? {
      var s := ev.ical.value;
      TrimmedAway(s);
      UnfoldWhite(s);
      RewriteWhite(zones, Unfold(s));
      UnfoldWhite(Unfold(s));
      WhiteLines(Unfold(Unfold(s)));
      var ls := LogicalLines(Unfold(s));
      var begin := "BEGIN:" + name;
      MarkerNotWhite(name);
      assert begin !in ls;
      BlocksSkip(ls, [], begin, "END:" + name);
      assert ls + [] == ls;
    }
  }

  // ── merge_calendar ─────────────────────────────────────────────────────

  method AddZoneTexts(tzs: Table<string>, parts: seq<string>, ghost table: Table<Block>, ghost blocks: seq<Block>)
    returns (r: Table<string>)
    requires tzs == Texts(table) && parts == Map(blocks, Unlines)
    ensures r == Texts(AddZones(table, blocks))
  {
    r := tzs;
    ghost var t := table;
    var rest := parts;
    ghost var ahead := blocks;
    while rest != []
      invariant r == Texts(t) && rest == Map(ahead, Unlines)
      invariant AddZones(t, ahead) == AddZones(table, blocks)
    {
      var tz := rest[0];
      var id := ScanField(tz, "TZID");
      assert tz == Unlines(ahead[0]);
      if id.Some? {
        InsertText(t, id.value, ahead[0]);
        r := InsertNew(r, id.value, tz);
        t := InsertNew(t, id.value, ahead[0]);
      }
      rest := rest[1..];
      ahead := ahead[1..];
    }
  }

  lemma AppendStep(lines: seq<string>, blocks: seq<Block>, i: nat)
    requires i < |blocks|
    ensures Unlines(lines + Concat(blocks[..i])) + Unlines(blocks[i]) == Unlines(lines + Concat(blocks[..i + 1]))
  {
    UnlinesConcat(lines + Concat(blocks[..i]), blocks[i]);
    assert blocks[..i + 1] == blocks[..i] + [blocks[i]];
    ConcatConcat(blocks[..i], [blocks[i]]);
    ConcatOne(blocks[i]);
    Assoc(lines, Concat(blocks[..i]), blocks[i]);
  }

  lemma ConcatOne(block: Block)
    ensures Concat([block]) == block
  {
    assert [block][1..] == [] && block + [] == block;
  }

  method Append(out: string, parts: seq<string>, ghost lines: seq<string>, ghost blocks: seq<Block>) returns (r: string)
    requires out == Unlines(lines) && parts == Map(blocks, Unlines)
    ensures r == Unlines(lines + Concat(blocks))
  {
    r := out;
    assert lines + Concat(blocks[..0]) == lines;
    for i := 0 to |parts|
      invariant r == Unlines(lines + Concat(blocks[..i]))
    {
      AppendStep(lines, blocks, i);
      r := r + parts[i];
    }
    assert blocks[..|blocks|] == blocks;
  }

  method FeedText(calName: string, prodid: string, tzs: Table<string>, vevents: seq<string>,
                  ghost table: Table<Block>, ghost blocks: seq<Block>)
    returns (out: string)
    requires tzs == Texts(table) && vevents == Map(blocks, Unlines)
    ensures out == Unlines(FeedLines(calName, prodid, table, blocks))
  {
    ghost var header, zoneLines := Header(calName, prodid), Concat(Second(table));
    out := Unlines(Header(calName, prodid));
    out := Append(out, Second(tzs), header, Second(table));
    out := Append(out, vevents, header + zoneLines, blocks);
    out := Append(out, [Unlines(["END:VCALENDAR"])], (header + zoneLines) + Concat(blocks), [["END:VCALENDAR"]]);
    ConcatOne(["END:VCALENDAR"]);
    Assoc(header + zoneLines, Concat(blocks), ["END:VCALENDAR"]);
    Assoc(header, zoneLines, Concat(blocks) + ["END:VCALENDAR"]);
  }

  /** One round of the loop over events. */
  method AddEvent(zones: map<string, string>, ev: CalendarEvent, tzs: Table<string>, vevents: seq<string>,
                  ghost table: Table<Block>, ghost blocks: seq<Block>)
    returns (tzs': Table<string>, vevents': seq<string>)
    requires tzs == Texts(table) && vevents == Map(blocks, Unlines)
    ensures tzs' == Texts(AddZones(table, Parts(zones, ev, "VTIMEZONE")))
    ensures vevents' == Map(blocks + Parts(zones, ev, "VEVENT"), Unlines)
  {
    if ev.ical.None? || Trim(ev.ical.value) == "" {
      BlankContributesNothing(zones, ev, "VTIMEZONE");
      BlankContributesNothing(zones, ev, "VEVENT");
      assert blocks + [] == blocks;
      return tzs, vevents;
    }
    var text := RewriteWindowsTzids(zones, ev.ical.value);
    var zoneTexts := ExtractComponents(text, "VTIMEZONE");
    tzs' := AddZoneTexts(tzs, zoneTexts, table, Extract(text, "VTIMEZONE"));
    var eventTexts := ExtractComponents(text, "VEVENT");
    MapConcat(blocks, Extract(text, "VEVENT"), Unlines);
    vevents' := vevents + eventTexts;
  }

  /** `merge_calendar` */
  method MergeCalendar(zones: map<string, string>, events: seq<CalendarEvent>, calName: string, prodid: string)
    returns (out: string)
    ensures out == Unlines(Merged(zones, events, calName, prodid))
  {
    var tzs: Table<string> := [];
    var vevents: seq<string> := [];
    ghost var table: Table<Block> := [];
    ghost var blocks: seq<Block> := [];
    assert events[..0] == [];
    for i := 0 to |events|
      invariant tzs == Texts(table) && table == AddZones([], AllParts(zones, events[..i], "VTIMEZONE"))
      invariant vevents == Map(blocks, Unlines) && blocks == AllParts(zones, events[..i], "VEVENT")
    {
      tzs, vevents := AddEvent(zones, events[i], tzs, vevents, table, blocks);
      PartsUpTo(zones, events, i, "VTIMEZONE");
      PartsUpTo(zones, events, i, "VEVENT");
      AddZonesConcat([], AllParts(zones, events[..i], "VTIMEZONE"), Parts(zones, events[i], "VTIMEZONE"));
      table := AddZones(table, Parts(zones, events[i], "VTIMEZONE"));
      blocks := blocks + Parts(zones, events[i], "VEVENT");
    }
    assert events[..|events|] == events;
    out := FeedText(calName, prodid, tzs, vevents, table, blocks);
  }

  /** The zones of the feed: first definition of each identifier, in order of identifiers. */
  function MergedZones(zones: map<string, string>, events: seq<CalendarEvent>): Table<Block> {
    AddZones([], AllParts(zones, events, "VTIMEZONE"))
  }

  /** The lines of the merged feed. */
  function Merged(zones: map<string, string>, events: seq<CalendarEvent>, calName: string,
                  prodid: string): seq<string>
  {
    FeedLines(calName, prodid, MergedZones(zones, events), AllParts(zones, events, "VEVENT"))
  }
}
