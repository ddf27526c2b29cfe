/** What the merged feed keeps of the payloads it was made from. */
module FeedProofs {
  import opened Seqs
  import opened Text
  import opened Lines
  import opened Vevent
  import opened Components
  import opened Zones
  import opened Order
  import opened Feed

  // ── hypotheses on a payload, all of them checkable before the merge ────

  /** No logical line of a payload starts with a blank. */
  predicate Tidy(events: seq<CalendarEvent>) {
    forall ev <- events :: ev.ical.Some? ==> NoHiddenFolds(ev.ical.value)
  }

  /** No component `other` opens inside a component `name` of a payload. */
  predicate Free(events: seq<CalendarEvent>, name: string, other: string) {
    forall ev <- events :: ev.ical.Some? ==> forall b <- Extract(ev.ical.value, name) :: "BEGIN:" + other !in b
  }

  function Other(marker: string): string -> bool { l => l != marker }

  lemma MarkerNames()
    ensures "BEGIN:" + "VEVENT" == "BEGIN:VEVENT" && "BEGIN:" + "VTIMEZONE" == "BEGIN:VTIMEZONE"
    ensures "END:" + "VEVENT" == "END:VEVENT" && "END:" + "VTIMEZONE" == "END:VTIMEZONE"
    ensures "END:VEVENT" != "END:VCALENDAR" && "END:VTIMEZONE" != "END:VCALENDAR"
  {
    assert "END:VTIMEZONE"[5] == 'T';
  }

  // ── blocks of one payload ──────────────────────────────────────────────

  lemma MarkersFixed(zones: map<string, string>, name: string)
    requires GoodZones(zones)
    ensures forall l :: RewriteCore(zones, l) == "BEGIN:" + name <==> l == "BEGIN:" + name
    ensures forall l :: RewriteCore(zones, l) == "END:" + name <==> l == "END:" + name
  {
    PlainMarker("BEGIN:" + name, 5);
    PlainMarker("END:" + name, 3);
    MarkerFixed(zones, "BEGIN:" + name);
    MarkerFixed(zones, "END:" + name);
  }

  lemma MarkerFixed(zones: map<string, string>, marker: string)
    requires GoodZones(zones) && !(PROPERTY <= marker) && ParamTzid(marker) == None
    ensures forall l :: RewriteCore(zones, l) == marker <==> l == marker
  {
    forall l ensures RewriteCore(zones, l) == marker <==> l == marker {
      OtherLinesFixed(zones, l, marker);
    }
  }

  lemma PlainMarker(marker: string, colon: nat)
    requires colon < 6 && colon < |marker| && marker[colon] == ':' && marker[0] != 'T'
    ensures !(PROPERTY <= marker) && ParamTzid(marker) == None
  {
    FindNoLater(marker, ':', colon);
    assert PROPERTY[0] == 'T';
  }

  /** The blocks of the rewritten payload are the payload's blocks, rewritten. */
  lemma PartsRewritten(zones: map<string, string>, raw: string, name: string)
    requires GoodZones(zones) && NoHiddenFolds(raw)
    ensures Parts(zones, CalendarEvent(Some(raw)), name) == Map(Extract(raw, name), LineMapper(Rewriter(zones)))
  {
    RewrittenLines(zones, raw);
    MarkersFixed(zones, name);
    BlocksRewritten(LogicalLines(raw), "BEGIN:" + name, "END:" + name, None, Rewriter(zones));
  }

  lemma PartsGood(zones: map<string, string>, raw: string, name: string)
    requires GoodZones(zones) && NoHiddenFolds(raw)
    ensures Within(Parts(zones, CalendarEvent(Some(raw)), name), IsGood())
    ensures AllWell(Parts(zones, CalendarEvent(Some(raw)), name), "BEGIN:" + name, "END:" + name)
  {
    var text := RewriteWindowsTzids(zones, raw);
    RewrittenLines(zones, raw);
    RewriteTextFoldFree(zones, Unfold(raw));
    UnfoldFixpoint(text);
    ExtractGood(text, name);
  }

  /** Rewriting brings no marker into a block that held none. */
  lemma NoMarkerInside(zones: map<string, string>, raw: string, name: string, other: string)
    requires GoodZones(zones) && NoHiddenFolds(raw)
    requires forall b <- Extract(raw, name) :: "BEGIN:" + other !in b
    ensures Within(Parts(zones, CalendarEvent(Some(raw)), name), Other("BEGIN:" + other))
  {
    PartsRewritten(zones, raw, name);
    MarkersFixed(zones, other);
    var parts := Parts(zones, CalendarEvent(Some(raw)), name);
    forall b, l | b in parts && l in b ensures l != "BEGIN:" + other {
      var i :| 0 <= i < |parts| && parts[i] == b;
      var src := Extract(raw, name)[i];
      var k :| 0 <= k < |b| && b[k] == l;
      assert l == RewriteCore(zones, src[k]) && src[k] in src;
    }
  }

  // ── blocks of all payloads ─────────────────────────────────────────────

  lemma {:induction false} AllPartsGood(zones: map<string, string>, events: seq<CalendarEvent>, name: string)
    requires GoodZones(zones) && Tidy(events)
    ensures Within(AllParts(zones, events, name), IsGood())
    ensures AllWell(AllParts(zones, events, name), "BEGIN:" + name, "END:" + name)
  {
    if events != [] {
      assert events[0] in events;
      AllPartsGood(zones, events[1..], name);
      if events[0].ical.Some? {
        assert events[0] == CalendarEvent(Some(events[0].ical.value));
        PartsGood(zones, events[0].ical.value, name);
      }
    }
  }

  lemma {:induction false} AllPartsFree(zones: map<string, string>, events: seq<CalendarEvent>, name: string,
                                        other: string)
    requires GoodZones(zones) && Tidy(events) && Free(events, name, other)
    ensures Within(AllParts(zones, events, name), Other("BEGIN:" + other))
  {
    if events != [] {
      assert events[0] in events;
      AllPartsFree(zones, events[1..], name, other);
      if events[0].ical.Some? {
        assert events[0] == CalendarEvent(Some(events[0].ical.value));
        NoMarkerInside(zones, events[0].ical.value, name, other);
      }
    }
  }

  /** Every zone of the table is a block of some payload, under its own identifier. */
  lemma {:induction false} TableFrom(t: Table<Block>, blocks: seq<Block>)
    requires Sorted(t)
    ensures Sorted(AddZones(t, blocks))
    ensures forall e <- AddZones(t, blocks) :: e in t || (e.1 in blocks && ZoneId(e.1) == Some(e.0))
    decreases |blocks|
  {
    if blocks != [] {
      var id := ZoneId(blocks[0]);
      if id.Some? {
        InsertSorted(t, id.value, blocks[0]);
        TableFrom(InsertNew(t, id.value, blocks[0]), blocks[1..]);
      } else {
        TableFrom(t, blocks[1..]);
      }
    }
  }

  lemma TableWithin(zones: map<string, string>, events: seq<CalendarEvent>, p: string -> bool)
    requires Within(AllParts(zones, events, "VTIMEZONE"), p)
    ensures Within(Second(MergedZones(zones, events)), p)
  {
    var t := MergedZones(zones, events);
    TableFrom([], AllParts(zones, events, "VTIMEZONE"));
    forall b | b in Second(t) ensures forall l <- b :: p(l) {
      var i :| 0 <= i < |t| && Second(t)[i] == b;
      assert t[i] in t;
    }
  }

  lemma TableWell(zones: map<string, string>, events: seq<CalendarEvent>)
    requires AllWell(AllParts(zones, events, "VTIMEZONE"), "BEGIN:VTIMEZONE", "END:VTIMEZONE")
    ensures AllWell(Second(MergedZones(zones, events)), "BEGIN:VTIMEZONE", "END:VTIMEZONE")
  {
    var t := MergedZones(zones, events);
    TableFrom([], AllParts(zones, events, "VTIMEZONE"));
    forall b | b in Second(t) ensures WellBlock(b, "BEGIN:VTIMEZONE", "END:VTIMEZONE") {
      var i :| 0 <= i < |t| && Second(t)[i] == b;
      assert t[i] in t;
    }
  }

  // ── reading the feed ───────────────────────────────────────────────────

  lemma HeaderGood(calName: string, prodid: string)
    requires OneLine(calName) && OneLine(prodid)
    ensures forall l <- Header(calName, prodid) :: GoodLine(l)
    ensures "BEGIN:VEVENT" !in Header(calName, prodid) && "BEGIN:VTIMEZONE" !in Header(calName, prodid)
    ensures GoodLine("END:VCALENDAR")
  {
    var h := Header(calName, prodid);
    assert h[2][0] == 'P' && h[5][0] == 'X';
  }

  /** The feed reads back line for line. */
  lemma FeedReadsBack(zones: map<string, string>, events: seq<CalendarEvent>, calName: string, prodid: string)
    requires GoodZones(zones) && Tidy(events) && OneLine(calName) && OneLine(prodid)
    ensures LogicalLines(Unlines(Merged(zones, events, calName, prodid))) == Merged(zones, events, calName, prodid)
  {
    AllPartsGood(zones, events, "VEVENT");
    AllPartsGood(zones, events, "VTIMEZONE");
    TableWithin(zones, events, IsGood());
    ConcatWithin(Second(MergedZones(zones, events)), IsGood());
    ConcatWithin(AllParts(zones, events, "VEVENT"), IsGood());
    HeaderGood(calName, prodid);
    var ls := Merged(zones, events, calName, prodid);
    forall l | l in ls ensures IsGood()(l) {}
    assert forall l <- ls :: GoodLine(l);
    ReadBack(ls);
  }

  /** The name of a line ends at the first colon or semicolon. */
  lemma FieldOf(name: string, params: string, value: string)
    requires ':' !in name && ';' !in name && ':' !in params && (params != "" ==> params[0] == ';')
    ensures var l := name + params + ":" + value;
      && FieldName(l) == name
      && Find(l, ':') == |name + params| && l[|name + params| + 1..] == value
  {
    var head := name + params;
    var l := head + ":" + value;
    assert l[..|head|] == head;
    FindAt(l, ':', |head|);
    assert head[..|name|] == name;
    FindAt(head, ';', |name|);
  }

  /** A field is found under its name in any case, parameters or not. */
  lemma ScanHit(ls: seq<string>, name: string, spelled: string, params: string, value: string)
    requires ls != [] && ls[0] == spelled + params + ":" + value && ':' !in spelled && ';' !in spelled
    requires ':' !in params && (params != "" ==> params[0] == ';') && Lower(spelled) == Lower(name)
    ensures ScanFieldLines(ls, name) == Some(value)
  {
    FieldOf(spelled, params, value);
  }

  lemma ScanMiss(ls: seq<string>, name: string, other: string, value: string)
    requires ls != [] && ls[0] == other + ":" + value && ':' !in other && ';' !in other && !SameName(other, name)
    ensures ScanFieldLines(ls, name) == ScanFieldLines(ls[1..], name)
  {
    assert other + "" + ":" + value == other + ":" + value;
    FieldOf(other, "", value);
  }

  lemma HeaderNames()
    ensures forall n <- ["BEGIN", "VERSION", "PRODID", "CALSCALE", "METHOD", "X-WR-CALNAME"] :: ':' !in n && ';' !in n
    ensures forall n <- ["BEGIN", "VERSION"] :: !SameName(n, "PRODID")
    ensures forall n <- ["BEGIN", "VERSION", "PRODID", "CALSCALE"] :: !SameName(n, "METHOD")
    ensures forall n <- ["BEGIN", "VERSION", "PRODID", "CALSCALE", "METHOD"] :: !SameName(n, "X-WR-CALNAME")
  {
    assert |Lower("PRODID")| == 6 && |Lower("BEGIN")| == 5 && |Lower("VERSION")| == 7 && |Lower("CALSCALE")| == 8;
    assert |Lower("METHOD")| == 6 && |Lower("X-WR-CALNAME")| == 12;
    assert Lower("PRODID")[0] == 'p' && Lower("METHOD")[0] == 'm';
  }

  /** A reader of the feed finds the given product id and calendar name under their
      properties, and that it is published. */
  lemma FeedNames(zones: map<string, string>, events: seq<CalendarEvent>, calName: string, prodid: string)
    requires GoodZones(zones) && Tidy(events) && OneLine(calName) && OneLine(prodid)
    ensures var feed := Unlines(Merged(zones, events, calName, prodid));
      && ScanField(feed, "PRODID") == Some(prodid)
      && ScanField(feed, "X-WR-CALNAME") == Some(calName)
      && ScanField(feed, "METHOD") == Some("PUBLISH")
  {
    FeedReadsBack(zones, events, calName, prodid);
    HeaderFirst(zones, events, calName, prodid);
    hide *;
    var ls := Merged(zones, events, calName, prodid);
    ProdidIn(ls, calName, prodid);
    MethodIn(ls, calName, prodid);
    CalNameIn(ls, calName, prodid);
    ScanFields(Unlines(ls), ls);
  }

  lemma ScanFields(text: string, ls: seq<string>)
    requires LogicalLines(text) == ls
    ensures forall name :: ScanField(text, name) == ScanFieldLines(ls, name)
  {}

  /** The six lines at the head of a feed. */
  predicate HeadLines(ls: seq<string>, calName: string, prodid: string) {
    && |ls| >= 6 && ls[0] == "BEGIN" + ":" + "VCALENDAR" && ls[1] == "VERSION" + ":" + "2.0"
    && ls[2] == "PRODID" + ":" + prodid && ls[3] == "CALSCALE" + ":" + "GREGORIAN"
    && ls[4] == "METHOD" + ":" + "PUBLISH" && ls[5] == "X-WR-CALNAME" + ":" + calName
  }

  lemma ProdidIn(ls: seq<string>, calName: string, prodid: string)
    requires HeadLines(ls, calName, prodid)
    ensures ScanFieldLines(ls, "PRODID") == Some(prodid)
  {
    HeaderNames();
    hide ScanFieldLines, SameName;
    Drops(ls);
    ScanMiss(ls, "PRODID", "BEGIN", "VCALENDAR");
    ScanMiss(ls[1..], "PRODID", "VERSION", "2.0");
    assert "PRODID" + "" == "PRODID";
    ScanHit(ls[2..], "PRODID", "PRODID", "", prodid);
  }

  lemma MethodIn(ls: seq<string>, calName: string, prodid: string)
    requires HeadLines(ls, calName, prodid)
    ensures ScanFieldLines(ls, "METHOD") == Some("PUBLISH")
  {
    HeaderNames();
    hide ScanFieldLines, SameName;
    Drops(ls);
    ScanMiss(ls, "METHOD", "BEGIN", "VCALENDAR");
    ScanMiss(ls[1..], "METHOD", "VERSION", "2.0");
    ScanMiss(ls[2..], "METHOD", "PRODID", prodid);
    ScanMiss(ls[3..], "METHOD", "CALSCALE", "GREGORIAN");
    assert "METHOD" + "" == "METHOD";
    ScanHit(ls[4..], "METHOD", "METHOD", "", "PUBLISH");
  }

  lemma CalNameIn(ls: seq<string>, calName: string, prodid: string)
    requires HeadLines(ls, calName, prodid)
    ensures ScanFieldLines(ls, "X-WR-CALNAME") == Some(calName)
  {
    HeaderNames();
    hide ScanFieldLines, SameName;
    Drops(ls);
    ScanMiss(ls, "X-WR-CALNAME", "BEGIN", "VCALENDAR");
    ScanMiss(ls[1..], "X-WR-CALNAME", "VERSION", "2.0");
    ScanMiss(ls[2..], "X-WR-CALNAME", "PRODID", prodid);
    ScanMiss(ls[3..], "X-WR-CALNAME", "CALSCALE", "GREGORIAN");
    ScanMiss(ls[4..], "X-WR-CALNAME", "METHOD", "PUBLISH");
    assert "X-WR-CALNAME" + "" == "X-WR-CALNAME";
    ScanHit(ls[5..], "X-WR-CALNAME", "X-WR-CALNAME", "", calName);
  }

  lemma Drops<A>(xs: seq<A>)
    requires |xs| >= 6
    ensures xs[1..][1..] == xs[2..] && xs[2..][1..] == xs[3..] && xs[3..][1..] == xs[4..] && xs[4..][1..] == xs[5..]
  {}

  lemma HeaderFirst(zones: map<string, string>, events: seq<CalendarEvent>, calName: string, prodid: string)
    ensures HeadLines(Merged(zones, events, calName, prodid), calName, prodid)
  {
    var h := Header(calName, prodid);
    assert h[0] == "BEGIN" + ":" + "VCALENDAR" && h[1] == "VERSION" + ":" + "2.0";
    assert h[3] == "CALSCALE" + ":" + "GREGORIAN" && h[4] == "METHOD" + ":" + "PUBLISH";
    assert "PRODID" + ":" == "PRODID:" && "X-WR-CALNAME" + ":" == "X-WR-CALNAME:";
  }

  /** The merge loses and invents no event: cutting the feed apart gives the
      events of the rewritten payloads, in order. */
  lemma MergeKeepsEvents(zones: map<string, string>, events: seq<CalendarEvent>, calName: string, prodid: string)
    requires GoodZones(zones) && Tidy(events) && OneLine(calName) && OneLine(prodid)
    requires Free(events, "VTIMEZONE", "VEVENT")
    ensures Extract(Unlines(Merged(zones, events, calName, prodid)), "VEVENT") == AllParts(zones, events, "VEVENT")
  {
    FeedReadsBack(zones, events, calName, prodid);
    AllPartsGood(zones, events, "VEVENT");
    AllPartsFree(zones, events, "VTIMEZONE", "VEVENT");
    var begin, end := "BEGIN:VEVENT", "END:VEVENT";
    MarkerNames();
    TableWithin(zones, events, Other(begin));
    ConcatWithin(Second(MergedZones(zones, events)), Other(begin));
    HeaderGood(calName, prodid);
    LastLine(begin, end);
    CutEvents(Header(calName, prodid), Concat(Second(MergedZones(zones, events))), AllParts(zones, events, "VEVENT"),
              ["END:VCALENDAR"], begin, end);
  }

  lemma CutEvents(h: seq<string>, before: seq<string>, blocks: seq<Block>, last: seq<string>, begin: string,
                  end: string)
    requires begin !in h && begin !in before && begin != end && AllWell(blocks, begin, end)
    requires Blocks(last, begin, end, None) == []
    ensures Blocks(h + (before + (Concat(blocks) + last)), begin, end, None) == blocks
  {
    BlocksSkip(h, before + (Concat(blocks) + last), begin, end);
    BlocksSkip(before, Concat(blocks) + last, begin, end);
    BlocksFound(blocks, last, begin, end);
  }

  lemma CutZones(h: seq<string>, blocks: seq<Block>, after: seq<string>, last: seq<string>, begin: string, end: string)
    requires begin !in h && begin !in after && begin != end && AllWell(blocks, begin, end)
    requires Blocks(last, begin, end, None) == []
    ensures Blocks(h + (Concat(blocks) + (after + last)), begin, end, None) == blocks
  {
    BlocksSkip(h, Concat(blocks) + (after + last), begin, end);
    BlocksFound(blocks, after + last, begin, end);
    BlocksSkip(after, last, begin, end);
  }

  lemma LastLine(begin: string, end: string)
    requires begin != "END:VCALENDAR" && end != "END:VCALENDAR"
    ensures Blocks(["END:VCALENDAR"], begin, end, None) == []
  {
    assert ["END:VCALENDAR"][1..] == [];
  }

  /** Cutting the feed apart gives each zone of the table once, in order. */
  lemma MergeKeepsZones(zones: map<string, string>, events: seq<CalendarEvent>, calName: string, prodid: string)
    requires GoodZones(zones) && Tidy(events) && OneLine(calName) && OneLine(prodid)
    requires Free(events, "VEVENT", "VTIMEZONE")
    ensures Extract(Unlines(Merged(zones, events, calName, prodid)), "VTIMEZONE") == Second(MergedZones(zones, events))
  {
    FeedReadsBack(zones, events, calName, prodid);
    AllPartsGood(zones, events, "VTIMEZONE");
    AllPartsFree(zones, events, "VEVENT", "VTIMEZONE");
    var begin, end := "BEGIN:VTIMEZONE", "END:VTIMEZONE";
    MarkerNames();
    TableWell(zones, events);
    ConcatWithin(AllParts(zones, events, "VEVENT"), Other(begin));
    HeaderGood(calName, prodid);
    LastLine(begin, end);
    CutZones(Header(calName, prodid), Second(MergedZones(zones, events)), Concat(AllParts(zones, events, "VEVENT")),
             ["END:VCALENDAR"], begin, end);
  }

  // ── references stay closed ─────────────────────────────────────────────

  /** The line of a zone that names it: the first whose property is TZID. */
  function NameLine(zone: Block): Option<string> {
    if zone == [] then None
    else if SameName(FieldName(zone[0]), "TZID") then Some(zone[0])
    else NameLine(zone[1..])
  }

  /** `zone` is called `v`, and says so in the plain form that is rewritten. */
  predicate Defines(zone: Block, v: string) { NameLine(zone) == Some(PROPERTY + v) }

  /** Every zone an event of the payload refers to is defined in the payload. */
  predicate Closed(raw: string) {
    forall b <- Extract(raw, "VEVENT") :: forall l <- b ::
      ParamTzid(l).Some? ==> exists z <- Extract(raw, "VTIMEZONE") :: Defines(z, ParamTzid(l).value)
  }

  /** Rewriting a line does not change its property name. */
  lemma NameKept(zones: map<string, string>, l: string)
    requires GoodZones(zones)
    ensures FieldName(RewriteCore(zones, l)) == FieldName(l)
  {
    if PROPERTY <= l {
      PropertyNameKept(zones, l);
    } else if TzidSpan(l).Some? {
      ParameterNameKept(zones, l);
    }
  }

  lemma PropertyNameKept(zones: map<string, string>, l: string)
    requires PROPERTY <= l
    ensures FieldName(RewriteCore(zones, l)) == FieldName(l)
  {
    var out := RewriteCore(zones, l);
    FormKept(zones, l);
    PropertyHasNoParam(l);
    PropertyHasNoParam(out);
    assert out[..4] == PROPERTY[..4] == l[..4];
  }

  lemma ParameterNameKept(zones: map<string, string>, l: string)
    requires GoodZones(zones) && !(PROPERTY <= l) && TzidSpan(l).Some?
    ensures FieldName(RewriteCore(zones, l)) == FieldName(l)
  {
    var out := RewriteCore(zones, l);
    ParamName(zones, l);
    var s, v := TzidSpan(l).value, ToIana(zones, ParamTzid(l).value);
    HeadReplaced(l, v);
    assert l[s.from - 6] == l[s.from - 6..s.from][0] == PARAMETER[0];
    hide TzidSpan, RewriteCore, ToIana;
    SameHeadStart(l, out, s.from);
  }

  lemma SameHeadStart(l: string, out: string, k: nat)
    requires 6 <= k <= Find(l, ':') && k <= Find(out, ':')
    requires l[k - 6] == ';' && l[..k] == out[..k]
    ensures FieldName(l) == FieldName(out)
  {
    var a, b := l[..Find(l, ':')], out[..Find(out, ':')];
    assert a[..k - 5] == l[..k][..k - 5] == b[..k - 5];
    NameBefore(a, b, k - 6);
  }

  lemma NameBefore(a: string, b: string, k: nat)
    requires k < |a| && k < |b| && a[k] == ';' && a[..k + 1] == b[..k + 1]
    ensures a[..Find(a, ';')] == b[..Find(b, ';')]
  {
    var i := Find(a, ';');
    assert a[..k + 1][k] == b[..k + 1][k];
    FindNoLater(a, ';', k);
    assert a[..i] == a[..k + 1][..i] == b[..i];
    assert a[i] == a[..k + 1][i] == b[..k + 1][i];
    FindAt(b, ';', i);
  }

  lemma {:induction false} NameLineRewritten(zones: map<string, string>, zone: Block)
    requires GoodZones(zones)
    ensures NameLine(Map(zone, Rewriter(zones))) ==
            match NameLine(zone) case Some(l) => Some(RewriteCore(zones, l)) case None => None
  {
    if zone != [] {
      NameKept(zones, zone[0]);
      NameLineRewritten(zones, zone[1..]);
      assert Map(zone, Rewriter(zones))[1..] == Map(zone[1..], Rewriter(zones));
    }
  }

  lemma {:induction false} NamedBy(zone: Block, v: string)
    requires Defines(zone, v)
    ensures ScanFieldLines(zone, "TZID") == Some(v)
  {
    if SameName(FieldName(zone[0]), "TZID") {
      PropertyHasNoParam(zone[0]);
      assert zone[0][5..] == v;
    } else {
      NamedBy(zone[1..], v);
    }
  }

  /** The first block that goes by an identifier. */
  function FirstNamed(blocks: seq<Block>, id: string): Option<Block> {
    if blocks == [] then None
    else if ZoneId(blocks[0]) == Some(id) then Some(blocks[0])
    else FirstNamed(blocks[1..], id)
  }

  lemma {:induction false} AddedLookup(t: Table<Block>, blocks: seq<Block>, id: string)
    requires Sorted(t)
    ensures Lookup(AddZones(t, blocks), id) == if Lookup(t, id).Some? then Lookup(t, id) else FirstNamed(blocks, id)
    decreases |blocks|
  {
    if blocks != [] {
      var key := ZoneId(blocks[0]);
      if key.Some? {
        InsertSorted(t, key.value, blocks[0]);
        InsertLookup(t, key.value, blocks[0], id);
        AddedLookup(InsertNew(t, key.value, blocks[0]), blocks[1..], id);
      } else {
        AddedLookup(t, blocks[1..], id);
      }
    }
  }

  /** The zones of the feed are in order of identifier, and of several
      definitions of one identifier the first is kept. */
  lemma FirstDefinitionWins(zones: map<string, string>, events: seq<CalendarEvent>, id: string)
    ensures Sorted(MergedZones(zones, events))
    ensures Lookup(MergedZones(zones, events), id) == FirstNamed(AllParts(zones, events, "VTIMEZONE"), id)
  {
    TableFrom([], AllParts(zones, events, "VTIMEZONE"));
    AddedLookup([], AllParts(zones, events, "VTIMEZONE"), id);
  }

  lemma {:induction false} NamedIsFound(blocks: seq<Block>, b: Block, id: string)
    requires b in blocks && ZoneId(b) == Some(id)
    ensures FirstNamed(blocks, id).Some?
  {
    if ZoneId(blocks[0]) != Some(id) {
      assert b in blocks[1..];
      NamedIsFound(blocks[1..], b, id);
    }
  }

  lemma {:induction false} LookupIndex<V>(t: Table<V>, id: string) returns (i: nat)
    requires Lookup(t, id).Some?
    ensures i < |t| && t[i].0 == id
  {
    if t[0].0 == id {
      i := 0;
    } else {
      var k := LookupIndex(t[1..], id);
      i := k + 1;
    }
  }

  /** Where a block of all the payloads comes from. */
  lemma {:induction false} PartFrom(zones: map<string, string>, events: seq<CalendarEvent>, name: string, b: Block)
    returns (raw: string)
    requires b in AllParts(zones, events, name)
    ensures CalendarEvent(Some(raw)) in events && b in Parts(zones, CalendarEvent(Some(raw)), name)
  {
    if b in Parts(zones, events[0], name) {
      raw := events[0].ical.value;
      assert events[0] == CalendarEvent(Some(raw));
    } else {
      raw := PartFrom(zones, events[1..], name, b);
    }
  }

  lemma {:induction false} PartOf(zones: map<string, string>, events: seq<CalendarEvent>, name: string, raw: string,
                                  b: Block)
    requires CalendarEvent(Some(raw)) in events && b in Parts(zones, CalendarEvent(Some(raw)), name)
    ensures b in AllParts(zones, events, name)
  {
    if events[0] != CalendarEvent(Some(raw)) {
      PartOf(zones, events[1..], name, raw, b);
    }
  }

  /** A rewritten reference was a reference before. */
  lemma ReferenceBefore(zones: map<string, string>, l: string)
    requires GoodZones(zones) && ParamTzid(RewriteCore(zones, l)).Some?
    ensures ParamTzid(l).Some? && ParamTzid(RewriteCore(zones, l)) == Some(ToIana(zones, ParamTzid(l).value))
  {
    if PROPERTY <= l {
      FormKept(zones, l);
      PropertyHasNoParam(RewriteCore(zones, l));
    } else {
      RewrittenReference(zones, l);
    }
  }

  predicate Mentions(blocks: seq<Block>, v: string) { exists b <- blocks :: exists l <- b :: ParamTzid(l) == Some(v) }

  /** A reference in a rewritten event stems from one in the payload. */
  lemma SourceReference(zones: map<string, string>, raw: string, b: Block, l: string) returns (v: string)
    requires GoodZones(zones) && NoHiddenFolds(raw)
    requires b in Parts(zones, CalendarEvent(Some(raw)), "VEVENT") && l in b && ParamTzid(l).Some?
    ensures ParamTzid(l) == Some(ToIana(zones, v)) && Mentions(Extract(raw, "VEVENT"), v)
  {
    PartsRewritten(zones, raw, "VEVENT");
    var events := Extract(raw, "VEVENT");
    var i :| 0 <= i < |events| && b == Map(events[i], Rewriter(zones));
    var k :| 0 <= k < |b| && b[k] == l;
    var source := events[i][k];
    assert events[i] in events && source in events[i] && l == RewriteCore(zones, source);
    ReferenceBefore(zones, source);
    v := ParamTzid(source).value;
  }

  /** A reference in a rewritten event is no name of the table, whether or not the
      payload defines what it refers to. */
  lemma ReferenceRewritten(zones: map<string, string>, events: seq<CalendarEvent>, b: Block, l: string)
    requires GoodZones(zones) && Tidy(events)
    requires b in AllParts(zones, events, "VEVENT") && l in b && ParamTzid(l).Some?
    ensures ParamTzid(l).value !in zones
  {
    hide Mentions, ParamTzid, Parts, AllParts, NoHiddenFolds;
    var raw := PartFrom(zones, events, "VEVENT", b);
    var v := SourceReference(zones, raw, b, l);
  }

  /** A zone that defines a name defines the rewritten name after rewriting. */
  lemma ZoneAfter(zones: map<string, string>, raw: string, z0: Block, v: string)
    requires GoodZones(zones) && NoHiddenFolds(raw)
    requires z0 in Extract(raw, "VTIMEZONE") && Defines(z0, v)
    ensures var z := Map(z0, Rewriter(zones));
      z in Parts(zones, CalendarEvent(Some(raw)), "VTIMEZONE") && ZoneId(z) == Some(ToIana(zones, v))
  {
    PartsRewritten(zones, raw, "VTIMEZONE");
    PartsGood(zones, raw, "VTIMEZONE");
    InMapped(Extract(raw, "VTIMEZONE"), z0, Rewriter(zones));
    DefinesAfter(zones, z0, v);
    IdOfGood(Map(z0, Rewriter(zones)), ToIana(zones, v));
  }

  lemma InMapped(blocks: seq<Block>, b: Block, f: string -> string)
    requires b in blocks
    ensures Map(b, f) in Map(blocks, LineMapper(f))
  {
    var i :| 0 <= i < |blocks| && blocks[i] == b;
    assert Map(blocks, LineMapper(f))[i] == Map(b, f);
  }

  lemma IdOfGood(z: Block, v: string)
    requires Defines(z, v) && forall x <- z :: IsGood()(x)
    ensures ZoneId(z) == Some(v)
  {
    NamedBy(z, v);
    GoodReadsBack(z);
  }

  lemma DefinesAfter(zones: map<string, string>, z: Block, v: string)
    requires GoodZones(zones) && Defines(z, v)
    ensures Defines(Map(z, Rewriter(zones)), ToIana(zones, v))
  {
    NameLineRewritten(zones, z);
    assert (PROPERTY + v)[5..] == v;
  }

  /** What one payload refers to, it defines, also after rewriting. */
  lemma DefinedAfter(zones: map<string, string>, raw: string, b: Block, l: string) returns (z: Block)
    requires GoodZones(zones) && NoHiddenFolds(raw) && Closed(raw)
    requires b in Parts(zones, CalendarEvent(Some(raw)), "VEVENT") && l in b && ParamTzid(l).Some?
    ensures z in Parts(zones, CalendarEvent(Some(raw)), "VTIMEZONE") && ZoneId(z) == ParamTzid(l)
  {
    var v := SourceReference(zones, raw, b, l);
    var z0 :| z0 in Extract(raw, "VTIMEZONE") && Defines(z0, v);
    ZoneAfter(zones, raw, z0, v);
    z := Map(z0, Rewriter(zones));
  }

  /** `l` is a line of an event of the text and refers to a zone. */
  predicate RefersIn(text: string, b: Block, l: string) {
    b in Extract(text, "VEVENT") && l in b && ParamTzid(l).Some?
  }

  /** Exactly one zone of the text carries the name. */
  predicate DefinedOnce(text: string, id: string) {
    var defined := Extract(text, "VTIMEZONE");
    exists i :: 0 <= i < |defined| && ZoneId(defined[i]) == Some(id)
      && forall j :: 0 <= j < |defined| && ZoneId(defined[j]) == Some(id) ==> j == i
  }

  /** A name is defined in the feed, and then once, exactly when some rewritten
      payload has a zone of that name. */
  lemma DefinedExactly(zones: map<string, string>, events: seq<CalendarEvent>, calName: string, prodid: string,
                       id: string)
    requires GoodZones(zones) && Tidy(events) && OneLine(calName) && OneLine(prodid)
    requires Free(events, "VEVENT", "VTIMEZONE")
    ensures DefinedOnce(Unlines(Merged(zones, events, calName, prodid)), id) <==>
            exists z <- AllParts(zones, events, "VTIMEZONE") :: ZoneId(z) == Some(id)
  {
    hide Merged, Unlines, Extract, AllParts, ZoneId;
    MergeKeepsZones(zones, events, calName, prodid);
    var t, parts := MergedZones(zones, events), AllParts(zones, events, "VTIMEZONE");
    TableFrom([], parts);
    TableNames(zones, events);
    if z :| z in parts && ZoneId(z) == Some(id) {
      NamedIsFound(parts, z, id);
      FirstDefinitionWins(zones, events, id);
      var i := LookupIndex(t, id);
      OnlyOneNamed(t, i);
      assert Second(t)[i] == t[i].1;
    } else {
      forall i | 0 <= i < |t| ensures ZoneId(Second(t)[i]) != Some(id) { assert t[i] in t && Second(t)[i] == t[i].1; }
    }
  }

  /** What a payload that defines its zones refers to is defined in the feed, whatever
      the other payloads. */
  lemma ReferenceDefined(zones: map<string, string>, events: seq<CalendarEvent>, calName: string, prodid: string,
                         raw: string, b: Block, l: string)
    requires GoodZones(zones) && Tidy(events) && OneLine(calName) && OneLine(prodid)
    requires Free(events, "VEVENT", "VTIMEZONE")
    requires CalendarEvent(Some(raw)) in events && Closed(raw)
    requires b in Parts(zones, CalendarEvent(Some(raw)), "VEVENT") && l in b && ParamTzid(l).Some?
    ensures DefinedOnce(Unlines(Merged(zones, events, calName, prodid)), ParamTzid(l).value)
  {
    hide Merged, Unlines, Extract, Parts, AllParts, ZoneId, ParamTzid, DefinedOnce, Closed, NoHiddenFolds;
    DefinedExactly(zones, events, calName, prodid, ParamTzid(l).value);
    var z := DefinedAfter(zones, raw, b, l);
    PartOf(zones, events, "VTIMEZONE", raw, z);
  }

  /** Every zone an event of the feed refers to is defined there, exactly once. */
  lemma ReferencesStayClosed(zones: map<string, string>, events: seq<CalendarEvent>, calName: string, prodid: string,
                             b: Block, l: string)
    requires GoodZones(zones) && Tidy(events) && OneLine(calName) && OneLine(prodid)
    requires Free(events, "VTIMEZONE", "VEVENT") && Free(events, "VEVENT", "VTIMEZONE")
    requires forall ev <- events :: ev.ical.Some? ==> Closed(ev.ical.value)
    requires RefersIn(Unlines(Merged(zones, events, calName, prodid)), b, l)
    ensures DefinedOnce(Unlines(Merged(zones, events, calName, prodid)), ParamTzid(l).value)
  {
    hide Merged, Unlines, Extract, Parts, AllParts, ParamTzid, DefinedOnce, Closed;
    MergeKeepsEvents(zones, events, calName, prodid);
    var raw := PartFrom(zones, events, "VEVENT", b);
    ReferenceDefined(zones, events, calName, prodid, raw, b, l);
  }

  lemma TableNames(zones: map<string, string>, events: seq<CalendarEvent>)
    ensures var t := MergedZones(zones, events);
      Sorted(t) && forall j :: 0 <= j < |t| ==> ZoneId(t[j].1) == Some(t[j].0)
  {
    TableFrom([], AllParts(zones, events, "VTIMEZONE"));
    var t := MergedZones(zones, events);
    forall j | 0 <= j < |t| ensures ZoneId(t[j].1) == Some(t[j].0) { assert t[j] in t; }
  }

  lemma OnlyOneNamed(t: Table<Block>, i: nat)
    requires Sorted(t) && i < |t|
    ensures forall j :: 0 <= j < |t| && t[j].0 == t[i].0 ==> j == i
  {
    BeforeIrreflexive(t[i].0);
  }
}
