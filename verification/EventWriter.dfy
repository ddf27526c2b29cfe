/** `build_ical_event` of `mcp/server.rs`: the text it writes, and what the
    VEVENT readers make of it. */
module EventWriter {
  import opened Seqs
  import opened Text
  import opened Lines
  import opened Vevent

  // ── escaping (section 3.3.11 of RFC 5545) ──────────────────────────────

  /** `str::replace` of one character. */
  function Replace(s: string, from: char, to: string): string {
    if s == "" then "" else (if s[0] == from then to else [s[0]]) + Replace(s[1..], from, to)
  }

  /** `esc`: five replacements, one after the other. */
  function Esc(s: string): string {
    Replace(Replace(Replace(Replace(Replace(s, '\\', "\\\\"), ';', "\\;"), ',', "\\,"), '\r', ""), '\n', "\\n")
  }

  /** The escape of one character in a single pass. */
  function EscChar(c: char): string {
    if c == '\\' then "\\\\"
    else if c == ';' then "\\;"
    else if c == ',' then "\\,"
    else if c == '\r' then ""
    else if c == '\n' then "\\n"
    else [c]
  }

  function EscOnce(s: string): string {
    if s == "" then "" else EscChar(s[0]) + EscOnce(s[1..])
  }

  /** A reader's inverse: the four escapes of the grammar, anything else as it stands. */
  function Unescape(s: string): string {
    if |s| > 1 && s[0] == '\\' && s[1] in "\\;,nN" then
      [if s[1] == 'n' || s[1] == 'N' then '\n' else s[1]] + Unescape(s[2..])
    else if s == "" then ""
    else [s[0]] + Unescape(s[1..])
  }

  function WithoutCr(s: string): string {
    if s == "" then "" else if s[0] == '\r' then WithoutCr(s[1..]) else [s[0]] + WithoutCr(s[1..])
  }

  lemma {:induction false} ReplaceConcat(a: string, b: string, from: char, to: string)
    ensures Replace(a + b, from, to) == Replace(a, from, to) + Replace(b, from, to)
  {
    if a == "" {
      assert a + b == b;
    } else {
      Uncons(a, b);
      ReplaceConcat(a[1..], b, from, to);
      Assoc(if a[0] == from then to else [a[0]], Replace(a[1..], from, to), Replace(b, from, to));
    }
  }

  lemma EscConcat(a: string, b: string)
    ensures Esc(a + b) == Esc(a) + Esc(b)
  {
    var a1, b1 := Replace(a, '\\', "\\\\"), Replace(b, '\\', "\\\\");
    ReplaceConcat(a, b, '\\', "\\\\");
    var a2, b2 := Replace(a1, ';', "\\;"), Replace(b1, ';', "\\;");
    ReplaceConcat(a1, b1, ';', "\\;");
    var a3, b3 := Replace(a2, ',', "\\,"), Replace(b2, ',', "\\,");
    ReplaceConcat(a2, b2, ',', "\\,");
    ReplaceConcat(a3, b3, '\r', "");
    ReplaceConcat(Replace(a3, '\r', ""), Replace(b3, '\r', ""), '\n', "\\n");
  }

  lemma ReplaceShort(c: char, d: char, from: char, to: string)
    ensures Replace([c], from, to) == if c == from then to else [c]
    ensures Replace([c, d], from, to) == (if c == from then to else [c]) + (if d == from then to else [d])
  {
    assert [c][1..] == "" && [c, d][1..] == [d];
    assert [d][1..] == "";
  }

  lemma EscOne(c: char)
    ensures Esc([c]) == EscChar(c)
  {
    EscFirst(c);
    var r3 := Three([c]);
    var r4 := Replace(r3, '\r', "");
    ReplaceShort(c, c, '\r', "");
    ReplaceShort('\\', r3[|r3| - 1], '\r', "");
    ReplaceShort(c, c, '\n', "\\n");
    if r4 != "" { ReplaceShort('\\', r4[|r4| - 1], '\n', "\\n"); }
  }

  /** The first three replacements. */
  function Three(s: string): string { Replace(Replace(Replace(s, '\\', "\\\\"), ';', "\\;"), ',', "\\,") }

  lemma EscFirst(c: char)
    ensures Three([c]) == if c == '\\' || c == ';' || c == ',' then ['\\', c] else [c]
  {
    var r1 := Replace([c], '\\', "\\\\");
    ReplaceShort(c, c, '\\', "\\\\");
    ReplaceShort(c, c, ';', "\\;");
    ReplaceShort('\\', '\\', ';', "\\;");
    var r2 := Replace(r1, ';', "\\;");
    ReplaceShort(c, c, ',', "\\,");
    ReplaceShort('\\', r2[|r2| - 1], ',', "\\,");
  }

  /** The chain of five replacements is one pass over the characters. */
  lemma {:induction false} EscIsOnePass(s: string)
    ensures Esc(s) == EscOnce(s)
  {
    if s != "" {
      EscIsOnePass(s[1..]);
      assert s == [s[0]] + s[1..];
      EscConcat([s[0]], s[1..]);
      EscOne(s[0]);
    }
  }

  /** Unescaping gives the original back, minus carriage returns. */
  lemma {:induction false} UnescapeUndoesEsc(s: string)
    ensures Unescape(Esc(s)) == WithoutCr(s)
  {
    EscIsOnePass(s);
    if s != "" {
      var rest := EscOnce(s[1..]);
      EscIsOnePass(s[1..]);
      UnescapeUndoesEsc(s[1..]);
      var e := EscChar(s[0]);
      assert (e + rest)[|e|..] == rest;
      assert e + rest == EscOnce(s);
    }
  }

  /** An escaped value stays on its line. */
  lemma {:induction false} EscStaysOnLine(s: string)
    ensures '\n' !in Esc(s) && '\r' !in Esc(s)
  {
    EscIsOnePass(s);
    if s != "" {
      EscIsOnePass(s[1..]);
      EscStaysOnLine(s[1..]);
    }
  }

  // ── property lines ─────────────────────────────────────────────────────

  datatype Prop = Prop(name: string, params: string, value: string)

  function LineOf(p: Prop): string { p.name + p.params + ":" + p.value }

  /** A property that prints to one line and can be told from the markers. */
  predicate Printable(p: Prop) {
    && p.name != "" && !IsBlank(p.name[0])
    && ':' !in p.name && ';' !in p.name
    && ':' !in p.params && (p.params != "" ==> p.params[0] == ';')
    && '\n' !in p.name && '\n' !in p.params && '\n' !in p.value
    && '\r' !in p.value
    && !SameName(p.name, "BEGIN") && !SameName(p.name, "END")
  }

  function ValueOf(name: string): Prop -> Option<string> {
    (p: Prop) => if SameName(p.name, name) then Some(p.value) else None
  }

  lemma PrintedLine(p: Prop)
    requires Printable(p)
    ensures Plain(LineOf(p)) && !StartsBlank(LineOf(p)) && MarkOf(LineOf(p)).Inside?
    ensures SplitProperty(LineOf(p)) == Some((p.name, p.value))
  {
    var l := LineOf(p);
    PropertyLine(p.name, p.params, p.value);
    PrintedPlain(p);
    hide MarkOf, SplitProperty, LineOf, Plain;
    if !MarkOf(l).Inside? { MarkerName(l); }
  }

  lemma PrintedPlain(p: Prop)
    requires Printable(p)
    ensures Plain(LineOf(p)) && !StartsBlank(LineOf(p))
  {
    hide SameName;
    var l := LineOf(p);
    assert l[0] == p.name[0];
    assert l[|l| - 1] == if p.value == "" then ':' else p.value[|p.value| - 1];
  }

  /** A marker line is a property line named BEGIN or END. */
  lemma MarkerName(l: string)
    requires !MarkOf(l).Inside?
    ensures SplitProperty(l).Some?
    ensures SameName(SplitProperty(l).value.0, "BEGIN") || SameName(SplitProperty(l).value.0, "END")
  {
    var t := TrimCr(l);
    var word := if Upper(t) == BEGIN_VEVENT then "BEGIN" else "END";
    ColonAndSemicolon(t, |word|);
    var name := SplitProperty(l).value.0;
    assert forall i :: 0 <= i < |word| ==> Upper(t)[i] == word[i];
    UpperToLower(name, word);
  }

  lemma ColonAndSemicolon(t: string, k: nat)
    requires k < |t| && Upper(t)[k] == ':'
    requires forall i :: 0 <= i < k ==> Upper(t)[i] != ':' && Upper(t)[i] != ';'
    ensures Find(t, ':') == k && Find(t[..k], ';') == k
  {
    assert forall i :: 0 <= i < k ==> t[i] != ':' && t[i] != ';';
    FindAt(t, ':', k);
    FindAt(t[..k], ';', k);
  }

  lemma UpperToLower(a: string, b: string)
    requires Upper(a) == b
    ensures SameName(a, b)
  {
    UpperLower(a);
  }

  lemma PropsPrinted(ps: seq<Prop>)
    requires forall p <- ps :: Printable(p)
    ensures AllPlain(Map(ps, LineOf)) && NoneBlank(Map(ps, LineOf)) && NoMarkers(Map(ps, LineOf))
  {
    hide Printable, Plain, StartsBlank, MarkOf, LineOf;
    forall l | l in Map(ps, LineOf) ensures Plain(l) && !StartsBlank(l) && MarkOf(l).Inside? {
      var i :| 0 <= i < |ps| && l == LineOf(ps[i]);
      PrintedLine(ps[i]);
    }
  }

  lemma ValueOfLine(p: Prop, name: string)
    requires Printable(p)
    ensures ValueIfNamed(name)(LineOf(p)) == ValueOf(name)(p)
  {
    hide Printable, LineOf, SplitProperty, SameName;
    PrintedLine(p);
  }

  /** Printed properties read back by name, in order. */
  lemma {:induction false} ReadProps(ps: seq<Prop>, name: string)
    requires forall p <- ps :: Printable(p)
    ensures ValuesNamed(Map(ps, LineOf), name) == FilterMap(ps, ValueOf(name))
  {
    hide Printable, LineOf, ValueIfNamed, ValueOf;
    if ps != [] {
      assert ps[0] in ps && ps == [ps[0]] + ps[1..];
      ReadProps(ps[1..], name);
      MapCons(ps[0], ps[1..], LineOf);
      FilterMapCons(LineOf(ps[0]), Map(ps[1..], LineOf), ValueIfNamed(name));
      ValueOfLine(ps[0], name);
    }
  }

  // ── the event ──────────────────────────────────────────────────────────

  datatype Built = Ok(ical: string) | StartInvalid | EndInvalid

  /** What the event says, dates already formatted. */
  datatype Fields = Fields(uid: string, dtstamp: string, start: Prop, end: Prop, summary: string,
                           description: Option<string>, location: Option<string>, attendees: seq<string>)

  const HEADER := ["BEGIN:VCALENDAR", "VERSION:2.0", "PRODID:-//pimsteward//create_event//EN"]

  const FOOTER := ["END:VCALENDAR"]

  function TextProp(name: string, text: Option<string>): seq<Prop> {
    match text case Some(t) => [Prop(name, "", Esc(t))] case None => []
  }

  function MailTo(a: string): string { "mailto:" + Esc(a) }

  function Attendee(a: string): Prop { Prop("ATTENDEE", "", MailTo(a)) }

  function Props(f: Fields): seq<Prop> {
    [Prop("UID", "", f.uid), Prop("DTSTAMP", "", f.dtstamp), f.start, f.end, Prop("SUMMARY", "", Esc(f.summary))]
    + TextProp("DESCRIPTION", f.description) + TextProp("LOCATION", f.location) + Map(f.attendees, Attendee)
  }

  function EventLines(f: Fields): seq<string> {
    HEADER + ([BEGIN_VEVENT] + (Map(Props(f), LineOf) + ([END_VEVENT] + FOOTER)))
  }

  /** What `chrono` and the hash make of the arguments: dates and instants as
      they are printed, or None when malformed. */
  datatype Outside = Outside(date: string -> Option<string>, instant: string -> Option<string>,
                             now: string, freshUid: string)

  predicate AllDay(start: string) { |start| == 10 && start[4] == '-' }

  function Stamp(name: string, allDay: bool, text: string, o: Outside): Option<Prop> {
    if allDay then
      match o.date(text) case Some(d) => Some(Prop(name, ";VALUE=DATE", d)) case None => None
    else
      match o.instant(text) case Some(t) => Some(Prop(name, "", t)) case None => None
  }

  /** The arguments of a call. */
  datatype Args = Args(summary: string, start: string, end: string, description: Option<string>,
                       location: Option<string>, attendees: seq<string>, eventId: Option<string>)

  /** What the call returns: the printed event, or the first date that is invalid. */
  function Written(a: Args, o: Outside): Built {
    var dtstart, dtend := Stamp("DTSTART", AllDay(a.start), a.start, o), Stamp("DTEND", AllDay(a.start), a.end, o);
    if dtstart.None? then StartInvalid
    else if dtend.None? then EndInvalid
    else Ok(Unlines(EventLines(Fields(
      (match a.eventId case Some(id) => id case None => o.freshUid), o.now, dtstart.value, dtend.value,
      a.summary, a.description, a.location, a.attendees))))
  }

  /** `build_ical_event` */
  method BuildIcalEvent(summary: string, start: string, end: string, description: Option<string>,
                        location: Option<string>, attendees: seq<string>, eventId: Option<string>, o: Outside)
    returns (r: Built)
    ensures r == Written(Args(summary, start, end, description, location, attendees, eventId), o)
  {
    hide Stamp, AllDay, Esc, LineOf, Unlines, TextProp;
    var dtstart := Stamp("DTSTART", AllDay(start), start, o);
    if dtstart.None? { return StartInvalid; }
    var dtend := Stamp("DTEND", AllDay(start), end, o);
    if dtend.None? { return EndInvalid; }
    var uid := match eventId case Some(id) => id case None => o.freshUid;

    var out := Unlines(HEADER) + "BEGIN:VEVENT\r\n";
    PushLine(HEADER, BEGIN_VEVENT);
    ghost var props := [];
    assert Lead() + Map(props, LineOf) == Lead();
    out, props := WriteProp(out, Prop("UID", "", uid), props);
    out, props := WriteProp(out, Prop("DTSTAMP", "", o.now), props);
    out, props := WriteProp(out, dtstart.value, props);
    out, props := WriteProp(out, dtend.value, props);
    out, props := WriteProp(out, Prop("SUMMARY", "", Esc(summary)), props);
    FiveSnocs(Prop("UID", "", uid), Prop("DTSTAMP", "", o.now), dtstart.value, dtend.value,
              Prop("SUMMARY", "", Esc(summary)));
    out, props := WriteText(out, "DESCRIPTION", description, props);
    out, props := WriteText(out, "LOCATION", location, props);
    out, props := WriteAttendees(out, attendees, props);
    r := Ok(WriteEnd(out, props));
  }

  lemma FiveSnocs<T>(a: T, b: T, c: T, d: T, e: T)
    ensures [] + [a] + [b] + [c] + [d] + [e] == [a, b, c, d, e]
  {}

  /** Writes an optional text property. */
  method WriteText(out: string, name: string, text: Option<string>, ghost props: seq<Prop>)
    returns (r: string, ghost after: seq<Prop>)
    requires out == Unlines(Lead() + Map(props, LineOf))
    ensures after == props + TextProp(name, text)
    ensures r == Unlines(Lead() + Map(props + TextProp(name, text), LineOf))
  {
    r, after := out, props;
    if text.Some? { r, after := WriteProp(out, Prop(name, "", Esc(text.value)), props); }
  }

  function Lead(): seq<string> { HEADER + [BEGIN_VEVENT] }

  method WriteProp(out: string, p: Prop, ghost props: seq<Prop>) returns (r: string, ghost after: seq<Prop>)
    requires out == Unlines(Lead() + Map(props, LineOf))
    ensures after == props + [p]
    ensures r == Unlines(Lead() + Map(props + [p], LineOf))
  {
    r := out + (LineOf(p) + "\r\n");
    after := props + [p];
    PushLine(Lead() + Map(props, LineOf), LineOf(p));
    assert Map(after, LineOf) == Map(props, LineOf) + [LineOf(p)];
    Assoc(Lead(), Map(props, LineOf), [LineOf(p)]);
  }

  method WriteAttendees(out: string, attendees: seq<string>, ghost props: seq<Prop>)
    returns (r: string, ghost after: seq<Prop>)
    requires out == Unlines(Lead() + Map(props, LineOf))
    ensures after == props + Map(attendees, Attendee)
    ensures r == Unlines(Lead() + Map(props + Map(attendees, Attendee), LineOf))
  {
    r, after := out, props;
    for i := 0 to |attendees|
      invariant after == props + Map(attendees[..i], Attendee)
      invariant r == Unlines(Lead() + Map(after, LineOf))
    {
      r, after := WriteProp(r, Attendee(attendees[i]), after);
      assert Map(attendees[..i + 1], Attendee) == Map(attendees[..i], Attendee) + [Attendee(attendees[i])];
    }
    assert attendees[..|attendees|] == attendees;
  }

  function WriteEnd(out: string, ghost props: seq<Prop>): (r: string)
    requires out == Unlines(Lead() + Map(props, LineOf))
    ensures r == Unlines(HEADER + ([BEGIN_VEVENT] + (Map(props, LineOf) + ([END_VEVENT] + FOOTER))))
  {
    var content := Map(props, LineOf);
    PushLine(Lead() + content, END_VEVENT);
    PushLine((Lead() + content) + [END_VEVENT], FOOTER[0]);
    ListsAgree(HEADER, [BEGIN_VEVENT], content, [END_VEVENT], FOOTER);
    out + (END_VEVENT + "\r\n") + (FOOTER[0] + "\r\n")
  }

  lemma ListsAgree<T>(a: seq<T>, b: seq<T>, c: seq<T>, d: seq<T>, e: seq<T>)
    ensures ((((a + b) + c) + d) + e) == a + (b + (c + (d + e)))
  {}

  /** What a caller must guarantee: the identifier and the formatted dates stay on one line. */
  predicate Writable(f: Fields) {
    && OneLine(f.uid) && OneLine(f.dtstamp)
    && f.start.name == "DTSTART" && f.end.name == "DTEND"
    && (f.start.params == "" || f.start.params == ";VALUE=DATE")
    && (f.end.params == "" || f.end.params == ";VALUE=DATE")
    && OneLine(f.start.value) && OneLine(f.end.value)
  }

  lemma EscPrintable(name: string, before: string, text: string)
    requires Printable(Prop(name, "", "")) && OneLine(before)
    ensures Printable(Prop(name, "", before + Esc(text)))
  {
    EscStaysOnLine(text);
  }

  lemma NamesPrintable()
    ensures Printable(Prop("UID", "", "")) && Printable(Prop("DTSTAMP", "", ""))
    ensures Printable(Prop("SUMMARY", "", "")) && Printable(Prop("DESCRIPTION", "", ""))
    ensures Printable(Prop("LOCATION", "", "")) && Printable(Prop("ATTENDEE", "", ""))
  {
    assert |Lower("BEGIN")| == 5 && |Lower("END")| == 3;
  }

  lemma DatesPrintable(p: Prop)
    requires p.name == "DTSTART" || p.name == "DTEND"
    requires p.params == "" || p.params == ";VALUE=DATE"
    requires OneLine(p.value)
    ensures Printable(p)
  {
    assert |Lower("BEGIN")| == 5 && |Lower("END")| == 3;
  }

  lemma AllPrintable(f: Fields)
    requires Writable(f)
    ensures forall p <- Props(f) :: Printable(p)
  {
    hide Esc, IsBlank;
    NamesPrintable();
    TextPrintable("SUMMARY", Some(f.summary));
    TextPrintable("DESCRIPTION", f.description);
    TextPrintable("LOCATION", f.location);
    DatesPrintable(f.start);
    DatesPrintable(f.end);
    forall p | p in Map(f.attendees, Attendee) ensures Printable(p) {
      var i :| 0 <= i < |f.attendees| && p == Attendee(f.attendees[i]);
      EscPrintable("ATTENDEE", "mailto:", f.attendees[i]);
    }
  }

  lemma TextPrintable(name: string, text: Option<string>)
    requires Printable(Prop(name, "", ""))
    ensures forall p <- TextProp(name, text) :: Printable(p)
  {
    if text.Some? {
      assert "" + Esc(text.value) == Esc(text.value);
      EscPrintable(name, "", text.value);
    }
  }

  /** Reading any property of a written event gives exactly the values written. */
  lemma ReadEvent(f: Fields, name: string)
    requires Writable(f)
    ensures VeventFieldAll(Unlines(EventLines(f)), name) == FilterMap(Props(f), ValueOf(name))
  {
    hide Printable, EventLines, Props, Writable, Body, FilterMap;
    AllPrintable(f);
    ReadBody(f);
    ReadProps(Props(f), name);
  }

  /** The content of a written event is its properties, line by line. */
  lemma ReadBody(f: Fields)
    requires Writable(f)
    ensures Body(LogicalLines(Unlines(EventLines(f)))) == Map(Props(f), LineOf)
  {
    AllPrintable(f);
    PropsPrinted(Props(f));
    var content := Map(Props(f), LineOf);
    HeaderLines();
    OtherLines();
    BodyBetween(HEADER, content, FOOTER);
    PlainConcat(HEADER, [BEGIN_VEVENT] + (content + ([END_VEVENT] + FOOTER)));
    PlainConcat([BEGIN_VEVENT], content + ([END_VEVENT] + FOOTER));
    PlainConcat(content, [END_VEVENT] + FOOTER);
    PlainConcat([END_VEVENT], FOOTER);
    ReadBack(EventLines(f));
  }

  lemma HeaderLines()
    ensures AllPlain(HEADER) && NoneBlank(HEADER) && NoMarkers(HEADER)
  {
    hide MarkOf, OneLine;
    CalendarLine();
    VersionLine();
    ProdidLine();
  }

  lemma CalendarLine()
    ensures Plain("BEGIN:VCALENDAR") && !StartsBlank("BEGIN:VCALENDAR") && MarkOf("BEGIN:VCALENDAR").Inside?
  {
    OrdinaryLine("BEGIN:VCALENDAR");
  }

  lemma VersionLine()
    ensures Plain("VERSION:2.0") && !StartsBlank("VERSION:2.0") && MarkOf("VERSION:2.0").Inside?
  {
    OrdinaryLine("VERSION:2.0");
  }

  lemma ProdidOneLine()
    ensures OneLine("PRODID:-//pimsteward//create_event//EN")
  {
    var l := "PRODID:-//pimsteward//create_event//EN";
    assert forall i :: 0 <= i < |l| ==> l[i] != '\n' && l[i] != '\r';
  }

  lemma ProdidLine()
    ensures var l := "PRODID:-//pimsteward//create_event//EN"; Plain(l) && !StartsBlank(l) && MarkOf(l).Inside?
  {
    hide OneLine;
    ProdidOneLine();
    OrdinaryLine("PRODID:-//pimsteward//create_event//EN");
  }

  lemma OtherLines()
    ensures AllPlain(FOOTER) && NoneBlank(FOOTER)
    ensures AllPlain([BEGIN_VEVENT]) && NoneBlank([BEGIN_VEVENT])
    ensures AllPlain([END_VEVENT]) && NoneBlank([END_VEVENT])
  {
    OrdinaryLine(FOOTER[0]);
    OrdinaryLine(BEGIN_VEVENT);
    OrdinaryLine(END_VEVENT);
  }

  // ── each field by name ─────────────────────────────────────────────────

  function Fixed(f: Fields): seq<Prop> {
    [Prop("UID", "", f.uid), Prop("DTSTAMP", "", f.dtstamp), f.start, f.end, Prop("SUMMARY", "", Esc(f.summary))]
  }

  function Values(ps: seq<Prop>): seq<string> { Map(ps, (p: Prop) => p.value) }

  function When(here: bool, vs: seq<string>): seq<string> { if here then vs else [] }

  /** Asking for a name in properties that all carry one name. */
  lemma {:induction false} OneName(ps: seq<Prop>, own: string, name: string)
    requires forall p <- ps :: p.name == own
    ensures FilterMap(ps, ValueOf(name)) == When(SameName(own, name), Values(ps))
  {
    if ps != [] {
      OneName(ps[1..], own, name);
      assert ps[0] in ps;
      assert Values(ps) == [ps[0].value] + Values(ps[1..]);
    }
  }

  lemma ValuesByGroup(f: Fields, name: string)
    ensures FilterMap(Props(f), ValueOf(name)) ==
            FilterMap(Fixed(f), ValueOf(name)) + FilterMap(TextProp("DESCRIPTION", f.description), ValueOf(name))
            + FilterMap(TextProp("LOCATION", f.location), ValueOf(name))
            + FilterMap(Map(f.attendees, Attendee), ValueOf(name))
  {
    var a, b, c, d := Fixed(f), TextProp("DESCRIPTION", f.description), TextProp("LOCATION", f.location),
      Map(f.attendees, Attendee);
    FilterMapConcat(a + b + c, d, ValueOf(name));
    FilterMapConcat(a + b, c, ValueOf(name));
    FilterMapConcat(a, b, ValueOf(name));
  }

  lemma Single(p: Prop, name: string)
    ensures FilterMap([p], ValueOf(name)) == When(SameName(p.name, name), [p.value])
  {
    assert [p][1..] == [];
  }

  lemma FiveConcat(a: Prop, b: Prop, c: Prop, d: Prop, e: Prop, g: Prop -> Option<string>)
    ensures FilterMap([a, b, c, d, e], g) ==
            FilterMap([a], g) + FilterMap([b], g) + FilterMap([c], g) + FilterMap([d], g) + FilterMap([e], g)
  {
    FilterMapConcat([a], [b], g);
    FilterMapConcat([a, b], [c], g);
    FilterMapConcat([a, b, c], [d], g);
    FilterMapConcat([a, b, c, d], [e], g);
    assert [a] + [b] == [a, b] && [a, b] + [c] == [a, b, c];
    assert [a, b, c] + [d] == [a, b, c, d] && [a, b, c, d] + [e] == [a, b, c, d, e];
  }

  lemma FixedByName(f: Fields, name: string)
    ensures FilterMap(Fixed(f), ValueOf(name)) ==
            When(SameName("UID", name), [f.uid]) + When(SameName("DTSTAMP", name), [f.dtstamp])
            + When(SameName(f.start.name, name), [f.start.value]) + When(SameName(f.end.name, name), [f.end.value])
            + When(SameName("SUMMARY", name), [Esc(f.summary)])
  {
    var ps := Fixed(f);
    FiveConcat(ps[0], ps[1], ps[2], ps[3], ps[4], ValueOf(name));
    Single(ps[0], name);
    Single(ps[1], name);
    Single(ps[2], name);
    Single(ps[3], name);
    Single(ps[4], name);
  }

  lemma AttendeeValues(list: seq<string>)
    ensures Values(Map(list, Attendee)) == Map(list, MailTo)
  {}

  lemma DifferentNames(a: string, b: string)
    requires |a| != |b| || (a != "" && LowerChar(a[0]) != LowerChar(b[0]))
    ensures !SameName(a, b)
  {
    if |a| == |b| { assert Lower(a)[0] != Lower(b)[0]; }
  }

  predicate TextField(name: string) {
    name == "UID" || name == "SUMMARY" || name == "DESCRIPTION" || name == "LOCATION" || name == "ATTENDEE"
  }

  /** The names of the properties are all different. */
  lemma EventNames(name: string)
    requires TextField(name)
    ensures SameName("UID", name) <==> name == "UID"
    ensures SameName("SUMMARY", name) <==> name == "SUMMARY"
    ensures SameName("DESCRIPTION", name) <==> name == "DESCRIPTION"
    ensures SameName("LOCATION", name) <==> name == "LOCATION"
    ensures SameName("ATTENDEE", name) <==> name == "ATTENDEE"
    ensures !SameName("DTSTAMP", name) && !SameName("DTSTART", name) && !SameName("DTEND", name)
  {
    if name != "UID" { DifferentNames("UID", name); }
    if name != "SUMMARY" { DifferentNames("SUMMARY", name); }
    if name != "DESCRIPTION" { DifferentNames("DESCRIPTION", name); }
    if name != "LOCATION" { DifferentNames("LOCATION", name); }
    if name != "ATTENDEE" { DifferentNames("ATTENDEE", name); }
    DifferentNames("DTSTAMP", name);
    DifferentNames("DTSTART", name);
    DifferentNames("DTEND", name);
  }

  /** The values the event holds under each text field. */
  function Told(f: Fields, name: string): seq<string> {
    if name == "UID" then [f.uid]
    else if name == "SUMMARY" then [Esc(f.summary)]
    else if name == "DESCRIPTION" then Values(TextProp(name, f.description))
    else if name == "LOCATION" then Values(TextProp(name, f.location))
    else Map(f.attendees, MailTo)
  }

  lemma GroupsByName(f: Fields, name: string)
    ensures FilterMap(Props(f), ValueOf(name)) ==
            FilterMap(Fixed(f), ValueOf(name))
            + When(SameName("DESCRIPTION", name), Values(TextProp("DESCRIPTION", f.description)))
            + When(SameName("LOCATION", name), Values(TextProp("LOCATION", f.location)))
            + When(SameName("ATTENDEE", name), Map(f.attendees, MailTo))
  {
    ValuesByGroup(f, name);
    OneName(TextProp("DESCRIPTION", f.description), "DESCRIPTION", name);
    OneName(TextProp("LOCATION", f.location), "LOCATION", name);
    OneName(Map(f.attendees, Attendee), "ATTENDEE", name);
    AttendeeValues(f.attendees);
  }

  /** Reader and writer agree on every text field, whatever the strings are. */
  lemma EventReadsBack(f: Fields, name: string)
    requires Writable(f) && TextField(name)
    ensures VeventFieldAll(Unlines(EventLines(f)), name) == Told(f, name)
  {
    ReadEvent(f, name);
    GroupsByName(f, name);
    FixedByName(f, name);
    EventNames(name);
    OnlyOne(name, [f.uid], [f.dtstamp], [f.start.value], [f.end.value], [Esc(f.summary)],
            Values(TextProp("DESCRIPTION", f.description)), Values(TextProp("LOCATION", f.location)),
            Map(f.attendees, MailTo));
  }

  /** Of eight conditional parts only the one asked for is there. */
  lemma OnlyOne(name: string, a: seq<string>, b: seq<string>, c: seq<string>, d: seq<string>, e: seq<string>,
                g: seq<string>, h: seq<string>, k: seq<string>)
    requires TextField(name)
    ensures When(name == "UID", a) + When(false, b) + When(false, c) + When(false, d) + When(name == "SUMMARY", e)
            + When(name == "DESCRIPTION", g) + When(name == "LOCATION", h) + When(name == "ATTENDEE", k)
            == if name == "UID" then a else if name == "SUMMARY" then e
               else if name == "DESCRIPTION" then g else if name == "LOCATION" then h else k
  {}

  /** The summary comes back as it was given, minus carriage returns. */
  lemma SummaryRoundTrip(f: Fields)
    requires Writable(f)
    ensures VeventField(Unlines(EventLines(f)), "SUMMARY") == Some(Esc(f.summary))
    ensures Unescape(VeventField(Unlines(EventLines(f)), "SUMMARY").value) == WithoutCr(f.summary)
  {
    EventReadsBack(f, "SUMMARY");
    UnescapeUndoesEsc(f.summary);
  }

  /** The values read under a name, unescaped. */
  function TextsOf(ical: string, name: string): seq<string> { Map(VeventFieldAll(ical, name), Unescape) }

  function Given(text: Option<string>): seq<string> { match text case Some(t) => [WithoutCr(t)] case None => [] }

  function MailToText(a: string): string { "mailto:" + WithoutCr(a) }

  lemma UnescapeChar(c: char, s: string)
    requires c != '\\'
    ensures Unescape([c] + s) == [c] + Unescape(s)
  {
    assert ([c] + s)[1..] == s;
  }

  lemma {:induction false} UnescapePlain(before: string, s: string)
    requires '\\' !in before
    ensures Unescape(before + s) == before + Unescape(s)
  {
    hide Unescape;
    if before == "" {
      assert before + s == s && before + Unescape(s) == Unescape(s);
    } else {
      var c, rest := before[0], before[1..];
      assert before == [c] + rest && c in before && forall x <- rest :: x in before;
      UnescapePlain(rest, s);
      UnescapeChar(c, rest + s);
      Assoc([c], rest, s);
      Assoc([c], rest, Unescape(s));
    }
  }

  lemma UnescapeMailTo(a: string)
    ensures Unescape(MailTo(a)) == MailToText(a)
  {
    assert '\\' !in "mailto:";
    UnescapePlain("mailto:", Esc(a));
    UnescapeUndoesEsc(a);
  }

  /** Every text comes back as it was given, minus carriage returns. */
  lemma TextsRoundTrip(f: Fields)
    requires Writable(f)
    ensures var ical := Unlines(EventLines(f));
      && TextsOf(ical, "SUMMARY") == [WithoutCr(f.summary)]
      && TextsOf(ical, "DESCRIPTION") == Given(f.description)
      && TextsOf(ical, "LOCATION") == Given(f.location)
      && TextsOf(ical, "ATTENDEE") == Map(f.attendees, MailToText)
  {
    hide Unescape, Esc, WithoutCr, MailTo, MailToText, VeventFieldAll, Unlines, EventLines, Writable;
    EventReadsBack(f, "SUMMARY");
    EventReadsBack(f, "DESCRIPTION");
    EventReadsBack(f, "LOCATION");
    EventReadsBack(f, "ATTENDEE");
    UnescapeUndoesEsc(f.summary);
    GivenBack("DESCRIPTION", f.description);
    GivenBack("LOCATION", f.location);
    forall i | 0 <= i < |f.attendees| ensures Unescape(MailTo(f.attendees[i])) == MailToText(f.attendees[i]) {
      UnescapeMailTo(f.attendees[i]);
    }
    assert Map(Map(f.attendees, MailTo), Unescape) == Map(f.attendees, MailToText);
  }

  lemma GivenBack(name: string, text: Option<string>)
    ensures Map(Values(TextProp(name, text)), Unescape) == Given(text)
  {
    if text.Some? { UnescapeUndoesEsc(text.value); }
  }

  /** Formatted dates and identifiers stay on one line. */
  ghost predicate SingleLines(o: Outside) {
    && OneLine(o.now) && OneLine(o.freshUid)
    && (forall s :: o.date(s).Some? ==> OneLine(o.date(s).value))
    && forall s :: o.instant(s).Some? ==> OneLine(o.instant(s).value)
  }

  /** A created event tells its reader exactly what the caller said, whatever the
      texts contain. */
  lemma CreatedEventReadsBack(a: Args, o: Outside)
    requires SingleLines(o) && (a.eventId.Some? ==> OneLine(a.eventId.value)) && Written(a, o).Ok?
    ensures var ical := Written(a, o).ical;
      && TextsOf(ical, "SUMMARY") == [WithoutCr(a.summary)]
      && TextsOf(ical, "DESCRIPTION") == Given(a.description)
      && TextsOf(ical, "LOCATION") == Given(a.location)
      && TextsOf(ical, "ATTENDEE") == Map(a.attendees, MailToText)
  {
    hide OneLine, TextsOf, Given, Unlines, EventLines;
    var start, end := Stamp("DTSTART", AllDay(a.start), a.start, o), Stamp("DTEND", AllDay(a.start), a.end, o);
    TextsRoundTrip(Fields(match a.eventId case Some(id) => id case None => o.freshUid, o.now, start.value, end.value,
                          a.summary, a.description, a.location, a.attendees));
  }

  // ── dates and identifiers ──────────────────────────────────────────────

  lemma {:induction false} FilterMapOnly<A, B>(xs: seq<A>, f: A -> Option<B>, i: nat)
    requires i < |xs| && f(xs[i]).Some? && forall j :: 0 <= j < |xs| && j != i ==> f(xs[j]).None?
    ensures FilterMap(xs, f) == [f(xs[i]).value]
  {
    if i > 0 {
      FilterMapOnly(xs[1..], f, i - 1);
    } else {
      FilterMapNone(xs[1..], f);
    }
  }

  function LineIf(name: string): Prop -> Option<string> {
    (p: Prop) => if SameName(p.name, name) then Some(LineOf(p)) else None
  }

  lemma {:induction false} LinesOfProps(ps: seq<Prop>, name: string)
    requires forall p <- ps :: Printable(p)
    ensures LinesNamed(Map(ps, LineOf), name) == FilterMap(ps, LineIf(name))
  {
    hide Printable, LineOf, SplitProperty, SameName;
    if ps != [] {
      assert ps[0] in ps && ps == [ps[0]] + ps[1..];
      LinesOfProps(ps[1..], name);
      MapCons(ps[0], ps[1..], LineOf);
      FilterMapCons(LineOf(ps[0]), Map(ps[1..], LineOf), LineIfNamed(name));
      PrintedLine(ps[0]);
    }
  }

  lemma DifferentAt(a: string, b: string, k: nat)
    requires k < |a| && k < |b| && LowerChar(a[k]) != LowerChar(b[k])
    ensures !SameName(a, b)
  {
    assert Lower(a)[k] != Lower(b)[k];
  }

  /** No other property has the name of one of the first four. */
  lemma DateNames()
    ensures !SameName("DTSTAMP", "DTSTART") && !SameName("DTSTART", "DTSTAMP")
    ensures forall name <- ["UID", "SUMMARY", "DESCRIPTION", "LOCATION", "ATTENDEE", "DTEND"] ::
      !SameName(name, "DTSTART") && !SameName(name, "DTSTAMP")
    ensures forall name <- ["UID", "SUMMARY", "DESCRIPTION", "LOCATION", "ATTENDEE", "DTSTART", "DTSTAMP"] ::
      !SameName(name, "DTEND")
  {
    DifferentAt("DTSTAMP", "DTSTART", 5);
    DifferentAt("DTSTART", "DTSTAMP", 5);
    DifferentAt("UID", "DTSTART", 0);
    DifferentAt("SUMMARY", "DTSTART", 0);
    DifferentNames("DESCRIPTION", "DTSTART");
    DifferentAt("LOCATION", "DTSTART", 0);
    DifferentAt("ATTENDEE", "DTSTART", 0);
    DifferentNames("DTEND", "DTSTART");
    DifferentAt("UID", "DTSTAMP", 0);
    DifferentAt("SUMMARY", "DTSTAMP", 0);
    DifferentNames("DESCRIPTION", "DTSTAMP");
    DifferentAt("LOCATION", "DTSTAMP", 0);
    DifferentAt("ATTENDEE", "DTSTAMP", 0);
    DifferentNames("DTEND", "DTSTAMP");
    DifferentAt("UID", "DTEND", 0);
    DifferentAt("SUMMARY", "DTEND", 0);
    DifferentNames("DESCRIPTION", "DTEND");
    DifferentAt("LOCATION", "DTEND", 0);
    DifferentAt("ATTENDEE", "DTEND", 0);
    DifferentNames("DTSTART", "DTEND");
    DifferentNames("DTSTAMP", "DTEND");
  }

  lemma PropNames(f: Fields)
    requires Writable(f)
    ensures forall i :: 4 <= i < |Props(f)| ==>
      Props(f)[i].name in ["SUMMARY", "DESCRIPTION", "LOCATION", "ATTENDEE"]
    ensures |Props(f)| >= 5 && Props(f)[0] == Prop("UID", "", f.uid) && Props(f)[1] == Prop("DTSTAMP", "", f.dtstamp)
    ensures Props(f)[2] == f.start && Props(f)[3] == f.end
  {}

  /** Each date line and the stamp is there once, as it was made. */
  lemma DatesReadBack(f: Fields)
    requires Writable(f)
    ensures var body := Body(LogicalLines(Unlines(EventLines(f))));
      && LinesNamed(body, "DTSTART") == [LineOf(f.start)]
      && LinesNamed(body, "DTEND") == [LineOf(f.end)]
      && LinesNamed(body, "DTSTAMP") == [LineOf(Prop("DTSTAMP", "", f.dtstamp))]
  {
    hide Printable, EventLines, Body, FilterMap, SameName, LineOf, Writable;
    AllPrintable(f);
    ReadBody(f);
    LinesOfProps(Props(f), "DTSTART");
    LinesOfProps(Props(f), "DTEND");
    LinesOfProps(Props(f), "DTSTAMP");
    PropNames(f);
    WritableNames(f);
    hide Props;
    DateNames();
    SameItself("DTSTART");
    SameItself("DTEND");
    SameItself("DTSTAMP");
    FilterMapOnly(Props(f), LineIf("DTSTART"), 2);
    FilterMapOnly(Props(f), LineIf("DTEND"), 3);
    FilterMapOnly(Props(f), LineIf("DTSTAMP"), 1);
  }

  lemma WritableNames(f: Fields)
    requires Writable(f)
    ensures f.start.name == "DTSTART" && f.end.name == "DTEND"
  {}

  lemma SameItself(name: string)
    ensures SameName(name, name)
  {}

  /** A date alone: ten characters with a dash after the fourth. */
  predicate DateOnly(start: string) { |start| == 10 && start[4] == '-' }

  /** What the outside makes of a start or end, as a date or as an instant. */
  function Formatted(a: Args, text: string, o: Outside): Option<string> {
    if DateOnly(a.start) then o.date(text) else o.instant(text)
  }

  /** The error is the start's exactly when the start does not parse, and the end's
      exactly when that alone does not. */
  lemma CreationFails(a: Args, o: Outside)
    ensures Written(a, o) == StartInvalid <==> Formatted(a, a.start, o).None?
    ensures Written(a, o) == EndInvalid <==> Formatted(a, a.start, o).Some? && Formatted(a, a.end, o).None?
  {}

  /** A created event has one start, made from the given start, and one end, made from
      the given end, both dates if the start is one; the given uid or else the fresh
      one; and the present as its stamp. */
  lemma CreatedDates(a: Args, o: Outside)
    requires SingleLines(o) && (a.eventId.Some? ==> OneLine(a.eventId.value)) && Written(a, o).Ok?
    ensures Formatted(a, a.start, o).Some? && Formatted(a, a.end, o).Some?
    ensures var body, kind := Body(LogicalLines(Written(a, o).ical)), if DateOnly(a.start) then ";VALUE=DATE:" else ":";
      && LinesNamed(body, "DTSTART") == ["DTSTART" + kind + Formatted(a, a.start, o).value]
      && LinesNamed(body, "DTEND") == ["DTEND" + kind + Formatted(a, a.end, o).value]
      && LinesNamed(body, "DTSTAMP") == ["DTSTAMP:" + o.now]
    ensures VeventFieldAll(Written(a, o).ical, "UID") ==
            [match a.eventId case Some(id) => id case None => o.freshUid]
  {
    hide OneLine, Unlines, EventLines, Body, LinesNamed, VeventFieldAll;
    var start, end := Stamp("DTSTART", AllDay(a.start), a.start, o), Stamp("DTEND", AllDay(a.start), a.end, o);
    var f := Fields(match a.eventId case Some(id) => id case None => o.freshUid, o.now, start.value, end.value,
                    a.summary, a.description, a.location, a.attendees);
    DatesReadBack(f);
    EventReadsBack(f, "UID");
    var date := Formatted(a, a.start, o).value;
    assert "DTSTART" + ";VALUE=DATE" + ":" == "DTSTART" + ";VALUE=DATE:";
    assert "DTEND" + ";VALUE=DATE" + ":" == "DTEND" + ";VALUE=DATE:";
    assert "DTSTART" + "" == "DTSTART" && "DTEND" + "" == "DTEND" && "DTSTAMP" + "" + ":" == "DTSTAMP:";
  }
}
