/** `imip.rs`: the METHOD:REQUEST / METHOD:CANCEL payload made from a stored
    event, and the readers of its addresses. */
module Imip {
  import opened Seqs
  import opened Text
  import opened Lines
  import opened Vevent
  import opened Components

  // ── addresses ──────────────────────────────────────────────────────────

  /** `split([';', ':'])` */
  function Pieces(s: string): seq<string>
    decreases |s|
  {
    var i := NextSeparator(s);
    if i == |s| then [s] else [s[..i]] + Pieces(s[i + 1..])
  }

  function NextSeparator(s: string): (i: nat)
    ensures i <= |s| && ';' !in s[..i] && ':' !in s[..i]
    ensures i < |s| ==> s[i] == ';' || s[i] == ':'
  {
    if s == "" || s[0] == ';' || s[0] == ':' then 0 else 1 + NextSeparator(s[1..])
  }

  function StripEmail(piece: string): Option<string> {
    var p := Trim(piece);
    if "EMAIL=" <= p || "email=" <= p then Some(p[6..]) else None
  }

  /** What follows `EMAIL=` in the first piece that starts with it. */
  function EmailParam(pieces: seq<string>): Option<string> {
    if pieces == [] then None
    else if StripEmail(pieces[0]).Some? then StripEmail(pieces[0])
    else EmailParam(pieces[1..])
  }

  /** `address_of` */
  function AddressOf(line: string): Option<string> {
    match EmailParam(Pieces(line))
    case Some(rest) => Some(Lower(Trim(rest)))
    case None =>
      var colon := Find(line, ':');
      var value := Lower(if colon < |line| then line[colon + 1..] else "");
      if "mailto:" <= value then Some(Trim(value[7..])) else None
  }

  function Address(line: string): Option<string> {
    match AddressOf(line) case Some(a) => (if a == "" then None else Some(a)) case None => None
  }

  /** `attendees`, addresses only. */
  function Attendees(ics: string): seq<string> {
    FilterMap(LinesNamed(Body(LogicalLines(ics)), "ATTENDEE"), Address)
  }

  /** `organizer`, address only. */
  function Organizer(ics: string): Option<string> {
    var ls := LinesNamed(Body(LogicalLines(ics)), "ORGANIZER");
    if ls == [] then None else Address(ls[0])
  }

  // ── the lines of the payload ───────────────────────────────────────────

  datatype Kind = Marker | Organizes | Attends | Sequences | Stamps | Survives

  predicate Begins(line: string, word: string) { word <= Upper(line) }

  /** What becomes of a line of the stored event. */
  function KindOf(line: string): Kind {
    if Begins(line, "BEGIN:VEVENT") || Begins(line, "END:VEVENT") then Marker
    else if Begins(line, "ORGANIZER") then Organizes
    else if Begins(line, "ATTENDEE") then Attends
    else if Begins(line, "SEQUENCE") then Sequences
    else if Begins(line, "DTSTAMP") then Stamps
    else Survives
  }

  function Digit(d: nat): char
    requires d < 10
  {
    ('0' as int + d) as char
  }

  function Decimal(n: nat): string {
    (if n < 10 then "" else Decimal(n / 10)) + [Digit(n % 10)]
  }

  /** What the payload is made with besides the stored event. */
  datatype Request = Request(method_: string, sequence: nat, organizer: string, attendees: seq<string>, now: string)

  function OrganizerLine(r: Request): string { "ORGANIZER:mailto:" + r.organizer }

  function SequenceLine(r: Request): string { "SEQUENCE:" + Decimal(r.sequence) }

  function StampLine(r: Request): string { "DTSTAMP:" + r.now }

  function AttendeeLine(email: string): string { "ATTENDEE;RSVP=TRUE:mailto:" + email }

  function Rewrite(r: Request): string -> seq<string> {
    line => match KindOf(line)
      case Marker => []
      case Organizes => [OrganizerLine(r)]
      case Attends => []
      case Sequences => [SequenceLine(r)]
      case Stamps => [StampLine(r)]
      case Survives => [line]
  }

  predicate Has(ls: seq<string>, k: Kind) { exists l <- ls :: KindOf(l) == k }

  function Unless(here: bool, l: string): seq<string> { if here then [] else [l] }

  /** The content lines of the new VEVENT, from those of the stored one. */
  function NewEvent(ls: seq<string>, r: Request): seq<string> {
    FlatMap(ls, Rewrite(r)) + Unless(Has(ls, Sequences), SequenceLine(r)) + Unless(Has(ls, Stamps), StampLine(r))
    + Map(r.attendees, AttendeeLine)
  }

  function Head(r: Request): seq<string> {
    ["BEGIN:VCALENDAR", "VERSION:2.0", "PRODID:-//pimsteward//scheduling//EN", "CALSCALE:GREGORIAN",
     "METHOD:" + r.method_]
  }

  /** The first stored VEVENT, as text. */
  function FirstEvent(ics: string): string {
    var events := Extract(ics, "VEVENT");
    if events == [] then "" else Unlines(events[0])
  }

  function Payload(ics: string, r: Request): seq<string> {
    Head(r) + Concat(Extract(ics, "VTIMEZONE"))
    + ([BEGIN_VEVENT] + (NewEvent(SplitLines(Unfold(FirstEvent(ics))), r) + ([END_VEVENT] + ["END:VCALENDAR"])))
  }

  method Push(out: string, l: string, ghost lines: seq<string>) returns (r: string, ghost after: seq<string>)
    requires out == Unlines(lines)
    ensures after == lines + [l] && r == Unlines(lines + [l])
  {
    PushLine(lines, l);
    r := out + (l + "\r\n");
    after := lines + [l];
  }

  /** The loop over the stored event's lines. */
  method RewriteLoop(out0: string, ls: seq<string>, r: Request, ghost lines: seq<string>)
    returns (out: string, wroteSeq: bool, wroteStamp: bool, ghost after: seq<string>)
    requires out0 == Unlines(lines)
    ensures after == lines + FlatMap(ls, Rewrite(r)) && out == Unlines(after)
    ensures wroteSeq == Has(ls, Sequences) && wroteStamp == Has(ls, Stamps)
  {
    out, after, wroteSeq, wroteStamp := out0, lines, false, false;
    assert ls[..0] == [] && lines + [] == lines;
    for i := 0 to |ls|
      invariant after == lines + FlatMap(ls[..i], Rewrite(r)) && out == Unlines(after)
      invariant wroteSeq == Has(ls[..i], Sequences) && wroteStamp == Has(ls[..i], Stamps)
    {
      var line := ls[i];
      FlatMapSnoc(ls, i, Rewrite(r));
      HasSnoc(ls, i, Sequences);
      HasSnoc(ls, i, Stamps);
      Assoc(lines, FlatMap(ls[..i], Rewrite(r)), Rewrite(r)(line));
      var kind := KindOf(line);
      match kind
      case Marker => continue;
      case Attends => continue;
      case Organizes => out, after := Push(out, OrganizerLine(r), after);
      case Sequences =>
        out, after := Push(out, SequenceLine(r), after);
        wroteSeq := true;
      case Stamps =>
        out, after := Push(out, StampLine(r), after);
        wroteStamp := true;
      case Survives => out, after := Push(out, line, after);
    }
    assert ls[..|ls|] == ls;
  }

  lemma HasSnoc(ls: seq<string>, i: nat, k: Kind)
    requires i < |ls|
    ensures Has(ls[..i + 1], k) <==> Has(ls[..i], k) || KindOf(ls[i]) == k
  {
    assert ls[..i + 1] == ls[..i] + [ls[i]];
  }

  lemma FlatMapSnoc<A, B>(xs: seq<A>, i: nat, f: A -> seq<B>)
    requires i < |xs|
    ensures FlatMap(xs[..i + 1], f) == FlatMap(xs[..i], f) + f(xs[i])
  {
    assert xs[..i + 1] == xs[..i] + [xs[i]];
    FlatMapConcat(xs[..i], [xs[i]], f);
    assert [xs[i]][1..] == [];
  }

  method PushZones(out: string, ics: string, ghost lines: seq<string>) returns (r: string, ghost after: seq<string>)
    requires out == Unlines(lines)
    ensures after == lines + Concat(Extract(ics, "VTIMEZONE"))
    ensures r == Unlines(lines + Concat(Extract(ics, "VTIMEZONE")))
  {
    hide Unlines, Extract;
    r, after := out, lines;
    var parts := ExtractComponents(ics, "VTIMEZONE");
    ghost var blocks := Extract(ics, "VTIMEZONE");
    assert lines + Concat(blocks[..0]) == lines;
    for i := 0 to |parts|
      invariant after == lines + Concat(blocks[..i]) && r == Unlines(after)
    {
      ConcatSnoc(blocks, i);
      UnlinesConcat(after, blocks[i]);
      Assoc(lines, Concat(blocks[..i]), blocks[i]);
      r := r + parts[i];
      after := after + blocks[i];
    }
    assert blocks[..|blocks|] == blocks;
  }

  lemma ConcatSnoc(blocks: seq<Block>, i: nat)
    requires i < |blocks|
    ensures Concat(blocks[..i + 1]) == Concat(blocks[..i]) + blocks[i]
  {
    assert blocks[..i + 1] == blocks[..i] + [blocks[i]];
    ConcatConcat(blocks[..i], [blocks[i]]);
    assert [blocks[i]][1..] == [] && blocks[i] + [] == blocks[i];
  }

  method PushAttendees(out: string, emails: seq<string>, ghost lines: seq<string>)
    returns (r: string, ghost after: seq<string>)
    requires out == Unlines(lines)
    ensures after == lines + Map(emails, AttendeeLine) && r == Unlines(lines + Map(emails, AttendeeLine))
  {
    hide AttendeeLine, Unlines;
    r, after := out, lines;
    assert lines + Map(emails[..0], AttendeeLine) == lines;
    for i := 0 to |emails|
      invariant after == lines + Map(emails[..i], AttendeeLine) && r == Unlines(after)
    {
      r, after := Push(r, AttendeeLine(emails[i]), after);
      assert emails[..i + 1] == emails[..i] + [emails[i]];
      MapSnoc(emails[..i], emails[i], AttendeeLine);
      Assoc(lines, Map(emails[..i], AttendeeLine), [AttendeeLine(emails[i])]);
    }
    assert emails[..|emails|] == emails;
  }

  /** The part between the VEVENT markers. */
  method PushContent(out0: string, ls: seq<string>, r: Request, ghost lines: seq<string>)
    returns (out: string, ghost after: seq<string>)
    requires out0 == Unlines(lines)
    ensures after == lines + NewEvent(ls, r) && out == Unlines(lines + NewEvent(ls, r))
  {
    var wroteSeq, wroteStamp;
    out, wroteSeq, wroteStamp, after := RewriteLoop(out0, ls, r, lines);
    if !wroteSeq { out, after := Push(out, SequenceLine(r), after); }
    if !wroteStamp { out, after := Push(out, StampLine(r), after); }
    FourParts(lines, FlatMap(ls, Rewrite(r)), Unless(wroteSeq, SequenceLine(r)), Unless(wroteStamp, StampLine(r)),
              Map(r.attendees, AttendeeLine));
    out, after := PushAttendees(out, r.attendees, after);
  }

  lemma FourParts<T>(a: seq<T>, b: seq<T>, c: seq<T>, d: seq<T>, e: seq<T>)
    ensures a + (b + c + d + e) == (((a + b) + c) + d) + e
    ensures (a + b) + [] == a + b && ((a + b) + c) + [] == (a + b) + c
  {}

  /** `build_imip` */
  method BuildImip(ics: string, r: Request) returns (out: string)
    ensures out == Unlines(Payload(ics, r))
  {
    ghost var lines := Head(r);
    out := Unlines(Head(r));
    out, lines := PushZones(out, ics, lines);
    ghost var before := lines;
    var events := ExtractComponents(ics, "VEVENT");
    var vevent := if events == [] then "" else events[0];
    out, lines := Push(out, BEGIN_VEVENT, lines);
    var unfolded := UnfoldLoop(vevent);
    var ls := SplitLines(unfolded);
    out, lines := PushContent(out, ls, r, lines);
    out, lines := Push(out, END_VEVENT, lines);
    out, lines := Push(out, "END:VCALENDAR", lines);
    Grouped(before, [BEGIN_VEVENT], NewEvent(ls, r), [END_VEVENT], ["END:VCALENDAR"]);
  }

  lemma Grouped<T>(a: seq<T>, b: seq<T>, c: seq<T>, d: seq<T>, e: seq<T>)
    ensures (((a + b) + c) + d) + e == a + (b + (c + (d + e)))
  {}
}
