/** What a reader of the iMIP payload finds in it. */
module ImipProofs {
  import opened Seqs
  import opened Text
  import opened Lines
  import opened Vevent
  import opened Components
  import opened Imip
  import Addresses

  /** The stored event has no hidden folds, and no zone holds a VEVENT marker in any case. */
  predicate Sound(ics: string) {
    NoHiddenFolds(ics) && forall b <- Extract(ics, "VTIMEZONE") :: forall l <- b :: MarkOf(l).Inside?
  }

  /** The strings put on lines of their own contain no line break. */
  predicate Lineable(r: Request) {
    && OneLine(r.method_) && OneLine(r.organizer) && OneLine(r.now)
    && forall e <- r.attendees :: OneLine(e)
  }

  /** The lines of the first stored VEVENT, markers included. */
  function Stored(ics: string): Block {
    var events := Extract(ics, "VEVENT");
    if events == [] then [] else events[0]
  }

  function IsInside(): string -> bool { l => MarkOf(l).Inside? }

  // ── kinds of lines ─────────────────────────────────────────────────────

  lemma {:induction false} DecimalDigits(n: nat)
    ensures forall c <- Decimal(n) :: '0' <= c <= '9'
  {
    if n >= 10 { DecimalDigits(n / 10); }
  }

  function ParseDecimal(s: string): Option<nat> {
    if s == "" then Some(0)
    else
      var last := s[|s| - 1];
      match ParseDecimal(s[..|s| - 1])
      case Some(n) => if '0' <= last <= '9' then Some(10 * n + (last as int - '0' as int)) else None
      case None => None
  }

  /** The decimal is the number's. */
  lemma {:induction false} DecimalParses(n: nat)
    ensures ParseDecimal(Decimal(n)) == Some(n)
  {
    if n < 10 {
      ParseOneMore("", 0, n);
      assert "" + [Digit(n)] == Decimal(n);
    } else {
      DecimalParses(n / 10);
      ParseOneMore(Decimal(n / 10), n / 10, n % 10);
    }
  }

  lemma ParseOneMore(s: string, n: nat, d: nat)
    requires d < 10 && ParseDecimal(s) == Some(n)
    ensures ParseDecimal(s + [Digit(d)]) == Some(10 * n + d)
  {
    assert (s + [Digit(d)])[..|s|] == s;
  }

  lemma StartsSo(word: string, rest: string)
    requires Upper(word) == word
    ensures Begins(word + rest, word)
  {
    assert Upper(word + rest)[..|word|] == word;
  }

  lemma OrganizerKind(r: Request)
    ensures KindOf(OrganizerLine(r)) == Organizes
  {
    KindByWord(OrganizerLine(r), "ORGANIZER", ":mailto:" + r.organizer);
  }

  lemma SequenceKind(r: Request)
    ensures KindOf(SequenceLine(r)) == Sequences
  {
    KindByWord(SequenceLine(r), "SEQUENCE", ":" + Decimal(r.sequence));
  }

  lemma StampKind(r: Request)
    ensures KindOf(StampLine(r)) == Stamps
  {
    KindByWord(StampLine(r), "DTSTAMP", ":" + r.now);
  }

  lemma AttendeeKind(e: string)
    ensures KindOf(AttendeeLine(e)) == Attends
  {
    KindByWord(AttendeeLine(e), "ATTENDEE", ";RSVP=TRUE:mailto:" + e);
  }

  function WordKind(word: string): Kind {
    if word == "ORGANIZER" then Organizes
    else if word == "ATTENDEE" then Attends
    else if word == "SEQUENCE" then Sequences
    else if word == "DTSTAMP" then Stamps
    else Survives
  }

  lemma KindByWord(l: string, word: string, rest: string)
    requires word == "ORGANIZER" || word == "ATTENDEE" || word == "SEQUENCE" || word == "DTSTAMP"
    requires l == word + rest
    ensures KindOf(l) == WordKind(word)
  {
    assert Upper(word) == word;
    StartsSo(word, rest);
    KindOfWord(l, word);
  }

  /** Starting with one of the words decides the kind. */
  lemma KindOfWord(l: string, word: string)
    requires word == "ORGANIZER" || word == "ATTENDEE" || word == "SEQUENCE" || word == "DTSTAMP"
    requires Begins(l, word)
    ensures KindOf(l) == WordKind(word)
  {
    assert Upper(l)[0] == word[0];
    assert "BEGIN:VEVENT"[0] == 'B' && "END:VEVENT"[0] == 'E';
  }

  /** A property of that name starts with that word. */
  lemma NamedBegins(l: string, word: string)
    requires Named(l, word) && Upper(word) == word
    ensures Begins(l, word)
  {
    var name := SplitProperty(l).value.0;
    assert name <= TrimCr(l) <= l;
    assert |Lower(name)| == |Lower(word)|;
    forall i | 0 <= i < |word| ensures Upper(l)[i] == word[i] {
      assert Lower(name)[i] == Lower(word)[i] && Upper(word)[i] == word[i];
      assert name[i] == l[i];
    }
    assert Upper(l)[..|word|] == word;
  }

  // ── the content of the new event ───────────────────────────────────────

  /** Lines that are no VEVENT markers and print to themselves. */
  predicate Settled(l: string) { GoodLine(l) && MarkOf(l).Inside? }

  lemma OwnSettled(r: Request)
    requires Lineable(r)
    ensures Settled(OrganizerLine(r)) && Settled(SequenceLine(r)) && Settled(StampLine(r))
  {
    OrganizerSettled(r);
    SequenceSettled(r);
    StampSettled(r);
  }

  lemma OrganizerSettled(r: Request)
    requires Lineable(r)
    ensures Settled(OrganizerLine(r))
  {
    OrganizerKind(r);
    UnmarkedSettled(OrganizerLine(r));
  }

  lemma SequenceSettled(r: Request)
    ensures Settled(SequenceLine(r))
  {
    DecimalDigits(r.sequence);
    SequenceKind(r);
    UnmarkedSettled(SequenceLine(r));
  }

  lemma StampSettled(r: Request)
    requires Lineable(r)
    ensures Settled(StampLine(r))
  {
    StampKind(r);
    UnmarkedSettled(StampLine(r));
  }

  lemma AttendeeSettled(e: string)
    requires OneLine(e)
    ensures Settled(AttendeeLine(e))
  {
    AttendeeKind(e);
    UnmarkedSettled(AttendeeLine(e));
  }

  /** Only lines of the marker kind are markers. */
  lemma UnmarkedSettled(l: string)
    requires (OneLine(l) && !StartsBlank(l)) || GoodLine(l)
    requires !KindOf(l).Marker?
    ensures Settled(l)
  {
    assert TrimCr(l) == l;
  }

  /** Each line of the new event is one of ours or a surviving stored one. */
  lemma ContentLines(ls: seq<string>, r: Request)
    ensures forall l <- FlatMap(ls, Rewrite(r)) ::
      || l == OrganizerLine(r) || l == SequenceLine(r) || l == StampLine(r)
      || (l in ls && KindOf(l).Survives?)
    ensures Has(ls, Sequences) ==> SequenceLine(r) in FlatMap(ls, Rewrite(r))
  {
    hide KindOf, FlatMap, OrganizerLine, SequenceLine, StampLine;
    FlatMapIn(ls, Rewrite(r));
    forall l | l in FlatMap(ls, Rewrite(r))
      ensures l == OrganizerLine(r) || l == SequenceLine(r) || l == StampLine(r) || (l in ls && KindOf(l).Survives?)
    {
      var x :| x in ls && l in Rewrite(r)(x);
    }
    if Has(ls, Sequences) {
      var x :| x in ls && KindOf(x) == Sequences;
      assert SequenceLine(r) in Rewrite(r)(x);
    }
  }

  lemma ContentSettled(ls: seq<string>, r: Request)
    requires Lineable(r) && forall l <- ls :: IsGood()(l)
    ensures forall l <- NewEvent(ls, r) :: Settled(l)
  {
    ContentLines(ls, r);
    OwnSettled(r);
    forall l | l in FlatMap(ls, Rewrite(r)) ensures Settled(l) {
      if l in ls && KindOf(l).Survives? {
        assert IsGood()(l);
        UnmarkedSettled(l);
      }
    }
    forall l | l in Map(r.attendees, AttendeeLine) ensures Settled(l) {
      var i :| 0 <= i < |r.attendees| && l == AttendeeLine(r.attendees[i]);
      AttendeeSettled(r.attendees[i]);
    }
  }

  lemma HeadSettled(r: Request)
    requires Lineable(r)
    ensures forall l <- Head(r) :: Settled(l)
    ensures GoodLine(BEGIN_VEVENT) && GoodLine(END_VEVENT) && GoodLine("END:VCALENDAR")
  {
    hide Settled, GoodLine;
    CalendarSettled();
    ProdidSettled();
    ScaleSettled();
    MethodLine(r);
    MarkersGood();
  }

  lemma CalendarSettled()
    ensures Settled("BEGIN:VCALENDAR") && Settled("VERSION:2.0")
  {
    OrdinaryLine("BEGIN:VCALENDAR");
    OrdinaryLine("VERSION:2.0");
  }

  lemma ProdidSettled()
    ensures Settled("PRODID:-//pimsteward//scheduling//EN")
  {
    OrdinaryLine("PRODID:-//pimsteward//scheduling//EN");
  }

  lemma ScaleSettled()
    ensures Settled("CALSCALE:GREGORIAN")
  {
    OrdinaryLine("CALSCALE:GREGORIAN");
  }

  lemma MarkersGood()
    ensures GoodLine(BEGIN_VEVENT) && GoodLine(END_VEVENT) && GoodLine("END:VCALENDAR")
  {
    OrdinaryLine(BEGIN_VEVENT);
    OrdinaryLine(END_VEVENT);
    OrdinaryLine("END:VCALENDAR");
  }

  lemma MethodLine(r: Request)
    requires OneLine(r.method_)
    ensures Settled("METHOD:" + r.method_)
  {
    var l := "METHOD:" + r.method_;
    assert l[0] == 'M' && Upper(l)[0] == 'M';
    assert TrimCr(l) == l;
  }

  /** The lines of the stored event are good and read as they are printed. */
  lemma StoredLines(ics: string)
    requires NoHiddenFolds(ics)
    ensures SplitLines(Unfold(FirstEvent(ics))) == Stored(ics)
    ensures forall l <- Stored(ics) :: IsGood()(l)
  {
    ExtractGood(ics, "VEVENT");
    if Extract(ics, "VEVENT") != [] {
      assert Stored(ics) in Extract(ics, "VEVENT");
      GoodReadsBack(Stored(ics));
    }
  }

  /** The payload's lines are read as they are written. */
  lemma PayloadReadsBack(ics: string, r: Request)
    requires NoHiddenFolds(ics) && Lineable(r)
    ensures var event := NewEvent(Stored(ics), r);
      Payload(ics, r) == Head(r) + ZoneLines(ics) + ([BEGIN_VEVENT] + (event + ([END_VEVENT] + ["END:VCALENDAR"])))
    ensures LogicalLines(Unlines(Payload(ics, r))) == Payload(ics, r)
  {
    hide KindOf, MarkOf, GoodLine, Extract, NewEvent, Lineable, Stored, FirstEvent, Head, NoHiddenFolds;
    PayloadParts(ics, r);
    AllGood(Head(r) + ZoneLines(ics), NewEvent(Stored(ics), r));
    GoodReadsBack(Payload(ics, r));
  }

  /** What a reader sees of the payload: what it sees in the zones alone and, unless
      these hold an end marker, the new event. So it sees exactly the new event when
      the zones show it nothing and hold no end marker, or show it the very same. */
  lemma ReadPayloadExactly(ics: string, r: Request)
    requires NoHiddenFolds(ics) && Lineable(r)
    ensures var zones, event := ZoneLines(ics), NewEvent(Stored(ics), r);
      var seen := Body(LogicalLines(Unlines(Payload(ics, r))));
      && seen == (if HasEnd(zones) then Body(zones) else Body(zones) + event)
      && (seen == event <==> Body(zones) == if HasEnd(zones) then event else [])
  {
    hide KindOf, MarkOf, GoodLine, Extract, NewEvent, Lineable, Stored, FirstEvent, Head, HasEnd, Body, Scan;
    hide NoHiddenFolds;
    PayloadReadsBack(ics, r);
    PayloadParts(ics, r);
    var zones, event := ZoneLines(ics), NewEvent(Stored(ics), r);
    BodyAfterHead(Head(r), zones, event, ["END:VCALENDAR"]);
    NothingBefore(Body(zones), event);
  }

  lemma NothingBefore(a: seq<string>, b: seq<string>)
    ensures a + b == b <==> a == []
  {
    assert |a + b| == |a| + |b|;
  }

  lemma BodyAfterHead(head: seq<string>, before: seq<string>, content: seq<string>, after: seq<string>)
    requires NoMarkers(head) && NoMarkers(content)
    ensures Body(head + before + ([BEGIN_VEVENT] + (content + ([END_VEVENT] + after)))) ==
            if HasEnd(before) then Body(before) else Body(before) + content
  {
    hide Scan, Body, MarkOf, HasEnd;
    var rest := [BEGIN_VEVENT] + (content + ([END_VEVENT] + after));
    BodyAfter(before, content, after);
    Assoc(head, before, rest);
    ScanIsBody(head + (before + rest));
    ScanIsBody(before + rest);
    ScanBefore(head, before + rest);
  }

  /** With no marker in the zones a reader sees exactly the lines written between the
      markers. */
  lemma ReadPayload(ics: string, r: Request)
    requires Sound(ics) && Lineable(r)
    ensures Body(LogicalLines(Unlines(Payload(ics, r)))) == NewEvent(Stored(ics), r)
  {
    hide NewEvent, Stored, Payload, Extract, Lineable, Body;
    ReadPayloadExactly(ics, r);
    ConcatWithin(Extract(ics, "VTIMEZONE"), IsInside());
    var zones := ZoneLines(ics);
    assert forall l <- zones :: IsInside()(l);
    ScanIsBody(zones);
    ScanBefore(zones, []);
    assert zones + [] == zones;
  }

  lemma AllGood(before: seq<string>, content: seq<string>)
    requires (forall l <- before :: IsGood()(l)) && forall l <- content :: Settled(l)
    requires GoodLine(BEGIN_VEVENT) && GoodLine(END_VEVENT) && GoodLine("END:VCALENDAR")
    ensures forall l <- before + ([BEGIN_VEVENT] + (content + ([END_VEVENT] + ["END:VCALENDAR"]))) :: IsGood()(l)
  {
    hide GoodLine, MarkOf;
  }

  function ZoneLines(ics: string): seq<string> { Concat(Extract(ics, "VTIMEZONE")) }

  lemma PayloadParts(ics: string, r: Request)
    requires NoHiddenFolds(ics) && Lineable(r)
    ensures SplitLines(Unfold(FirstEvent(ics))) == Stored(ics)
    ensures NoMarkers(Head(r)) && NoMarkers(NewEvent(Stored(ics), r))
    ensures forall l <- Head(r) + ZoneLines(ics) :: IsGood()(l)
    ensures forall l <- NewEvent(Stored(ics), r) :: Settled(l)
    ensures GoodLine(BEGIN_VEVENT) && GoodLine(END_VEVENT) && GoodLine("END:VCALENDAR")
  {
    hide KindOf, MarkOf, GoodLine, Extract, NewEvent, Lineable, Stored, FirstEvent, Head, NoHiddenFolds;
    StoredLines(ics);
    ContentSettled(Stored(ics), r);
    HeadSettled(r);
    ExtractGood(ics, "VTIMEZONE");
    ConcatWithin(Extract(ics, "VTIMEZONE"), IsGood());
  }

  // ── what the reader finds ──────────────────────────────────────────────

  /** An address read back as it was given, in lower case: no white space at its ends,
      and nothing in it that reads as an EMAIL parameter. */
  predicate Faithful(e: string) {
    e != "" && !IsWhite(e[0]) && !IsWhite(e[|e| - 1]) && !Addresses.HasEmail(e)
  }

  function IfUntouched(): string -> Option<string> { l => if Untouched(l) then Some(l) else None }

  /** A line that starts with none of the six words, in any case. */
  predicate Untouched(l: string) {
    var u := Upper(l);
    && !("BEGIN:VEVENT" <= u) && !("END:VEVENT" <= u) && !("ORGANIZER" <= u) && !("ATTENDEE" <= u)
    && !("SEQUENCE" <= u) && !("DTSTAMP" <= u)
  }

  lemma UntouchedSurvives(l: string)
    ensures KindOf(l).Survives? <==> Untouched(l)
  {}

  predicate SaysOrganizer(l: string) { "ORGANIZER" <= Upper(l) }

  lemma OrganizesExactly(ls: seq<string>)
    ensures Has(ls, Organizes) <==> exists l <- ls :: SaysOrganizer(l)
  {
    forall l | l in ls ensures KindOf(l) == Organizes <==> SaysOrganizer(l) {
      if SaysOrganizer(l) { KindOfWord(l, "ORGANIZER"); }
    }
  }

  lemma NamedKind(l: string, word: string)
    requires word == "ORGANIZER" || word == "ATTENDEE" || word == "SEQUENCE" || word == "DTSTAMP"
    requires Named(l, word)
    ensures KindOf(l) == WordKind(word)
  {
    assert Upper(word) == word;
    NamedBegins(l, word);
    KindOfWord(l, word);
  }

  /** Lines of other kinds do not carry the name. */
  lemma NotOfName(ls: seq<string>, word: string, kind: Kind)
    requires word == "ATTENDEE"
    requires kind == WordKind(word) && forall l <- ls :: KindOf(l) != kind
    ensures LinesNamed(ls, word) == []
  {
    forall l | l in ls ensures LineIfNamed(word)(l).None? {
      if Named(l, word) { NamedKind(l, word); }
    }
    FilterMapNone(ls, LineIfNamed(word));
  }

  lemma AttendeeWords()
    ensures ':' !in "ATTENDEE" && ';' !in "ATTENDEE" && ':' !in ";RSVP=TRUE"
  {}

  lemma AttendeeNamed(e: string)
    requires OneLine(e)
    ensures Named(AttendeeLine(e), "ATTENDEE")
  {
    var name, params, value := "ATTENDEE", ";RSVP=TRUE", "mailto:" + e;
    AttendeeWords();
    assert value[|value| - 1] != '\r';
    assert AttendeeLine(e) == name + params + ":" + value;
    hide Find;
    PropertyLine(name, params, value);
  }

  lemma Written(ls: seq<string>, r: Request)
    ensures forall l <- FlatMap(ls, Rewrite(r)) + Unless(Has(ls, Sequences), SequenceLine(r))
                        + Unless(Has(ls, Stamps), StampLine(r)) :: KindOf(l) != Attends
  {
    ContentLines(ls, r);
    OrganizerKind(r);
    SequenceKind(r);
    StampKind(r);
  }

  /** The attendee lines of the new event are the ones asked for, in order. */
  lemma AttendeeLines(ls: seq<string>, r: Request)
    requires Lineable(r)
    ensures LinesNamed(NewEvent(ls, r), "ATTENDEE") == Map(r.attendees, AttendeeLine)
  {
    var before := FlatMap(ls, Rewrite(r)) + Unless(Has(ls, Sequences), SequenceLine(r))
                  + Unless(Has(ls, Stamps), StampLine(r));
    Written(ls, r);
    hide KindOf, FilterMap, FlatMap, Unless, Has, SequenceLine, StampLine, Lineable;
    NotOfName(before, "ATTENDEE", Attends);
    FilterMapConcat(before, Map(r.attendees, AttendeeLine), LineIfNamed("ATTENDEE"));
    OwnAttendees(r);
  }

  lemma OwnAttendees(r: Request)
    requires Lineable(r)
    ensures LinesNamed(Map(r.attendees, AttendeeLine), "ATTENDEE") == Map(r.attendees, AttendeeLine)
  {
    hide Named, AttendeeLine;
    var lines := Map(r.attendees, AttendeeLine);
    forall l | l in lines ensures LineIfNamed("ATTENDEE")(l) == Some(Same(l)) {
      var i :| 0 <= i < |r.attendees| && l == AttendeeLine(r.attendees[i]);
      AttendeeNamed(r.attendees[i]);
    }
    FilterMapAll(lines, LineIfNamed("ATTENDEE"), Same);
    assert Map(lines, Same) == lines;
  }

  function Same(l: string): string { l }

  // ── reading the addresses ──────────────────────────────────────────────

  lemma NoEmail(piece: string)
    requires piece != "" && !IsWhite(piece[0]) && piece[0] != 'E' && piece[0] != 'e'
    ensures StripEmail(piece).None?
  {
    assert TrimStart(piece) == piece;
    var p := Trim(piece);
    assert p != "" ==> p[0] == piece[0];
  }

  predicate PlainPiece(piece: string) {
    && piece != "" && !IsWhite(piece[0]) && piece[0] != 'E' && piece[0] != 'e'
    && ';' !in piece && ':' !in piece
  }

  lemma NextPiece(piece: string, sep: char, rest: string)
    requires PlainPiece(piece) && (sep == ';' || sep == ':')
    ensures EmailParam(Pieces(piece + [sep] + rest)) == EmailParam(Pieces(rest))
  {
    Addresses.PieceFirst(piece, sep, rest);
    SkipPiece(piece, Pieces(rest));
  }

  /** Only the address itself can hold an EMAIL parameter. */
  lemma ThreePieces(a: string, b: string, c: string, e: string)
    requires PlainPiece(a) && PlainPiece(b) && PlainPiece(c)
    ensures EmailParam(Pieces(a + [';'] + (b + [':'] + (c + [':'] + e)))) == EmailParam(Pieces(e))
  {
    NextPiece(a, ';', b + [':'] + (c + [':'] + e));
    NextPiece(b, ':', c + [':'] + e);
    NextPiece(c, ':', e);
  }

  lemma AttendeeShape(e: string)
    ensures AttendeeLine(e) == "ATTENDEE" + [';'] + ("RSVP=TRUE" + [':'] + ("mailto" + [':'] + e))
    ensures AttendeeLine(e) == "ATTENDEE;RSVP=TRUE" + ":" + ("mailto:" + e)
  {}

  lemma PiecesPlain()
    ensures PlainPiece("ATTENDEE") && PlainPiece("RSVP=TRUE") && PlainPiece("mailto")
  {}

  lemma AttendeePieces(e: string)
    ensures EmailParam(Pieces(AttendeeLine(e))) == EmailParam(Pieces(e))
  {
    AttendeeShape(e);
    PiecesPlain();
    ThreePieces("ATTENDEE", "RSVP=TRUE", "mailto", e);
  }

  lemma SkipPiece(piece: string, rest: seq<string>)
    requires piece != "" && !IsWhite(piece[0]) && piece[0] != 'E' && piece[0] != 'e'
    ensures EmailParam([piece] + rest) == EmailParam(rest)
  {
    NoEmail(piece);
    assert ([piece] + rest)[1..] == rest;
  }

  lemma TrimShorter(s: string)
    ensures |Trim(s)| <= |s|
    ensures |Trim(s)| == |s| ==> Trim(s) == s
  {
    assert |TrimStart(s)| == |s| ==> TrimStart(s) == s by { StartWhole(s); }
  }

  lemma StartWhole(s: string)
    ensures |TrimStart(s)| == |s| ==> TrimStart(s) == s
  {}

  lemma {:induction false} EmailParamShorter(s: string)
    ensures EmailParam(Pieces(s)).Some? ==> |EmailParam(Pieces(s)).value| < |s|
    decreases |s|
  {
    var i := NextSeparator(s);
    if i < |s| {
      EmailParamShorter(s[i + 1..]);
      assert Pieces(s)[0] == s[..i] && Pieces(s)[1..] == Pieces(s[i + 1..]);
      TrimShorter(s[..i]);
    } else {
      assert Pieces(s) == [s] && Pieces(s)[1..] == [];
      TrimShorter(s);
    }
  }

  lemma LowerMailto(e: string)
    ensures "mailto:" <= Lower("mailto:" + e) && Lower("mailto:" + e)[7..] == Lower(e)
  {
    assert Lower("mailto:" + e) == "mailto:" + Lower(e);
  }

  /** What comes back for an address put after a `mailto:`. */
  function Returned(e: string): string {
    match EmailParam(Pieces(e)) case Some(rest) => Lower(Trim(rest)) case None => Lower(Trim(e))
  }

  lemma MailtoAddress(line: string, head: string, e: string)
    requires ':' !in head && line == head + ":" + ("mailto:" + e)
    requires EmailParam(Pieces(line)) == EmailParam(Pieces(e))
    ensures AddressOf(line) == Some(Returned(e))
  {
    hide Pieces, EmailParam;
    Addresses.FirstColon(head, "mailto:" + e);
    LowerMailto(e);
    Addresses.TrimLower(e);
  }

  lemma AttendeeAddress(e: string)
    ensures AddressOf(AttendeeLine(e)) == Some(Returned(e))
  {
    AttendeePieces(e);
    AttendeeShape(e);
    assert ':' !in "ATTENDEE;RSVP=TRUE";
    hide AddressOf, Returned;
    MailtoAddress(AttendeeLine(e), "ATTENDEE;RSVP=TRUE", e);
  }

  lemma ReturnedIff(e: string)
    ensures Returned(e) != "" && Returned(e) == Lower(e) <==> Faithful(e)
  {
    Addresses.EmailExactly(e);
    Addresses.TrimmedExactly(e);
    EmailParamShorter(e);
    TrimShorter(e);
    hide Addresses.HasEmail;
    var p := EmailParam(Pieces(e));
    if p.Some? { TrimShorter(p.value); }
    if Trim(e) == e { assert Lower(Trim(e)) == Lower(e); }
  }

  /** An address comes back as given, lowercased, exactly when it is trimmed,
      not empty and hides no EMAIL parameter. */
  lemma AddressReadsBackIff(e: string)
    ensures Address(AttendeeLine(e)) == Some(Lower(e)) <==> Faithful(e)
  {
    hide Returned, Faithful, AddressOf, AttendeeLine;
    AttendeeAddress(e);
    ReturnedIff(e);
  }

  lemma ConsEqual<C>(x: C, xs: seq<C>, y: C, ys: seq<C>)
    ensures [x] + xs == [y] + ys <==> x == y && xs == ys
  {
    assert ([x] + xs)[0] == x && ([x] + xs)[1..] == xs;
    assert ([y] + ys)[0] == y && ([y] + ys)[1..] == ys;
  }

  /** Filtering keeps everything, as `h` would have it, only element by element. */
  lemma {:induction false} FilterMapIff<A, B, C>(xs: seq<A>, g: A -> B, f: B -> Option<C>, h: A -> C)
    ensures |FilterMap(Map(xs, g), f)| <= |xs|
    ensures FilterMap(Map(xs, g), f) == Map(xs, h) <==> forall i :: 0 <= i < |xs| ==> f(g(xs[i])) == Some(h(xs[i]))
  {
    if xs != [] {
      var rest := xs[1..];
      FilterMapIff(rest, g, f, h);
      assert Map(xs, g) == [g(xs[0])] + Map(rest, g);
      FilterMapCons(g(xs[0]), Map(rest, g), f);
      assert Map(xs, h) == [h(xs[0])] + Map(rest, h);
      if f(g(xs[0])).Some? {
        ConsEqual(f(g(xs[0])).value, FilterMap(Map(rest, g), f), h(xs[0]), Map(rest, h));
      }
      assert forall i :: 0 <= i < |rest| ==> rest[i] == xs[i + 1];
    }
  }

  /** The attendees of the payload are the given addresses, lowercased and in
      order, exactly when every address is fit to be read back. */
  lemma AttendeesReadBackIff(ics: string, r: Request)
    requires Sound(ics) && Lineable(r)
    ensures Attendees(Unlines(Payload(ics, r))) == Map(r.attendees, Lower) <==>
            forall i :: 0 <= i < |r.attendees| ==> Faithful(r.attendees[i])
  {
    ReadPayload(ics, r);
    AttendeeLines(Stored(ics), r);
    FilterMapIff(r.attendees, AttendeeLine, Address, Lower);
    forall i | 0 <= i < |r.attendees|
      ensures Address(AttendeeLine(r.attendees[i])) == Some(Lower(r.attendees[i])) <==> Faithful(r.attendees[i])
    {
      AddressReadsBackIff(r.attendees[i]);
    }
  }

  // ── the sequence number and the surviving lines ────────────────────────

  lemma SequenceNamed(r: Request)
    ensures Named(SequenceLine(r), "SEQUENCE")
    ensures SplitProperty(SequenceLine(r)) == Some(("SEQUENCE", Decimal(r.sequence)))
  {
    DecimalDigits(r.sequence);
    var value := Decimal(r.sequence);
    assert SequenceLine(r) == "SEQUENCE" + "" + ":" + value;
    hide Decimal, SequenceLine, Find, TrimCr;
    PropertyLine("SEQUENCE", "", value);
  }

  lemma SequenceIn(ls: seq<string>, r: Request)
    ensures SequenceLine(r) in NewEvent(ls, r)
  {
    ContentLines(ls, r);
  }

  /** A reader finds the given sequence number, whatever the stored event said. */
  lemma SequenceReadsBack(ics: string, r: Request)
    requires Sound(ics) && Lineable(r)
    ensures VeventField(Unlines(Payload(ics, r)), "SEQUENCE") == Some(Decimal(r.sequence))
  {
    ReadPayload(ics, r);
    SequenceIn(Stored(ics), r);
    SequenceNamed(r);
    OnlyValue(NewEvent(Stored(ics), r), SequenceLine(r), "SEQUENCE", Decimal(r.sequence)) by {
      forall l | l in NewEvent(Stored(ics), r) && Named(l, "SEQUENCE") ensures l == SequenceLine(r) {
        OnlySequence(Stored(ics), r, l);
      }
    }
  }

  lemma OnlyValue(ls: seq<string>, line: string, name: string, value: string)
    requires line in ls && Named(line, name) && SplitProperty(line).value.1 == value
    requires forall l <- ls :: Named(l, name) ==> l == line
    ensures FirstOf(ValuesNamed(ls, name)) == Some(value)
  {
    FilterMapIn(ls, ValueIfNamed(name));
    assert ValueIfNamed(name)(line) == Some(value);
    var values := ValuesNamed(ls, name);
    assert values[0] in values;
  }

  lemma OnlySequence(ls: seq<string>, r: Request, l: string)
    requires l in NewEvent(ls, r) && Named(l, "SEQUENCE")
    ensures l == SequenceLine(r)
  {
    hide KindOf, Named, OrganizerLine, SequenceLine, StampLine, AttendeeLine;
    NamedKind(l, "SEQUENCE");
    ContentLines(ls, r);
    OwnKinds(r);
  }

  lemma StampNamed(r: Request)
    requires OneLine(r.now)
    ensures Named(StampLine(r), "DTSTAMP")
    ensures SplitProperty(StampLine(r)) == Some(("DTSTAMP", r.now))
  {
    PropertyLine("DTSTAMP", "", r.now);
    assert StampLine(r) == "DTSTAMP" + "" + ":" + r.now;
  }

  lemma StampIn(ls: seq<string>, r: Request)
    ensures StampLine(r) in NewEvent(ls, r)
  {
    hide KindOf, StampLine;
    FlatMapIn(ls, Rewrite(r));
    if Has(ls, Stamps) {
      var x :| x in ls && KindOf(x) == Stamps;
      assert StampLine(r) in Rewrite(r)(x);
    }
  }

  lemma OnlyStamp(ls: seq<string>, r: Request, l: string)
    requires l in NewEvent(ls, r) && Named(l, "DTSTAMP")
    ensures l == StampLine(r)
  {
    hide KindOf, Named, OrganizerLine, SequenceLine, StampLine, AttendeeLine;
    NamedKind(l, "DTSTAMP");
    ContentLines(ls, r);
    OwnKinds(r);
  }

  /** A reader finds the time the payload was made, whatever the stored event said. */
  lemma StampReadsBack(ics: string, r: Request)
    requires Sound(ics) && Lineable(r)
    ensures VeventField(Unlines(Payload(ics, r)), "DTSTAMP") == Some(r.now)
  {
    ReadPayload(ics, r);
    StampIn(Stored(ics), r);
    StampNamed(r);
    hide Named, StampLine, NewEvent, SplitProperty;
    OnlyValue(NewEvent(Stored(ics), r), StampLine(r), "DTSTAMP", r.now) by {
      forall l | l in NewEvent(Stored(ics), r) && Named(l, "DTSTAMP") ensures l == StampLine(r) {
        OnlyStamp(Stored(ics), r, l);
      }
    }
  }

  // ── the organizer ──────────────────────────────────────────────────────

  lemma OrganizerNamed(r: Request)
    requires OneLine(r.organizer)
    ensures Named(OrganizerLine(r), "ORGANIZER")
  {
    var value := "mailto:" + r.organizer;
    assert value[|value| - 1] != '\r';
    assert OrganizerLine(r) == "ORGANIZER" + "" + ":" + value;
    hide Find;
    PropertyLine("ORGANIZER", "", value);
  }

  lemma OnlyOrganizer(ls: seq<string>, r: Request, l: string)
    requires l in NewEvent(ls, r) && Named(l, "ORGANIZER")
    ensures l == OrganizerLine(r) && Has(ls, Organizes)
  {
    hide KindOf, Named, OrganizerLine, SequenceLine, StampLine, AttendeeLine;
    NamedKind(l, "ORGANIZER");
    OwnKinds(r);
    FlatMapIn(ls, Rewrite(r));
    assert l in FlatMap(ls, Rewrite(r));
    var x :| x in ls && l in Rewrite(r)(x);
  }

  /** The organizer of any event is read off its first ORGANIZER line. */
  lemma OrganizerIsFirst(ics: string, before: seq<string>, l: string, after: seq<string>)
    requires Body(LogicalLines(ics)) == before + ([l] + after)
    requires Named(l, "ORGANIZER") && forall k <- before :: !Named(k, "ORGANIZER")
    ensures Organizer(ics) == Address(l)
  {
    hide Named, Body, LogicalLines, Address;
    FilterMapConcat(before, [l] + after, LineIfNamed("ORGANIZER"));
    FilterMapNone(before, LineIfNamed("ORGANIZER"));
    FilterMapCons(l, after, LineIfNamed("ORGANIZER"));
  }

  lemma OwnKinds(r: Request)
    ensures KindOf(OrganizerLine(r)) == Organizes && KindOf(SequenceLine(r)) == Sequences
    ensures KindOf(StampLine(r)) == Stamps
    ensures forall l <- Map(r.attendees, AttendeeLine) :: KindOf(l) == Attends
  {
    OrganizerKind(r);
    SequenceKind(r);
    StampKind(r);
    forall l | l in Map(r.attendees, AttendeeLine) ensures KindOf(l) == Attends {
      var i :| 0 <= i < |r.attendees| && l == AttendeeLine(r.attendees[i]);
      AttendeeKind(r.attendees[i]);
    }
  }

  lemma OrganizerIn(ls: seq<string>, r: Request)
    requires Has(ls, Organizes)
    ensures OrganizerLine(r) in NewEvent(ls, r)
  {
    FlatMapIn(ls, Rewrite(r));
    var x :| x in ls && KindOf(x) == Organizes;
    assert OrganizerLine(r) in Rewrite(r)(x);
  }

  lemma OrganizerValue(r: Request)
    ensures AddressOf(OrganizerLine(r)) == Some(Returned(r.organizer))
  {
    hide AddressOf, Returned, EmailParam, Pieces, OrganizerLine;
    OrganizerPieces(r);
    OrganizerShape(r);
    MailtoAddress(OrganizerLine(r), "ORGANIZER", r.organizer);
  }

  lemma OrganizerAddress(r: Request)
    ensures Address(OrganizerLine(r)) == Some(Lower(r.organizer)) <==> Faithful(r.organizer)
  {
    hide Returned, Faithful, AddressOf;
    OrganizerValue(r);
    ReturnedIff(r.organizer);
  }

  lemma OrganizerShape(r: Request)
    ensures OrganizerLine(r) == "ORGANIZER" + ":" + ("mailto:" + r.organizer)
    ensures OrganizerLine(r) == "ORGANIZER" + [':'] + ("mailto" + [':'] + r.organizer)
    ensures ':' !in "ORGANIZER" && PlainPiece("ORGANIZER")
  {}

  lemma OrganizerPieces(r: Request)
    ensures EmailParam(Pieces(OrganizerLine(r))) == EmailParam(Pieces(r.organizer))
  {
    hide Pieces, EmailParam, OrganizerLine;
    OrganizerShape(r);
    PiecesPlain();
    NextPiece("ORGANIZER", ':', "mailto" + [':'] + r.organizer);
    NextPiece("mailto", ':', r.organizer);
  }

  /** The organizer read back is the given one exactly when the stored event had
      an ORGANIZER line to replace and the address is faithful: none is added. */
  lemma OrganizerReadsBackIff(ics: string, r: Request)
    requires Sound(ics) && Lineable(r)
    ensures Organizer(Unlines(Payload(ics, r))) == Some(Lower(r.organizer)) <==>
            (exists l <- Stored(ics) :: SaysOrganizer(l)) && Faithful(r.organizer)
  {
    hide NewEvent, Payload, Has, Named, Address, Faithful, KindOf, SaysOrganizer;
    OrganizesExactly(Stored(ics));
    ReadPayload(ics, r);
    var content := NewEvent(Stored(ics), r);
    var found := LinesNamed(content, "ORGANIZER");
    FilterMapIn(content, LineIfNamed("ORGANIZER"));
    OrganizerNamed(r);
    OrganizerAddress(r);
    if found != [] {
      assert found[0] in found;
      OnlyOrganizer(Stored(ics), r, found[0]);
    }
    if Has(Stored(ics), Organizes) {
      OrganizerIn(Stored(ics), r);
      assert LineIfNamed("ORGANIZER")(OrganizerLine(r)) == Some(OrganizerLine(r));
    }
  }

  // ── the other lines ────────────────────────────────────────────────────

  /** The other lines of the stored event, in order. */
  function Survivors(ls: seq<string>): seq<string> { FilterMap(ls, IfUntouched()) }

  lemma {:induction false} RewriteKeepsSurvivors(ls: seq<string>, r: Request)
    ensures Survivors(FlatMap(ls, Rewrite(r))) == Survivors(ls)
  {
    hide KindOf, Rewrite, Untouched;
    if ls != [] {
      RewriteKeepsSurvivors(ls[1..], r);
      FilterMapConcat(Rewrite(r)(ls[0]), FlatMap(ls[1..], Rewrite(r)), IfUntouched());
      FilterMapConcat([ls[0]], ls[1..], IfUntouched());
      assert ls == [ls[0]] + ls[1..];
      OneRewritten(ls[0], r);
    }
  }

  lemma OneRewritten(l: string, r: Request)
    ensures Survivors(Rewrite(r)(l)) == Survivors([l])
  {
    hide KindOf, OrganizerLine, SequenceLine, StampLine;
    OrganizerKind(r);
    SequenceKind(r);
    StampKind(r);
    OneSurvivor(l);
    OneSurvivor(OrganizerLine(r));
    OneSurvivor(SequenceLine(r));
    OneSurvivor(StampLine(r));
  }

  lemma OneSurvivor(l: string)
    ensures Survivors([l]) == if KindOf(l).Survives? then [l] else []
  {
    UntouchedSurvives(l);
    hide Untouched, KindOf;
    assert [l] == [l] + [];
    FilterMapCons(l, [], IfUntouched());
  }

  lemma EventSurvivors(ls: seq<string>, r: Request)
    ensures Survivors(NewEvent(ls, r)) == Survivors(ls)
  {
    RewriteKeepsSurvivors(ls, r);
    OthersDoNotSurvive(ls, r);
    FilterMapFour(FlatMap(ls, Rewrite(r)), Unless(Has(ls, Sequences), SequenceLine(r)),
                  Unless(Has(ls, Stamps), StampLine(r)), Map(r.attendees, AttendeeLine), IfUntouched());
  }

  /** Every line the payload has no reason to touch survives, in order, and no
      other line of that sort is added. */
  lemma SurvivorsKept(ics: string, r: Request)
    requires Sound(ics) && Lineable(r)
    ensures Survivors(Body(LogicalLines(Unlines(Payload(ics, r))))) == Survivors(Stored(ics))
  {
    ReadPayload(ics, r);
    EventSurvivors(Stored(ics), r);
  }

  lemma OthersDoNotSurvive(ls: seq<string>, r: Request)
    ensures Survivors(Unless(Has(ls, Sequences), SequenceLine(r))) == []
    ensures Survivors(Unless(Has(ls, Stamps), StampLine(r))) == []
    ensures Survivors(Map(r.attendees, AttendeeLine)) == []
  {
    hide KindOf, Has, SequenceLine, StampLine, AttendeeLine, Untouched;
    SequenceKind(r);
    StampKind(r);
    UntouchedSurvives(SequenceLine(r));
    UntouchedSurvives(StampLine(r));
    FilterMapNone(Unless(Has(ls, Sequences), SequenceLine(r)), IfUntouched());
    FilterMapNone(Unless(Has(ls, Stamps), StampLine(r)), IfUntouched());
    forall l | l in Map(r.attendees, AttendeeLine) ensures IfUntouched()(l).None? {
      var i :| 0 <= i < |r.attendees| && l == AttendeeLine(r.attendees[i]);
      AttendeeKind(r.attendees[i]);
      UntouchedSurvives(l);
    }
    FilterMapNone(Map(r.attendees, AttendeeLine), IfUntouched());
  }

  lemma FilterMapFour<A, B>(a: seq<A>, b: seq<A>, c: seq<A>, d: seq<A>, f: A -> Option<B>)
    ensures FilterMap(a + b + c + d, f) == FilterMap(a, f) + FilterMap(b, f) + FilterMap(c, f) + FilterMap(d, f)
  {
    FilterMapConcat(a + b + c, d, f);
    FilterMapConcat(a + b, c, f);
    FilterMapConcat(a, b, f);
  }
}
