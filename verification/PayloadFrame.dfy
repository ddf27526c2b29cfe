/** What an iMIP payload holds around the event: its head, and the zones of the stored
    calendar. */
module PayloadFrame {
  import opened Seqs
  import opened Text
  import opened Lines
  import opened Vevent
  import opened Components
  import opened Imip
  import opened ImipProofs

  // ── the head ───────────────────────────────────────────────────────────

  lemma HeadLines(ics: string, r: Request)
    ensures var ls := Payload(ics, r);
      && |ls| > 5 && ls[..5] == Head(r) && ls[|ls| - 1] == "END:VCALENDAR"
  {
    hide NewEvent, Extract, FirstEvent, SplitLines;
    var event := NewEvent(SplitLines(Unfold(FirstEvent(ics))), r);
    var tail := [BEGIN_VEVENT] + (event + ([END_VEVENT] + ["END:VCALENDAR"]));
    assert tail[|tail| - 1] == "END:VCALENDAR";
    assert |Head(r)| == 5 && Payload(ics, r)[..5] == Head(r);
  }

  lemma HeadIs(r: Request)
    ensures var h := Head(r);
      |h| == 5 && h[0] == "BEGIN:VCALENDAR" && h[1] == "VERSION:2.0" && h[4] == "METHOD:" + r.method_
  {}

  lemma FirstFive(ls: seq<string>, h: seq<string>)
    requires |h| == 5 < |ls| && ls[..5] == h
    ensures ls[0] == h[0] && ls[1] == h[1] && ls[4] == h[4]
  {}

  /** A calendar of version 2.0 that says the method it was asked for. */
  lemma PayloadHead(ics: string, r: Request)
    requires NoHiddenFolds(ics) && Lineable(r)
    ensures var ls := LogicalLines(Unlines(Payload(ics, r)));
      && |ls| > 5 && ls[0] == "BEGIN:VCALENDAR" && ls[1] == "VERSION:2.0"
      && ls[4] == "METHOD:" + r.method_ && ls[|ls| - 1] == "END:VCALENDAR"
  {
    PayloadReadsBack(ics, r);
    hide *;
    HeadLines(ics, r);
    HeadIs(r);
    FirstFive(Payload(ics, r), Head(r));
  }

  // ── the zones ──────────────────────────────────────────────────────────

  const BEGIN_ZONE := "BEGIN:VTIMEZONE"
  const END_ZONE := "END:VTIMEZONE"

  /** Somewhere a zone begins and later one ends. */
  predicate HoldsZone(ls: seq<string>) {
    exists i, j :: 0 <= i < j < |ls| && ls[i] == BEGIN_ZONE && ls[j] == END_ZONE
  }

  lemma HoldsCons(l: string, ls: seq<string>)
    ensures HoldsZone([l] + ls) <==> (l == BEGIN_ZONE && END_ZONE in ls) || HoldsZone(ls)
  {
    hide BEGIN_ZONE, END_ZONE;
    var s := [l] + ls;
    if l == BEGIN_ZONE && END_ZONE in ls {
      var j :| 0 <= j < |ls| && ls[j] == END_ZONE;
      assert s[0] == BEGIN_ZONE && s[j + 1] == END_ZONE;
    }
    if HoldsZone(ls) {
      var i, j :| 0 <= i < j < |ls| && ls[i] == BEGIN_ZONE && ls[j] == END_ZONE;
      assert s[i + 1] == BEGIN_ZONE && s[j + 1] == END_ZONE;
    }
    if HoldsZone(s) {
      var i, j :| 0 <= i < j < |s| && s[i] == BEGIN_ZONE && s[j] == END_ZONE;
      assert ls[j - 1] == END_ZONE;
      if i > 0 { assert ls[i - 1] == BEGIN_ZONE; }
    }
  }

  /** Cutting finds nothing exactly when no zone begins and later ends. */
  lemma {:induction false} NothingCut(ls: seq<string>, cur: Option<Block>)
    ensures Blocks(ls, BEGIN_ZONE, END_ZONE, cur) == [] <==> !HoldsZone(ls) && (cur.Some? ==> END_ZONE !in ls)
  {
    MarkersDiffer();
    hide BEGIN_ZONE, END_ZONE;
    if ls == [] { return; }
    var l, rest := ls[0], ls[1..];
    assert ls == [l] + rest;
    HoldsCons(l, rest);
    hide HoldsZone;
    if l == BEGIN_ZONE {
      NothingCut(rest, Some([l]));
    } else if l == END_ZONE {
      NothingCut(rest, None);
    } else if cur.Some? {
      NothingCut(rest, Some(cur.value + [l]));
    } else {
      NothingCut(rest, None);
    }
  }

  lemma MarkersDiffer()
    ensures BEGIN_ZONE != END_ZONE && Untouched(BEGIN_ZONE) && Untouched(END_ZONE)
  {
    assert BEGIN_ZONE[0] != END_ZONE[0];
    BeginUntouched();
    EndUntouched();
  }

  lemma BeginUntouched()
    ensures Untouched(BEGIN_ZONE)
  {
    var u := Upper(BEGIN_ZONE);
    assert u[0] == 'B' && u[7] == 'T' && "BEGIN:VEVENT"[7] == 'E';
  }

  lemma EndUntouched()
    ensures Untouched(END_ZONE)
  {
    var u := Upper(END_ZONE);
    assert u[0] == 'E' && u[5] == 'T' && "END:VEVENT"[5] == 'E';
  }

  /** Dropping lines that are no zone markers changes nothing of that. */
  lemma {:induction false} SurvivorsHold(ls: seq<string>)
    ensures HoldsZone(Survivors(ls)) <==> HoldsZone(ls)
    ensures END_ZONE in Survivors(ls) <==> END_ZONE in ls
  {
    MarkersDiffer();
    hide BEGIN_ZONE, END_ZONE, Untouched;
    if ls != [] {
      var l, rest := ls[0], ls[1..];
      SurvivorsHold(rest);
      assert ls == [l] + rest;
      FilterMapCons(l, rest, IfUntouched());
      HoldsCons(l, rest);
      HoldsCons(l, Survivors(rest));
      hide HoldsZone;
    }
  }

  /** The zones of the stored calendar are in the payload, as they were and in order;
      and no other zone is, exactly when the stored event holds none itself. */
  lemma ZonesKept(ics: string, r: Request)
    requires NoHiddenFolds(ics) && Lineable(r)
    ensures var zones := Extract(ics, "VTIMEZONE"); var found := Extract(Unlines(Payload(ics, r)), "VTIMEZONE");
      && zones <= found
      && (found == zones <==> !HoldsZone(Stored(ics)))
  {
    var zones, event := Extract(ics, "VTIMEZONE"), NewEvent(Stored(ics), r);
    var tail := [BEGIN_VEVENT] + (event + ([END_VEVENT] + ["END:VCALENDAR"]));
    ZonesCut(ics, r);
    NothingCut(tail, None);
    TailHolds(event);
    EventHolds(Stored(ics), r);
    hide *;
    PrefixEqual(zones, Blocks(tail, BEGIN_ZONE, END_ZONE, None));
  }

  lemma PrefixEqual<T>(a: seq<T>, b: seq<T>)
    ensures a <= a + b && (a + b == a <==> b == [])
  {
    if a + b == a { assert |a + b| == |a|; }
  }

  lemma ZonesCut(ics: string, r: Request)
    requires NoHiddenFolds(ics) && Lineable(r)
    ensures var tail := [BEGIN_VEVENT] + (NewEvent(Stored(ics), r) + ([END_VEVENT] + ["END:VCALENDAR"]));
      Extract(Unlines(Payload(ics, r)), "VTIMEZONE") ==
      Extract(ics, "VTIMEZONE") + Blocks(tail, BEGIN_ZONE, END_ZONE, None)
  {
    var zones, event := Extract(ics, "VTIMEZONE"), NewEvent(Stored(ics), r);
    var tail := [BEGIN_VEVENT] + (event + ([END_VEVENT] + ["END:VCALENDAR"]));
    PayloadReadsBack(ics, r);
    ExtractGood(ics, "VTIMEZONE");
    MarkersDiffer();
    ZoneNames();
    HeadHasNone(r);
    hide Payload, Unlines, NewEvent, Stored, Head, Blocks, LogicalLines, Lineable, Untouched;
    Assoc(Head(r), Concat(zones), tail);
    BlocksSkip(Head(r), Concat(zones) + tail, BEGIN_ZONE, END_ZONE);
    BlocksFound(zones, tail, BEGIN_ZONE, END_ZONE);
  }

  lemma ZoneNames()
    ensures "BEGIN:" + "VTIMEZONE" == BEGIN_ZONE && "END:" + "VTIMEZONE" == END_ZONE
  {}

  lemma HeadHasNone(r: Request)
    ensures BEGIN_ZONE !in Head(r)
  {
    var h := Head(r);
    assert h[0][6] == 'V' && h[0][7] == 'C' && h[1][0] == 'V' && h[2][0] == 'P' && h[3][0] == 'C' && h[4][0] == 'M';
    assert BEGIN_ZONE[0] == 'B' && BEGIN_ZONE[7] == 'T';
  }

  lemma TailHolds(event: seq<string>)
    ensures HoldsZone([BEGIN_VEVENT] + (event + ([END_VEVENT] + ["END:VCALENDAR"]))) <==> HoldsZone(event)
  {
    var close := [END_VEVENT] + ["END:VCALENDAR"];
    OtherMarkers();
    hide *;
    HoldsCons(BEGIN_VEVENT, event + close);
    EndHolds(event, close);
  }

  lemma OtherMarkers()
    ensures BEGIN_VEVENT != BEGIN_ZONE && END_VEVENT != END_ZONE && "END:VCALENDAR" != END_ZONE
    ensures END_ZONE !in [END_VEVENT] + ["END:VCALENDAR"]
  {
    assert BEGIN_VEVENT[7] != BEGIN_ZONE[7] && END_VEVENT[5] != END_ZONE[5] && "END:VCALENDAR"[5] != END_ZONE[5];
  }

  lemma EndHolds(ls: seq<string>, close: seq<string>)
    requires END_ZONE !in close
    ensures HoldsZone(ls + close) <==> HoldsZone(ls)
  {
    hide BEGIN_ZONE, END_ZONE;
    if HoldsZone(ls) {
      var i, j :| 0 <= i < j < |ls| && ls[i] == BEGIN_ZONE && ls[j] == END_ZONE;
      assert (ls + close)[i] == BEGIN_ZONE && (ls + close)[j] == END_ZONE;
    }
    if HoldsZone(ls + close) {
      var i, j :| 0 <= i < j < |ls + close| && (ls + close)[i] == BEGIN_ZONE && (ls + close)[j] == END_ZONE;
      assert (ls + close)[j] in ls + close;
      InFront(ls, close, j);
      assert ls[i] == BEGIN_ZONE && ls[j] == END_ZONE;
    }
  }

  lemma InFront(ls: seq<string>, close: seq<string>, j: nat)
    requires j < |ls + close| && (ls + close)[j] !in close
    ensures j < |ls|
  {}

  lemma EventHolds(ls: seq<string>, r: Request)
    ensures HoldsZone(NewEvent(ls, r)) <==> HoldsZone(ls)
  {
    hide HoldsZone, Survivors, NewEvent;
    SurvivorsHold(ls);
    SurvivorsHold(NewEvent(ls, r));
    EventSurvivors(ls, r);
  }
}
