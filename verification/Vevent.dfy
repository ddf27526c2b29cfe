/** The VEVENT-scoped line readers of `ical.rs`. */
module Vevent {
  import opened Text
  import opened Lines
  import opened Seqs

  const BEGIN_VEVENT := "BEGIN:VEVENT"
  const END_VEVENT := "END:VEVENT"

  /** What the scanners compare a line with, in any case. */
  datatype Mark = BeginVevent | EndVevent | Inside

  function MarkOf(l: string): Mark {
    var upper := Upper(TrimCr(l));
    if upper == BEGIN_VEVENT then BeginVevent
    else if upper == END_VEVENT then EndVevent
    else Inside
  }

  /** `split_property`: name before any parameter, and value after the first colon. */
  function SplitProperty(l: string): Option<(string, string)> {
    var line := TrimCr(l);
    var colon := Find(line, ':');
    if colon == |line| then None
    else
      var head := line[..colon];
      Some((head[..Find(head, ';')], line[colon + 1..]))
  }

  predicate SameName(a: string, b: string) { Lower(a) == Lower(b) }

  // ── what the readers are meant to see ──────────────────────────────────

  /** A line is a marker in any case, and whatever carriage returns end it. */
  lemma MarkExactly(l: string)
    ensures MarkOf(l).BeginVevent? <==> Lower(TrimCr(l)) == "begin:vevent"
    ensures MarkOf(l).EndVevent? <==> Lower(TrimCr(l)) == "end:vevent"
  {
    var t := TrimCr(l);
    assert Lower("BEGIN:VEVENT") == "begin:vevent" && Upper("begin:vevent") == "BEGIN:VEVENT";
    assert Lower("END:VEVENT") == "end:vevent" && Upper("end:vevent") == "END:VEVENT";
    hide LowerChar, UpperChar;
    UpperLower(t);
  }

  lemma UpperLower(s: string)
    ensures Lower(Upper(s)) == Lower(s) && Upper(Lower(s)) == Upper(s)
  {}

  /** The lines before the first END:VEVENT. */
  function UntilEnd(ls: seq<string>): seq<string> {
    if ls == [] || MarkOf(ls[0]).EndVevent? then [] else [ls[0]] + UntilEnd(ls[1..])
  }

  /** The lines after the first BEGIN:VEVENT. */
  function AfterBegin(ls: seq<string>): seq<string> {
    if ls == [] then [] else if MarkOf(ls[0]).BeginVevent? then ls[1..] else AfterBegin(ls[1..])
  }

  function WithoutBegins(ls: seq<string>): seq<string> {
    if ls == [] then []
    else if MarkOf(ls[0]).BeginVevent? then WithoutBegins(ls[1..])
    else [ls[0]] + WithoutBegins(ls[1..])
  }

  /** The content lines of the first VEVENT. */
  function Body(ls: seq<string>): seq<string> { WithoutBegins(AfterBegin(UntilEnd(ls))) }

  predicate Named(l: string, name: string) {
    var p := SplitProperty(l);
    p.Some? && SameName(p.value.0, name)
  }

  function LineIfNamed(name: string): string -> Option<string> {
    l => if Named(l, name) then Some(l) else None
  }

  function ValueIfNamed(name: string): string -> Option<string> {
    l => if Named(l, name) then Some(SplitProperty(l).value.1) else None
  }

  function Properties(ls: seq<string>): seq<(string, string)> { FilterMap(ls, SplitProperty) }

  function LinesNamed(ls: seq<string>, name: string): seq<string> { FilterMap(ls, LineIfNamed(name)) }

  function ValuesNamed(ls: seq<string>, name: string): seq<string> { FilterMap(ls, ValueIfNamed(name)) }

  // ── the flag-driven scan ───────────────────────────────────────────────

  /** What a scan with the flag `inVevent` still keeps of the lines ahead. */
  function Scan(ls: seq<string>, inVevent: bool): seq<string> {
    if ls == [] || MarkOf(ls[0]).EndVevent? then []
    else if MarkOf(ls[0]).BeginVevent? then Scan(ls[1..], true)
    else if inVevent then [ls[0]] + Scan(ls[1..], true)
    else Scan(ls[1..], false)
  }

  /** The scan keeps exactly the content lines of the first VEVENT. */
  lemma {:induction false} ScanIsBody(ls: seq<string>)
    ensures Scan(ls, false) == Body(ls)
    ensures Scan(ls, true) == WithoutBegins(UntilEnd(ls))
  {
    if ls != [] {
      ScanIsBody(ls[1..]);
      if !MarkOf(ls[0]).EndVevent? { assert UntilEnd(ls)[1..] == UntilEnd(ls[1..]); }
    }
  }

  /** `vevent_properties` */
  method VeventProperties(ical: string) returns (out: seq<(string, string)>)
    ensures out == Properties(Body(LogicalLines(ical)))
  {
    var unfolded := UnfoldLoop(ical);
    var rest := TrimAll(SplitLines(unfolded));
    out := [];
    var inVevent := false;
    ScanIsBody(rest);
    while rest != []
      invariant out + Properties(Scan(rest, inVevent)) == Properties(Body(LogicalLines(ical)))
    {
      var line := rest[0];
      rest := rest[1..];
      FilterMapCons(line, Scan(rest, true), SplitProperty);
      var mark := MarkOf(line);
      if mark.BeginVevent? {
        inVevent := true;
        continue;
      }
      if mark.EndVevent? { return; }
      if !inVevent { continue; }
      match SplitProperty(line)
      case Some(p) =>
        Snoc(out, p, Properties(Scan(rest, true)));
        out := out + [p];
      case None =>
    }
  }

  /** `vevent_raw_lines_named` */
  method VeventRawLinesNamed(ical: string, name: string) returns (out: seq<string>)
    ensures out == LinesNamed(Body(LogicalLines(ical)), name)
  {
    var unfolded := UnfoldLoop(ical);
    var rest := TrimAll(SplitLines(unfolded));
    var upper := Upper(name);
    UpperLower(name);
    out := [];
    var inVevent := false;
    ScanIsBody(rest);
    while rest != []
      invariant out + LinesNamed(Scan(rest, inVevent), name) == LinesNamed(Body(LogicalLines(ical)), name)
    {
      var line := rest[0];
      rest := rest[1..];
      FilterMapCons(line, Scan(rest, true), LineIfNamed(name));
      var mark := MarkOf(line);
      if mark.BeginVevent? {
        inVevent := true;
        continue;
      }
      if mark.EndVevent? { return; }
      if !inVevent { continue; }
      var property := SplitProperty(line);
      if property.Some? && SameName(property.value.0, upper) {
        Snoc(out, line, LinesNamed(Scan(rest, true), name));
        out := out + [line];
      }
    }
  }

  /** `vevent_field` */
  function VeventField(ical: string, name: string): Option<string> {
    FirstOf(ValuesNamed(Body(LogicalLines(ical)), name))
  }

  function FirstOf(vs: seq<string>): Option<string> { if vs == [] then None else Some(vs[0]) }

  /** The first property of that name decides. */
  lemma FirstDecides(ical: string, name: string, before: seq<string>, l: string, after: seq<string>)
    requires Body(LogicalLines(ical)) == before + ([l] + after)
    requires Named(l, name) && forall k <- before :: !Named(k, name)
    ensures VeventField(ical, name) == Some(SplitProperty(l).value.1)
  {
    hide Named, SplitProperty, Body, LogicalLines;
    FilterMapConcat(before, [l] + after, ValueIfNamed(name));
    FilterMapNone(before, ValueIfNamed(name));
    FilterMapCons(l, after, ValueIfNamed(name));
  }

  /** `vevent_field_all` */
  function VeventFieldAll(ical: string, name: string): seq<string> {
    ValuesNamed(Body(LogicalLines(ical)), name)
  }

  // ── reading a printed VEVENT ───────────────────────────────────────────

  predicate NoMarkers(ls: seq<string>) { forall l <- ls :: MarkOf(l).Inside? }

  lemma {:induction false} ScanBefore(ls: seq<string>, rest: seq<string>)
    requires NoMarkers(ls)
    ensures Scan(ls + rest, false) == Scan(rest, false)
  {
    if ls == [] {
      assert ls + rest == rest;
    } else {
      ScanBefore(ls[1..], rest);
      Uncons(ls, rest);
    }
  }

  lemma {:induction false} ScanInside(ls: seq<string>, rest: seq<string>)
    requires NoMarkers(ls)
    ensures Scan(ls + rest, true) == ls + Scan(rest, true)
  {
    if ls == [] {
      assert ls + rest == rest;
    } else {
      ScanInside(ls[1..], rest);
      Uncons(ls, rest);
      Assoc([ls[0]], ls[1..], Scan(rest, true));
    }
  }

  /** A printed marker line is met by the scan. */
  lemma ScanMarker(rest: seq<string>)
    ensures forall inVevent :: Scan([BEGIN_VEVENT] + rest, inVevent) == Scan(rest, true)
    ensures Scan([END_VEVENT] + rest, true) == []
  {
    assert MarkOf(BEGIN_VEVENT).BeginVevent? && MarkOf(END_VEVENT).EndVevent?;
    assert ([BEGIN_VEVENT] + rest)[1..] == rest;
  }

  /** The body of a printed calendar is what was put between the markers. */
  lemma BodyBetween(before: seq<string>, content: seq<string>, after: seq<string>)
    requires NoMarkers(before) && NoMarkers(content)
    ensures Body(before + ([BEGIN_VEVENT] + (content + ([END_VEVENT] + after)))) == content
  {
    var tail := [END_VEVENT] + after;
    var inner := [BEGIN_VEVENT] + (content + tail);
    ScanIsBody(before + inner);
    ScanBefore(before, inner);
    ScanMarker(content + tail);
    ScanInside(content, tail);
    ScanMarker(after);
  }

  predicate HasEnd(ls: seq<string>) { exists l <- ls :: MarkOf(l).EndVevent? }

  predicate HasBegin(ls: seq<string>) { exists l <- ls :: MarkOf(l).BeginVevent? }

  /** One line, a marker that opens or none. */
  lemma ScanStep(l: string, rest: seq<string>, inVevent: bool)
    requires !MarkOf(l).EndVevent?
    ensures Scan([l] + rest, inVevent) ==
            (if inVevent && MarkOf(l).Inside? then [l] else []) + Scan(rest, inVevent || MarkOf(l).BeginVevent?)
  {
    hide MarkOf;
    assert ([l] + rest)[1..] == rest && [] + Scan(rest, true) == Scan(rest, true);
    assert [] + Scan(rest, false) == Scan(rest, false);
  }

  /** A scan stops at an end marker, and goes on through anything else. */
  lemma {:induction false} ScanThrough(ls: seq<string>, rest: seq<string>, inVevent: bool)
    ensures Scan(ls + rest, inVevent) ==
            if HasEnd(ls) then Scan(ls, inVevent) else Scan(ls, inVevent) + Scan(rest, inVevent || HasBegin(ls))
  {
    if ls == [] {
      assert ls + rest == rest;
    } else {
      MarkersCons(ls);
      if !MarkOf(ls[0]).EndVevent? {
        hide Scan, MarkOf, HasEnd, HasBegin;
        var l, tail := ls[0], ls[1..];
        var inside := inVevent || MarkOf(l).BeginVevent?;
        assert ls == [l] + tail;
        Assoc([l], tail, rest);
        ScanStep(l, tail, inVevent);
        ScanStep(l, tail + rest, inVevent);
        ScanThrough(tail, rest, inside);
        Assoc(if inVevent && MarkOf(l).Inside? then [l] else [], Scan(tail, inside),
              Scan(rest, inside || HasBegin(tail)));
      }
    }
  }

  lemma MarkersCons(ls: seq<string>)
    requires ls != []
    ensures HasEnd(ls) <==> MarkOf(ls[0]).EndVevent? || HasEnd(ls[1..])
    ensures HasBegin(ls) <==> MarkOf(ls[0]).BeginVevent? || HasBegin(ls[1..])
  {
    assert forall l :: l in ls <==> l == ls[0] || l in ls[1..];
  }

  /** What a reader finds when there may be markers before the printed event: what it
      finds there alone and, unless that has an end marker, the content. */
  lemma BodyAfter(before: seq<string>, content: seq<string>, after: seq<string>)
    requires NoMarkers(content)
    ensures Body(before + ([BEGIN_VEVENT] + (content + ([END_VEVENT] + after)))) ==
            if HasEnd(before) then Body(before) else Body(before) + content
  {
    var tail := [END_VEVENT] + after;
    var inner := [BEGIN_VEVENT] + (content + tail);
    ScanIsBody(before + inner);
    ScanIsBody(before);
    hide Scan, Body, MarkOf, HasBegin, HasEnd;
    ScanThrough(before, inner, false);
    ScanMarker(content + tail);
    ScanInside(content, tail);
    ScanMarker(after);
    assert content + [] == content;
  }

  lemma PlainConcat(a: seq<string>, b: seq<string>)
    ensures AllPlain(a + b) <==> AllPlain(a) && AllPlain(b)
    ensures NoneBlank(a + b) <==> NoneBlank(a) && NoneBlank(b)
    ensures NoMarkers(a + b) <==> NoMarkers(a) && NoMarkers(b)
  {
    assert forall l :: l in a + b <==> l in a || l in b;
  }

  lemma OrdinaryLine(l: string)
    requires OneLine(l) && l != "" && !IsBlank(l[0])
    ensures Plain(l) && !StartsBlank(l)
    ensures |l| != 12 && |l| != 10 ==> MarkOf(l).Inside?
  {}

  /** Reading a property line as it was written. */
  lemma PropertyLine(name: string, params: string, value: string)
    requires ':' !in name && ';' !in name && ':' !in params && (params != "" ==> params[0] == ';')
    requires value != "" ==> value[|value| - 1] != '\r'
    ensures SplitProperty(name + params + ":" + value) == Some((name, value))
  {
    var line := name + params + ":" + value;
    var head := name + params;
    assert line[..|head|] == head;
    FindAt(line, ':', |head|);
    assert line[|head| + 1..] == value;
    assert head[..|name|] == name;
    FindAt(head, ';', |name|);
  }
}
