/** Rewriting Windows time zone names to IANA ones, line by line (`feed.rs`). */
module Zones {
  import opened Seqs
  import opened Text
  import opened Lines

  const PROPERTY := "TZID:"
  const PARAMETER := ";TZID="

  /** What the rewriting needs of a table from Windows to IANA names: the new
      names survive as parameter values and are not themselves Windows names. */
  predicate GoodZones(zones: map<string, string>) {
    forall win <- zones :: PortableName(zones[win]) && zones[win] !in zones
  }

  predicate PortableName(v: string) {
    v != "" && ':' !in v && ';' !in v && '\n' !in v && '\r' !in v
  }

  function ToIana(zones: map<string, string>, win: string): string {
    if win in zones then zones[win] else win
  }

  predicate At(s: string, pat: string, k: nat) { k + |pat| <= |s| && s[k..k + |pat|] == pat }

  /** `find` of a substring: its first position. */
  function FindSub(s: string, pat: string, from: nat): (r: Option<nat>)
    requires from <= |s|
    ensures r.Some? ==> from <= r.value && At(s, pat, r.value)
    ensures forall k :: from <= k && At(s, pat, k) ==> r.Some? && r.value <= k
    decreases |s| - from
  {
    if from + |pat| > |s| then None
    else if At(s, pat, from) then Some(from)
    else if from == |s| then None
    else FindSub(s, pat, from + 1)
  }

  /** Where the value of the first TZID parameter of a line lies. */
  datatype Span = Span(from: nat, to: nat)

  /** A piece of a prefix is that piece of the text. */
  lemma InPrefix(s: string, end: nat, i: nat, j: nat)
    requires i <= j <= end <= |s|
    ensures s[..end][i..j] == s[i..j] && s[..end][i..][..j - i] == s[i..j]
    ensures j < end ==> s[..end][i..][j - i] == s[j]
  {}

  function TzidSpan(core: string): (r: Option<Span>)
    ensures r.Some? ==> 6 <= r.value.from <= r.value.to <= Find(core, ':')
    ensures r.Some? ==> core[r.value.from - 6..r.value.from] == PARAMETER
    ensures r.Some? ==> ';' !in core[r.value.from..r.value.to]
    ensures r.Some? && r.value.to < Find(core, ':') ==> core[r.value.to] == ';'
  {
    var head := core[..Find(core, ':')];
    match FindSub(head, PARAMETER, 0)
    case None => None
    case Some(pos) =>
      var from := pos + |PARAMETER|;
      var len := Find(head[from..], ';');
      InPrefix(core, |head|, pos, from);
      InPrefix(core, |head|, from, from + len);
      Some(Span(from, from + len))
  }

  /** The zone a property line refers to. */
  function ParamTzid(core: string): Option<string> {
    match TzidSpan(core) case Some(s) => Some(core[s.from..s.to]) case None => None
  }

  /** `rewrite_tzid_line` on a line without its line break. */
  function RewriteCore(zones: map<string, string>, core: string): string {
    if PROPERTY <= core then PROPERTY + ToIana(zones, core[5..])
    else
      match TzidSpan(core)
      case Some(s) => core[..s.from] + ToIana(zones, core[s.from..s.to]) + core[s.to..]
      case None => core
  }

  // ── what a rewrite changes and what it does not ────────────────────────

  /** Putting another name in the same place is seen in that place only. */
  lemma Replaced(core: string, v: string)
    requires TzidSpan(core).Some? && ':' !in v && ';' !in v
    ensures var s := TzidSpan(core).value; var out := core[..s.from] + v + core[s.to..];
      && TzidSpan(out) == Some(Span(s.from, s.from + |v|))
      && ParamTzid(out) == Some(v)
  {
    hide Find, FindSub, TzidSpan;
    var s := TzidSpan(core).value;
    var out := core[..s.from] + v + core[s.to..];
    var end := Find(core, ':');
    HeadReplaced(core, v);
    Spliced(core, s.from, s.to, end, v);
    SpanStarts(core);
    SamePosition(core[..end], out[..Find(out, ':')], s.from - 6);
    ValueEnds(v, core[s.to..end]);
    SpanAt(out, s.from, |v|);
  }

  lemma ValueEnds(v: string, more: string)
    requires ';' !in v && (more != "" ==> more[0] == ';')
    ensures Find(v + more, ';') == |v|
  {
    assert (v + more)[..|v|] == v;
    FindAt(v + more, ';', |v|);
  }

  lemma ThreeParts(a: string, v: string, b: string, k: nat)
    requires k <= |b|
    ensures var out := a + v + b;
      && out[..|a| + |v| + k] == a + v + b[..k]
      && out[|a|..|a| + |v|] == v
  {}

  lemma TwoParts(a: string, v: string, b: string)
    ensures (a + v + b)[..|a|] == a && (a + v + b)[|a|..] == v + b
  {}

  /** The parts of a text with a piece replaced, up to `end`. */
  lemma Spliced(core: string, from: nat, to: nat, end: nat, v: string)
    requires from <= to <= end <= |core|
    ensures var out := core[..from] + v + core[to..]; var head' := out[..end - (to - from) + |v|];
      && head' == core[..from] + v + core[to..end]
      && head'[..from] == core[..end][..from]
      && head'[from..] == v + core[to..end]
      && out[from..from + |v|] == v
  {
    ThreeParts(core[..from], v, core[to..], end - to);
    TwoParts(core[..from], v, core[to..end]);
    assert core[to..][..end - to] == core[to..end];
    assert core[..end][..from] == core[..from];
  }

  lemma SpanStarts(core: string)
    requires TzidSpan(core).Some?
    ensures FindSub(core[..Find(core, ':')], PARAMETER, 0) == Some(TzidSpan(core).value.from - 6)
  {}

  lemma SpanAt(core: string, from: nat, len: nat)
    requires from >= 6 && FindSub(core[..Find(core, ':')], PARAMETER, 0) == Some(from - 6)
    requires Find(core[..Find(core, ':')][from..], ';') == len
    ensures TzidSpan(core) == Some(Span(from, from + len))
  {}

  lemma HeadReplaced(core: string, v: string)
    requires TzidSpan(core).Some? && ':' !in v
    ensures var s := TzidSpan(core).value; var out := core[..s.from] + v + core[s.to..];
      && Find(out, ':') == Find(core, ':') - (s.to - s.from) + |v|
      && out[Find(out, ':')..] == core[Find(core, ':')..]
  {
    var s := TzidSpan(core).value;
    var out := core[..s.from] + v + core[s.to..];
    var end, end' := Find(core, ':'), Find(core, ':') - (s.to - s.from) + |v|;
    hide TzidSpan;
    Spliced(core, s.from, s.to, end, v);
    NoColon(core, s.from, s.to, v);
    TailKept(core, s.from, s.to, end, v);
    assert end < |core| ==> out[end'] == core[end];
    FindAt(out, ':', end');
  }

  lemma NoColon(core: string, from: nat, to: nat, v: string)
    requires from <= to <= Find(core, ':') && ':' !in v
    ensures ':' !in core[..from] + v + core[to..Find(core, ':')]
  {
    var head := core[..Find(core, ':')];
    assert core[..from] == head[..from] && core[to..Find(core, ':')] == head[to..];
  }

  lemma TailKept(core: string, from: nat, to: nat, end: nat, v: string)
    requires from <= to <= end <= |core|
    ensures (core[..from] + v + core[to..])[end - (to - from) + |v|..] == core[end..]
  {
    assert core[to..][end - to..] == core[end..];
    DropParts(core[..from] + v, core[to..], end - to);
  }

  lemma DropParts(a: string, b: string, k: nat)
    requires k <= |b|
    ensures (a + b)[|a| + k..] == b[k..]
  {}

  /** The first occurrence is where it was when all before its end is kept. */
  lemma SamePosition(a: string, b: string, pos: nat)
    requires FindSub(a, PARAMETER, 0) == Some(pos)
    requires pos + 6 <= |b| && a[..pos + 6] == b[..pos + 6]
    ensures FindSub(b, PARAMETER, 0) == Some(pos)
  {
    SameWindow(a, b, pos + 6, pos);
    var r := FindSub(b, PARAMETER, 0);
    SameWindow(a, b, pos + 6, r.value);
  }

  lemma SameWindow(a: string, b: string, n: nat, k: nat)
    requires n <= |a| && n <= |b| && a[..n] == b[..n]
    ensures k + 6 <= n ==> (At(a, PARAMETER, k) <==> At(b, PARAMETER, k))
  {
    if k + 6 <= n {
      assert a[k..k + 6] == a[..n][k..k + 6];
      assert b[k..k + 6] == b[..n][k..k + 6];
    }
  }

  /** The reference follows the table, and nothing after the first colon moves. */
  lemma RewrittenReference(zones: map<string, string>, core: string)
    requires GoodZones(zones) && !(PROPERTY <= core)
    ensures ParamTzid(RewriteCore(zones, core)) ==
            match ParamTzid(core) case Some(v) => Some(ToIana(zones, v)) case None => None
    ensures var out := RewriteCore(zones, core);
      out[Find(out, ':')..] == core[Find(core, ':')..]
  {
    if TzidSpan(core).Some? {
      ParamName(zones, core);
      Replaced(core, ToIana(zones, ParamTzid(core).value));
      HeadReplaced(core, ToIana(zones, ParamTzid(core).value));
    }
  }

  lemma ParamName(zones: map<string, string>, core: string)
    requires GoodZones(zones) && TzidSpan(core).Some?
    ensures var v := ToIana(zones, ParamTzid(core).value); ':' !in v && ';' !in v
  {
    var s := TzidSpan(core).value;
    assert forall k :: s.from <= k < s.to ==> core[k] == core[..Find(core, ':')][k];
  }

  /** A TZID property line holds no parameter before its colon. */
  lemma PropertyHasNoParam(core: string)
    requires PROPERTY <= core
    ensures Find(core, ':') == 4 && ParamTzid(core) == None
  {
    assert core[..4] == PROPERTY[..4] && core[4] == PROPERTY[4];
    FindAt(core, ':', 4);
  }

  lemma SameStart(a: string, b: string)
    requires |a| >= 5 && |b| >= 5 && a[..5] == b[..5]
    ensures PROPERTY <= a <==> PROPERTY <= b
  {
    assert PROPERTY <= a <==> PROPERTY == a[..5];
    assert PROPERTY <= b <==> PROPERTY == b[..5];
  }

  /** A rewritten line keeps its form: property lines stay property lines. */
  lemma FormKept(zones: map<string, string>, core: string)
    ensures PROPERTY <= RewriteCore(zones, core) <==> PROPERTY <= core
  {
    hide TzidSpan, ToIana;
    if !(PROPERTY <= core) && TzidSpan(core).Some? {
      var s := TzidSpan(core).value;
      assert core[..s.from][..5] == core[..5];
      SameStart(RewriteCore(zones, core), core);
    }
  }

  /** Rewriting a line twice is rewriting it once. */
  lemma RewriteIdempotent(zones: map<string, string>, core: string)
    requires GoodZones(zones)
    ensures RewriteCore(zones, RewriteCore(zones, core)) == RewriteCore(zones, core)
  {
    FormKept(zones, core);
    if PROPERTY <= core {
      var v := ToIana(zones, core[5..]);
      assert (PROPERTY + v)[5..] == v;
    } else if TzidSpan(core).Some? {
      ParamName(zones, core);
      var v := ToIana(zones, ParamTzid(core).value);
      Replaced(core, v);
      assert ToIana(zones, v) == v;
      SameAgain(RewriteCore(zones, core));
    }
  }

  /** Replacing a name by itself changes nothing. */
  lemma SameAgain(core: string)
    requires TzidSpan(core).Some?
    ensures var s := TzidSpan(core).value; core[..s.from] + ParamTzid(core).value + core[s.to..] == core
  {}

  /** A line with neither form is left as it is, and no rewritten line is one. */
  lemma OtherLinesFixed(zones: map<string, string>, core: string, other: string)
    requires GoodZones(zones) && !(PROPERTY <= other) && ParamTzid(other) == None
    ensures RewriteCore(zones, core) == other <==> core == other
  {
    FormKept(zones, core);
    if !(PROPERTY <= core) { RewrittenReference(zones, core); }
  }

  // ── the two forms, spelled out ─────────────────────────────────────────

  /** No TZID parameter among these. */
  predicate NoZone(name: string) { forall k :: 0 <= k <= |name| ==> !At(name, ";TZID=", k) }

  lemma NotEarlier(name: string, more: string, k: nat)
    requires NoZone(name) && k < |name|
    ensures !At(name + ";TZID=" + more, PARAMETER, k)
  {
    var s := name + ";TZID=" + more;
    if k + 6 <= |name| {
      assert s[k..k + 6] == name[k..k + 6] && !At(name, ";TZID=", k);
    } else {
      assert s[|name|] == ';' && PARAMETER[|name| - k] != ';';
      assert k + 6 <= |s| ==> s[k..k + 6][|name| - k] == s[|name|];
    }
  }

  /** The first zone parameter starts where what is before it ends. */
  lemma FirstParameter(name: string, more: string)
    requires NoZone(name)
    ensures FindSub(name + ";TZID=" + more, PARAMETER, 0) == Some(|name|)
  {
    var s := name + ";TZID=" + more;
    assert s[|name|..|name| + 6] == ";TZID=" == PARAMETER;
    assert At(s, PARAMETER, |name|);
    forall k: nat | k < |name| ensures !At(s, PARAMETER, k) { NotEarlier(name, more, k); }
  }

  /** A property with a zone parameter gets the table's name in its place, if the table
      has one; nothing else of the line changes. */
  lemma ParameterMeaning(zones: map<string, string>, name: string, v: string, rest: string)
    requires ':' !in name && NoZone(name) && ':' !in v && ';' !in v
    requires rest == "" || rest[0] == ';' || rest[0] == ':'
    ensures RewriteCore(zones, name + ";TZID=" + v + rest) ==
            name + ";TZID=" + (if v in zones then zones[v] else v) + rest
  {
    hide TzidSpan, NoZone;
    SpanOfParameter(name, v, rest);
    LineParts(name + ";TZID=", v, rest);
    NotTheProperty(name, v + rest);
    Assoc(name + ";TZID=", v, rest);
  }

  lemma LineParts(a: string, v: string, rest: string)
    ensures var line := a + v + rest;
      line[..|a|] == a && line[|a|..|a| + |v|] == v && line[|a| + |v|..] == rest
  {}

  /** A TZID property gets the table's name, if the table has one. */
  lemma PropertyMeaning(zones: map<string, string>, v: string)
    ensures RewriteCore(zones, "TZID:" + v) == "TZID:" + (if v in zones then zones[v] else v)
  {
    assert ("TZID:" + v)[5..] == v;
  }

  lemma NotTheProperty(name: string, more: string)
    requires ':' !in name
    ensures !(PROPERTY <= name + ";TZID=" + more)
  {
    var s := name + ";TZID=" + more;
    if |name| >= 5 {
      assert s[4] == name[4] && name[4] in name;
    } else {
      assert s[|name|] == ';' && PROPERTY[|name|] != ';';
    }
  }

  lemma SpanOfParameter(name: string, v: string, rest: string)
    requires ':' !in name && NoZone(name) && ':' !in v && ';' !in v
    requires rest == "" || rest[0] == ';' || rest[0] == ':'
    ensures TzidSpan(name + ";TZID=" + v + rest) == Some(Span(|name| + 6, |name| + 6 + |v|))
  {
    hide TzidSpan, FindSub, NoZone;
    var line, tail := name + ";TZID=" + v + rest, rest[..Find(rest, ':')];
    var end := |name| + 6 + |v| + |tail|;
    assert line[..end] == name + ";TZID=" + (v + tail);
    assert ':' !in ";TZID=";
    assert ':' !in line[..end];
    assert end < |line| ==> line[end] == rest[|tail|];
    FindAt(line, ':', end);
    FirstParameter(name, v + tail);
    assert line[..end][|name| + 6..] == v + tail;
    assert tail != "" ==> tail[0] == rest[0];
    ValueEnds(v, tail);
    SpanAt(line, |name| + 6, |v|);
  }

  // ── whole texts ────────────────────────────────────────────────────────

  /** `trim_end_matches(['\r', '\n'])` */
  function TrimBreak(s: string): (r: string)
    ensures |r| <= |s| && r == s[..|r|]
  {
    if s != "" && (s[|s| - 1] == '\r' || s[|s| - 1] == '\n') then TrimBreak(s[..|s| - 1]) else s
  }

  /** `rewrite_tzid_line` */
  function RewriteTzidLine(zones: map<string, string>, line: string): string {
    var core := TrimBreak(line);
    RewriteCore(zones, core) + line[|core|..]
  }

  /** The line up to and with its line feed: one item of `split_inclusive('\n')`. */
  function FirstLine(s: string): (r: string)
    ensures s == r + AfterBreak(s)
  {
    var i := Find(s, '\n');
    if i < |s| then s[..i + 1] else s
  }

  function RewriteText(zones: map<string, string>, s: string): string
    decreases |s|
  {
    if s == "" then "" else RewriteTzidLine(zones, FirstLine(s)) + RewriteText(zones, AfterBreak(s))
  }

  /** `rewrite_windows_tzids` */
  function RewriteWindowsTzids(zones: map<string, string>, ical: string): string {
    RewriteText(zones, Unfold(ical))
  }

  function Rewriter(zones: map<string, string>): string -> string { core => RewriteCore(zones, core) }

  lemma PropertyPlain(core: string, v: string)
    requires PROPERTY <= core && Plain(core) && (v == core[5..] || PortableName(v))
    ensures Plain(PROPERTY + v) && !StartsBlank(PROPERTY + v)
  {
    assert core[|core| - 1] != '\r' && '\n' !in core[5..];
    assert core[5..] != "" ==> core[5..][|core| - 5 - 1] == core[|core| - 1];
  }

  lemma SplicedPlain(core: string, from: nat, to: nat, v: string)
    requires 6 <= from <= to <= |core| && Plain(core) && (v == core[from..to] || PortableName(v))
    ensures var out := core[..from] + v + core[to..]; Plain(out) && out != "" && out[0] == core[0]
  {
    var out := core[..from] + v + core[to..];
    if v == core[from..to] {
      assert out == core;
    } else {
      assert '\n' !in core[..from] && '\n' !in core[to..];
      assert out[|out| - 1] == if core[to..] != "" then core[|core| - 1] else v[|v| - 1];
    }
  }

  /** A rewritten line stays on its line and keeps its first character. */
  lemma RewrittenPlain(zones: map<string, string>, core: string)
    requires GoodZones(zones) && Plain(core)
    ensures Plain(RewriteCore(zones, core))
    ensures StartsBlank(RewriteCore(zones, core)) <==> StartsBlank(core)
    ensures RewriteCore(zones, core) == "" <==> core == ""
  {
    hide Plain, PortableName, TzidSpan;
    if PROPERTY <= core {
      PropertyPlain(core, ToIana(zones, core[5..]));
    } else if TzidSpan(core).Some? {
      var s := TzidSpan(core).value;
      SplicedPlain(core, s.from, s.to, ToIana(zones, core[s.from..s.to]));
    }
  }

  predicate AllCr(s: string) { forall i :: 0 <= i < |s| ==> s[i] == '\r' }

  /** The first line of a text in its parts: what counts, carriage returns, the line feed. */
  datatype Cut = Cut(core: string, crs: string, nl: string, rest: string)
  {
    predicate Valid() {
      && Plain(core) && AllCr(crs) && (nl == "\n" || (nl == "" && rest == ""))
      && (core != "" || crs != "" || nl != "")
    }

    function Text(): string { (core + crs) + (nl + rest) }
  }

  lemma {:induction false} TrimmedTail(s: string)
    ensures AllCr(s[|TrimCr(s)|..])
  {
    if s != "" && s[|s| - 1] == '\r' {
      var t := s[..|s| - 1];
      TrimmedTail(t);
      assert s[|TrimCr(t)|..] == t[|TrimCr(t)|..] + ['\r'];
    }
  }

  lemma {:induction false} TrimCrs(core: string, crs: string)
    requires Plain(core) && AllCr(crs)
    ensures TrimCr(core + crs) == core
    ensures TrimBreak(core + crs) == core
  {
    if crs == "" {
      assert core + crs == core;
      assert core != "" ==> core[|core| - 1] in core;
    } else {
      var s := core + crs;
      assert s[..|s| - 1] == core + crs[..|crs| - 1];
      TrimCrs(core, crs[..|crs| - 1]);
    }
  }

  lemma CutLine(s: string) returns (c: Cut)
    requires s != ""
    ensures c.Valid() && c.Text() == s
  {
    hide TrimCr, Plain, Find, AfterBreak;
    var i := Find(s, '\n');
    BreakAt(s);
    var line := s[..i];
    var core := TrimCr(line);
    TrimmedTail(line);
    TrimmedIsPlain(line);
    c := Cut(core, line[|core|..], if i < |s| then "\n" else "", AfterBreak(s));
    CutText(s, i, core);
    assert core + line[|core|..] == line;
  }

  lemma BreakAt(s: string)
    ensures var i := Find(s, '\n');
      AfterBreak(s) == (if i < |s| then s[i + 1..] else "") && '\n' !in s[..i] && (i < |s| ==> s[i] == '\n')
  {}

  lemma CutText(s: string, i: nat, core: string)
    requires i <= |s| && core <= s[..i] && (i < |s| ==> s[i] == '\n')
    ensures (core + s[..i][|core|..]) + ((if i < |s| then "\n" else "") + (if i < |s| then s[i + 1..] else "")) == s
  {
    assert core + s[..i][|core|..] == s[..i];
    assert i < |s| ==> s[i..] == "\n" + s[i + 1..];
  }

  lemma TrimmedIsPlain(line: string)
    requires '\n' !in line
    ensures TrimCr(line) <= line && Plain(TrimCr(line))
  {
    assert TrimCr(line) <= line;
  }

  lemma CutFound(c: Cut)
    requires c.Valid()
    ensures Find(c.Text(), '\n') == |c.core + c.crs| && c.Text()[..|c.core + c.crs|] == c.core + c.crs
    ensures AfterBreak(c.Text()) == c.rest
    ensures FirstLine(c.Text()) == c.core + c.crs + c.nl
  {
    var s := c.Text();
    var k := |c.core + c.crs|;
    assert s[..k] == c.core + c.crs;
    assert s[k..] == c.nl + c.rest;
    FindAt(s, '\n', k);
    assert c.nl != "" ==> s[k + 1..] == c.rest && s[..k + 1] == c.core + c.crs + c.nl;
  }

  lemma CutRead(c: Cut)
    requires c.Valid()
    ensures TrimAll(SplitLines(c.Text())) == [c.core] + TrimAll(SplitLines(c.rest))
  {
    CutFound(c);
    TrimmedStep(c.Text());
    TrimCrs(c.core, c.crs);
  }

  lemma LineRewrite(zones: map<string, string>, c: Cut)
    requires c.Valid()
    ensures RewriteTzidLine(zones, c.core + c.crs + c.nl) == RewriteCore(zones, c.core) + (c.crs + c.nl)
  {
    var line := c.core + c.crs + c.nl;
    TrimCrs(c.core, c.crs);
    if c.nl == "" { assert line == c.core + c.crs; } else { assert line[..|line| - 1] == c.core + c.crs; }
    assert TrimBreak(line) == c.core;
    assert line[|c.core|..] == c.crs + c.nl;
  }

  lemma CutRewrite(zones: map<string, string>, c: Cut)
    requires c.Valid()
    ensures RewriteText(zones, c.Text()) ==
            (RewriteCore(zones, c.core) + c.crs) + (c.nl + RewriteText(zones, c.rest))
  {
    CutFound(c);
    LineRewrite(zones, c);
    Regroup(RewriteCore(zones, c.core), c.crs, c.nl, RewriteText(zones, c.rest));
  }

  lemma Regroup<T>(a: seq<T>, b: seq<T>, c: seq<T>, d: seq<T>)
    ensures (a + (b + c)) + d == (a + b) + (c + d)
  {}

  function Rewritten(zones: map<string, string>, c: Cut): Cut {
    Cut(RewriteCore(zones, c.core), c.crs, c.nl, RewriteText(zones, c.rest))
  }

  /** Rewriting the text is rewriting its lines. */
  lemma {:induction false} RewriteTextLines(zones: map<string, string>, s: string)
    requires GoodZones(zones)
    ensures TrimAll(SplitLines(RewriteText(zones, s))) == Map(TrimAll(SplitLines(s)), Rewriter(zones))
    decreases |s|
  {
    if s == "" { return; }
    var c := CutLine(s);
    RewrittenPlain(zones, c.core);
    CutRewrite(zones, c);
    CutRead(c);
    CutRead(Rewritten(zones, c));
    RewriteTextLines(zones, c.rest);
    MapCons(c.core, TrimAll(SplitLines(c.rest)), Rewriter(zones));
  }

  /** Rewriting makes no fold. */
  lemma {:induction false} RewriteTextFoldFree(zones: map<string, string>, s: string)
    requires GoodZones(zones) && FoldFree(s)
    ensures FoldFree(RewriteText(zones, s))
    ensures StartsBlank(RewriteText(zones, s)) <==> StartsBlank(s)
    decreases |s|
  {
    if s == "" { return; }
    var c := CutLine(s);
    RewrittenPlain(zones, c.core);
    CutRewrite(zones, c);
    CutFound(c);
    if c.nl != "" { FoldFreeTail(s, |c.core + c.crs|); }
    RewriteTextFoldFree(zones, c.rest);
    CutFoldFree(Rewritten(zones, c));
    CutStart(c);
    CutStart(Rewritten(zones, c));
  }

  lemma CutFoldFree(c: Cut)
    requires c.Valid() && FoldFree(c.rest) && !StartsBlank(c.rest)
    ensures FoldFree(c.Text())
  {
    var line := (c.core + c.crs) + c.nl;
    assert c.Text() == line + c.rest;
    assert forall i :: 0 <= i < |c.core + c.crs| ==> line[i] != '\n';
    assert FoldFree(line);
    FoldFreeConcat(line, c.rest);
  }

  lemma CutStart(c: Cut)
    requires c.Valid()
    ensures StartsBlank(c.Text()) <==> StartsBlank(c.core)
  {
    var s := c.Text();
    if c.core != "" {
      assert s[0] == c.core[0];
    } else if c.crs != "" {
      assert s[0] == c.crs[0];
    } else {
      assert c.core + c.crs == "";
      assert s[0] == c.nl[0];
    }
  }

  /** A payload without hidden folds reads, after rewriting, as its own lines rewritten. */
  lemma RewrittenLines(zones: map<string, string>, ical: string)
    requires GoodZones(zones) && FoldFree(Unfold(ical))
    ensures LogicalLines(RewriteWindowsTzids(zones, ical)) == Map(LogicalLines(ical), Rewriter(zones))
    ensures FoldFree(RewriteWindowsTzids(zones, ical))
  {
    RewriteTextFoldFree(zones, Unfold(ical));
    UnfoldFixpoint(RewriteWindowsTzids(zones, ical));
    RewriteTextLines(zones, Unfold(ical));
  }
}
