/** What the discovery walks make of element names: any namespace prefix is
    dropped, and an answer spelled out for a typical response. */
module DiscoveryNames {
  import opened Seqs
  import opened Text
  import opened Discovery
  import opened DiscoveryTree

  // ── prefixes ───────────────────────────────────────────────────────────

  lemma AfterPrefixPlain(n: string)
    requires ':' !in n
    ensures AfterPrefix(n) == n
  {}

  lemma {:induction false} PrefixDropped(p: string, n: string)
    ensures AfterPrefix(p + ":" + n) == AfterPrefix(n)
    decreases |p|
  {
    var s := p + ":" + n;
    var i := Find(p, ':');
    assert s[|p|] == ':';
    if i == |p| {
      assert s[..i] == p[..i];
      FindAt(s, ':', i);
      assert s[i + 1..] == n;
    } else {
      assert s[..i] == p[..i] && s[i] == ':';
      FindAt(s, ':', i);
      assert s[i + 1..] == p[i + 1..] + ":" + n;
      PrefixDropped(p[i + 1..], n);
    }
  }

  /** A name is read as what follows its last colon, in lower case. */
  lemma LocalNames(p: string, n: string)
    requires ':' !in n
    ensures LocalName(n) == Lower(n) && LocalName(p + ":" + n) == Lower(n)
  {
    PrefixDropped(p, n);
    AfterPrefixPlain(n);
  }

  /** A name under a prefix. */
  function Under(prefix: string, name: string): string { prefix + ":" + name }

  function PrefixedAttr(prefix: string): Attr -> Attr { (a: Attr) => Attr(Under(prefix, a.key), a.value) }

  /** An event with a prefix on its element name and its attribute names. */
  function Prefixed(ev: Event, prefix: string): Event {
    match ev
    case Start(n) => Start(Under(prefix, n))
    case Empty(n, attrs) => Empty(Under(prefix, n), Map(attrs, PrefixedAttr(prefix)))
    case End(n) => End(Under(prefix, n))
    case _ => ev
  }

  /** Each event under a prefix of its own. */
  function AllPrefixed(evs: seq<Event>, prefixes: seq<string>): seq<Event>
    requires |prefixes| == |evs|
  {
    if evs == [] then [] else [Prefixed(evs[0], prefixes[0])] + AllPrefixed(evs[1..], prefixes[1..])
  }

  lemma {:induction false} AttrValuePrefixed(attrs: seq<Attr>, prefix: string, key: string)
    ensures AttrValue(Map(attrs, PrefixedAttr(prefix)), key) == AttrValue(attrs, key)
  {
    if attrs != [] {
      PrefixDropped(prefix, attrs[0].key);
      AttrValuePrefixed(attrs[1..], prefix, key);
      assert Map(attrs, PrefixedAttr(prefix))[1..] == Map(attrs[1..], PrefixedAttr(prefix));
    }
  }

  lemma StepPrefixed(w: Walk, ev: Event, prefix: string, join: string -> Option<string>)
    ensures Step(w, Prefixed(ev, prefix), join) == Step(w, ev, join)
  {
    hide AttrValue, AfterPrefix, EndStep, Wanted;
    match ev
    case Start(n) => PrefixDropped(prefix, n);
    case End(n) => PrefixDropped(prefix, n);
    case Empty(n, attrs) =>
      PrefixDropped(prefix, n);
      AttrValuePrefixed(attrs, prefix, "name");
    case _ =>
  }

  /** The calendars found do not depend on namespace prefixes. */
  lemma {:induction false} CalendarsIgnorePrefixes(w: Walk, evs: seq<Event>, prefixes: seq<string>,
                                                   join: string -> Option<string>)
    requires |prefixes| == |evs|
    ensures Run(w, AllPrefixed(evs, prefixes), join) == Run(w, evs, join)
    decreases |evs|
  {
    hide Step, Prefixed;
    if evs != [] {
      StepPrefixed(w, evs[0], prefixes[0], join);
      assert AllPrefixed(evs, prefixes)[1..] == AllPrefixed(evs[1..], prefixes[1..]);
      var r := Step(w, evs[0], join);
      if r.Ok? { CalendarsIgnorePrefixes(r.value, evs[1..], prefixes[1..], join); }
    }
  }

  lemma HrefStepPrefixed(w: HrefWalk, ev: Event, prefix: string, parent: string)
    ensures HrefStep(w, Prefixed(ev, prefix), parent) == HrefStep(w, ev, parent)
  {
    hide AfterPrefix;
    match ev
    case Start(n) => PrefixDropped(prefix, n);
    case End(n) => PrefixDropped(prefix, n);
    case _ =>
  }

  /** Nor does the first href inside an element. */
  lemma {:induction false} HrefIgnoresPrefixes(w: HrefWalk, evs: seq<Event>, prefixes: seq<string>, parent: string)
    requires |prefixes| == |evs|
    ensures HrefRun(w, AllPrefixed(evs, prefixes), parent) == HrefRun(w, evs, parent)
    decreases |evs|
  {
    hide HrefStep, Prefixed;
    if evs != [] {
      HrefStepPrefixed(w, evs[0], prefixes[0], parent);
      assert AllPrefixed(evs, prefixes)[1..] == AllPrefixed(evs[1..], prefixes[1..]);
      var r := HrefStep(w, evs[0], parent);
      if r.Some? { HrefIgnoresPrefixes(r.value, evs[1..], prefixes[1..], parent); }
    }
  }

  // ── a typical response ─────────────────────────────────────────────────

  predicate Simple(n: string) { LocalName(n) == n }

  /** No colon and no capital. */
  predicate Small(n: string) { forall i :: 0 <= i < |n| ==> n[i] != ':' && !('A' <= n[i] <= 'Z') }

  lemma SmallIsSimple(n: string)
    requires Small(n)
    ensures Simple(n)
  {
    AfterPrefixPlain(n);
  }

  lemma ShortNames()
    ensures Small("href") && Small("prop") && Small("comp") && Small("calendar") && Small("getctag")
  {}

  lemma MiddleNames()
    ensures Small("response") && Small("propstat") && Small("collection") && Small("displayname")
  {}

  lemma LongNames()
    ensures Small("multistatus") && Small("resourcetype") && Small("calendar-color")
  {}

  lemma LongestName()
    ensures Small("supported-calendar-component-set")
  {}

  lemma SimpleNames()
    ensures Simple("href") && Simple("prop") && Simple("comp") && Simple("calendar") && Simple("getctag")
    ensures Simple("response") && Simple("propstat") && Simple("collection") && Simple("displayname")
    ensures Simple("multistatus") && Simple("resourcetype") && Simple("calendar-color")
    ensures Simple("supported-calendar-component-set")
  {
    ShortNames();
    MiddleNames();
    LongNames();
    LongestName();
    hide *;
    SmallIsSimple("href");
    SmallIsSimple("prop");
    SmallIsSimple("comp");
    SmallIsSimple("calendar");
    SmallIsSimple("getctag");
    SmallIsSimple("response");
    SmallIsSimple("propstat");
    SmallIsSimple("collection");
    SmallIsSimple("displayname");
    SmallIsSimple("multistatus");
    SmallIsSimple("resourcetype");
    SmallIsSimple("calendar-color");
    SmallIsSimple("supported-calendar-component-set");
  }

  function TextEvents(n: string, t: string): seq<Event> { [Start(n), Chars(Some(t)), End(n)] }

  function TypeEvents(kind: string): seq<Event> {
    [Start("resourcetype"), Empty("collection", []), Empty(kind, []), End("resourcetype")]
  }

  function ComponentEvents(component: string): seq<Event> {
    [Start("supported-calendar-component-set"), Empty("comp", [Attr("name", Some(component))]),
     End("supported-calendar-component-set")]
  }

  /** What a server reports of a collection: its address, and the properties. */
  datatype Report = Report(href: string, name: string, kind: string, ctag: string, color: string, component: string)

  function PropEvents(r: Report): seq<Event> {
    TextEvents("displayname", r.name)
    + (TypeEvents(r.kind)
       + (TextEvents("getctag", r.ctag) + (TextEvents("calendar-color", r.color) + ComponentEvents(r.component))))
  }

  function ResponseEvents(r: Report): seq<Event> {
    TextEvents("href", r.href)
    + ([Start("propstat"), Start("prop")] + (PropEvents(r) + [End("prop"), End("propstat")]))
  }

  function DocumentEvents(r: Report): seq<Event> {
    [Start("multistatus"), Start("response")] + (ResponseEvents(r) + [End("response"), End("multistatus")])
  }

  /** A text without the white space around it; none when nothing is left. */
  function Shown(t: string): Option<string> { if Trim(t) == "" then None else Some(Trim(t)) }

  /** An element with text, inside a response. */
  lemma TextElement(w: Walk, p: Progress, n: string, t: string, join: string -> Option<string>)
    requires w.current == Some(p) && Simple(n) && n != "response"
    ensures Run(w, TextEvents(n, t), join) ==
            Ok(w.(text := "", current := Some(EndStep(p, w.stack + [n], n, t))))
  {
    hide AfterPrefix, EndStep, LocalName, Wanted;
    var inside := w.stack + [n];
    var w1 := w.(stack := inside, text := "");
    var w2 := w1.(text := t);
    assert LocalName(n) == n && Pop(inside) == w.stack && "" + t == t;
    assert Step(w, Start(n), join) == Ok(w1);
    assert Step(w1, Chars(Some(t)), join) == Ok(w2);
    assert Step(w2, End(n), join) == Ok(w.(text := "", current := Some(EndStep(p, inside, n, t))));
    RunThree(w, Start(n), Chars(Some(t)), End(n), join);
  }

  lemma RunThree(w: Walk, a: Event, b: Event, c: Event, join: string -> Option<string>)
    ensures var r := Step(w, a, join);
      r.Ok? ==> var q := Step(r.value, b, join); q.Ok? ==> Run(w, [a, b, c], join) == Step(q.value, c, join)
  {
    hide Step, Run;
    assert [a, b, c] == [a] + [b, c] && [b, c] == [b] + [c];
    if Step(w, a, join).Ok? {
      var v := Step(w, a, join).value;
      RunStep(w, a, [b, c], join);
      if Step(v, b, join).Ok? {
        RunStep(v, b, [c], join);
        RunLast(Step(v, b, join).value, c, join);
      }
    }
  }

  /** What the four texts add to what is known so far. */
  lemma TextSteps(p: Progress, stack: seq<string>, t: string)
    ensures p.displayname.None? ==> EndStep(p, stack, "displayname", t) == p.(displayname := Shown(t))
    ensures p.ctag.None? ==> EndStep(p, stack, "getctag", t) == p.(ctag := Shown(t))
    ensures p.color.None? ==> EndStep(p, stack, "calendar-color", t) == p.(color := Shown(t))
  {
    hide Trim;
    assert |"displayname"| == 11 && |"getctag"| == 7 && |"calendar-color"| == 14 && |"href"| == 4;
  }

  /** The properties of a collection, in the middle of a response. */
  function WithProps(href: string, r: Report): Progress {
    Progress(href, Shown(r.name), Shown(r.ctag), Shown(r.color), r.kind == "calendar", [r.component])
  }

  lemma PropsRead(w: Walk, p: Progress, r: Report, join: string -> Option<string>)
    requires w.current == Some(p) && p == NOTHING_YET.(href := p.href) && Simple(r.kind)
    requires "supported-calendar-component-set" !in w.stack
    ensures Run(w, PropEvents(r), join) == Ok(w.(text := "", current := Some(WithProps(p.href, r))))
  {
    hide Run, Step, Trim, LocalName, TypeEvents, ComponentEvents, TextEvents, EndStep, Shown, Simple;
    SimpleNames();
    var p1 := p.(displayname := Shown(r.name));
    var p2 := p1.(isCalendar := r.kind == "calendar");
    var p3 := p2.(ctag := Shown(r.ctag));
    var p4 := p3.(color := Shown(r.color));
    var v := w.(text := "");
    var d := TextEvents("calendar-color", r.color) + ComponentEvents(r.component);
    var c := TextEvents("getctag", r.ctag) + d;
    RunConcat(w, TextEvents("displayname", r.name), TypeEvents(r.kind) + c, join);
    TextElement(w, p, "displayname", r.name, join);
    TextSteps(p, w.stack + ["displayname"], r.name);
    RunConcat(v.(current := Some(p1)), TypeEvents(r.kind), c, join);
    TypesRead(v.(current := Some(p1)), p1, r.kind, join);
    RunConcat(v.(current := Some(p2)), TextEvents("getctag", r.ctag), d, join);
    TextElement(v.(current := Some(p2)), p2, "getctag", r.ctag, join);
    TextSteps(p2, w.stack + ["getctag"], r.ctag);
    RunConcat(v.(current := Some(p3)), TextEvents("calendar-color", r.color), ComponentEvents(r.component), join);
    TextElement(v.(current := Some(p3)), p3, "calendar-color", r.color, join);
    TextSteps(p3, w.stack + ["calendar-color"], r.color);
    ComponentsRead(v.(current := Some(p4)), p4, r.component, join);
  }

  /** A step through an element without text of its own. */
  lemma Opened(w: Walk, n: string, join: string -> Option<string>)
    requires Simple(n) && n != "response"
    ensures Step(w, Start(n), join) == Ok(w.(stack := w.stack + [n], text := ""))
    ensures Step(w.(stack := w.stack + [n], text := ""), End(n), join) == Ok(w.(text := ""))
  {
    hide LocalName, Wanted;
    assert LocalName(n) == n && Pop(w.stack + [n]) == w.stack;
    assert Trim("") == "";
  }

  lemma TypesRead(w: Walk, p: Progress, kind: string, join: string -> Option<string>)
    requires w.current == Some(p) && w.text == "" && !p.isCalendar && Simple(kind)
    requires "supported-calendar-component-set" !in w.stack
    ensures Run(w, TypeEvents(kind), join) == Ok(w.(current := Some(p.(isCalendar := kind == "calendar"))))
  {
    hide Run, Step, LocalName, Simple;
    SimpleNames();
    var v := w.(stack := w.stack + ["resourcetype"], text := "");
    var q := w.(current := Some(p.(isCalendar := kind == "calendar")));
    Opened(w, "resourcetype", join);
    Opened(q, "resourcetype", join);
    EmptyRead(v, p, "collection", [], join);
    EmptyRead(v, p, kind, [], join);
    assert v.stack[|w.stack|] == "resourcetype";
    TypeSteps(p, v.stack, kind);
    var e1, e2, e3 := Empty("collection", []), Empty(kind, []), End("resourcetype");
    assert Step(v, e1, join) == Ok(v);
    assert Step(v, e2, join) == Ok(v.(current := q.current));
    assert TypeEvents(kind) == [Start("resourcetype")] + [e1, e2, e3];
    assert [e1, e2, e3] == [e1] + [e2, e3] && [e2, e3] == [e2] + [e3];
    RunStep(w, Start("resourcetype"), [e1, e2, e3], join);
    RunStep(v, e1, [e2, e3], join);
    RunStep(v, e2, [e3], join);
    RunLast(v.(current := q.current), e3, join);
  }

  lemma TypeSteps(p: Progress, stack: seq<string>, kind: string)
    requires !p.isCalendar && "resourcetype" in stack && "supported-calendar-component-set" !in stack
    ensures EmptyStep(p, stack, "collection", []) == p
    ensures EmptyStep(p, stack, kind, []) == p.(isCalendar := kind == "calendar")
  {
    assert |"collection"| == 10 && |"calendar"| == 8;
  }

  lemma ComponentStep(p: Progress, stack: seq<string>, component: string)
    requires p.components == [] && "supported-calendar-component-set" in stack
    ensures EmptyStep(p, stack, "comp", [Attr("name", Some(component))]) == p.(components := [component])
  {
    NameAttr(component);
    assert [] + [component] == [component];
  }

  lemma EmptyRead(w: Walk, p: Progress, n: string, attrs: seq<Attr>, join: string -> Option<string>)
    requires w.current == Some(p) && Simple(n)
    ensures Step(w, Empty(n, attrs), join) == Ok(w.(current := Some(EmptyStep(p, w.stack, n, attrs))))
  {
    hide LocalName, EmptyStep;
    assert LocalName(n) == n;
  }

  lemma RunLast(w: Walk, ev: Event, join: string -> Option<string>)
    ensures Run(w, [ev], join) == Step(w, ev, join)
  {
    hide Step;
    assert [ev][1..] == [];
  }

  lemma ComponentsRead(w: Walk, p: Progress, component: string, join: string -> Option<string>)
    requires w.current == Some(p) && w.text == "" && p.components == []
    ensures Run(w, ComponentEvents(component), join) == Ok(w.(current := Some(p.(components := [component]))))
  {
    hide Run, Step, LocalName, AttrValue;
    SimpleNames();
    var n := "supported-calendar-component-set";
    var v := w.(stack := w.stack + [n], text := "");
    var q := w.(current := Some(p.(components := [component])));
    var comp := Empty("comp", [Attr("name", Some(component))]);
    Opened(w, n, join);
    Opened(q, n, join);
    EmptyRead(v, p, "comp", [Attr("name", Some(component))], join);
    assert v.stack[|w.stack|] == n;
    ComponentStep(p, v.stack, component);
    assert Step(v, comp, join) == Ok(v.(current := q.current));
    assert ComponentEvents(component) == [Start(n)] + [comp, End(n)] && [comp, End(n)] == [comp] + [End(n)];
    RunStep(w, Start(n), [comp, End(n)], join);
    RunStep(v, comp, [End(n)], join);
    RunLast(v.(current := q.current), End(n), join);
  }

  lemma NameAttr(component: string)
    ensures AttrValue([Attr("name", Some(component))], "name") == Some(component)
  {
    AfterPrefixPlain("name");
  }

  /** A document of one collection gives exactly one calendar, each part in its place,
      when the collection is a calendar, has an address and holds events (in any case);
      else none. An address that does not resolve is an error. */
  lemma OneCollection(r: Report, join: string -> Option<string>)
    requires Simple(r.kind)
    ensures var href := Trim(r.href);
      Run(FRESH, DocumentEvents(r), join) ==
      if r.kind == "calendar" && Lower(r.component) == "vevent" && href != "" then
        match join(href)
        case Some(url) =>
          Ok(Walk([], "", None, [Calendar(url, Trim(r.name), Shown(r.ctag), Shown(r.color), [r.component])]))
        case None => BadHref(href)
      else Ok(Walk([], "", None, []))
  {
    hide Run, Step, Trim, LocalName, ResponseEvents, Simple, Wanted, Resolved;
    SimpleNames();
    var m, s := Start("multistatus"), Start("response");
    var body, close := ResponseEvents(r), [End("response"), End("multistatus")];
    var w0 := Walk(["multistatus"], "", None, []);
    var w1 := Walk(["multistatus", "response"], "", Some(NOTHING_YET), []);
    var p := WithProps(Trim(r.href), r);
    var w2 := w1.(current := Some(p));
    assert [m, s] + (body + close) == [m] + ([s] + (body + close));
    RunStep(FRESH, m, [s] + (body + close), join);
    RunStep(w0, s, body + close, join);
    StartsRead(join);
    RunConcat(w1, body, close, join);
    ResponseRead(w1, r, join);
    WantedExactly(Trim(r.href), r);
    ResponseEnds(w2, p, join);
    assert close == [End("response")] + [End("multistatus")];
    RunStep(w2, End("response"), [End("multistatus")], join);
    var last := Step(w2, End("response"), join);
    if last.Ok? {
      RunLast(last.value, End("multistatus"), join);
      DocumentEnds(last.value, join);
    }
  }

  lemma WantedExactly(href: string, r: Report)
    ensures var p := WithProps(href, r);
      Wanted(p) <==> r.kind == "calendar" && Lower(r.component) == "vevent" && href != ""
    ensures forall url ::
      Resolved(WithProps(href, r), url) == Calendar(url, Trim(r.name), Shown(r.ctag), Shown(r.color), [r.component])
  {
    hide Trim;
    assert Lower("VEVENT") == "vevent";
    assert r.component in [r.component];
  }

  lemma StartsRead(join: string -> Option<string>)
    ensures Step(FRESH, Start("multistatus"), join) == Ok(Walk(["multistatus"], "", None, []))
    ensures Step(Walk(["multistatus"], "", None, []), Start("response"), join) ==
            Ok(Walk(["multistatus", "response"], "", Some(NOTHING_YET), []))
  {
    hide LocalName, AttrValue, EndStep;
    SimpleNames();
    assert LocalName("multistatus") == "multistatus" && LocalName("response") == "response";
    assert [] + ["multistatus"] == ["multistatus"] && ["multistatus"] + ["response"] == ["multistatus", "response"];
  }

  lemma ResponseEnds(w: Walk, p: Progress, join: string -> Option<string>)
    requires w == Walk(["multistatus", "response"], "", Some(p), [])
    ensures Step(w, End("response"), join) ==
            if !Wanted(p) then Ok(Walk(["multistatus"], "", None, []))
            else match join(p.href)
                 case Some(url) => Ok(Walk(["multistatus"], "", None, [Resolved(p, url)]))
                 case None => BadHref(p.href)
  {
    hide LocalName, EndStep, Wanted, Resolved;
    SimpleNames();
    assert LocalName("response") == "response";
    assert Pop(["multistatus", "response"]) == ["multistatus"];
    assert forall url :: [] + [Resolved(p, url)] == [Resolved(p, url)];
  }

  lemma DocumentEnds(w: Walk, join: string -> Option<string>)
    requires w.stack == ["multistatus"] && w.text == "" && w.current.None?
    ensures Step(w, End("multistatus"), join) == Ok(w.(stack := []))
  {
    hide LocalName, EndStep, Wanted;
    assert Pop(["multistatus"]) == [];
  }

  lemma ResponseRead(w: Walk, r: Report, join: string -> Option<string>)
    requires w == Walk(["multistatus", "response"], "", Some(NOTHING_YET), []) && Simple(r.kind)
    ensures Run(w, ResponseEvents(r), join) == Ok(w.(current := Some(WithProps(Trim(r.href), r))))
  {
    hide Run, Step, Trim, LocalName, PropEvents, TextEvents, EndStep, Simple, WithProps;
    SimpleNames();
    var p1 := NOTHING_YET.(href := Trim(r.href));
    var p2 := WithProps(Trim(r.href), r);
    var v := w.(current := Some(p1));
    var inner, close := PropEvents(r), [End("prop"), End("propstat")];
    TextElement(w, NOTHING_YET, "href", r.href, join);
    HrefRead(r.href);
    RunConcat(w, TextEvents("href", r.href), [Start("propstat"), Start("prop")] + (inner + close), join);
    var v1 := v.(stack := v.stack + ["propstat"]);
    var v2 := v1.(stack := v1.stack + ["prop"]);
    var after := inner + close;
    assert [Start("propstat"), Start("prop")] + after == [Start("propstat")] + ([Start("prop")] + after);
    Opened(v, "propstat", join);
    Opened(v1, "prop", join);
    RunStep(v, Start("propstat"), [Start("prop")] + (inner + close), join);
    RunStep(v1, Start("prop"), inner + close, join);
    RunConcat(v2, inner, close, join);
    PropStack();
    PropsRead(v2, p1, r, join);
    Opened(v1.(current := Some(p2)), "prop", join);
    Opened(v.(current := Some(p2)), "propstat", join);
    assert close == [End("prop")] + [End("propstat")];
    RunStep(v2.(current := Some(p2)), End("prop"), [End("propstat")], join);
    RunLast(v1.(current := Some(p2)), End("propstat"), join);
  }

  lemma PropStack()
    ensures "supported-calendar-component-set" !in ["multistatus", "response"] + ["propstat"] + ["prop"]
  {
    assert |"supported-calendar-component-set"| == 32;
  }

  lemma HrefRead(href: string)
    ensures EndStep(NOTHING_YET, ["multistatus", "response"] + ["href"], "href", href) ==
            NOTHING_YET.(href := Trim(href))
  {
    hide Trim;
  }

  // ── out of place ───────────────────────────────────────────────────────

  /** An address that belongs to a principal or a home set is not the collection's; a
      calendar mark counts in a resource type only, a component in the component set
      only; and what is known already stays. */
  lemma OutOfPlace(p: Progress, stack: seq<string>, text: string, attrs: seq<Attr>)
    ensures "current-user-principal" in stack || "calendar-home-set" in stack || p.href != "" ==>
              EndStep(p, stack, "href", text) == p
    ensures p.displayname.Some? ==> EndStep(p, stack, "displayname", text) == p
    ensures "resourcetype" !in stack ==> EmptyStep(p, stack, "calendar", attrs) == p
    ensures "supported-calendar-component-set" !in stack ==> EmptyStep(p, stack, "comp", attrs) == p
  {
    hide Trim, AttrValue;
    assert |"href"| == 4 && |"displayname"| == 11 && |"calendar"| == 8 && |"comp"| == 4;
  }

  function Joined(ts: seq<Option<string>>): string {
    if ts == [] then "" else (match ts[0] case Some(t) => t case None => "") + Joined(ts[1..])
  }

  function Pieces(ts: seq<Option<string>>): seq<Event> { Map(ts, (t: Option<string>) => Chars(t)) }

  lemma PiecesCons(ts: seq<Option<string>>)
    requires ts != []
    ensures Pieces(ts) == [Chars(ts[0])] + Pieces(ts[1..])
  {}

  /** The pieces of a text are put together, those that do not decode left out. */
  lemma {:induction false} PiecesRead(w: Walk, v: HrefWalk, ts: seq<Option<string>>, join: string -> Option<string>,
                                      parent: string)
    ensures Run(w, Pieces(ts), join) == Ok(w.(text := w.text + Joined(ts)))
    ensures HrefRun(v, Pieces(ts), parent) == Some(v.(text := v.text + Joined(ts)))
    decreases |ts|
  {
    if ts == [] {
      assert w.text + "" == w.text && v.text + "" == v.text;
    } else {
      var t := match ts[0] case Some(t) => t case None => "";
      PiecesCons(ts);
      RunStep(w, Chars(ts[0]), Pieces(ts[1..]), join);
      HrefRunStep(v, Chars(ts[0]), Pieces(ts[1..]), parent);
      assert w.text + "" == w.text && v.text + "" == v.text;
      PiecesRead(w.(text := w.text + t), v.(text := v.text + t), ts[1..], join, parent);
      Assoc(w.text, t, Joined(ts[1..]));
      Assoc(v.text, t, Joined(ts[1..]));
    }
  }

  // ── the principal ──────────────────────────────────────────────────────

  lemma HrefText(w: HrefWalk, t: string, parent: string)
    ensures HrefRun(w, TextEvents("href", t), parent) ==
            Some(HrefWalk(w.stack, "", if parent in w.stack + ["href"] then Or(w.found, Shown(t)) else w.found))
  {
    hide LocalName, Trim;
    SimpleNames();
    assert LocalName("href") == "href";
    var inside := w.stack + ["href"];
    assert Pop(inside) == w.stack && "" + t == t;
    assert [Start("href"), Chars(Some(t)), End("href")] == [Start("href")] + ([Chars(Some(t))] + ([End("href")] + []));
    HrefRunStep(w, Start("href"), [Chars(Some(t))] + ([End("href")] + []), parent);
    HrefRunStep(HrefWalk(inside, "", w.found), Chars(Some(t)), [End("href")] + [], parent);
    HrefRunStep(HrefWalk(inside, t, w.found), End("href"), [], parent);
  }

  /** Of the addresses before, inside and after an element, the one inside is found. */
  lemma AddressInside(before: string, inside: string, after: string, parent: string)
    requires Simple(parent) && parent != "href"
    ensures HrefRun(HrefWalk([], "", None),
                    TextEvents("href", before)
                    + ([Start(parent)] + (TextEvents("href", inside) + ([End(parent)] + TextEvents("href", after)))),
                    parent)
            == Some(HrefWalk([], "", Shown(inside)))
  {
    hide LocalName, Trim, HrefRun, TextEvents, Shown;
    assert LocalName(parent) == parent;
    var w0, w1 := HrefWalk([], "", None), HrefWalk([parent], "", None);
    var w2 := HrefWalk([parent], "", Shown(inside));
    var w3 := HrefWalk([], "", Shown(inside));
    var z := TextEvents("href", after);
    assert [] + [parent] == [parent] && Pop([parent]) == [];
    assert parent in [parent] + ["href"] && parent !in [] + ["href"];
    HrefText(w0, before, parent);
    HrefText(w1, inside, parent);
    HrefText(w3, after, parent);
    HrefRunConcat(w0, TextEvents("href", before), [Start(parent)] + (TextEvents("href", inside) + ([End(parent)] + z)),
                  parent);
    HrefRunStep(w0, Start(parent), TextEvents("href", inside) + ([End(parent)] + z), parent);
    HrefRunConcat(w1, TextEvents("href", inside), [End(parent)] + z, parent);
    HrefRunStep(w2, End(parent), z, parent);
  }

  // ── attributes ─────────────────────────────────────────────────────────

  /** An attribute is found by its local name, in any case; the first that can be read. */
  lemma {:induction false} AttrFound(before: seq<Attr>, a: Attr, after: seq<Attr>, key: string)
    requires forall b <- before :: LocalName(b.key) != Lower(key) || b.value.None?
    requires LocalName(a.key) == Lower(key) && a.value.Some?
    ensures AttrValue(before + ([a] + after), key) == a.value
  {
    hide AfterPrefix;
    var attrs := before + ([a] + after);
    if before == [] {
      assert attrs[0] == a;
    } else {
      assert attrs[0] == before[0] && attrs[1..] == before[1..] + ([a] + after);
      AttrFound(before[1..], a, after, key);
    }
  }
}
