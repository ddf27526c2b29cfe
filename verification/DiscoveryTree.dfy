/** The calendar query on the document tree, and the proof that the streaming
    walk computes it. */
module DiscoveryTree {
  import opened Seqs
  import opened Text
  import opened Discovery

  /** A sequence of sibling nodes. */
  datatype Forest =
    | Done
    | Text(text: Option<string>, rest: Forest)
    | Void(name: string, attrs: seq<Attr>, rest: Forest)
    | Elem(name: string, kids: Forest, rest: Forest)
    | Misc(rest: Forest)

  /** The events of the tokenizer on well-formed siblings. */
  function Events(f: Forest): seq<Event> {
    match f
    case Done => []
    case Text(t, rest) => [Chars(t)] + Events(rest)
    case Void(n, attrs, rest) => [Empty(n, attrs)] + Events(rest)
    case Elem(n, kids, rest) => [Start(n)] + (Events(kids) + ([End(n)] + Events(rest)))
    case Misc(rest) => [Other] + Events(rest)
  }

  // ── the query, by recursion on the tree ────────────────────────────────

  /** The text after the last child element. */
  function TailText(f: Forest, before: string): string {
    match f
    case Done => before
    case Text(t, rest) => TailText(rest, if t.Some? then before + t.value else before)
    case Void(_, _, rest) => TailText(rest, before)
    case Elem(_, _, rest) => TailText(rest, "")
    case Misc(rest) => TailText(rest, before)
  }

  /** An element as its end is met: the names from the root down to it, and its text. */
  datatype Closed = Closed(path: seq<string>, text: string)

  /** The elements in the order they end. */
  function Closes(f: Forest, path: seq<string>): seq<Closed> {
    match f
    case Done => []
    case Text(_, rest) => Closes(rest, path)
    case Void(_, _, rest) => Closes(rest, path)
    case Elem(n, kids, rest) =>
      var inside := path + [LocalName(n)];
      Closes(kids, inside) + [Closed(inside, TailText(kids, ""))] + Closes(rest, path)
    case Misc(rest) => Closes(rest, path)
  }

  /** A self-closing element under the names of its ancestors. */
  datatype Leaf = Leaf(path: seq<string>, name: string, attrs: seq<Attr>)

  function Leaves(f: Forest, path: seq<string>): seq<Leaf> {
    match f
    case Done => []
    case Text(_, rest) => Leaves(rest, path)
    case Void(n, attrs, rest) => [Leaf(path, LocalName(n), attrs)] + Leaves(rest, path)
    case Elem(n, kids, rest) => Leaves(kids, path + [LocalName(n)]) + Leaves(rest, path)
    case Misc(rest) => Leaves(rest, path)
  }

  predicate Ends(c: Closed, name: string) { c.path != [] && c.path[|c.path| - 1] == name }

  function NonBlank(text: string): Option<string> { if Trim(text) == "" then None else Some(Trim(text)) }

  /** The texts of the elements of a name. */
  function TextOf(name: string): Closed -> Option<string> {
    (c: Closed) => if Ends(c, name) then NonBlank(c.text) else None
  }

  /** The texts of the href elements that are not part of a principal or home-set property. */
  function OwnHref(): Closed -> Option<string> {
    (c: Closed) => if Ends(c, "href") && "current-user-principal" !in c.path && "calendar-home-set" !in c.path
         then NonBlank(c.text) else None
  }

  function ComponentOf(): Leaf -> Option<string> {
    (l: Leaf) =>
      if l.name == "comp" && "supported-calendar-component-set" in l.path then AttrValue(l.attrs, "name") else None
  }

  predicate MarksCalendar(l: Leaf) { l.name == "calendar" && "resourcetype" in l.path }

  function First(xs: seq<string>): Option<string> { if xs == [] then None else Some(xs[0]) }

  function Last(xs: seq<string>): Option<string> { if xs == [] then None else Some(xs[|xs| - 1]) }

  /** What elements and leaves add to what is known of a response: the first
      href and display name, the last ctag and colour, every component. */
  function Absorb(p: Progress, cs: seq<Closed>, ls: seq<Leaf>): Progress {
    var href := First(FilterMap(cs, OwnHref()));
    Progress(
      if p.href == "" && href.Some? then href.value else p.href,
      Or(p.displayname, First(FilterMap(cs, TextOf("displayname")))),
      Or(Last(FilterMap(cs, TextOf("getctag"))), p.ctag),
      Or(Last(FilterMap(cs, TextOf("calendar-color"))), p.color),
      p.isCalendar || exists l <- ls :: MarksCalendar(l),
      p.components + FilterMap(ls, ComponentOf()))
  }

  /** What a response element says about its collection. */
  function Described(kids: Forest, path: seq<string>): Progress {
    Absorb(NOTHING_YET, Closes(kids, path), Leaves(kids, path))
  }

  predicate HasResponse(f: Forest) {
    match f
    case Done => false
    case Text(_, rest) => HasResponse(rest)
    case Void(_, _, rest) => HasResponse(rest)
    case Elem(n, kids, rest) => LocalName(n) == "response" || HasResponse(kids) || HasResponse(rest)
    case Misc(rest) => HasResponse(rest)
  }

  /** The wanted collections in document order: those of the response elements
      that contain no further response. */
  function Query(f: Forest, path: seq<string>): seq<Progress>
    decreases f, 0
  {
    match f
    case Done => []
    case Text(_, rest) => Query(rest, path)
    case Void(_, _, rest) => Query(rest, path)
    case Elem(n, kids, rest) => QueryElement(n, kids, path) + Query(rest, path)
    case Misc(rest) => Query(rest, path)
  }

  /** What one element adds to the answer. */
  function QueryElement(n: string, kids: Forest, path: seq<string>): seq<Progress>
    decreases kids, 1
  {
    var inside := path + [LocalName(n)];
    if LocalName(n) == "response" && !HasResponse(kids)
    then (if Wanted(Described(kids, inside)) then [Described(kids, inside)] else [])
    else Query(kids, inside)
  }

  /** The collections with their URLs resolved; the first that does not resolve is an error. */
  function JoinAll(out: seq<Calendar>, ps: seq<Progress>, join: string -> Option<string>): Result<seq<Calendar>>
    decreases |ps|
  {
    if ps == [] then Ok(out)
    else match join(ps[0].href)
      case Some(url) => JoinAll(out + [Resolved(ps[0], url)], ps[1..], join)
      case None => BadHref(ps[0].href)
  }

  // ── laws of the parts ──────────────────────────────────────────────────

  lemma FirstConcat(a: seq<string>, b: seq<string>)
    ensures First(a + b) == Or(First(a), First(b))
    ensures Last(a + b) == Or(Last(b), Last(a))
  {}

  lemma HrefNotEmpty(cs: seq<Closed>)
    ensures First(FilterMap(cs, OwnHref())).Some? ==> First(FilterMap(cs, OwnHref())).value != ""
  {
    var xs := FilterMap(cs, OwnHref());
    FilterMapIn(cs, OwnHref());
    if xs != [] { assert xs[0] in xs; }
  }

  /** Absorbing in two goes. */
  lemma AbsorbConcat(p: Progress, a: seq<Closed>, b: seq<Closed>, k: seq<Leaf>, l: seq<Leaf>)
    ensures Absorb(p, a + b, k + l) == Absorb(Absorb(p, a, k), b, l)
  {
    HrefNotEmpty(a);
    hide TextOf, OwnHref, ComponentOf, MarksCalendar, FilterMap, First, Last;
    FilterMapConcat(a, b, OwnHref());
    FirstConcat(FilterMap(a, OwnHref()), FilterMap(b, OwnHref()));
    FilterMapConcat(a, b, TextOf("displayname"));
    FirstConcat(FilterMap(a, TextOf("displayname")), FilterMap(b, TextOf("displayname")));
    FilterMapConcat(a, b, TextOf("getctag"));
    FirstConcat(FilterMap(a, TextOf("getctag")), FilterMap(b, TextOf("getctag")));
    FilterMapConcat(a, b, TextOf("calendar-color"));
    FirstConcat(FilterMap(a, TextOf("calendar-color")), FilterMap(b, TextOf("calendar-color")));
    FilterMapConcat(k, l, ComponentOf());
    Assoc(p.components, FilterMap(k, ComponentOf()), FilterMap(l, ComponentOf()));
    assert (exists x <- k + l :: MarksCalendar(x)) <==>
           (exists x <- k :: MarksCalendar(x)) || (exists x <- l :: MarksCalendar(x));
  }

  lemma AbsorbNothing(p: Progress)
    ensures Absorb(p, [], []) == p
  {}

  lemma FilterOne<A, B>(x: A, f: A -> Option<B>)
    ensures FilterMap([x], f) == match f(x) case Some(y) => [y] case None => []
  {
    assert [x][1..] == [];
  }

  /** What one ended element says under each of the four names. */
  lemma OneClosed(c: Closed)
    requires c.path != []
    ensures var n, t := c.path[|c.path| - 1], NonBlank(c.text);
      && First(FilterMap([c], OwnHref())) ==
         (if n == "href" && "current-user-principal" !in c.path && "calendar-home-set" !in c.path then t else None)
      && First(FilterMap([c], TextOf("displayname"))) == (if n == "displayname" then t else None)
      && Last(FilterMap([c], TextOf("getctag"))) == (if n == "getctag" then t else None)
      && Last(FilterMap([c], TextOf("calendar-color"))) == (if n == "calendar-color" then t else None)
  {
    FilterOne(c, OwnHref());
    FilterOne(c, TextOf("displayname"));
    FilterOne(c, TextOf("getctag"));
    FilterOne(c, TextOf("calendar-color"));
  }

  lemma NoLeaves(p: Progress, cs: seq<Closed>)
    ensures Absorb(p, cs, []).isCalendar == p.isCalendar && Absorb(p, cs, []).components == p.components
  {}

  /** One end of an element. */
  lemma AbsorbEnd(p: Progress, path: seq<string>, name: string, text: string)
    requires path != [] && path[|path| - 1] == name
    ensures Absorb(p, [Closed(path, text)], []) == EndStep(p, path, name, text)
  {
    OneClosed(Closed(path, text));
    NoLeaves(p, [Closed(path, text)]);
    if name == "href" {
      assert |name| == 4;
    } else if name == "displayname" {
      assert |name| == 11;
    } else if name == "getctag" {
      assert |name| == 7;
    }
  }

  /** One self-closing element. */
  lemma AbsorbLeaf(p: Progress, path: seq<string>, name: string, attrs: seq<Attr>)
    ensures Absorb(p, [], [Leaf(path, name, attrs)]) == EmptyStep(p, path, name, attrs)
  {
    var l := Leaf(path, name, attrs);
    FilterOne(l, ComponentOf());
    assert (exists x <- [l] :: MarksCalendar(x)) <==> MarksCalendar(l);
    assert p.components + [] == p.components;
  }

  // ── the walk computes the query ────────────────────────────────────────

  /** Going on after a walk, unless it has failed. */
  function Then(r: Result<Walk>, evs: seq<Event>, join: string -> Option<string>): Result<Walk> {
    if r.Ok? then Run(r.value, evs, join) else r
  }

  function ThenJoin(r: Result<seq<Calendar>>, ps: seq<Progress>,
                    join: string -> Option<string>): Result<seq<Calendar>>
  {
    if r.Ok? then JoinAll(r.value, ps, join) else r
  }

  lemma {:induction false} RunConcat(w: Walk, a: seq<Event>, b: seq<Event>, join: string -> Option<string>)
    ensures Run(w, a + b, join) == Then(Run(w, a, join), b, join)
    decreases |a|
  {
    if a == [] {
      assert a + b == b;
    } else {
      Uncons(a, b);
      var r := Step(w, a[0], join);
      if r.Ok? { RunConcat(r.value, a[1..], b, join); }
    }
  }

  lemma RunStep(w: Walk, ev: Event, rest: seq<Event>, join: string -> Option<string>)
    ensures Run(w, [ev] + rest, join) == Then(Step(w, ev, join), rest, join)
  {
    assert ([ev] + rest)[1..] == rest;
  }

  lemma {:induction false} JoinConcat(out: seq<Calendar>, a: seq<Progress>, b: seq<Progress>,
                                      join: string -> Option<string>)
    ensures JoinAll(out, a + b, join) == ThenJoin(JoinAll(out, a, join), b, join)
    decreases |a|
  {
    if a == [] {
      assert a + b == b;
    } else {
      Uncons(a, b);
      var url := join(a[0].href);
      if url.Some? { JoinConcat(out + [Resolved(a[0], url.value)], a[1..], b, join); }
    }
  }

  /** What is known of the response being read after siblings without responses. */
  function Absorbed(current: Option<Progress>, f: Forest, path: seq<string>): Option<Progress> {
    match current
    case Some(p) => Some(Absorb(p, Closes(f, path), Leaves(f, path)))
    case None => None
  }

  /** Siblings without a response only add to what is known of the response
      they are in. */
  lemma {:induction false} WalkPlain(w: Walk, f: Forest, join: string -> Option<string>)
    requires !HasResponse(f)
    ensures Run(w, Events(f), join) == Ok(w.(text := TailText(f, w.text), current := Absorbed(w.current, f, w.stack)))
    decreases f, 0
  {
    match f
    case Done =>
      if w.current.Some? { AbsorbNothing(w.current.value); }
    case Text(t, rest) =>
      RunStep(w, Chars(t), Events(rest), join);
      WalkPlain(Step(w, Chars(t), join).value, rest, join);
    case Misc(rest) =>
      RunStep(w, Other, Events(rest), join);
      WalkPlain(w, rest, join);
    case Void(n, attrs, rest) =>
      var w1 := Step(w, Empty(n, attrs), join).value;
      RunStep(w, Empty(n, attrs), Events(rest), join);
      WalkPlain(w1, rest, join);
      if w.current.Some? {
        var p := w.current.value;
        AbsorbLeaf(p, w.stack, LocalName(n), attrs);
        AbsorbConcat(p, [], Closes(rest, w.stack), [Leaf(w.stack, LocalName(n), attrs)], Leaves(rest, w.stack));
        assert [] + Closes(rest, w.stack) == Closes(rest, w.stack);
      }
    case Elem(n, kids, rest) =>
      WalkElement(w, n, kids, join);
      var w2 := w.(text := "", current := AfterElement(w.current, n, kids, w.stack));
      RunConcat(w, [Start(n)] + (Events(kids) + [End(n)]), Events(rest), join);
      EventsOfElement(n, kids, rest);
      WalkPlain(w2, rest, join);
      if w.current.Some? {
        var inside := w.stack + [LocalName(n)];
        AbsorbConcat(w.current.value, Closes(kids, inside) + [Closed(inside, TailText(kids, ""))],
                     Closes(rest, w.stack),
                     Leaves(kids, inside), Leaves(rest, w.stack));
      }
  }

  /** The walk just inside an element that is no response. */
  function Inside(w: Walk, n: string): Walk { w.(stack := w.stack + [LocalName(n)], text := "") }

  function AfterElement(current: Option<Progress>, n: string, kids: Forest, path: seq<string>): Option<Progress> {
    match current
    case Some(p) =>
      var inside := path + [LocalName(n)];
      Some(Absorb(p, Closes(kids, inside) + [Closed(inside, TailText(kids, ""))], Leaves(kids, inside)))
    case None => None
  }

  lemma EventsOfElement(n: string, kids: Forest, rest: Forest)
    ensures Events(Elem(n, kids, rest)) == ([Start(n)] + (Events(kids) + [End(n)])) + Events(rest)
  {}

  /** An element that is no response and holds none, given how its children are walked. */
  lemma WalkElement(w: Walk, n: string, kids: Forest, join: string -> Option<string>)
    requires LocalName(n) != "response" && !HasResponse(kids)
    ensures Run(w, [Start(n)] + (Events(kids) + [End(n)]), join) ==
            Ok(w.(text := "", current := AfterElement(w.current, n, kids, w.stack)))
    decreases kids, 1
  {
    hide Absorb, EndStep, Step;
    var w1 := Inside(w, n);
    EnterElement(w, n, join);
    RunStep(w, Start(n), Events(kids) + [End(n)], join);
    WalkPlain(w1, kids, join);
    RunConcat(w1, Events(kids), [End(n)], join);
    LeaveElement(w, n, kids, join);
    RunStep(w1.(text := TailText(kids, ""), current := Absorbed(w.current, kids, w1.stack)), End(n), [], join);
    assert [End(n)] + [] == [End(n)];
  }

  lemma EnterElement(w: Walk, n: string, join: string -> Option<string>)
    requires LocalName(n) != "response"
    ensures Step(w, Start(n), join) == Ok(Inside(w, n))
  {}

  lemma LeaveElement(w: Walk, n: string, kids: Forest, join: string -> Option<string>)
    requires LocalName(n) != "response"
    ensures var inside := w.stack + [LocalName(n)];
      Step(Walk(inside, TailText(kids, ""), Absorbed(w.current, kids, inside), w.out), End(n), join)
      == Ok(w.(text := "", current := AfterElement(w.current, n, kids, w.stack)))
  {
    hide Absorb, EndStep;
    var inside := w.stack + [LocalName(n)];
    assert Pop(inside) == w.stack;
    if w.current.Some? { CloseElement(w.current.value, n, kids, inside); }
  }

  lemma CloseElement(p: Progress, n: string, kids: Forest, inside: seq<string>)
    requires inside != [] && inside[|inside| - 1] == LocalName(n)
    ensures EndStep(Absorb(p, Closes(kids, inside), Leaves(kids, inside)), inside, LocalName(n), TailText(kids, ""))
         == Absorb(p, Closes(kids, inside) + [Closed(inside, TailText(kids, ""))], Leaves(kids, inside))
  {
    hide Absorb, EndStep;
    AbsorbEnd(Absorb(p, Closes(kids, inside), Leaves(kids, inside)), inside, LocalName(n), TailText(kids, ""));
    AbsorbConcat(p, Closes(kids, inside), [Closed(inside, TailText(kids, ""))], Leaves(kids, inside), []);
    assert Leaves(kids, inside) + [] == Leaves(kids, inside);
  }

  lemma {:induction false} NoQuery(f: Forest, path: seq<string>)
    requires !HasResponse(f)
    ensures Query(f, path) == []
  {
    match f
    case Done =>
    case Text(_, rest) => NoQuery(rest, path);
    case Void(_, _, rest) => NoQuery(rest, path);
    case Misc(rest) => NoQuery(rest, path);
    case Elem(n, kids, rest) =>
      NoQuery(kids, path + [LocalName(n)]);
      NoQuery(rest, path);
  }

  /** Where the walk stands after siblings: the query's answer so far, or its error. */
  function Expected(w: Walk, f: Forest, join: string -> Option<string>): Result<Walk> {
    if !HasResponse(f) then
      Ok(w.(text := TailText(f, w.text), current := Absorbed(w.current, f, w.stack)))
    else
      Landed(JoinAll(w.out, Query(f, w.stack), join), w.stack, TailText(f, w.text))
  }

  function Landed(r: Result<seq<Calendar>>, stack: seq<string>, text: string): Result<Walk> {
    match r
    case Ok(out) => Ok(Walk(stack, text, None, out))
    case ParseError => ParseError
    case BadHref(h) => BadHref(h)
  }

  /** Any element, given where its children leave the walk. */
  lemma ElementRun(w: Walk, n: string, kids: Forest, join: string -> Option<string>)
    requires Run(AtStart(w, n), Events(kids), join) == Expected(AtStart(w, n), kids, join)
    ensures Run(w, [Start(n)] + (Events(kids) + [End(n)]), join) ==
        Then(Expected(AtStart(w, n), kids, join), [End(n)], join)
  {
    RunStep(w, Start(n), Events(kids) + [End(n)], join);
    RunConcat(AtStart(w, n), Events(kids), [End(n)], join);
  }

  function AtStart(w: Walk, n: string): Walk {
    w.(stack := w.stack + [LocalName(n)], text := "",
       current := if LocalName(n) == "response" then Some(NOTHING_YET) else w.current)
  }

  lemma LastEvent(w: Walk, n: string, join: string -> Option<string>)
    ensures Run(w, [End(n)], join) == Step(w, End(n), join)
  {
    RunStep(w, End(n), [], join);
    assert [End(n)] + [] == [End(n)];
  }

  /** An element that is or holds a response, as the walk goes through it. */
  lemma WalkResponse(w: Walk, n: string, kids: Forest, join: string -> Option<string>)
    requires LocalName(n) == "response" || HasResponse(kids)
    ensures Run(w, [Start(n)] + (Events(kids) + [End(n)]), join) ==
            Landed(JoinAll(w.out, QueryElement(n, kids, w.stack), join), w.stack, "")
    decreases kids, 1
  {
    WalkAll(AtStart(w, n), kids, join);
    ElementRun(w, n, kids, join);
    if HasResponse(kids) {
      EndOfHolder(w, n, kids, join);
    } else {
      EndOfResponse(w, n, kids, join);
    }
  }

  lemma EndOfHolder(w: Walk, n: string, kids: Forest, join: string -> Option<string>)
    requires HasResponse(kids)
    ensures Then(Expected(AtStart(w, n), kids, join), [End(n)], join) ==
            Landed(JoinAll(w.out, QueryElement(n, kids, w.stack), join), w.stack, "")
  {
    var r := Expected(AtStart(w, n), kids, join);
    if r.Ok? {
      LastEvent(r.value, n, join);
      assert Pop(w.stack + [LocalName(n)]) == w.stack;
    }
  }

  lemma EndOfResponse(w: Walk, n: string, kids: Forest, join: string -> Option<string>)
    requires LocalName(n) == "response" && !HasResponse(kids)
    ensures Then(Expected(AtStart(w, n), kids, join), [End(n)], join) ==
            Landed(JoinAll(w.out, QueryElement(n, kids, w.stack), join), w.stack, "")
  {
    var r := Expected(AtStart(w, n), kids, join);
    var inside := w.stack + [LocalName(n)];
    LastEvent(r.value, n, join);
    assert Pop(inside) == w.stack;
    JoinOne(w.out, Described(kids, inside), join);
  }

  lemma JoinOne(out: seq<Calendar>, p: Progress, join: string -> Option<string>)
    ensures JoinAll(out, [p], join) == match join(p.href)
      case Some(url) => Ok(out + [Resolved(p, url)]) case None => BadHref(p.href)
  {
    assert [p][1..] == [];
  }

  /** The walk over any siblings. */
  lemma {:induction false} WalkAll(w: Walk, f: Forest, join: string -> Option<string>)
    ensures Run(w, Events(f), join) == Expected(w, f, join)
    decreases f, 0
  {
    if !HasResponse(f) {
      WalkPlain(w, f, join);
      return;
    }
    match f
    case Text(t, rest) =>
      RunStep(w, Chars(t), Events(rest), join);
      WalkAll(Step(w, Chars(t), join).value, rest, join);
    case Misc(rest) =>
      RunStep(w, Other, Events(rest), join);
      WalkAll(w, rest, join);
    case Void(n, attrs, rest) =>
      RunStep(w, Empty(n, attrs), Events(rest), join);
      WalkAll(Step(w, Empty(n, attrs), join).value, rest, join);
    case Elem(n, kids, rest) =>
      EventsOfElement(n, kids, rest);
      RunConcat(w, [Start(n)] + (Events(kids) + [End(n)]), Events(rest), join);
      if LocalName(n) == "response" || HasResponse(kids) {
        WalkResponse(w, n, kids, join);
        var r := JoinAll(w.out, QueryElement(n, kids, w.stack), join);
        JoinConcat(w.out, QueryElement(n, kids, w.stack), Query(rest, w.stack), join);
        if r.Ok? {
          WalkAll(Walk(w.stack, "", None, r.value), rest, join);
          if !HasResponse(rest) { NoQuery(rest, w.stack); }
        }
      } else {
        WalkElement(w, n, kids, join);
        NoQuery(kids, w.stack + [LocalName(n)]);
        WalkAll(w.(text := "", current := AfterElement(w.current, n, kids, w.stack)), rest, join);
        assert [] + Query(rest, w.stack) == Query(rest, w.stack);
      }
  }

  /** The streaming walk of a whole document returns the collections of the
      tree query, in document order, with URLs resolved; the only error is the
      first that does not resolve. No restriction on nesting. */
  lemma StreamingComputesQuery(f: Forest, join: string -> Option<string>)
    ensures (match Run(FRESH, Events(f), join)
             case Ok(w) => Ok(w.out) case ParseError => ParseError case BadHref(h) => BadHref(h))
            == JoinAll([], Query(f, []), join)
  {
    WalkAll(FRESH, f, join);
    if !HasResponse(f) { NoQuery(f, []); }
    JoinNeverParseError([], Query(f, []), join);
  }

  lemma {:induction false} JoinNeverParseError(out: seq<Calendar>, ps: seq<Progress>, join: string -> Option<string>)
    ensures !JoinAll(out, ps, join).ParseError?
    decreases |ps|
  {
    if ps != [] {
      var url := join(ps[0].href);
      if url.Some? { JoinNeverParseError(out + [Resolved(ps[0], url.value)], ps[1..], join); }
    }
  }

  // ── the principal and home-set walk ────────────────────────────────────

  /** The non-blank texts of href elements that lie in a `parent` element. */
  function HrefUnder(parent: string): Closed -> Option<string> {
    (c: Closed) => if Ends(c, "href") && parent in c.path then NonBlank(c.text) else None
  }

  lemma {:induction false} HrefRunConcat(w: HrefWalk, a: seq<Event>, b: seq<Event>, parent: string)
    ensures HrefRun(w, a + b, parent) ==
            if HrefRun(w, a, parent).Some? then HrefRun(HrefRun(w, a, parent).value, b, parent) else None
    decreases |a|
  {
    if a == [] {
      assert a + b == b;
    } else {
      Uncons(a, b);
      var r := HrefStep(w, a[0], parent);
      if r.Some? { HrefRunConcat(r.value, a[1..], b, parent); }
    }
  }

  lemma HrefRunStep(w: HrefWalk, ev: Event, rest: seq<Event>, parent: string)
    requires !ev.Malformed?
    ensures HrefRun(w, [ev] + rest, parent) == HrefRun(HrefStep(w, ev, parent).value, rest, parent)
  {
    assert ([ev] + rest)[1..] == rest;
  }

  function HrefFound(f: Forest, path: seq<string>, parent: string): Option<string> {
    First(FilterMap(Closes(f, path), HrefUnder(parent)))
  }

  /** In an element its children end first, then the element, then its later siblings. */
  lemma HrefFoundInElement(n: string, kids: Forest, rest: Forest, path: seq<string>, parent: string)
    ensures var inside := path + [LocalName(n)];
            HrefFound(Elem(n, kids, rest), path, parent) ==
            Or(Or(HrefFound(kids, inside, parent), HrefUnder(parent)(Closed(inside, TailText(kids, "")))),
                   HrefFound(rest, path, parent))
  {
    var inside := path + [LocalName(n)];
    var own := Closed(inside, TailText(kids, ""));
    var inner := FilterMap(Closes(kids, inside), HrefUnder(parent));
    FilterOne(own, HrefUnder(parent));
    FilterMapConcat(Closes(kids, inside) + [own], Closes(rest, path), HrefUnder(parent));
    FilterMapConcat(Closes(kids, inside), [own], HrefUnder(parent));
    FirstConcat(inner + FilterMap([own], HrefUnder(parent)), FilterMap(Closes(rest, path), HrefUnder(parent)));
    FirstConcat(inner, FilterMap([own], HrefUnder(parent)));
  }

  /** The end tag of an element whose children have been walked. */
  lemma HrefEnd(w: HrefWalk, n: string, text: string, found: Option<string>, parent: string)
    ensures var inside := w.stack + [LocalName(n)];
            HrefStep(HrefWalk(inside, text, Or(w.found, found)), End(n), parent) ==
            Some(HrefWalk(w.stack, "", Or(w.found, Or(found, HrefUnder(parent)(Closed(inside, text))))))
  {
    var inside := w.stack + [LocalName(n)];
    assert Pop(inside) == w.stack;
  }

  lemma StartToEnd(n: string, kids: Forest, rest: Forest)
    ensures Events(Elem(n, kids, rest)) == [Start(n)] + (Events(kids) + ([End(n)] + Events(rest)))
  {
    EventsOfElement(n, kids, rest);
  }

  /** The walk of one element, given how its children are walked. */
  lemma HrefElement(w: HrefWalk, n: string, kids: Forest, rest: Forest, parent: string)
    requires var inside := w.stack + [LocalName(n)];
             HrefRun(HrefWalk(inside, "", w.found), Events(kids), parent) ==
             Some(HrefWalk(inside, TailText(kids, ""), Or(w.found, HrefFound(kids, inside, parent))))
    ensures var inside := w.stack + [LocalName(n)];
            var own := HrefUnder(parent)(Closed(inside, TailText(kids, "")));
            HrefRun(w, Events(Elem(n, kids, rest)), parent) ==
            HrefRun(HrefWalk(w.stack, "", Or(w.found, Or(HrefFound(kids, inside, parent), own))),
                    Events(rest), parent)
  {
    var inside := w.stack + [LocalName(n)];
    var found := HrefFound(kids, inside, parent);
    hide HrefRun, HrefFound, HrefUnder, TailText, Or, Events;
    StartToEnd(n, kids, rest);
    HrefRunStep(w, Start(n), Events(kids) + ([End(n)] + Events(rest)), parent);
    HrefRunConcat(HrefWalk(inside, "", w.found), Events(kids), [End(n)] + Events(rest), parent);
    HrefRunStep(HrefWalk(inside, TailText(kids, ""), Or(w.found, found)), End(n), Events(rest), parent);
    HrefEnd(w, n, TailText(kids, ""), found, parent);
  }

  /** The walk over siblings finds the first such text, in the order elements end. */
  lemma {:induction false} HrefWalkAll(w: HrefWalk, f: Forest, parent: string)
    decreases f
    ensures HrefRun(w, Events(f), parent) ==
            Some(HrefWalk(w.stack, TailText(f, w.text), Or(w.found, HrefFound(f, w.stack, parent))))
  {
    match f
    case Done =>
    case Text(t, rest) =>
      HrefRunStep(w, Chars(t), Events(rest), parent);
      HrefWalkAll(HrefStep(w, Chars(t), parent).value, rest, parent);
    case Misc(rest) =>
      HrefRunStep(w, Other, Events(rest), parent);
      HrefWalkAll(w, rest, parent);
    case Void(n, attrs, rest) =>
      HrefRunStep(w, Empty(n, attrs), Events(rest), parent);
      HrefWalkAll(w, rest, parent);
    case Elem(n, kids, rest) =>
      var inside := w.stack + [LocalName(n)];
      var own := HrefUnder(parent)(Closed(inside, TailText(kids, "")));
      HrefWalkAll(HrefWalk(inside, "", w.found), kids, parent);
      HrefElement(w, n, kids, rest, parent);
      HrefFoundInElement(n, kids, rest, w.stack, parent);
      hide HrefRun, HrefFound, HrefUnder;
      HrefWalkAll(
        HrefWalk(w.stack, "", Or(w.found, Or(HrefFound(kids, inside, parent), own))), rest, parent);
  }

  /** `parse_first_href_inside` on a document. */
  lemma FirstHrefInside(f: Forest, parent: string)
    ensures HrefRun(HrefWalk([], "", None), Events(f), parent).Some?
    ensures HrefRun(HrefWalk([], "", None), Events(f), parent).value.found ==
            First(FilterMap(Closes(f, []), HrefUnder(parent)))
  {
    HrefWalkAll(HrefWalk([], "", None), f, parent);
  }
}
