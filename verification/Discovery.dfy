/** The streaming XML walks of `icloud/discovery.rs`, over the tokenizer's events. */
module Discovery {
  import opened Seqs
  import opened Text

  // ── events ─────────────────────────────────────────────────────────────

  /** An attribute; the value is None when it is not UTF-8. */
  datatype Attr = Attr(key: string, value: Option<string>)

  /** What the tokenizer yields; the text is None when it does not decode. */
  datatype Event =
    | Start(name: string)
    | Empty(name: string, attrs: seq<Attr>)
    | Chars(text: Option<string>)
    | End(name: string)
    | Other
    | Malformed

  /** What follows the last colon. */
  function AfterPrefix(s: string): string {
    if ':' in s then AfterPrefix(s[Find(s, ':') + 1..]) else s
  }

  /** `local_name` */
  function LocalName(raw: string): string { Lower(AfterPrefix(raw)) }

  /** `attr_value` */
  function AttrValue(attrs: seq<Attr>, key: string): Option<string> {
    if attrs == [] then None
    else if Lower(AfterPrefix(attrs[0].key)) == Lower(key) && attrs[0].value.Some? then attrs[0].value
    else AttrValue(attrs[1..], key)
  }

  // ── parse_first_href_inside ────────────────────────────────────────────

  datatype HrefWalk = HrefWalk(stack: seq<string>, text: string, found: Option<string>)

  datatype Result<T> = Ok(value: T) | ParseError | BadHref(href: string)

  function Pop(stack: seq<string>): seq<string> { if stack == [] then [] else stack[..|stack| - 1] }

  function HrefStep(w: HrefWalk, ev: Event, parent: string): Option<HrefWalk> {
    match ev
    case Malformed => None
    case Start(name) => Some(w.(stack := w.stack + [LocalName(name)], text := ""))
    case Chars(t) => Some(if t.Some? then w.(text := w.text + t.value) else w)
    case End(name) =>
      Some(HrefWalk(Pop(w.stack), "",
        if LocalName(name) == "href" && w.found.None? && parent in w.stack && Trim(w.text) != ""
        then Some(Trim(w.text)) else w.found))
    case Empty(_, _) => Some(w)
    case Other => Some(w)
  }

  function HrefRun(w: HrefWalk, evs: seq<Event>, parent: string): Option<HrefWalk>
    decreases |evs|
  {
    if evs == [] then Some(w)
    else match HrefStep(w, evs[0], parent)
      case Some(w') => HrefRun(w', evs[1..], parent)
      case None => None
  }

  method ParseFirstHrefInside(events: seq<Event>, parent: string) returns (r: Result<Option<string>>)
    ensures r == match HrefRun(HrefWalk([], "", None), events, parent)
      case Some(w) => Ok(w.found) case None => ParseError
  {
    var stack: seq<string> := [];
    var textBuf := "";
    var found: Option<string> := None;
    var rest := events;
    while rest != []
      invariant HrefRun(HrefWalk(stack, textBuf, found), rest, parent) ==
          HrefRun(HrefWalk([], "", None), events, parent)
    {
      var ev := rest[0];
      rest := rest[1..];
      match ev
      case Malformed => return ParseError;
      case Start(n) =>
        stack := stack + [LocalName(n)];
        textBuf := "";
      case Chars(t) =>
        if t.Some? { textBuf := textBuf + t.value; }
      case End(n) =>
        var name := LocalName(n);
        if name == "href" && found.None? && parent in stack {
          var trimmed := Trim(textBuf);
          if trimmed != "" { found := Some(trimmed); }
        }
        if stack != [] { stack := stack[..|stack| - 1]; }
        textBuf := "";
      case Empty(_, _) =>
      case Other =>
    }
    r := Ok(found);
  }

  // ── parse_calendar_list ────────────────────────────────────────────────

  datatype Progress = Progress(href: string, displayname: Option<string>, ctag: Option<string>, color: Option<string>,
                               isCalendar: bool, components: seq<string>)

  const NOTHING_YET := Progress("", None, None, None, false, [])

  datatype Calendar = Calendar(url: string, displayname: string, ctag: Option<string>, color: Option<string>,
                               components: seq<string>)

  datatype Walk = Walk(stack: seq<string>, text: string, current: Option<Progress>, out: seq<Calendar>)

  /** `a <resourcetype> ancestor`, `a <supported-calendar-component-set> ancestor` */
  function EmptyStep(p: Progress, stack: seq<string>, name: string, attrs: seq<Attr>): Progress {
    var p1 := if name == "calendar" && "resourcetype" in stack then p.(isCalendar := true) else p;
    if name == "comp" && "supported-calendar-component-set" in stack then
      match AttrValue(attrs, "name")
      case Some(c) => p1.(components := p1.components + [c])
      case None => p1
    else p1
  }

  /** The end of an element other than a response. */
  function EndStep(p: Progress, stack: seq<string>, name: string, text: string): Progress {
    var trimmed := Trim(text);
    if trimmed == "" then p
    else if name == "href" then
      if p.href == "" && "current-user-principal" !in stack && "calendar-home-set" !in stack
      then p.(href := trimmed) else p
    else if name == "displayname" then if p.displayname.None? then p.(displayname := Some(trimmed)) else p
    else if name == "getctag" then p.(ctag := Some(trimmed))
    else if name == "calendar-color" then p.(color := Some(trimmed))
    else p
  }

  predicate Wanted(p: Progress) {
    p.isCalendar && p.href != "" && exists c <- p.components :: Lower(c) == Lower("VEVENT")
  }

  function Resolved(p: Progress, url: string): Calendar {
    Calendar(url, if p.displayname.Some? then p.displayname.value else "", p.ctag, p.color, p.components)
  }

  function Step(w: Walk, ev: Event, join: string -> Option<string>): Result<Walk> {
    match ev
    case Malformed => ParseError
    case Start(n) =>
      var name := LocalName(n);
      var current := if name == "response" then Some(NOTHING_YET) else w.current;
      Ok(w.(stack := w.stack + [name], text := "", current := current))
    case Empty(n, attrs) =>
      Ok(match w.current
         case Some(p) => w.(current := Some(EmptyStep(p, w.stack, LocalName(n), attrs)))
         case None => w)
    case Chars(t) => Ok(if t.Some? then w.(text := w.text + t.value) else w)
    case End(n) =>
      var name := LocalName(n);
      var w1 := w.(stack := Pop(w.stack), text := "");
      (match w.current
       case None => Ok(w1)
       case Some(p) =>
         if name != "response" then Ok(w1.(current := Some(EndStep(p, w.stack, name, w.text))))
         else if !Wanted(p) then Ok(w1.(current := None))
         else match join(p.href)
           case Some(url) => Ok(w1.(current := None, out := w.out + [Resolved(p, url)]))
           case None => BadHref(p.href))
    case Other => Ok(w)
  }

  function Run(w: Walk, evs: seq<Event>, join: string -> Option<string>): Result<Walk>
    decreases |evs|
  {
    if evs == [] then Ok(w)
    else match Step(w, evs[0], join)
      case Ok(w') => Run(w', evs[1..], join)
      case ParseError => ParseError
      case BadHref(h) => BadHref(h)
  }

  const FRESH := Walk([], "", None, [])

  method ParseCalendarList(events: seq<Event>, join: string -> Option<string>) returns (r: Result<seq<Calendar>>)
    ensures r == match Run(FRESH, events, join)
                 case Ok(w) => Ok(w.out) case ParseError => ParseError case BadHref(h) => BadHref(h)
  {
    var stack: seq<string> := [];
    var textBuf := "";
    var current: Option<Progress> := None;
    var out: seq<Calendar> := [];
    var rest := events;
    while rest != []
      invariant Run(Walk(stack, textBuf, current, out), rest, join) == Run(FRESH, events, join)
    {
      var ev := rest[0];
      rest := rest[1..];
      match ev
      case Malformed => return ParseError;
      case Start(n) =>
        var name := LocalName(n);
        if name == "response" { current := Some(NOTHING_YET); }
        stack := stack + [name];
        textBuf := "";
      case Empty(n, attrs) =>
        if current.Some? { current := Some(EmptyStep(current.value, stack, LocalName(n), attrs)); }
      case Chars(t) =>
        if t.Some? { textBuf := textBuf + t.value; }
      case End(n) =>
        var name := LocalName(n);
        if current.Some? {
          if name != "response" {
            current := Some(EndStep(current.value, stack, name, textBuf));
          } else {
            var p := current.value;
            current := None;
            if Wanted(p) {
              var url := join(p.href);
              if url.None? { return BadHref(p.href); }
              out := out + [Resolved(p, url.value)];
            }
          }
        }
        if stack != [] { stack := stack[..|stack| - 1]; }
        textBuf := "";
      case Other =>
    }
    r := Ok(out);
  }
}
