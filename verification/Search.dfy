/** The query compiler of `index/search.rs`: a SearchQuery to a WHERE clause
    with numbered placeholders and an argument vector. */
module Search {
  import opened Seqs
  import opened Text
  import opened Messages
  import Like

  // ── queries ────────────────────────────────────────────────────────────

  datatype FolderFilter = All | Exact(folder: string) | Prefix(parent: string)

  /** `FolderFilter::parse` */
  function ParseFolder(spec: string): FolderFilter {
    var s := Trim(spec);
    if s == "" || s == "*" then All
    else if |s| >= 2 && s[|s| - 2..] == "/*" then Prefix(s[..|s| - 2])
    else Exact(s)
  }

  datatype FlagFilter = FlagFilter(anyOf: Option<seq<string>>, allOf: Option<seq<string>>, noneOf: Option<seq<string>>)

  datatype SortOrder = DateDesc | DateAsc | Relevance

  datatype SearchQuery = SearchQuery(
    query: Option<string>, from: Option<string>, to: Option<string>, subject: Option<string>,
    folder: Option<FolderFilter>, sinceUnix: Option<int>, beforeUnix: Option<int>,
    flags: Option<FlagFilter>, unread: Option<bool>, hasAttachments: Option<bool>,
    offset: Option<nat>, limit: Option<nat>, sort: Option<SortOrder>, countOnly: Option<bool>)

  /** What the index takes from outside: Rust's `to_lowercase`, FTS5's MATCH and
      the order by bm25 rank. */
  datatype Engine = Engine(
    lower: string -> string, matches: (string, MessageRow) -> bool, ranked: seq<MessageRow> -> seq<MessageRow>)

  // ── SQL ────────────────────────────────────────────────────────────────

  datatype Value = Null | Int(i: int) | Str(s: string)

  datatype Column = FromAddr | FromName | ToAddrs | CcAddrs | Subject | Folder | DateUnix | HasAttach

  datatype Term = Col(c: Column) | Hole(n: nat) | LowerOf(t: Term)

  /** Conditions; the three about flags read `EXISTS (SELECT 1 FROM json_each(m.flags) …)`. */
  datatype Cond =
    | Match(hole: nat)
    | LikeOp(a: Term, b: Term) | EqOp(a: Term, b: Term) | GeOp(a: Term, b: Term) | LtOp(a: Term, b: Term)
    | Or(l: Cond, r: Cond) | Not(c: Cond)
    | FlagIs(hole: nat) | FlagIn(holes: seq<nat>)

  datatype Truth = True | False | Unknown

  function OfBool(b: bool): Truth { if b then True else False }

  function OptStr(o: Option<string>): Value { match o case Some(s) => Str(s) case None => Null }

  function ColumnOf(r: MessageRow, c: Column): Value {
    match c
    case FromAddr => OptStr(r.fromAddr)
    case FromName => OptStr(r.fromName)
    case ToAddrs => OptStr(r.toAddrs)
    case CcAddrs => OptStr(r.ccAddrs)
    case Subject => OptStr(r.subject)
    case Folder => Str(r.folder)
    case DateUnix => (match r.dateUnix case Some(d) => Int(d) case None => Null)
    case HasAttach => Int(if r.hasAttach then 1 else 0)
  }

  /** An unbound placeholder is NULL. */
  function Arg(args: seq<Value>, n: nat): Value { if 1 <= n <= |args| then args[n - 1] else Null }

  function EvalTerm(t: Term, r: MessageRow, args: seq<Value>): Value {
    match t
    case Col(c) => ColumnOf(r, c)
    case Hole(n) => Arg(args, n)
    case LowerOf(u) => (match EvalTerm(u, r, args) case Str(s) => Str(Lower(s)) case v => v)
  }

  function Eval(c: Cond, r: MessageRow, args: seq<Value>, e: Engine): Truth {
    match c
    case Match(n) => (match Arg(args, n) case Str(s) => OfBool(e.matches(s, r)) case _ => Unknown)
    case LikeOp(a, b) =>
      (match (EvalTerm(a, r, args), EvalTerm(b, r, args))
       case (Str(s), Str(p)) => OfBool(Like.Like(p, s))
       case _ => Unknown)
    case EqOp(a, b) =>
      var x, y := EvalTerm(a, r, args), EvalTerm(b, r, args);
      if x.Null? || y.Null? then Unknown else OfBool(x == y)
    case GeOp(a, b) =>
      (match (EvalTerm(a, r, args), EvalTerm(b, r, args)) case (Int(i), Int(j)) => OfBool(i >= j) case _ => Unknown)
    case LtOp(a, b) =>
      (match (EvalTerm(a, r, args), EvalTerm(b, r, args)) case (Int(i), Int(j)) => OfBool(i < j) case _ => Unknown)
    case Or(x, y) =>
      var p, q := Eval(x, r, args, e), Eval(y, r, args, e);
      if p == True || q == True then True else if p == False && q == False then False else Unknown
    case Not(x) => (match Eval(x, r, args, e) case True => False case False => True case Unknown => Unknown)
    case FlagIs(n) => OfBool(exists f <- r.flags :: Arg(args, n) == Str(f))
    case FlagIn(holes) => OfBool(exists f <- r.flags :: exists n <- holes :: Arg(args, n) == Str(f))
  }

  /** A WHERE clause: the conjunction of its conditions, none meaning no clause. */
  function EvalAll(cs: seq<Cond>, r: MessageRow, args: seq<Value>, e: Engine): Truth {
    if cs == [] then True
    else
      var p, q := Eval(cs[0], r, args, e), EvalAll(cs[1..], r, args, e);
      if p == False || q == False then False else if p == True && q == True then True else Unknown
  }

  function TermHoles(t: Term): seq<nat> {
    match t case Col(_) => [] case Hole(n) => [n] case LowerOf(u) => TermHoles(u)
  }

  /** The placeholders in the order they stand in the text. */
  function Holes(c: Cond): seq<nat> {
    match c
    case Match(n) => [n]
    case LikeOp(a, b) => TermHoles(a) + TermHoles(b)
    case EqOp(a, b) => TermHoles(a) + TermHoles(b)
    case GeOp(a, b) => TermHoles(a) + TermHoles(b)
    case LtOp(a, b) => TermHoles(a) + TermHoles(b)
    case Or(x, y) => Holes(x) + Holes(y)
    case Not(x) => Holes(x)
    case FlagIs(n) => [n]
    case FlagIn(holes) => holes
  }

  function AllHoles(cs: seq<Cond>): seq<nat> { FlatMap(cs, Holes) }

  // ── the meaning of a query ─────────────────────────────────────────────

  /** A column that is there and is LIKE the wrapped needle. */
  predicate TextLike(column: Option<string>, needle: string, e: Engine) {
    column.Some? && Like.Like("%" + e.lower(needle) + "%", Lower(column.value))
  }

  predicate InFolder(folder: string, f: FolderFilter) {
    match f
    case All => true
    case Exact(g) => folder == g
    case Prefix(g) => Like.Under(folder, g)
  }

  predicate FlagsPass(flags: seq<string>, ff: FlagFilter) {
    && (ff.anyOf.Some? && ff.anyOf.value != [] ==> exists f <- flags :: f in ff.anyOf.value)
    && (ff.allOf.Some? ==> forall f <- ff.allOf.value :: f in flags)
    && (ff.noneOf.Some? ==> forall f <- ff.noneOf.value :: f !in flags)
  }

  const SEEN := "\\Seen"

  /** The independent filters, all of which must hold. */
  predicate Matches(q: SearchQuery, r: MessageRow, e: Engine) {
    && (q.query.Some? && Trim(q.query.value) != "" ==> e.matches(q.query.value, r))
    && (q.from.Some? && q.from.value != "" ==>
          TextLike(r.fromAddr, q.from.value, e) || TextLike(r.fromName, q.from.value, e))
    && (q.to.Some? && q.to.value != "" ==> TextLike(r.toAddrs, q.to.value, e) || TextLike(r.ccAddrs, q.to.value, e))
    && (q.subject.Some? && q.subject.value != "" ==> TextLike(r.subject, q.subject.value, e))
    && (q.folder.Some? ==> InFolder(r.folder, q.folder.value))
    && (q.sinceUnix.Some? ==> r.dateUnix.Some? && r.dateUnix.value >= q.sinceUnix.value)
    && (q.beforeUnix.Some? ==> r.dateUnix.Some? && r.dateUnix.value < q.beforeUnix.value)
    && (q.hasAttachments.Some? ==> r.hasAttach == q.hasAttachments.value)
    && (q.unread == Some(true) ==> "\\Seen" !in r.flags)
    && (q.flags.Some? ==> FlagsPass(r.flags, q.flags.value))
  }

  // ── one clause and its arguments ───────────────────────────────────────

  /** The forms a clause can take; each knows its own arguments. */
  datatype Part =
    | Fts(q: string)
    | Either(a: Column, b: Column, pattern: string)
    | Single(a: Column, pattern: string)
    | FolderIs(f: string)
    | FolderUnder(f: string)
    | Since(t: int)
    | Before(t: int)
    | Attach(present: bool)
    | Unflagged(flag: string)
    | AnyFlag(list: seq<string>)
    | HasFlag(flag: string)
    | NoFlag(list: seq<string>)

  function ArgsOf(p: Part): seq<Value> {
    match p
    case Fts(q) => [Str(q)]
    case Either(_, _, pat) => [Str(pat), Str(pat)]
    case Single(_, pat) => [Str(pat)]
    case FolderIs(f) => [Str(f)]
    case FolderUnder(f) => [Str(f), Str(f + "/%")]
    case Since(t) => [Int(t)]
    case Before(t) => [Int(t)]
    case Attach(b) => [Int(if b then 1 else 0)]
    case Unflagged(flag) => [Str(flag)]
    case AnyFlag(list) => Map(list, MkStr)
    case HasFlag(flag) => [Str(flag)]
    case NoFlag(list) => Map(list, MkStr)
  }

  function MkStr(s: string): Value { Str(s) }

  function Numbered(from: nat, count: nat): (r: seq<nat>)
    ensures |r| == count && forall i :: 0 <= i < count ==> r[i] == from + i
  {
    seq(count, i requires 0 <= i < count => from + i)
  }

  /** The clause of a part whose arguments follow the first `n`. */
  function ClauseAt(p: Part, n: nat): Cond {
    match p
    case Fts(_) => Match(n + 1)
    case Either(a, b, _) => Or(LikeOp(LowerOf(Col(a)), Hole(n + 1)), LikeOp(LowerOf(Col(b)), Hole(n + 2)))
    case Single(a, _) => LikeOp(LowerOf(Col(a)), Hole(n + 1))
    case FolderIs(_) => EqOp(Col(Folder), Hole(n + 1))
    case FolderUnder(_) => Or(EqOp(Col(Folder), Hole(n + 1)), LikeOp(Col(Folder), Hole(n + 2)))
    case Since(_) => GeOp(Col(DateUnix), Hole(n + 1))
    case Before(_) => LtOp(Col(DateUnix), Hole(n + 1))
    case Attach(_) => EqOp(Col(HasAttach), Hole(n + 1))
    case Unflagged(_) => Not(FlagIs(n + 1))
    case AnyFlag(list) => FlagIn(Numbered(n + 1, |list|))
    case HasFlag(_) => FlagIs(n + 1)
    case NoFlag(list) => Not(FlagIn(Numbered(n + 1, |list|)))
  }

  datatype Built = Built(clauses: seq<Cond>, args: seq<Value>)

  function Push(b: Built, p: Part): Built {
    Built(b.clauses + [ClauseAt(p, |b.args|)], b.args + ArgsOf(p))
  }

  function PushAll(b: Built, ps: seq<Part>): Built
    decreases |ps|
  {
    if ps == [] then b else PushAll(Push(b, ps[0]), ps[1..])
  }

  function WrapLike(s: string, e: Engine): string { "%" + e.lower(s) + "%" }

  function QueryPart(q: SearchQuery): seq<Part> {
    if q.query.Some? && Trim(q.query.value) != "" then [Fts(q.query.value)] else []
  }

  function FromPart(q: SearchQuery, e: Engine): seq<Part> {
    if q.from.Some? && q.from.value != "" then [Either(FromAddr, FromName, WrapLike(q.from.value, e))] else []
  }

  function ToPart(q: SearchQuery, e: Engine): seq<Part> {
    if q.to.Some? && q.to.value != "" then [Either(ToAddrs, CcAddrs, WrapLike(q.to.value, e))] else []
  }

  function SubjectPart(q: SearchQuery, e: Engine): seq<Part> {
    if q.subject.Some? && q.subject.value != "" then [Single(Subject, WrapLike(q.subject.value, e))] else []
  }

  function TextParts(q: SearchQuery, e: Engine): seq<Part> {
    QueryPart(q) + FromPart(q, e) + ToPart(q, e) + SubjectPart(q, e)
  }

  function FolderPart(f: Option<FolderFilter>): seq<Part> {
    match f
    case None => []
    case Some(All) => []
    case Some(Exact(g)) => [FolderIs(g)]
    case Some(Prefix(g)) => [FolderUnder(g)]
  }

  function SincePart(q: SearchQuery): seq<Part> { if q.sinceUnix.Some? then [Since(q.sinceUnix.value)] else [] }

  function BeforePart(q: SearchQuery): seq<Part> { if q.beforeUnix.Some? then [Before(q.beforeUnix.value)] else [] }

  function DateParts(q: SearchQuery): seq<Part> { SincePart(q) + BeforePart(q) }

  function AttachPart(q: SearchQuery): seq<Part> {
    if q.hasAttachments.Some? then [Attach(q.hasAttachments.value)] else []
  }

  function UnreadPart(q: SearchQuery): seq<Part> { if q.unread == Some(true) then [Unflagged(SEEN)] else [] }

  function BitParts(q: SearchQuery): seq<Part> { AttachPart(q) + UnreadPart(q) }

  function MkHasFlag(f: string): Part { HasFlag(f) }

  predicate Given(list: Option<seq<string>>) { list.Some? && list.value != [] }

  function AnyOfPart(list: Option<seq<string>>): seq<Part> { if Given(list) then [AnyFlag(list.value)] else [] }

  function AllOfParts(list: Option<seq<string>>): seq<Part> { if list.Some? then Map(list.value, MkHasFlag) else [] }

  function NoneOfPart(list: Option<seq<string>>): seq<Part> { if Given(list) then [NoFlag(list.value)] else [] }

  function FlagParts(ff: Option<FlagFilter>): seq<Part> {
    match ff
    case None => []
    case Some(f) => AnyOfPart(f.anyOf) + AllOfParts(f.allOf) + NoneOfPart(f.noneOf)
  }

  /** The parts of a query in the order they are pushed. */
  function Parts(q: SearchQuery, e: Engine): seq<Part> {
    TextParts(q, e) + FolderPart(q.folder) + DateParts(q) + BitParts(q) + FlagParts(q.flags)
  }

  /** `build_where` as a function. */
  function Where(q: SearchQuery, e: Engine): Built { PushAll(Built([], []), Parts(q, e)) }

  lemma {:induction false} PushAllConcat(b: Built, xs: seq<Part>, ys: seq<Part>)
    ensures PushAll(b, xs + ys) == PushAll(PushAll(b, xs), ys)
    decreases |xs|
  {
    if xs == [] {
      assert xs + ys == ys;
    } else {
      Uncons(xs, ys);
      PushAllConcat(Push(b, xs[0]), xs[1..], ys);
    }
  }

  /** Pushing one more part. */
  lemma PushOne(b: Built, p: Part)
    ensures PushAll(b, [p]) == Push(b, p)
    ensures PushAll(b, []) == b
  {
    assert [p][1..] == [];
  }

  lemma TwoArgs(args: seq<Value>, x: Value, y: Value)
    ensures args + [x] + [y] == args + [x, y]
  {}

  /** The two clauses over a pair of columns, `from` and `to`. */
  method BuildPair(needle: Option<string>, a: Column, b: Column, e: Engine, before: Built)
    returns (clauses: seq<Cond>, args: seq<Value>)
    ensures Built(clauses, args) ==
      if needle.Some? && needle.value != "" then Push(before, Either(a, b, WrapLike(needle.value, e))) else before
  {
    clauses, args := before.clauses, before.args;
    if needle.Some? && needle.value != "" {
      var pat := WrapLike(needle.value, e);
      args := args + [Str(pat)];
      args := args + [Str(pat)];
      var i, j := |args| - 1, |args|;
      TwoArgs(before.args, Str(pat), Str(pat));
      clauses := clauses + [Or(LikeOp(LowerOf(Col(a)), Hole(i)), LikeOp(LowerOf(Col(b)), Hole(j)))];
    }
  }

  method BuildText(q: SearchQuery, e: Engine, before: Built) returns (clauses: seq<Cond>, args: seq<Value>)
    ensures Built(clauses, args) == PushAll(before, TextParts(q, e))
  {
    clauses, args := before.clauses, before.args;
    if q.query.Some? && Trim(q.query.value) != "" {
      args := args + [Str(q.query.value)];
      clauses := clauses + [Match(|args|)];
    }
    PushMaybe(before, QueryPart(q));
    clauses, args := BuildPair(q.from, FromAddr, FromName, e, Built(clauses, args));
    PushMaybe(PushAll(before, QueryPart(q)), FromPart(q, e));
    clauses, args := BuildPair(q.to, ToAddrs, CcAddrs, e, Built(clauses, args));
    PushAllConcat(before, QueryPart(q), FromPart(q, e));
    PushMaybe(PushAll(before, QueryPart(q) + FromPart(q, e)), ToPart(q, e));
    PushAllConcat(before, QueryPart(q) + FromPart(q, e), ToPart(q, e));
    clauses, args := BuildSubject(q, e, Built(clauses, args));
    PushAllConcat(before, QueryPart(q) + FromPart(q, e) + ToPart(q, e), SubjectPart(q, e));
  }

  method BuildSubject(q: SearchQuery, e: Engine, before: Built) returns (clauses: seq<Cond>, args: seq<Value>)
    ensures Built(clauses, args) == PushAll(before, SubjectPart(q, e))
  {
    clauses, args := before.clauses, before.args;
    PushMaybe(before, SubjectPart(q, e));
    if q.subject.Some? && q.subject.value != "" {
      args := args + [Str(WrapLike(q.subject.value, e))];
      clauses := clauses + [LikeOp(LowerOf(Col(Subject)), Hole(|args|))];
    }
  }

  /** At most one part. */
  lemma PushMaybe(b: Built, ps: seq<Part>)
    requires |ps| <= 1
    ensures PushAll(b, ps) == if ps == [] then b else Push(b, ps[0])
  {
    if ps != [] { PushOne(b, ps[0]); assert ps == [ps[0]]; }
  }

  lemma PushMore(before: Built, done: seq<Part>, p: Part)
    ensures PushAll(before, done + [p]) == Push(PushAll(before, done), p)
  {
    PushAllConcat(before, done, [p]);
    PushOne(PushAll(before, done), p);
  }

  method BuildFolder(folder: Option<FolderFilter>, before: Built) returns (clauses: seq<Cond>, args: seq<Value>)
    ensures Built(clauses, args) == PushAll(before, FolderPart(folder))
  {
    clauses, args := before.clauses, before.args;
    match folder {
      case None => PushOne(before, FolderIs(""));
      case Some(All) => PushOne(before, FolderIs(""));
      case Some(Exact(f)) =>
        PushOne(before, FolderIs(f));
        args := args + [Str(f)];
        clauses := clauses + [EqOp(Col(Folder), Hole(|args|))];
      case Some(Prefix(f)) =>
        PushOne(before, FolderUnder(f));
        TwoArgs(args, Str(f), Str(f + "/%"));
        args := args + [Str(f)];
        args := args + [Str(f + "/%")];
        var a, b := |args| - 1, |args|;
        clauses := clauses + [Or(EqOp(Col(Folder), Hole(a)), LikeOp(Col(Folder), Hole(b)))];
    }
  }

  method BuildDates(q: SearchQuery, before: Built) returns (clauses: seq<Cond>, args: seq<Value>)
    ensures Built(clauses, args) == PushAll(before, DateParts(q))
  {
    clauses, args := before.clauses, before.args;
    ghost var done: seq<Part> := [];
    if q.sinceUnix.Some? {
      PushMore(before, done, Since(q.sinceUnix.value));
      args := args + [Int(q.sinceUnix.value)];
      clauses := clauses + [GeOp(Col(DateUnix), Hole(|args|))];
      done := done + [Since(q.sinceUnix.value)];
    }
    if q.beforeUnix.Some? {
      PushMore(before, done, Before(q.beforeUnix.value));
      args := args + [Int(q.beforeUnix.value)];
      clauses := clauses + [LtOp(Col(DateUnix), Hole(|args|))];
      done := done + [Before(q.beforeUnix.value)];
    }
    assert done == DateParts(q);
  }

  method BuildBits(q: SearchQuery, before: Built) returns (clauses: seq<Cond>, args: seq<Value>)
    ensures Built(clauses, args) == PushAll(before, BitParts(q))
  {
    clauses, args := before.clauses, before.args;
    ghost var done: seq<Part> := [];
    if q.hasAttachments.Some? {
      PushMore(before, done, Attach(q.hasAttachments.value));
      args := args + [Int(if q.hasAttachments.value then 1 else 0)];
      clauses := clauses + [EqOp(Col(HasAttach), Hole(|args|))];
      done := done + [Attach(q.hasAttachments.value)];
    }
    if q.unread.Some? && q.unread.value {
      PushMore(before, done, Unflagged(SEEN));
      args := args + [Str(SEEN)];
      clauses := clauses + [Not(FlagIs(|args|))];
      done := done + [Unflagged(SEEN)];
    }
    assert done == BitParts(q);
  }

  /** `in_clause_any` and `in_clause_none`: the placeholders and the arguments added. */
  method InClause(list: seq<string>, argsSoFar: nat) returns (holes: seq<nat>, added: seq<Value>)
    ensures holes == Numbered(argsSoFar + 1, |list|) && added == Map(list, MkStr)
  {
    added, holes := [], [];
    for i := 0 to |list|
      invariant holes == Numbered(argsSoFar + 1, i) && added == Map(list[..i], MkStr)
    {
      added := added + [Str(list[i])];
      holes := holes + [argsSoFar + i + 1];
      assert list[..i + 1] == list[..i] + [list[i]];
    }
    assert list[..|list|] == list;
  }

  method BuildFlags(ff: FlagFilter, before: Built) returns (clauses: seq<Cond>, args: seq<Value>)
    ensures Built(clauses, args) == PushAll(before, FlagParts(Some(ff)))
  {
    clauses, args := BuildAnyOf(ff.anyOf, before);
    if ff.allOf.Some? { clauses, args := BuildAllOf(ff.allOf.value, Built(clauses, args)); }
    PushAllConcat(before, AnyOfPart(ff.anyOf), AllOfParts(ff.allOf));
    clauses, args := BuildNoneOf(ff.noneOf, Built(clauses, args));
    PushAllConcat(before, AnyOfPart(ff.anyOf) + AllOfParts(ff.allOf), NoneOfPart(ff.noneOf));
  }

  method BuildAnyOf(list: Option<seq<string>>, before: Built) returns (clauses: seq<Cond>, args: seq<Value>)
    ensures Built(clauses, args) == PushAll(before, AnyOfPart(list))
  {
    clauses, args := before.clauses, before.args;
    if Given(list) {
      PushOne(before, AnyFlag(list.value));
      var holes, added := InClause(list.value, |args|);
      args := args + added;
      clauses := clauses + [FlagIn(holes)];
    }
  }

  method BuildNoneOf(list: Option<seq<string>>, before: Built) returns (clauses: seq<Cond>, args: seq<Value>)
    ensures Built(clauses, args) == PushAll(before, NoneOfPart(list))
  {
    clauses, args := before.clauses, before.args;
    if Given(list) {
      PushOne(before, NoFlag(list.value));
      var holes, added := InClause(list.value, |args|);
      args := args + added;
      clauses := clauses + [Not(FlagIn(holes))];
    }
  }

  method BuildAllOf(list: seq<string>, before: Built) returns (clauses: seq<Cond>, args: seq<Value>)
    ensures Built(clauses, args) == PushAll(before, Map(list, MkHasFlag))
  {
    clauses, args := before.clauses, before.args;
    for i := 0 to |list|
      invariant Built(clauses, args) == PushAll(before, Map(list[..i], MkHasFlag))
    {
      PushMore(before, Map(list[..i], MkHasFlag), HasFlag(list[i]));
      assert list[..i + 1] == list[..i] + [list[i]];
      MapSnoc(list[..i], list[i], MkHasFlag);
      args := args + [Str(list[i])];
      clauses := clauses + [FlagIs(|args|)];
    }
    assert list[..|list|] == list;
  }

  predicate IsEmpty(ff: FlagFilter) {
    !Given(ff.anyOf) && !Given(ff.allOf) && !Given(ff.noneOf)
  }

  /** `build_where` */
  method BuildWhere(q: SearchQuery, e: Engine) returns (clauses: seq<Cond>, args: seq<Value>)
    ensures Built(clauses, args) == Where(q, e)
  {
    ghost var none := Built([], []);
    clauses, args := BuildText(q, e, Built([], []));
    clauses, args := BuildFolder(q.folder, Built(clauses, args));
    clauses, args := BuildDates(q, Built(clauses, args));
    clauses, args := BuildBits(q, Built(clauses, args));
    PushAllConcat(none, TextParts(q, e), FolderPart(q.folder));
    PushAllConcat(none, TextParts(q, e) + FolderPart(q.folder), DateParts(q));
    PushAllConcat(none, TextParts(q, e) + FolderPart(q.folder) + DateParts(q), BitParts(q));
    PushAllConcat(none, TextParts(q, e) + FolderPart(q.folder) + DateParts(q) + BitParts(q), FlagParts(q.flags));
    if q.flags.Some? {
      if !IsEmpty(q.flags.value) {
        clauses, args := BuildFlags(q.flags.value, Built(clauses, args));
      } else {
        assert FlagParts(q.flags) == [];
      }
    }
  }
}
