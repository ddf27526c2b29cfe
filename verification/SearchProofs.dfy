/** The compiled WHERE clause means what the query says. */
module SearchProofs {
  import opened Seqs
  import opened Text
  import opened Messages
  import opened Search
  import Like

  // ── placeholders ───────────────────────────────────────────────────────

  predicate Within(c: Cond, n: nat) { forall h <- Holes(c) :: 1 <= h <= n }

  lemma PartHoles(p: Part, n: nat)
    ensures Holes(ClauseAt(p, n)) == Numbered(n + 1, |ArgsOf(p)|)
  {
    OneHole(n);
    if p.Either? || p.FolderUnder? {
      PairHoles(p, n);
    } else if !AboutFlags(p) {
      ColumnPartHoles(p, n);
    }
  }

  lemma PairHoles(p: Part, n: nat)
    requires p.Either? || p.FolderUnder?
    ensures Holes(ClauseAt(p, n)) == Numbered(n + 1, |ArgsOf(p)|)
  {
    hide Numbered;
    match p
    case Either(x, y, _) =>
      ColumnHoles(x, n + 1);
      ColumnHoles(y, n + 2);
      TwoHoles(n, LikeOp(LowerOf(Col(x)), Hole(n + 1)), LikeOp(LowerOf(Col(y)), Hole(n + 2)));
    case FolderUnder(_) =>
      ColumnHoles(Folder, n + 1);
      ColumnHoles(Folder, n + 2);
      TwoHoles(n, EqOp(Col(Folder), Hole(n + 1)), LikeOp(Col(Folder), Hole(n + 2)));
  }

  lemma ColumnPartHoles(p: Part, n: nat)
    requires !AboutFlags(p) && !p.Either? && !p.FolderUnder?
    ensures Holes(ClauseAt(p, n)) == Numbered(n + 1, |ArgsOf(p)|)
  {
    hide Numbered;
    OneHole(n);
    match p
    case Single(x, _) => ColumnHoles(x, n + 1);
    case FolderIs(_) => ColumnHoles(Folder, n + 1);
    case Since(_) => ColumnHoles(DateUnix, n + 1);
    case Before(_) => ColumnHoles(DateUnix, n + 1);
    case Attach(_) => ColumnHoles(HasAttach, n + 1);
    case Fts(_) =>
  }

  lemma OneHole(n: nat)
    ensures Numbered(n + 1, 1) == [n + 1]
  {}

  lemma TwoHoles(n: nat, a: Cond, b: Cond)
    requires Holes(a) == [n + 1] && Holes(b) == [n + 2]
    ensures Holes(Or(a, b)) == Numbered(n + 1, 2)
  {}

  lemma ColumnHoles(c: Column, h: nat)
    ensures TermHoles(Col(c)) + TermHoles(Hole(h)) == [h]
    ensures TermHoles(LowerOf(Col(c))) + TermHoles(Hole(h)) == [h]
  {}

  lemma {:induction false} PushAllHoles(b: Built, ps: seq<Part>)
    requires AllHoles(b.clauses) == Numbered(1, |b.args|)
    ensures AllHoles(PushAll(b, ps).clauses) == Numbered(1, |PushAll(b, ps).args|)
    decreases |ps|
  {
    if ps != [] {
      var p := ps[0];
      PartHoles(p, |b.args|);
      FlatMapConcat(b.clauses, [ClauseAt(p, |b.args|)], Holes);
      assert [ClauseAt(p, |b.args|)][1..] == [];
      assert Numbered(1, |b.args|) + Numbered(|b.args| + 1, |ArgsOf(p)|) == Numbered(1, |b.args + ArgsOf(p)|);
      PushAllHoles(Push(b, p), ps[1..]);
    }
  }

  /** The placeholders of a query, left to right, are exactly 1, 2, …, one for
      each argument; LIMIT and OFFSET take the next two. */
  lemma PlaceholdersExact(q: SearchQuery, e: Engine, limit: int, offset: int)
    ensures AllHoles(Where(q, e).clauses) == Numbered(1, |Where(q, e).args|)
    ensures var args := Where(q, e).args; var paged := args + [Int(limit)] + [Int(offset)];
      && AllHoles(Where(q, e).clauses) + [|args| + 1, |args| + 2] == Numbered(1, |paged|)
      && Arg(paged, |args| + 1) == Int(limit) && Arg(paged, |args| + 2) == Int(offset)
  {
    hide PushAll, Parts;
    PushAllHoles(Built([], []), Parts(q, e));
    TwoMoreHoles(|Where(q, e).args|);
  }

  lemma TwoMoreHoles(n: nat)
    ensures Numbered(1, n) + [n + 1, n + 2] == Numbered(1, n + 2)
  {}

  lemma TermFrame(t: Term, r: MessageRow, args: seq<Value>, more: seq<Value>)
    requires forall h <- TermHoles(t) :: 1 <= h <= |args|
    ensures EvalTerm(t, r, args + more) == EvalTerm(t, r, args)
  {
    match t
    case Hole(n) => assert n in TermHoles(t);
    case LowerOf(u) =>
      assert TermHoles(t) == TermHoles(u);
      TermFrame(u, r, args, more);
    case Col(_) =>
  }

  lemma TermsFrame(a: Term, b: Term, r: MessageRow, args: seq<Value>, more: seq<Value>)
    requires forall h <- TermHoles(a) + TermHoles(b) :: 1 <= h <= |args|
    ensures EvalTerm(a, r, args + more) == EvalTerm(a, r, args)
    ensures EvalTerm(b, r, args + more) == EvalTerm(b, r, args)
  {
    assert forall h <- TermHoles(a) :: h in TermHoles(a) + TermHoles(b);
    assert forall h <- TermHoles(b) :: h in TermHoles(a) + TermHoles(b);
    TermFrame(a, r, args, more);
    TermFrame(b, r, args, more);
  }

  lemma FlagInFrame(holes: seq<nat>, flags: seq<string>, args: seq<Value>, more: seq<Value>)
    requires forall h <- holes :: 1 <= h <= |args|
    ensures (exists f <- flags :: exists n <- holes :: Arg(args + more, n) == Str(f)) <==>
            (exists f <- flags :: exists n <- holes :: Arg(args, n) == Str(f))
  {
    assert forall n <- holes :: Arg(args + more, n) == Arg(args, n);
  }

  lemma OrWithin(x: Cond, y: Cond, n: nat)
    requires Within(Or(x, y), n)
    ensures Within(x, n) && Within(y, n)
  {
    assert Holes(Or(x, y)) == Holes(x) + Holes(y);
    assert forall h <- Holes(x) :: h in Holes(Or(x, y));
    assert forall h <- Holes(y) :: h in Holes(Or(x, y));
  }

  /** Arguments pushed later do not disturb an earlier clause. */
  lemma {:induction false} EvalFrame(c: Cond, r: MessageRow, args: seq<Value>, more: seq<Value>, e: Engine)
    requires Within(c, |args|)
    ensures Eval(c, r, args + more, e) == Eval(c, r, args, e)
    decreases c
  {
    match c
    case Match(n) => assert n in Holes(c);
    case LikeOp(a, b) =>
      assert Holes(c) == TermHoles(a) + TermHoles(b);
      TermsFrame(a, b, r, args, more);
    case EqOp(a, b) =>
      assert Holes(c) == TermHoles(a) + TermHoles(b);
      TermsFrame(a, b, r, args, more);
    case GeOp(a, b) =>
      assert Holes(c) == TermHoles(a) + TermHoles(b);
      TermsFrame(a, b, r, args, more);
    case LtOp(a, b) =>
      assert Holes(c) == TermHoles(a) + TermHoles(b);
      TermsFrame(a, b, r, args, more);
    case Or(x, y) =>
      OrWithin(x, y, |args|);
      EvalFrame(x, r, args, more, e);
      EvalFrame(y, r, args, more, e);
    case Not(x) =>
      assert Holes(c) == Holes(x);
      EvalFrame(x, r, args, more, e);
    case FlagIs(n) => assert n in Holes(c);
    case FlagIn(holes) =>
      assert Holes(c) == holes;
      FlagInFrame(holes, r.flags, args, more);
  }

  lemma {:induction false} EvalAllFrame(cs: seq<Cond>, r: MessageRow, args: seq<Value>, more: seq<Value>, e: Engine)
    requires forall c <- cs :: Within(c, |args|)
    ensures EvalAll(cs, r, args + more, e) == EvalAll(cs, r, args, e)
  {
    if cs != [] {
      assert cs[0] in cs;
      EvalFrame(cs[0], r, args, more, e);
      EvalAllFrame(cs[1..], r, args, more, e);
    }
  }

  /** A later push leaves earlier clauses and arguments where they are. */
  lemma {:induction false} PushesExtend(b: Built, ps: seq<Part>)
    ensures b.clauses <= PushAll(b, ps).clauses && b.args <= PushAll(b, ps).args
    decreases |ps|
  {
    if ps != [] { PushesExtend(Push(b, ps[0]), ps[1..]); }
  }

  // ── one part ───────────────────────────────────────────────────────────

  predicate ColumnLike(r: MessageRow, c: Column, pattern: string) {
    var v := ColumnOf(r, c);
    v.Str? && Like.Like(pattern, Lower(v.s))
  }

  /** What a part asks of a row. */
  predicate Holds(p: Part, r: MessageRow, e: Engine) {
    match p
    case Fts(q) => e.matches(q, r)
    case Either(a, b, pat) => ColumnLike(r, a, pat) || ColumnLike(r, b, pat)
    case Single(a, pat) => ColumnLike(r, a, pat)
    case FolderIs(f) => r.folder == f
    case FolderUnder(f) => r.folder == f || Like.Like(f + "/%", r.folder)
    case Since(t) => r.dateUnix.Some? && r.dateUnix.value >= t
    case Before(t) => r.dateUnix.Some? && r.dateUnix.value < t
    case Attach(b) => r.hasAttach == b
    case Unflagged(flag) => flag !in r.flags
    case AnyFlag(list) => exists f <- r.flags :: f in list
    case HasFlag(flag) => flag in r.flags
    case NoFlag(list) => forall f <- r.flags :: f !in list
  }

  lemma NewArgs(args: seq<Value>, added: seq<Value>)
    ensures forall i :: 0 <= i < |added| ==> Arg(args + added, |args| + i + 1) == added[i]
  {}

  /** The numbered placeholders of a list name exactly its elements. */
  lemma FlagList(flags: seq<string>, list: seq<string>, args: seq<Value>)
    ensures var all := args + Map(list, MkStr); var holes := Numbered(|args| + 1, |list|);
      (exists f <- flags :: exists n <- holes :: Arg(all, n) == Str(f)) <==> exists f <- flags :: f in list
  {
    var all, holes := args + Map(list, MkStr), Numbered(|args| + 1, |list|);
    NewArgs(args, Map(list, MkStr));
    forall f | f in flags ensures (exists n <- holes :: Arg(all, n) == Str(f)) <==> f in list {
      if f in list {
        var i :| 0 <= i < |list| && list[i] == f;
        assert holes[i] == |args| + i + 1 && Arg(all, |args| + i + 1) == Map(list, MkStr)[i];
        assert holes[i] in holes;
      }
      if n :| n in holes && Arg(all, n) == Str(f) {
        var i :| 0 <= i < |holes| && holes[i] == n;
        assert Arg(all, |args| + i + 1) == Map(list, MkStr)[i] == Str(list[i]);
      }
    }
  }

  lemma LikeMeaning(c: Column, n: nat, pattern: string, r: MessageRow, args: seq<Value>, e: Engine)
    requires Arg(args, n) == Str(pattern)
    ensures Eval(LikeOp(LowerOf(Col(c)), Hole(n)), r, args, e) == True <==> ColumnLike(r, c, pattern)
  {
    assert EvalTerm(Hole(n), r, args) == Str(pattern);
    var v := EvalTerm(Col(c), r, args);
    assert EvalTerm(LowerOf(Col(c)), r, args) == if v.Str? then Str(Lower(v.s)) else v;
  }

  predicate AboutFlags(p: Part) { p.AnyFlag? || p.NoFlag? || p.HasFlag? || p.Unflagged? }

  lemma FlagPartMeaning(p: Part, r: MessageRow, args: seq<Value>, e: Engine)
    requires AboutFlags(p)
    ensures Eval(ClauseAt(p, |args|), r, args + ArgsOf(p), e) == True <==> Holds(p, r, e)
  {
    match p
    case AnyFlag(list) => FlagList(r.flags, list, args);
    case NoFlag(list) => NoneOfFlags(list, r, args, e);
    case HasFlag(flag) => OneFlag(r.flags, flag, args);
    case Unflagged(flag) => OneFlag(r.flags, flag, args);
  }

  lemma NoneOfFlags(list: seq<string>, r: MessageRow, args: seq<Value>, e: Engine)
    ensures var p := NoFlag(list); Eval(ClauseAt(p, |args|), r, args + ArgsOf(p), e) == True <==> Holds(p, r, e)
  {
    hide Arg, Numbered, Map, MkStr;
    FlagList(r.flags, list, args);
    NotTrue(FlagIn(Numbered(|args| + 1, |list|)), r, args + Map(list, MkStr), e);
  }

  lemma NotTrue(c: Cond, r: MessageRow, args: seq<Value>, e: Engine)
    ensures Eval(Not(c), r, args, e) == True <==> Eval(c, r, args, e) == False
  {}

  lemma OneFlag(flags: seq<string>, flag: string, args: seq<Value>)
    ensures (exists f <- flags :: Arg(args + [Str(flag)], |args| + 1) == Str(f)) <==> flag in flags
  {
    NewArgs(args, [Str(flag)]);
    assert Arg(args + [Str(flag)], |args| + 0 + 1) == Str(flag);
  }

  /** A pushed clause is true of a row exactly when its part holds. */
  lemma PartMeaning(p: Part, r: MessageRow, args: seq<Value>, e: Engine)
    ensures Eval(ClauseAt(p, |args|), r, args + ArgsOf(p), e) == True <==> Holds(p, r, e)
  {
    if AboutFlags(p) {
      FlagPartMeaning(p, r, args, e);
    } else {
      ColumnPartMeaning(p, r, args, e);
    }
  }

  lemma ColumnPartMeaning(p: Part, r: MessageRow, args: seq<Value>, e: Engine)
    requires !AboutFlags(p)
    ensures Eval(ClauseAt(p, |args|), r, args + ArgsOf(p), e) == True <==> Holds(p, r, e)
  {
    var all := args + ArgsOf(p);
    NewArgs(args, ArgsOf(p));
    match p
    case Either(a, b, pat) =>
      assert Arg(all, |args| + 0 + 1) == ArgsOf(p)[0] && Arg(all, |args| + 1 + 1) == ArgsOf(p)[1];
      LikeMeaning(a, |args| + 1, pat, r, all, e);
      LikeMeaning(b, |args| + 2, pat, r, all, e);
    case Single(a, pat) =>
      assert Arg(all, |args| + 0 + 1) == ArgsOf(p)[0];
      LikeMeaning(a, |args| + 1, pat, r, all, e);
    case FolderUnder(f) =>
      assert Arg(all, |args| + 0 + 1) == ArgsOf(p)[0] && Arg(all, |args| + 1 + 1) == ArgsOf(p)[1];
    case FolderIs(_) | Since(_) | Before(_) | Attach(_) | Fts(_) =>
      assert Arg(all, |args| + 0 + 1) == ArgsOf(p)[0];
  }

  // ── the whole query ────────────────────────────────────────────────────

  lemma {:induction false} EvalAllSnoc(cs: seq<Cond>, c: Cond, r: MessageRow, args: seq<Value>, e: Engine)
    ensures EvalAll(cs + [c], r, args, e) == True <==> EvalAll(cs, r, args, e) == True && Eval(c, r, args, e) == True
  {
    if cs == [] {
      assert cs + [c] == [c] && [c][1..] == [];
    } else {
      Uncons(cs, [c]);
      EvalAllSnoc(cs[1..], c, r, args, e);
    }
  }

  predicate WellNumbered(b: Built) { forall c <- b.clauses :: Within(c, |b.args|) }

  lemma PushMeaning(b: Built, p: Part, r: MessageRow, e: Engine)
    requires WellNumbered(b)
    ensures WellNumbered(Push(b, p))
    ensures EvalAll(Push(b, p).clauses, r, Push(b, p).args, e) == True <==>
            EvalAll(b.clauses, r, b.args, e) == True && Holds(p, r, e)
  {
    PartHoles(p, |b.args|);
    PartMeaning(p, r, b.args, e);
    EvalAllFrame(b.clauses, r, b.args, ArgsOf(p), e);
    EvalAllSnoc(b.clauses, ClauseAt(p, |b.args|), r, b.args + ArgsOf(p), e);
  }

  predicate AllHold(ps: seq<Part>, r: MessageRow, e: Engine) { forall p <- ps :: Holds(p, r, e) }

  lemma {:induction false} PushAllMeaning(b: Built, ps: seq<Part>, r: MessageRow, e: Engine)
    requires WellNumbered(b)
    ensures EvalAll(PushAll(b, ps).clauses, r, PushAll(b, ps).args, e) == True <==>
            EvalAll(b.clauses, r, b.args, e) == True && AllHold(ps, r, e)
    decreases |ps|
  {
    if ps != [] {
      PushMeaning(b, ps[0], r, e);
      PushAllMeaning(Push(b, ps[0]), ps[1..], r, e);
      assert ps == [ps[0]] + ps[1..];
    }
  }

  lemma AllHoldConcat(xs: seq<Part>, ys: seq<Part>, r: MessageRow, e: Engine)
    ensures AllHold(xs + ys, r, e) <==> AllHold(xs, r, e) && AllHold(ys, r, e)
  {
    assert forall p :: p in xs + ys <==> p in xs || p in ys;
  }

  /** At most one part, present when `given`. */
  function When(given: bool, p: Part): seq<Part> { if given then [p] else [] }

  lemma WhenHolds(given: bool, p: Part, r: MessageRow, e: Engine)
    ensures AllHold(When(given, p), r, e) <==> (given ==> Holds(p, r, e))
  {
    if given { assert p in When(given, p); }
  }

  lemma TextMeaning(q: SearchQuery, r: MessageRow, e: Engine)
    ensures AllHold(TextParts(q, e), r, e) <==>
      && (q.query.Some? && Trim(q.query.value) != "" ==> e.matches(q.query.value, r))
      && (q.from.Some? && q.from.value != "" ==>
            TextLike(r.fromAddr, q.from.value, e) || TextLike(r.fromName, q.from.value, e))
      && (q.to.Some? && q.to.value != "" ==> TextLike(r.toAddrs, q.to.value, e) || TextLike(r.ccAddrs, q.to.value, e))
      && (q.subject.Some? && q.subject.value != "" ==> TextLike(r.subject, q.subject.value, e))
  {
    if q.query.Some? && Trim(q.query.value) != "" { WhenHolds(true, Fts(q.query.value), r, e); }
    FromMeaning(q, r, e);
    ToMeaning(q, r, e);
    if q.subject.Some? && q.subject.value != "" {
      WhenHolds(true, Single(Subject, WrapLike(q.subject.value, e)), r, e);
    }
    AllHoldConcat(QueryPart(q) + FromPart(q, e) + ToPart(q, e), SubjectPart(q, e), r, e);
    AllHoldConcat(QueryPart(q) + FromPart(q, e), ToPart(q, e), r, e);
    AllHoldConcat(QueryPart(q), FromPart(q, e), r, e);
  }

  lemma FromMeaning(q: SearchQuery, r: MessageRow, e: Engine)
    ensures AllHold(FromPart(q, e), r, e) <==>
      (q.from.Some? && q.from.value != "" ==>
         TextLike(r.fromAddr, q.from.value, e) || TextLike(r.fromName, q.from.value, e))
  {
    if q.from.Some? && q.from.value != "" {
      WhenHolds(true, Either(FromAddr, FromName, WrapLike(q.from.value, e)), r, e);
    }
  }

  lemma ToMeaning(q: SearchQuery, r: MessageRow, e: Engine)
    ensures AllHold(ToPart(q, e), r, e) <==>
      (q.to.Some? && q.to.value != "" ==> TextLike(r.toAddrs, q.to.value, e) || TextLike(r.ccAddrs, q.to.value, e))
  {
    if q.to.Some? && q.to.value != "" { WhenHolds(true, Either(ToAddrs, CcAddrs, WrapLike(q.to.value, e)), r, e); }
  }

  lemma FlagMeaning(ff: FlagFilter, r: MessageRow, e: Engine)
    ensures AllHold(FlagParts(Some(ff)), r, e) <==> FlagsPass(r.flags, ff)
  {
    AllHoldConcat(AnyOfPart(ff.anyOf) + AllOfParts(ff.allOf), NoneOfPart(ff.noneOf), r, e);
    AllHoldConcat(AnyOfPart(ff.anyOf), AllOfParts(ff.allOf), r, e);
    if ff.allOf.Some? { AllOfMeaning(ff.allOf.value, r, e); }
    if Given(ff.anyOf) { WhenHolds(true, AnyFlag(ff.anyOf.value), r, e); }
    if Given(ff.noneOf) { WhenHolds(true, NoFlag(ff.noneOf.value), r, e); }
  }

  lemma AllOfMeaning(list: seq<string>, r: MessageRow, e: Engine)
    ensures AllHold(Map(list, MkHasFlag), r, e) <==> forall f <- list :: f in r.flags
  {
    if AllHold(Map(list, MkHasFlag), r, e) {
      forall f | f in list ensures f in r.flags {
        var i :| 0 <= i < |list| && list[i] == f;
        assert Map(list, MkHasFlag)[i] == HasFlag(f);
        assert Holds(HasFlag(f), r, e);
      }
    }
    if forall f <- list :: f in r.flags {
      forall p | p in Map(list, MkHasFlag) ensures Holds(p, r, e) {
        var i :| 0 <= i < |list| && Map(list, MkHasFlag)[i] == p;
        assert list[i] in list;
      }
    }
  }

  lemma FolderMeaning(q: SearchQuery, r: MessageRow, e: Engine)
    ensures AllHold(FolderPart(q.folder), r, e) <==> (q.folder.Some? ==> InFolder(r.folder, q.folder.value))
  {
    match q.folder {
      case Some(Exact(g)) => WhenHolds(true, FolderIs(g), r, e);
      case Some(Prefix(g)) => WhenHolds(true, FolderUnder(g), r, e);
      case _ =>
    }
  }

  lemma DateMeaning(q: SearchQuery, r: MessageRow, e: Engine)
    ensures AllHold(DateParts(q), r, e) <==>
      && (q.sinceUnix.Some? ==> r.dateUnix.Some? && r.dateUnix.value >= q.sinceUnix.value)
      && (q.beforeUnix.Some? ==> r.dateUnix.Some? && r.dateUnix.value < q.beforeUnix.value)
  {
    if q.sinceUnix.Some? { WhenHolds(true, Since(q.sinceUnix.value), r, e); }
    if q.beforeUnix.Some? { WhenHolds(true, Before(q.beforeUnix.value), r, e); }
    AllHoldConcat(SincePart(q), BeforePart(q), r, e);
  }

  lemma BitMeaning(q: SearchQuery, r: MessageRow, e: Engine)
    ensures AllHold(BitParts(q), r, e) <==>
      && (q.hasAttachments.Some? ==> r.hasAttach == q.hasAttachments.value)
      && (q.unread == Some(true) ==> "\\Seen" !in r.flags)
  {
    if q.hasAttachments.Some? { WhenHolds(true, Attach(q.hasAttachments.value), r, e); }
    WhenHolds(q.unread == Some(true), Unflagged(SEEN), r, e);
    AllHoldConcat(AttachPart(q), UnreadPart(q), r, e);
  }

  /** For every query and row, NULL columns included, the compiled clause over
      its arguments is true exactly when all the independent filters hold. */
  lemma CompilerPreservesMeaning(q: SearchQuery, r: MessageRow, e: Engine)
    ensures EvalAll(Where(q, e).clauses, r, Where(q, e).args, e) == True <==> Matches(q, r, e)
  {
    PushAllMeaning(Built([], []), Parts(q, e), r, e);
    PartsMeaning(q, r, e);
  }

  lemma PartsMeaning(q: SearchQuery, r: MessageRow, e: Engine)
    ensures AllHold(Parts(q, e), r, e) <==> Matches(q, r, e)
  {
    hide AllHold, TextParts, FolderPart, DateParts, BitParts, FlagParts, TextLike, InFolder, FlagsPass, Trim;
    var a, b, c, d, f := TextParts(q, e), FolderPart(q.folder), DateParts(q), BitParts(q), FlagParts(q.flags);
    AllHoldConcat(a + b + c + d, f, r, e);
    AllHoldConcat(a + b + c, d, r, e);
    AllHoldConcat(a + b, c, r, e);
    AllHoldConcat(a, b, r, e);
    TextMeaning(q, r, e);
    FolderMeaning(q, r, e);
    DateMeaning(q, r, e);
    BitMeaning(q, r, e);
    if q.flags.Some? { FlagMeaning(q.flags.value, r, e); } else { NoFlagParts(r, e); }
  }

  lemma NoFlagParts(r: MessageRow, e: Engine)
    ensures AllHold(FlagParts(None), r, e)
  {}

  // ── text needles ───────────────────────────────────────────────────────

  predicate Ascii(s: string) { forall i :: 0 <= i < |s| ==> s[i] as int < 128 }

  /** `to_lowercase` agrees with SQLite's LOWER on ASCII text. */
  ghost predicate LowersAscii(e: Engine) { forall s: string :: Ascii(s) ==> e.lower(s) == Lower(s) }

  /** A needle that is lowered to a text without wildcards asks for a column that
      contains that text, up to ASCII case; a NULL column never passes. */
  lemma NeedleMeaning(column: Option<string>, needle: string, e: Engine)
    requires Like.NoWildcards(e.lower(needle))
    ensures TextLike(column, needle, e) <==> column.Some? && Like.Contains(column.value, e.lower(needle))
  {
    if column.Some? {
      Like.ContainsPattern(e.lower(needle), Lower(column.value));
      Like.ContainsLower(Lower(column.value), e.lower(needle));
      Like.ContainsLower(column.value, e.lower(needle));
      assert Lower(Lower(column.value)) == Lower(column.value);
    }
  }

  /** In particular an ASCII needle asks for itself. */
  lemma AsciiNeedle(column: Option<string>, needle: string, e: Engine)
    requires Ascii(needle) && Like.NoWildcards(needle) && LowersAscii(e)
    ensures TextLike(column, needle, e) <==> column.Some? && Like.Contains(column.value, needle)
  {
    LowerKeepsWildcards(needle);
    NeedleMeaning(column, needle, e);
    if column.Some? {
      Like.ContainsLower(column.value, needle);
      Like.ContainsLower(column.value, Lower(needle));
      assert Lower(Lower(needle)) == Lower(needle);
    }
  }

  lemma LowerKeepsWildcards(n: string)
    requires Like.NoWildcards(n)
    ensures Like.NoWildcards(Lower(n))
  {
    forall c | c in Lower(n) ensures c != '%' && c != '_' {
      var i :| 0 <= i < |n| && Lower(n)[i] == c;
      assert n[i] in n;
    }
  }

  /** A column is found by its own text if lowering that text changes nothing but the
      case of ASCII letters, and, without wildcards, only if: `to_lowercase` changes
      more, and SQLite lowers the column in ASCII only. */
  lemma FindsItselfIff(text: string, e: Engine)
    ensures Like.SameText(e.lower(text), text) ==> TextLike(Some(text), text, e)
    ensures Like.NoWildcards(e.lower(text)) && |e.lower(text)| >= |text| ==>
            (TextLike(Some(text), text, e) <==> Like.SameText(e.lower(text), text))
  {
    var n := e.lower(text);
    if Like.SameText(n, text) { SameTextFound(text, e); }
    if Like.NoWildcards(n) && |n| >= |text| {
      NeedleMeaning(Some(text), text, e);
      assert forall i :: 0 <= i <= |text| && Like.FoundAt(text, n, i) ==> i == 0 && text[i..i + |n|] == text;
    }
  }

  lemma SameTextFound(text: string, e: Engine)
    requires Like.SameText(e.lower(text), text)
    ensures TextLike(Some(text), text, e)
  {
    var n, s := e.lower(text), Lower(text);
    assert |Lower(n)| == |n|;
    forall i | 0 <= i < |n| ensures LowerChar(n[i]) == LowerChar(s[i]) { assert Lower(n)[i] == Lower(text)[i]; }
    Like.FitsContains(n, s);
  }

  /** A subject in capitals outside ASCII is not found by its own text; in small
      letters it is. */
  lemma NonAsciiNeedleMisses(e: Engine)
    requires e.lower("\U{00C9}") == "\U{00E9}" && e.lower("\U{00E9}") == "\U{00E9}"
    ensures !TextLike(Some("\U{00C9}"), "\U{00C9}", e) && TextLike(Some("\U{00E9}"), "\U{00E9}", e)
  {
    FindsItselfIff("\U{00C9}", e);
    FindsItselfIff("\U{00E9}", e);
    assert Lower("\U{00C9}")[0] == '\U{00C9}' && Lower("\U{00E9}")[0] == '\U{00E9}';
  }

  // ── folder specs ───────────────────────────────────────────────────────

  predicate IsBelow(folder: string, f: string) { folder == f || Like.Descendant(folder, f) }

  // What a user's folder spec selects, white space around it aside: `*` or nothing
  // everything; `f` with a slash and a star the folder and its descendants up to
  // ASCII case, exactly when its name has no wildcard; anything else that folder.
  lemma FolderSpecMeaning(spec: string, f: string)
    ensures Trim(spec) == "" || Trim(spec) == "*" ==> forall folder :: InFolder(folder, ParseFolder(spec))
    ensures Trim(spec) == f + "/*" ==>
      (Like.NoWildcards(f) <==> forall folder :: InFolder(folder, ParseFolder(spec)) <==> IsBelow(folder, f))
    ensures Trim(spec) == f && f != "" && f != "*" && !(|f| >= 2 && f[|f| - 2..] == "/*") ==>
      forall folder :: InFolder(folder, ParseFolder(spec)) <==> folder == f
  {
    hide Trim, Like.NoWildcards, IsBelow, Like.Under;
    if Trim(spec) == f + "/*" {
      PrefixSpec(spec, f);
      PrefixMeaning(f);
    }
  }

  lemma PrefixSpec(spec: string, f: string)
    requires Trim(spec) == f + "/*"
    ensures ParseFolder(spec) == Prefix(f)
  {
    hide Trim;
    var s := Trim(spec);
    assert s[|s| - 2..] == "/*" && s[..|s| - 2] == f;
  }

  lemma PrefixMeaning(f: string)
    ensures Like.NoWildcards(f) <==> forall folder :: InFolder(folder, Prefix(f)) <==> IsBelow(folder, f)
  {
    hide Like.NoWildcards, Like.Under, Like.Descendant;
    Like.UnderExactly(f);
    assert forall folder :: InFolder(folder, Prefix(f)) <==> Like.Under(folder, f);
    assert forall folder :: IsBelow(folder, f) <==> folder == f || Like.Descendant(folder, f);
  }
}
