/** Logical lines: what `unfold(text).lines()` yields, and the CRLF-joined text
    that yields given lines. */
module Lines {
  import opened Text
  import opened Seqs

  /** `trim_end_matches('\r')` */
  function TrimCr(s: string): (r: string)
    ensures |r| <= |s| && r == s[..|r|]
    ensures r != "" ==> r[|r| - 1] != '\r'
    ensures s == "" || s[|s| - 1] != '\r' ==> r == s
  {
    if s != "" && s[|s| - 1] == '\r' then TrimCr(s[..|s| - 1]) else s
  }

  /** `str::lines`: cut at every line feed, dropping it and one carriage
      return before it; no empty last line. */
  function SplitLines(s: string): (ls: seq<string>)
    decreases |s|
  {
    if s == "" then []
    else
      var i := Find(s, '\n');
      [if i < |s| then DropOneCr(s[..i]) else s] + SplitLines(AfterBreak(s))
  }

  /** What follows the first line break, if there is one. */
  function AfterBreak(s: string): (r: string)
    ensures s != "" ==> |r| < |s|
  {
    var i := Find(s, '\n');
    if i < |s| then s[i + 1..] else ""
  }

  function DropOneCr(s: string): string {
    if s != "" && s[|s| - 1] == '\r' then s[..|s| - 1] else s
  }

  function TrimAll(ls: seq<string>): (r: seq<string>)
    ensures |r| == |ls| && forall i :: 0 <= i < |ls| ==> r[i] == TrimCr(ls[i])
  {
    seq(|ls|, i requires 0 <= i < |ls| => TrimCr(ls[i]))
  }

  /** The lines every scanner of the calendar code walks. */
  function LogicalLines(text: string): seq<string> { TrimAll(SplitLines(Unfold(text))) }

  /** Lines joined and ended by CRLF. */
  function Unlines(ls: seq<string>): string {
    if ls == [] then "" else ls[0] + "\r\n" + Unlines(ls[1..])
  }

  /** A line that printing and reading leaves alone. */
  predicate Plain(l: string) {
    '\n' !in l && (l != "" ==> l[|l| - 1] != '\r')
  }

  predicate AllPlain(ls: seq<string>) { forall l <- ls :: Plain(l) }

  predicate NoneBlank(ls: seq<string>) { forall l <- ls :: !StartsBlank(l) }

  lemma SplitLine(l: string, rest: string)
    requires Plain(l)
    ensures SplitLines(l + "\r\n" + rest) == [l] + SplitLines(rest)
  {
    var s := l + "\r\n" + rest;
    assert s[..|l| + 1] == l + "\r";
    FindAt(s, '\n', |l| + 1);
    assert s[|l| + 2..] == rest;
  }

  /** Reading the lines of printed lines gives them back. */
  lemma {:induction false} SplitUnlines(ls: seq<string>)
    requires AllPlain(ls)
    ensures SplitLines(Unlines(ls)) == ls
  {
    if ls != [] {
      SplitUnlines(ls[1..]);
      SplitLine(ls[0], Unlines(ls[1..]));
    }
  }

  lemma {:induction false} UnlinesConcat(a: seq<string>, b: seq<string>)
    ensures Unlines(a + b) == Unlines(a) + Unlines(b)
  {
    if a == [] {
      assert a + b == b;
    } else {
      UnlinesConcat(a[1..], b);
      Uncons(a, b);
      Assoc(a[0] + "\r\n", Unlines(a[1..]), Unlines(b));
    }
  }

  /** Ends a line; `lines` is what has been written so far. */
  lemma PushLine(lines: seq<string>, l: string)
    ensures Unlines(lines) + (l + "\r\n") == Unlines(lines + [l])
  {
    UnlinesConcat(lines, [l]);
    assert Unlines([l][1..]) == "" && l + "\r\n" + "" == l + "\r\n";
  }

  lemma FoldFreeConcat(a: string, b: string)
    requires FoldFree(a) && FoldFree(b)
    requires a != "" && a[|a| - 1] == '\n' ==> !StartsBlank(b)
    ensures FoldFree(a + b)
  {}

  lemma {:induction false} FoldFreeUnlines(ls: seq<string>)
    requires AllPlain(ls) && NoneBlank(ls)
    ensures FoldFree(Unlines(ls)) && !StartsBlank(Unlines(ls))
  {
    if ls != [] {
      assert ls[0] in ls;
      FoldFreeUnlines(ls[1..]);
      FoldFreeConcat(ls[0] + "\r\n", Unlines(ls[1..]));
    }
  }

  /** The print/read round trip through `unfold(..).lines()`. */
  lemma ReadBack(ls: seq<string>)
    requires AllPlain(ls) && NoneBlank(ls)
    ensures Unfold(Unlines(ls)) == Unlines(ls)
    ensures SplitLines(Unlines(ls)) == ls
    ensures LogicalLines(Unlines(ls)) == ls
  {
    FoldFreeUnlines(ls);
    UnfoldFixpoint(Unlines(ls));
    SplitUnlines(ls);
    forall l | l in ls ensures TrimCr(l) == l { assert Plain(l); }
    assert TrimAll(ls) == ls;
  }

  /** One step of reading trimmed lines. */
  lemma TrimmedStep(s: string)
    requires s != ""
    ensures TrimAll(SplitLines(s)) == [TrimCr(s[..Find(s, '\n')])] + TrimAll(SplitLines(AfterBreak(s)))
  {
    var i := Find(s, '\n');
    var head := if i < |s| then DropOneCr(s[..i]) else s;
    assert SplitLines(s) == [head] + SplitLines(AfterBreak(s));
    TrimAllCons(head, SplitLines(AfterBreak(s)));
    assert TrimCr(head) == TrimCr(s[..i]) by {
      TrimDropped(s[..i]);
      assert s[..|s|] == s;
    }
  }

  lemma TrimAllCons(l: string, ls: seq<string>)
    ensures TrimAll([l] + ls) == [TrimCr(l)] + TrimAll(ls)
  {}

  lemma TrimDropped(s: string)
    ensures TrimCr(DropOneCr(s)) == TrimCr(s)
  {}

  lemma FoldFreeTail(s: string, i: nat)
    requires FoldFree(s) && i < |s| && s[i] == '\n'
    ensures FoldFree(s[i + 1..]) && !StartsBlank(s[i + 1..])
  {
    var rest := s[i + 1..];
    forall k | 0 < k < |rest| && rest[k - 1] == '\n' ensures !IsBlank(rest[k]) {
      assert rest[k] == s[i + 1 + k] && rest[k - 1] == s[i + 1 + k - 1];
    }
    assert rest != "" ==> rest[0] == s[i + 1] && s[i + 1 - 1] == '\n';
  }

  /** Lines taken from a text are plain once trimmed. */
  lemma {:induction false} TrimmedPlain(s: string)
    ensures AllPlain(TrimAll(SplitLines(s)))
    decreases |s|
  {
    if s != "" {
      var i := Find(s, '\n');
      TrimmedStep(s);
      assert Plain(TrimCr(s[..i]));
      TrimmedPlain(AfterBreak(s));
    }
  }

  /** In a text without folds no line after the first starts with a blank. */
  lemma {:induction false} TrimmedNoneBlank(s: string)
    requires FoldFree(s)
    ensures var ls := TrimAll(SplitLines(s)); ls != [] ==> NoneBlank(ls[1..])
    ensures !StartsBlank(s) ==> NoneBlank(TrimAll(SplitLines(s)))
    decreases |s|
  {
    if s != "" {
      var i := Find(s, '\n');
      TrimmedStep(s);
      var ls := TrimAll(SplitLines(s));
      assert TrimCr(s[..i]) <= s;
      if i < |s| { FoldFreeTail(s, i); }
      TrimmedNoneBlank(AfterBreak(s));
      assert ls[1..] == TrimAll(SplitLines(AfterBreak(s)));
    }
  }

  /** The lines of a blank text are blank. */
  lemma {:induction false} WhiteLines(s: string)
    requires AllWhite(s)
    ensures forall l <- TrimAll(SplitLines(s)) :: AllWhite(l)
    decreases |s|
  {
    if s != "" {
      var i := Find(s, '\n');
      TrimmedStep(s);
      assert TrimCr(s[..i]) <= s;
      WhiteLines(AfterBreak(s));
    }
  }

  // ── texts without hidden folds ─────────────────────────────────────────

  /** No logical line of the text starts with a space or tab. */
  predicate NoHiddenFolds(text: string) { FoldFree(Unfold(text)) && !StartsBlank(Unfold(text)) }

  predicate GoodLine(l: string) { Plain(l) && !StartsBlank(l) }

  function IsGood(): string -> bool { l => GoodLine(l) }

  predicate OneLine(s: string) { '\n' !in s && '\r' !in s }

  lemma LogicalLinesGood(text: string)
    requires NoHiddenFolds(text)
    ensures forall l <- LogicalLines(text) :: IsGood()(l)
  {
    TrimmedPlain(Unfold(text));
    TrimmedNoneBlank(Unfold(text));
  }

  lemma GoodReadsBack(ls: seq<string>)
    requires forall l <- ls :: IsGood()(l)
    ensures LogicalLines(Unlines(ls)) == ls
    ensures SplitLines(Unfold(Unlines(ls))) == ls
  {
    assert forall l <- ls :: GoodLine(l);
    ReadBack(ls);
  }
}
