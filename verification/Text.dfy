/** Strings as the iCalendar code sees them: folds, line breaks and the few
    `str` operations of the Rust standard library that it relies on. */
module Text {
  import opened Seqs

  /** The two characters that, after a line break, mark a continuation line. */
  predicate IsBlank(c: char) { c == ' ' || c == '\t' }

  predicate StartsBlank(s: string) { s != "" && IsBlank(s[0]) }

  /** `char::is_whitespace`: the Unicode White_Space property. */
  predicate IsWhite(c: char) {
    || '\t' <= c <= '\r'
    || c == ' ' || c == '\U{85}' || c == '\U{A0}' || c == '\U{1680}'
    || '\U{2000}' <= c <= '\U{200A}'
    || c == '\U{2028}' || c == '\U{2029}' || c == '\U{202F}' || c == '\U{205F}' || c == '\U{3000}'
  }

  function TrimStart(s: string): (r: string)
    ensures |r| <= |s|
    ensures r != "" ==> !IsWhite(r[0])
  {
    if s != "" && IsWhite(s[0]) then TrimStart(s[1..]) else s
  }

  function TrimEnd(s: string): (r: string)
    ensures |r| <= |s| && r == s[..|r|]
    ensures r != "" ==> !IsWhite(r[|r| - 1])
    ensures s == r || IsWhite(s[|s| - 1])
  {
    if s != "" && IsWhite(s[|s| - 1]) then TrimEnd(s[..|s| - 1]) else s
  }

  function Trim(s: string): string { TrimEnd(TrimStart(s)) }

  function LowerChar(c: char): char {
    if 'A' <= c <= 'Z' then (c as int + 32) as char else c
  }

  function UpperChar(c: char): char {
    if 'a' <= c <= 'z' then (c as int - 32) as char else c
  }

  /** `to_ascii_lowercase`, also SQLite's built-in LOWER. */
  function Lower(s: string): (r: string)
    ensures |r| == |s| && forall i :: 0 <= i < |s| ==> r[i] == LowerChar(s[i])
  {
    seq(|s|, i requires 0 <= i < |s| => LowerChar(s[i]))
  }

  /** `to_ascii_uppercase`. */
  function Upper(s: string): (r: string)
    ensures |r| == |s| && forall i :: 0 <= i < |s| ==> r[i] == UpperChar(s[i])
  {
    seq(|s|, i requires 0 <= i < |s| => UpperChar(s[i]))
  }

  const CAPITALS := "ABCDEFGHIJKLMNOPQRSTUVWXYZ"
  const SMALL := "abcdefghijklmnopqrstuvwxyz"

  /** Letter by letter, and no other character changes. */
  lemma CaseMeaning(c: char)
    ensures |CAPITALS| == 26 == |SMALL|
    ensures forall i :: 0 <= i < 26 ==> LowerChar(CAPITALS[i]) == SMALL[i] && UpperChar(SMALL[i]) == CAPITALS[i]
    ensures c !in CAPITALS ==> LowerChar(c) == c
    ensures c !in SMALL ==> UpperChar(c) == c
  {
    Alphabet(0);
    LetterAt(c);
    hide CAPITALS, SMALL;
    forall i | 0 <= i < 26 ensures LowerChar(CAPITALS[i]) == SMALL[i] && UpperChar(SMALL[i]) == CAPITALS[i] {
      Alphabet(i);
    }
  }

  lemma Alphabet(i: nat)
    requires i < 26
    ensures |CAPITALS| == 26 == |SMALL|
    ensures CAPITALS[i] as int == 'A' as int + i && SMALL[i] as int == 'a' as int + i
  {}

  lemma LetterAt(c: char)
    ensures 'A' <= c <= 'Z' ==> c in CAPITALS
    ensures 'a' <= c <= 'z' ==> c in SMALL
  {
    if 'A' <= c <= 'Z' {
      Alphabet(c as int - 'A' as int);
      assert CAPITALS[c as int - 'A' as int] == c;
    }
    if 'a' <= c <= 'z' {
      Alphabet(c as int - 'a' as int);
      assert SMALL[c as int - 'a' as int] == c;
    }
  }

  predicate AllWhite(s: string) { forall i :: 0 <= i < |s| ==> IsWhite(s[i]) }

  /** Trimming takes white space off both ends and nothing else. */
  lemma TrimMeaning(s: string) returns (before: string, after: string)
    ensures s == before + Trim(s) + after && AllWhite(before) && AllWhite(after)
    ensures Trim(s) != "" ==> !IsWhite(Trim(s)[0]) && !IsWhite(Trim(s)[|Trim(s)| - 1])
  {
    before := TrimStartMeaning(s);
    after := TrimEndMeaning(TrimStart(s));
    assert Trim(s) != "" ==> Trim(s)[0] == TrimStart(s)[0];
  }

  lemma {:induction false} TrimStartMeaning(s: string) returns (before: string)
    ensures s == before + TrimStart(s) && AllWhite(before)
  {
    hide IsWhite;
    if s != "" && IsWhite(s[0]) {
      var rest := TrimStartMeaning(s[1..]);
      before := [s[0]] + rest;
      assert s == [s[0]] + s[1..];
    } else {
      before := "";
    }
  }

  lemma {:induction false} TrimEndMeaning(s: string) returns (after: string)
    ensures s == TrimEnd(s) + after && AllWhite(after)
  {
    hide IsWhite, AllWhite;
    if s != "" && IsWhite(s[|s| - 1]) {
      var most, c := s[..|s| - 1], s[|s| - 1];
      var rest := TrimEndMeaning(most);
      after := rest + [c];
      WhiteSnoc(rest, c);
      Assoc(TrimEnd(most), rest, [c]);
      assert s == most + [c];
    } else {
      after := "";
      WhiteSnoc("", ' ');
    }
  }

  lemma WhiteSnoc(s: string, c: char)
    ensures AllWhite("")
    ensures AllWhite(s) && IsWhite(c) ==> AllWhite(s + [c])
  {}

  /** The 25 characters of white space. */
  const SPACES := "\t\n\U{B}\U{C}\r \U{85}\U{A0}\U{1680}\U{2028}\U{2029}\U{202F}\U{205F}\U{3000}"
  const WIDE_SPACES := "\U{2000}\U{2001}\U{2002}\U{2003}\U{2004}\U{2005}\U{2006}\U{2007}\U{2008}\U{2009}\U{200A}"

  lemma WhiteMeaning(c: char)
    ensures IsWhite(c) <==> c in SPACES || c in WIDE_SPACES
  {
    WideSpace(c);
    hide WIDE_SPACES;
  }

  lemma WideSpace(c: char)
    ensures c in WIDE_SPACES <==> '\U{2000}' <= c <= '\U{200A}'
  {}

  /** The index of the first `c`, or the length when there is none. */
  function Find(s: string, c: char): (i: nat)
    ensures i <= |s| && c !in s[..i]
    ensures i < |s| ==> s[i] == c
  {
    if s == "" || s[0] == c then 0 else 1 + Find(s[1..], c)
  }

  /** Where the first `c` is does not depend on what follows it. */
  lemma {:induction false} FindAt(s: string, c: char, i: nat)
    requires i <= |s| && c !in s[..i] && (i == |s| || s[i] == c)
    ensures Find(s, c) == i
  {
    if i > 0 {
      assert s[0] in s[..i];
      assert s[1..][..i - 1] == s[..i][1..];
      FindAt(s[1..], c, i - 1);
    }
  }

  lemma {:induction false} FindNoLater(s: string, c: char, k: nat)
    requires k < |s| && s[k] == c
    ensures Find(s, c) <= k
  {
    if s[0] != c { FindNoLater(s[1..], c, k - 1); }
  }

  // ── unfolding (section 3.1 of RFC 5545) ────────────────────────────────

  /** What the peeking loop of `unfold` leaves of a text. */
  function Unfold(s: string): string
    decreases |s|
  {
    if s == "" then ""
    else if |s| > 1 && s[0] == '\r' && s[1] == '\n' then
      if StartsBlank(s[2..]) then Unfold(s[3..]) else "\r\n" + Unfold(s[2..])
    else if s[0] == '\n' then
      if StartsBlank(s[1..]) then Unfold(s[2..]) else "\n" + Unfold(s[1..])
    else [s[0]] + Unfold(s[1..])
  }

  lemma UnfoldEnd(s: string)
    ensures Unfold(s[|s|..]) == ""
  {}

  /** Unfolding from position `i` on. */
  lemma UnfoldAt(s: string, i: nat)
    requires i < |s|
    ensures Unfold(s[i..]) ==
      if s[i] == '\r' && i + 1 < |s| && s[i + 1] == '\n' then
        if i + 2 < |s| && IsBlank(s[i + 2]) then Unfold(s[i + 3..]) else "\r\n" + Unfold(s[i + 2..])
      else if s[i] == '\n' then
        if i + 1 < |s| && IsBlank(s[i + 1]) then Unfold(s[i + 2..]) else "\n" + Unfold(s[i + 1..])
      else [s[i]] + Unfold(s[i + 1..])
  {
    var rest := s[i..];
    assert rest[1..] == s[i + 1..];
    assert i + 1 < |s| ==> rest[2..] == s[i + 2..];
    assert i + 2 < |s| ==> rest[3..] == s[i + 3..];
  }

  /** The loop itself; `i` is the position of the peeking iterator. */
  method UnfoldLoop(ical: string) returns (out: string)
    ensures out == Unfold(ical)
  {
    hide Unfold;
    out := "";
    var i := 0;
    assert ical[0..] == ical;
    UnfoldEnd(ical);
    while i < |ical|
      invariant 0 <= i <= |ical|
      invariant out + Unfold(ical[i..]) == Unfold(ical)
    {
      UnfoldAt(ical, i);
      var c := ical[i];
      i := i + 1;
      if c == '\r' && i < |ical| && ical[i] == '\n' {
        i := i + 1;
        if i < |ical| && IsBlank(ical[i]) {
          i := i + 1;
          continue;
        }
        Assoc(out, "\r\n", Unfold(ical[i..]));
        Assoc(out, "\r", "\n");
        out := out + "\r" + "\n";
      } else if c == '\n' {
        if i < |ical| && IsBlank(ical[i]) {
          i := i + 1;
          continue;
        }
        Snoc(out, '\n', Unfold(ical[i..]));
        out := out + ['\n'];
      } else {
        Snoc(out, c, Unfold(ical[i..]));
        out := out + [c];
      }
    }
  }

  /** A text as a sender may have folded it: characters of the content, and
      folds put between them. */
  datatype Piece = Keep(c: char) | Fold(crlf: bool, tab: bool)

  function FoldText(crlf: bool, tab: bool): string {
    (if crlf then "\r\n" else "\n") + (if tab then "\t" else " ")
  }

  /** The folded text as sent. */
  function Render(ps: seq<Piece>): string {
    if ps == [] then ""
    else (match ps[0] case Keep(c) => [c] case Fold(crlf, tab) => FoldText(crlf, tab)) + Render(ps[1..])
  }

  /** The content, folds left out. */
  function Content(ps: seq<Piece>): string {
    if ps == [] then ""
    else (match ps[0] case Keep(c) => [c] case Fold(_, _) => "") + Content(ps[1..])
  }

  /** Nothing in the sent text looks like a fold but is not one: no kept line
      feed has a kept blank right after it, and no bare line-feed fold has
      been put right after a kept carriage return. */
  predicate Legal(ps: seq<Piece>) {
    forall i :: 0 <= i < |ps| - 1 ==> LegalPair(ps[i], ps[i + 1])
  }

  predicate LegalPair(a: Piece, b: Piece) {
    && !(a == Keep('\n') && b.Keep? && IsBlank(b.c))
    && !(a == Keep('\r') && b.Fold? && !b.crlf)
  }

  /** A character whose meaning the next ones change: a break before a blank. */
  predicate OpensFold(c: char, rest: string) {
    || (c == '\n' && StartsBlank(rest))
    || (c == '\r' && |rest| > 1 && rest[0] == '\n' && IsBlank(rest[1]))
  }

  lemma UnfoldFeed(rest: string)
    ensures Unfold("\n" + rest) == if StartsBlank(rest) then Unfold(rest[1..]) else "\n" + Unfold(rest)
  {
    var s := "\n" + rest;
    assert s[1..] == rest && s[0] == '\n';
    if StartsBlank(rest) { assert s[2..] == rest[1..]; }
  }

  lemma UnfoldReturn(rest: string)
    ensures Unfold("\r\n" + rest) == if StartsBlank(rest) then Unfold(rest[1..]) else "\r\n" + Unfold(rest)
  {
    var s := "\r\n" + rest;
    assert s[2..] == rest && s[0] == '\r' && s[1] == '\n';
    if StartsBlank(rest) { assert s[3..] == rest[1..]; }
  }

  lemma UnfoldOther(c: char, rest: string)
    requires c != '\n' && (c == '\r' ==> rest == "" || rest[0] != '\n')
    ensures Unfold([c] + rest) == [c] + Unfold(rest)
  {
    assert ([c] + rest)[1..] == rest;
  }

  lemma UnfoldCons(c: char, rest: string)
    ensures !OpensFold(c, rest) ==> Unfold([c] + rest) == [c] + Unfold(rest)
    ensures OpensFold(c, rest) && c == '\n' ==> Unfold([c] + rest) == Unfold(rest[1..])
    ensures OpensFold(c, rest) && c == '\r' ==> Unfold([c] + rest) == Unfold(rest)
  {
    hide Unfold;
    if c == '\n' {
      UnfoldFeed(rest);
    } else if c == '\r' && rest != "" && rest[0] == '\n' {
      var after := rest[1..];
      assert rest == "\n" + after && [c] + rest == "\r\n" + after;
      UnfoldFeed(after);
      UnfoldReturn(after);
      Assoc("\r", "\n", Unfold(after));
    } else {
      UnfoldOther(c, rest);
    }
  }

  lemma UnfoldFold(crlf: bool, tab: bool, rest: string)
    ensures Unfold(FoldText(crlf, tab) + rest) == Unfold(rest)
  {
    var s := FoldText(crlf, tab) + rest;
    assert s[|FoldText(crlf, tab)|..] == rest;
  }

  /** The four folds: a line break of either sort, then a space or a tab. */
  lemma FoldsGo(rest: string)
    ensures Unfold("\r\n " + rest) == Unfold(rest) && Unfold("\r\n\t" + rest) == Unfold(rest)
    ensures Unfold("\n " + rest) == Unfold(rest) && Unfold("\n\t" + rest) == Unfold(rest)
  {
    hide Unfold;
    assert FoldText(true, false) == "\r\n " && FoldText(true, true) == "\r\n\t";
    assert FoldText(false, false) == "\n " && FoldText(false, true) == "\n\t";
    UnfoldFold(true, false, rest);
    UnfoldFold(true, true, rest);
    UnfoldFold(false, false, rest);
    UnfoldFold(false, true, rest);
  }

  /** Unfolding recovers the content exactly when the folding is legal;
      otherwise it loses characters. */
  lemma {:induction false} UnfoldUndoesFolding(ps: seq<Piece>)
    ensures Unfold(Render(ps)) == Content(ps) <==> Legal(ps)
    ensures |Unfold(Render(ps))| <= |Content(ps)|
    ensures !Legal(ps) ==> |Unfold(Render(ps))| < |Content(ps)|
    decreases |ps|
  {
    if ps == [] { return; }
    var rest := ps[1..];
    UnfoldUndoesFolding(rest);
    LegalCons(ps);
    match ps[0]
    case Fold(crlf, tab) =>
      UnfoldFold(crlf, tab, Render(rest));
    case Keep(c) =>
      UnfoldCons(c, Render(rest));
      if OpensFold(c, Render(rest)) {
        assert !Legal(ps) by { OpenedByKept(c, rest); }
        if c == '\n' {
          UnfoldUndoesFolding(rest[1..]);
          assert Render(rest)[1..] == Render(rest[1..]);
        }
      }
  }

  /** A kept break that opens a fold makes the folding illegal. */
  lemma OpenedByKept(c: char, rest: seq<Piece>)
    requires OpensFold(c, Render(rest))
    ensures !Legal([Keep(c)] + rest)
    ensures c == '\n' ==> rest[0].Keep?
  {
    var ps := [Keep(c)] + rest;
    assert ps[1] == rest[0];
    if c == '\r' && rest[0].Keep? {
      assert Render(rest)[1..] == Render(rest[1..]);
      assert ps[2] == rest[1];
      assert !LegalPair(ps[1], ps[2]);
    } else {
      assert !LegalPair(ps[0], ps[1]);
    }
  }

  lemma LegalCons(ps: seq<Piece>)
    requires ps != []
    ensures Legal(ps) <==> Legal(ps[1..]) && (|ps| > 1 ==> LegalPair(ps[0], ps[1]))
  {
    if Legal(ps[1..]) && (|ps| > 1 ==> LegalPair(ps[0], ps[1])) {
      forall i | 0 <= i < |ps| - 1 ensures LegalPair(ps[i], ps[i + 1]) {
        if i > 0 { assert ps[i] == ps[1..][i - 1] && ps[i + 1] == ps[1..][i]; }
      }
    }
    if Legal(ps) {
      forall i | 0 <= i < |ps[1..]| - 1 ensures LegalPair(ps[1..][i], ps[1..][i + 1]) {
        assert ps[1..][i] == ps[i + 1] && ps[1..][i + 1] == ps[i + 2];
      }
    }
  }

  /** No line feed is followed by a blank. */
  predicate FoldFree(s: string) {
    forall i :: 0 < i < |s| && s[i - 1] == '\n' ==> s[i] != ' ' && s[i] != '\t'
  }

  function Kept(s: string): (ps: seq<Piece>)
    ensures |ps| == |s| && forall i :: 0 <= i < |s| ==> ps[i] == Keep(s[i])
  {
    seq(|s|, i requires 0 <= i < |s| => Keep(s[i]))
  }

  lemma {:induction false} KeptRenders(s: string)
    ensures Render(Kept(s)) == s && Content(Kept(s)) == s
  {
    if s != "" {
      KeptRenders(s[1..]);
      assert Kept(s)[1..] == Kept(s[1..]);
      assert s == [s[0]] + s[1..];
    }
  }

  /** A text is its own unfolding exactly when it contains no fold. */
  lemma UnfoldFixpoint(s: string)
    ensures Unfold(s) == s <==> FoldFree(s)
  {
    KeptRenders(s);
    UnfoldUndoesFolding(Kept(s));
    if Legal(Kept(s)) {
      forall i | 0 < i < |s| && s[i - 1] == '\n' ensures !IsBlank(s[i]) {
        assert LegalPair(Kept(s)[i - 1], Kept(s)[i - 1 + 1]);
      }
    }
  }

  /** What is left of a text once the folds at its front are gone. */
  function SkipFolds(s: string): (r: string)
    ensures |r| <= |s|
    decreases |s|
  {
    if |s| > 1 && s[0] == '\n' && IsBlank(s[1]) then SkipFolds(s[2..])
    else if |s| > 2 && s[0] == '\r' && s[1] == '\n' && IsBlank(s[2]) then SkipFolds(s[3..])
    else s
  }

  /** A line feed that opens no fold itself, followed by folds and then a blank:
      taking the folds out puts the blank next to the line feed. */
  predicate HiddenAt(s: string, i: nat)
    requires i < |s|
  {
    s[i] == '\n' && !StartsBlank(s[i + 1..]) && StartsBlank(SkipFolds(s[i + 1..]))
  }

  predicate HidesFold(s: string) { exists i :: 0 <= i < |s| && HiddenAt(s, i) }

  lemma HidesFoldCons(c: char, rest: string)
    ensures HidesFold([c] + rest) <==>
            (c == '\n' && !StartsBlank(rest) && StartsBlank(SkipFolds(rest))) || HidesFold(rest)
  {
    var s := [c] + rest;
    assert s[0 + 1..] == rest;
    forall i | 0 <= i < |rest| ensures HiddenAt(s, i + 1) <==> HiddenAt(rest, i) {
      assert s[i + 1 + 1..] == rest[i + 1..];
    }
    if HidesFold(s) {
      var i :| 0 <= i < |s| && HiddenAt(s, i);
      if i > 0 { assert HiddenAt(rest, i - 1); }
    }
    if HidesFold(rest) {
      var i :| 0 <= i < |rest| && HiddenAt(rest, i);
      assert HiddenAt(s, i + 1);
    }
    if c == '\n' && !StartsBlank(rest) && StartsBlank(SkipFolds(rest)) { assert HiddenAt(s, 0); }
  }

  lemma FoldFreeCons(c: char, rest: string)
    ensures FoldFree([c] + rest) <==> !(c == '\n' && StartsBlank(rest)) && FoldFree(rest)
  {
    var s := [c] + rest;
    if FoldFree(s) {
      assert c == '\n' && rest != "" ==> s[1 - 1] == '\n' && s[1] == rest[0] && !IsBlank(s[1]);
      forall i | 0 < i < |rest| && rest[i - 1] == '\n' ensures !IsBlank(rest[i]) {
        assert s[i + 1 - 1] == rest[i - 1] && s[i + 1] == rest[i];
      }
    }
    if !(c == '\n' && StartsBlank(rest)) && FoldFree(rest) {
      forall i | 0 < i < |s| && s[i - 1] == '\n' ensures !IsBlank(s[i]) {
        if i > 1 { assert rest[i - 1 - 1] == s[i - 1] && rest[i - 1] == s[i]; }
      }
    }
  }

  /** An unfolded text starts with a blank when what follows its first folds does. */
  lemma {:induction false} FirstAfterFolds(s: string)
    ensures StartsBlank(Unfold(s)) <==> StartsBlank(SkipFolds(s))
    decreases |s|
  {
    if |s| > 1 && s[0] == '\n' && IsBlank(s[1]) {
      FirstAfterFolds(s[2..]);
    } else if |s| > 2 && s[0] == '\r' && s[1] == '\n' && IsBlank(s[2]) {
      FirstAfterFolds(s[3..]);
    }
  }

  lemma {:induction false} LeavesFold(s: string)
    ensures FoldFree(Unfold(s)) <==> !HidesFold(s)
    decreases |s|
  {
    if s != "" {
      var c, rest := s[0], s[1..];
      assert s == [c] + rest;
      hide HidesFold, FoldFree, Unfold, SkipFolds;
      UnfoldCons(c, rest);
      HidesFoldCons(c, rest);
      LeavesFold(rest);
      if OpensFold(c, rest) {
        if c == '\n' {
          assert rest == [rest[0]] + rest[1..];
          HidesFoldCons(rest[0], rest[1..]);
          LeavesFold(rest[1..]);
        }
      } else {
        FoldFreeCons(c, Unfold(rest));
        FirstAfterFolds(rest);
      }
    }
  }

  /** Unfolding twice is unfolding once exactly when the text hides no fold: no
      line feed is followed by folds and then a blank. */
  lemma UnfoldIdempotentIff(s: string)
    ensures Unfold(Unfold(s)) == Unfold(s) <==> !HidesFold(s)
  {
    UnfoldFixpoint(Unfold(s));
    LeavesFold(s);
  }

  /** The input on which it is not: removing one fold makes another. */
  lemma UnfoldNotIdempotent()
    ensures Unfold("\n\n  x") == "\n x" && Unfold(Unfold("\n\n  x")) == "x"
  {
    var s := "\n\n  x";
    assert s[1..] == "\n  x" && "\n  x"[2..] == " x" && " x"[1..] == "x" && "x"[1..] == "";
    assert Unfold(" x") == " x";
    assert "\n x"[2..] == "x";
  }
}
