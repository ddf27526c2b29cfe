/** What `address_of` of `imip.rs` finds in a line, said of the line's own characters. */
module Addresses {
  import opened Seqs
  import opened Text
  import opened Imip

  const EMAIL := "EMAIL="
  const SMALL_EMAIL := "email="

  predicate IsSeparator(c: char) { c == ';' || c == ':' }

  predicate EmailWord(s: string) { EMAIL <= s || SMALL_EMAIL <= s }

  /** At `i` a field of the line starts, and it says EMAIL= at `j`, with only white
      space before that. */
  predicate EmailAt(line: string, i: nat, j: nat)
    requires i <= j <= |line|
  {
    (i == 0 || IsSeparator(line[i - 1])) && AllWhite(line[i..j]) && EmailWord(line[j..])
  }

  predicate HasEmail(line: string) { exists i, j :: 0 <= i <= j <= |line| && EmailAt(line, i, j) }

  // ── trimming ───────────────────────────────────────────────────────────

  lemma {:induction false} TrimStartAt(s: string, j: nat)
    requires j < |s| && AllWhite(s[..j]) && !IsWhite(s[j])
    ensures TrimStart(s) == s[j..]
  {
    if j > 0 {
      assert s[..j][0] == s[0] && s[1..][..j - 1] == s[..j][1..];
      TrimStartAt(s[1..], j - 1);
    }
  }

  lemma {:induction false} TrimEndKeeps(s: string, k: nat)
    requires k < |s| && !IsWhite(s[k])
    ensures k < |TrimEnd(s)|
  {
    if IsWhite(s[|s| - 1]) { TrimEndKeeps(s[..|s| - 1], k); }
  }

  lemma {:induction false} TrimEndAfter(head: string, s: string)
    requires head != "" && !IsWhite(head[|head| - 1])
    ensures TrimEnd(head + s) == head + TrimEnd(s)
  {
    if s == "" {
      assert head + s == head;
    } else if IsWhite(s[|s| - 1]) {
      TrimEndAfter(head, s[..|s| - 1]);
      assert (head + s)[..|head + s| - 1] == head + s[..|s| - 1];
    }
  }

  lemma {:induction false} TrimStartSnoc(s: string, c: char)
    requires IsWhite(c)
    ensures TrimStart(s + [c]) == if TrimStart(s) == "" then "" else TrimStart(s) + [c]
  {
    if s == "" {
      assert s + [c] == [c] && [c][1..] == "";
    } else if IsWhite(s[0]) {
      TrimStartSnoc(s[1..], c);
      assert (s + [c])[1..] == s[1..] + [c];
    }
  }

  /** Trimming the end first changes nothing. */
  lemma {:induction false} TrimTwice(s: string)
    ensures Trim(TrimEnd(s)) == Trim(s)
  {
    if s != "" && IsWhite(s[|s| - 1]) {
      var u, c := s[..|s| - 1], s[|s| - 1];
      assert s == u + [c];
      TrimTwice(u);
      TrimStartSnoc(u, c);
      assert (TrimStart(u) + [c])[..|TrimStart(u)|] == TrimStart(u);
    }
  }

  /** Trimming leaves a text alone that has no white space at its ends. */
  lemma TrimmedExactly(s: string)
    ensures Trim(s) == s <==> s == "" || (!IsWhite(s[0]) && !IsWhite(s[|s| - 1]))
  {
    if s != "" && !IsWhite(s[0]) && !IsWhite(s[|s| - 1]) {
      assert TrimStart(s) == s && TrimEnd(s) == s;
    }
  }

  lemma {:induction false} TrimStartLower(s: string)
    ensures TrimStart(Lower(s)) == Lower(TrimStart(s))
  {
    if s != "" {
      assert IsWhite(LowerChar(s[0])) <==> IsWhite(s[0]);
      TrimStartLower(s[1..]);
      assert Lower(s)[1..] == Lower(s[1..]);
    }
  }

  lemma WhiteLower(c: char)
    ensures IsWhite(LowerChar(c)) <==> IsWhite(c)
  {}

  lemma {:induction false} TrimEndLower(s: string)
    ensures TrimEnd(Lower(s)) == Lower(TrimEnd(s))
  {
    hide IsWhite, LowerChar;
    if s != "" {
      var k := |s| - 1;
      WhiteLower(s[k]);
      TrimEndLower(s[..k]);
      assert Lower(s)[..k] == Lower(s[..k]);
    }
  }

  lemma TrimLower(s: string)
    ensures Trim(Lower(s)) == Lower(Trim(s))
  {
    TrimStartLower(s);
    TrimEndLower(TrimStart(s));
  }

  // ── the EMAIL parameter ────────────────────────────────────────────────

  lemma WordMeans(s: string)
    requires EmailWord(s)
    ensures |s| >= 6 && !IsWhite(s[0]) && !IsWhite(s[5]) && forall k :: 0 <= k < 6 ==> !IsSeparator(s[k])
  {}

  lemma WordWithin(s: string, t: string)
    requires t <= s && |t| >= 6
    ensures EmailWord(s) <==> EmailWord(t)
  {
    assert s[..6] == t[..6];
  }

  lemma WordLong(s: string)
    requires EmailWord(s)
    ensures |s| >= 6
  {}

  predicate PieceEmail(piece: string, j: nat)
    requires j <= |piece|
  {
    AllWhite(piece[..j]) && EmailWord(piece[j..])
  }

  predicate HasPiece(piece: string) { exists j :: 0 <= j <= |piece| && PieceEmail(piece, j) }

  lemma StripMeans(piece: string)
    ensures StripEmail(piece).Some? <==> EmailWord(Trim(piece))
  {}

  /** A piece is an EMAIL parameter when the word comes after white space only. */
  lemma StripExactly(piece: string)
    ensures StripEmail(piece).Some? <==> HasPiece(piece)
  {
    StripMeans(piece);
    hide StripEmail, EmailWord, IsWhite, Trim;
    if EmailWord(Trim(piece)) {
      var before, after := TrimMeaning(piece);
      WordLong(Trim(piece));
      assert piece[|before|..] == Trim(piece) + after && piece[..|before|] == before;
      WordWithin(piece[|before|..], Trim(piece));
      assert PieceEmail(piece, |before|);
    }
    if j :| 0 <= j <= |piece| && PieceEmail(piece, j) { PieceTrims(piece, j); }
  }

  lemma PieceTrims(piece: string, j: nat)
    requires j <= |piece| && PieceEmail(piece, j)
    ensures EmailWord(Trim(piece))
  {
    hide EmailWord, IsWhite;
    WordMeans(piece[j..]);
    assert !IsWhite(piece[j..][0]) && piece[j..][0] == piece[j];
    TrimStartAt(piece, j);
    TrimEndKeeps(piece[j..], 5);
    WordWithin(piece[j..], Trim(piece));
  }

  lemma NotWhite(line: string, i: nat, b: nat)
    requires i < b <= |line| && IsSeparator(line[i])
    ensures !AllWhite(line[0..b])
  {
    assert line[0..b][i] == line[i];
  }

  lemma NotWord(line: string, i: nat, b: nat)
    requires b <= i < b + 6 && i < |line| && IsSeparator(line[i])
    ensures !EmailWord(line[b..])
  {
    assert line[b..][i - b] == line[i];
  }

  lemma WordEnds(line: string, b: nat, i: nat)
    requires b <= |line| && EmailAt(line, 0, b) && i <= |line| && (i < |line| ==> IsSeparator(line[i]))
    ensures b + 6 <= i
  {
    hide EmailWord, IsWhite, IsSeparator;
    WordLong(line[b..]);
    if i < |line| {
      if i < b { NotWhite(line, i, b); }
      if b <= i < b + 6 { NotWord(line, i, b); }
    }
  }

  lemma PieceOf(line: string, b: nat, i: nat)
    requires b <= i <= |line|
    ensures line[..i][b..] <= line[b..] && line[..i][..b] == line[0..b] && |line[..i][b..]| == i - b
  {}

  lemma FieldAtStart(line: string, b: nat)
    requires b <= |line| && EmailAt(line, 0, b)
    ensures HasPiece(line[..NextSeparator(line)])
  {
    var i := NextSeparator(line);
    WordEnds(line, b, i);
    PieceOf(line, b, i);
    hide EmailWord, AllWhite, NextSeparator;
    WordWithin(line[b..], line[..i][b..]);
    assert PieceEmail(line[..i], b);
  }

  lemma FieldLater(line: string, a: nat, b: nat)
    requires 0 < a <= b <= |line| && EmailAt(line, a, b)
    ensures var i := NextSeparator(line); i < a && HasEmail(line[i + 1..])
  {
    var i := NextSeparator(line);
    SeparatorNoEarlier(line, a - 1);
    hide *;
    Shifted(line, i + 1, a, b);
  }

  /** Taking `k` characters off the front, none of them of the field. */
  lemma Shifted(line: string, k: nat, a: nat, b: nat)
    requires k <= a <= b <= |line| && EmailAt(line, a, b)
    ensures HasEmail(line[k..])
  {
    hide EmailWord, AllWhite, IsSeparator;
    var rest := line[k..];
    assert rest[a - k..b - k] == line[a..b] && rest[b - k..] == line[b..];
    if k < a { assert rest[a - k - 1] == line[a - 1]; }
    assert EmailAt(rest, a - k, b - k);
  }

  lemma {:induction false} SeparatorNoEarlier(line: string, k: nat)
    requires k < |line| && IsSeparator(line[k])
    ensures NextSeparator(line) <= k
  {
    if !IsSeparator(line[0]) { SeparatorNoEarlier(line[1..], k - 1); }
  }

  lemma PieceIsField(line: string, j: nat)
    requires var i := NextSeparator(line); j <= i && PieceEmail(line[..i], j)
    ensures HasEmail(line)
  {
    hide EmailWord, IsWhite, NextSeparator;
    var i := NextSeparator(line);
    assert line[..i][..j] == line[0..j] && line[..i][j..] <= line[j..];
    WordLong(line[..i][j..]);
    WordWithin(line[j..], line[..i][j..]);
    assert EmailAt(line, 0, j);
  }

  lemma RestIsField(line: string, i: nat)
    requires i < |line| && IsSeparator(line[i]) && HasEmail(line[i + 1..])
    ensures HasEmail(line)
  {
    hide EmailWord, IsWhite, IsSeparator;
    var rest := line[i + 1..];
    var a, b :| 0 <= a <= b <= |rest| && EmailAt(rest, a, b);
    assert rest[a..b] == line[i + 1 + a..i + 1 + b] && rest[b..] == line[i + 1 + b..];
    assert a > 0 ==> rest[a - 1] == line[i + a];
    assert EmailAt(line, i + 1 + a, i + 1 + b);
  }

  /** The fields of a line are its first piece and those of what follows. */
  lemma FirstField(line: string)
    ensures var i := NextSeparator(line);
      HasEmail(line) <==> HasPiece(line[..i]) || (i < |line| && HasEmail(line[i + 1..]))
  {
    var i := NextSeparator(line);
    assert i < |line| ==> IsSeparator(line[i]);
    hide EmailAt, PieceEmail, NextSeparator, IsSeparator;
    if HasEmail(line) {
      var a, b :| 0 <= a <= b <= |line| && EmailAt(line, a, b);
      if a == 0 { FieldAtStart(line, b); } else { FieldLater(line, a, b); }
    }
    if HasPiece(line[..i]) {
      var j :| 0 <= j <= i && PieceEmail(line[..i], j);
      PieceIsField(line, j);
    }
    if i < |line| && HasEmail(line[i + 1..]) { RestIsField(line, i); }
  }

  lemma OneParam(piece: string, rest: seq<string>)
    ensures EmailParam([piece] + rest) == Or(StripEmail(piece), EmailParam(rest)) && ([piece] + rest)[1..] == rest
  {
    hide StripEmail;
    assert ([piece] + rest)[1..] == rest;
  }

  lemma FirstParam(line: string)
    ensures var i := NextSeparator(line);
      EmailParam(Pieces(line)) ==
      if i == |line| then StripEmail(line[..i]) else Or(StripEmail(line[..i]), EmailParam(Pieces(line[i + 1..])))
  {
    hide NextSeparator, StripEmail;
    var i := NextSeparator(line);
    if i == |line| {
      assert line[..i] == line && [line] + [] == [line] && EmailParam([]).None?;
      OneParam(line, []);
    } else {
      OneParam(line[..i], Pieces(line[i + 1..]));
    }
  }

  /** There is an EMAIL parameter exactly when a field starts with the word. */
  lemma {:induction false} EmailExactly(line: string)
    ensures EmailParam(Pieces(line)).Some? <==> HasEmail(line)
    decreases |line|
  {
    var i := NextSeparator(line);
    hide *;
    FirstParam(line);
    StripExactly(line[..i]);
    FirstField(line);
    if i < |line| { EmailExactly(line[i + 1..]); }
    EitherSome(StripEmail(line[..i]), if i < |line| then EmailParam(Pieces(line[i + 1..])) else None);
  }

  lemma EitherSome<T>(a: Option<T>, b: Option<T>)
    ensures Or(a, b).Some? <==> a.Some? || b.Some?
  {}

  // ── the address ────────────────────────────────────────────────────────

  /** Lines up to a separator with no EMAIL parameter are passed over. */
  lemma {:induction false} PassedOver(head: string, rest: string)
    requires head == "" || IsSeparator(head[|head| - 1])
    requires EmailParam(Pieces(head)).None?
    ensures EmailParam(Pieces(head + rest)) == EmailParam(Pieces(rest))
    decreases |head|
  {
    hide StripEmail;
    if head == "" {
      assert head + rest == rest;
    } else {
      var i := NextSeparator(head);
      SeparatorNoEarlier(head, |head| - 1);
      var tail := head[i + 1..];
      assert head + rest == head[..i] + [head[i]] + (tail + rest);
      assert Pieces(head)[0] == head[..i] && Pieces(head)[1..] == Pieces(tail);
      PieceFirst(head[..i], head[i], tail + rest);
      assert Pieces(head + rest)[1..] == Pieces(tail + rest);
      if tail != "" { assert tail[|tail| - 1] == head[|head| - 1]; }
      PassedOver(tail, rest);
    }
  }

  lemma PieceFirst(piece: string, c: char, rest: string)
    requires ';' !in piece && ':' !in piece && IsSeparator(c)
    ensures Pieces(piece + [c] + rest) == [piece] + Pieces(rest)
  {
    var s := piece + [c] + rest;
    SeparatorAt(s, |piece|);
    assert s[..|piece|] == piece && s[|piece| + 1..] == rest;
  }

  lemma {:induction false} SeparatorAt(s: string, i: nat)
    requires i <= |s| && (i < |s| ==> IsSeparator(s[i]))
    requires forall k :: 0 <= k < i ==> !IsSeparator(s[k])
    ensures NextSeparator(s) == i
  {
    if i > 0 { SeparatorAt(s[1..], i - 1); }
  }

  lemma TrimAfter(word: string, a: string)
    requires word != "" && !IsWhite(word[0]) && !IsWhite(word[|word| - 1])
    ensures Trim(word + a) == word + TrimEnd(a)
  {
    hide IsWhite;
    var s := word + a;
    assert s[..0] == "" && s[0] == word[0] && s[0..] == s;
    TrimStartAt(s, 0);
    TrimEndAfter(word, a);
  }

  lemma WordLimits(word: string)
    requires word == EMAIL || word == SMALL_EMAIL
    ensures |word| == 6 && !IsWhite(word[0]) && !IsWhite(word[5]) && EmailWord(word)
  {}

  lemma WordTrims(word: string, a: string)
    requires word == EMAIL || word == SMALL_EMAIL
    ensures StripEmail(word + a) == Some(TrimEnd(a))
  {
    WordLimits(word);
    hide EmailWord, IsWhite, Trim, TrimEnd, EMAIL, SMALL_EMAIL;
    TrimAfter(word, a);
    var p := word + TrimEnd(a);
    assert word <= p && p[6..] == TrimEnd(a);
    WordWithin(p, word);
    StripValue(word + a);
  }

  lemma StripValue(piece: string)
    ensures StripEmail(piece) == if EmailWord(Trim(piece)) then Some(Trim(piece)[6..]) else None
  {
    hide Trim;
  }

  /** The first EMAIL parameter is the address, trimmed and in lower case. */
  lemma EmailIsAddress(head: string, word: string, a: string, rest: string)
    requires head == "" || IsSeparator(head[|head| - 1])
    requires !HasEmail(head) && (word == EMAIL || word == SMALL_EMAIL)
    requires ';' !in a && ':' !in a && (rest == "" || IsSeparator(rest[0]))
    ensures AddressOf(head + (word + a + rest)) == Some(Lower(Trim(a)))
  {
    EmailExactly(head);
    PassedOver(head, word + a + rest);
    WordTrims(word, a);
    TrimTwice(a);
    WordPlain(word);
    PieceAlone(word + a, rest);
  }

  lemma WordPlain(word: string)
    requires word == EMAIL || word == SMALL_EMAIL
    ensures ';' !in word && ':' !in word
  {}

  lemma PieceAlone(piece: string, rest: string)
    requires ';' !in piece && ':' !in piece && (rest == "" || IsSeparator(rest[0]))
    ensures EmailParam(Pieces(piece + rest)) == Or(StripEmail(piece), EmailParam(Pieces(rest)[1..]))
  {
    if rest == "" {
      assert piece + rest == piece;
      SeparatorAt(piece, |piece|);
      assert Pieces(piece) == [piece] && Pieces(rest) == [""];
      OneParam(piece, []);
      assert [piece] + [] == [piece] && [""][1..] == [];
    } else {
      hide *;
      Regroup(piece, rest);
      PieceFirst(piece, rest[0], rest[1..]);
      PieceFirst("", rest[0], rest[1..]);
      OneParam(piece, Pieces(rest[1..]));
      OneParam("", Pieces(rest[1..]));
    }
  }

  lemma Regroup(piece: string, rest: string)
    requires rest != ""
    ensures piece + rest == piece + [rest[0]] + rest[1..] && rest == "" + [rest[0]] + rest[1..]
  {}

  /** What follows `mailto:`, in any case. */
  function AfterScheme(value: string): Option<string> {
    if |value| >= 7 && Lower(value[..7]) == "mailto:" then Some(Lower(Trim(value[7..]))) else None
  }

  /** With no EMAIL parameter it is what follows `mailto:` after the first colon; and with
      neither there is none. */
  lemma MailtoIsAddress(line: string)
    requires !HasEmail(line)
    ensures ':' !in line ==> AddressOf(line).None?
    ensures forall head, value :: line == head + ":" + value && ':' !in head ==> AddressOf(line) == AfterScheme(value)
  {
    EmailExactly(line);
    hide HasEmail, Pieces, EmailParam, Trim, AfterScheme;
    if ':' !in line { NoColon(line); }
    forall head, value | line == head + ":" + value && ':' !in head ensures AddressOf(line) == AfterScheme(value) {
      FirstColon(head, value);
      SchemeFound(value);
    }
  }

  lemma FirstColon(head: string, value: string)
    requires ':' !in head
    ensures var line := head + ":" + value; Find(line, ':') == |head| && line[|head| + 1..] == value
  {
    var line := head + ":" + value;
    assert line[..|head|] == head;
    FindAt(line, ':', |head|);
  }

  lemma SchemeFound(value: string)
    ensures var low := Lower(value); AfterScheme(value) == if "mailto:" <= low then Some(Trim(low[7..])) else None
  {
    hide Trim;
    if |value| >= 7 {
      assert Lower(value)[..7] == Lower(value[..7]) && Lower(value)[7..] == Lower(value[7..]);
      TrimLower(value[7..]);
    }
  }

  lemma NoColon(line: string)
    requires ':' !in line
    ensures Find(line, ':') == |line| && !("mailto:" <= Lower(""))
  {
    assert line[..|line|] == line;
    FindAt(line, ':', |line|);
  }
}
