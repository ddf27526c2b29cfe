/** `decode_quoted_printable` of `mcp/server.rs` (section 6.7 of RFC 2045), on bytes. */
module QuotedPrintable {
  import opened Seqs

  type Byte = b: int | 0 <= b < 256

  const EQ: Byte := 61
  const CR: Byte := 13
  const LF: Byte := 10

  /** `hex_val` */
  function HexVal(b: Byte): Option<Byte> {
    if 48 <= b <= 57 then Some(b - 48)
    else if 97 <= b <= 102 then Some(10 + b - 97)
    else if 65 <= b <= 70 then Some(10 + b - 65)
    else None
  }

  predicate SoftLf(rest: seq<Byte>) { |rest| >= 1 && rest[0] == LF }

  predicate SoftCrLf(rest: seq<Byte>) { |rest| >= 2 && rest[0] == CR && rest[1] == LF }

  predicate HexPair(rest: seq<Byte>) { |rest| >= 2 && HexVal(rest[0]).Some? && HexVal(rest[1]).Some? }

  /** What follows an `=` makes it more than a literal. */
  predicate OpensEscape(rest: seq<Byte>) { SoftLf(rest) || SoftCrLf(rest) || HexPair(rest) }

  function PairValue(hi: Byte, lo: Byte): Byte
    requires HexVal(hi).Some? && HexVal(lo).Some?
  {
    16 * HexVal(hi).value + HexVal(lo).value
  }

  function Decode(bs: seq<Byte>): seq<Byte>
    decreases |bs|
  {
    if bs == [] then []
    else if bs[0] == EQ && SoftLf(bs[1..]) then Decode(bs[2..])
    else if bs[0] == EQ && SoftCrLf(bs[1..]) then Decode(bs[3..])
    else if bs[0] == EQ && HexPair(bs[1..]) then [PairValue(bs[1], bs[2])] + Decode(bs[3..])
    else [bs[0]] + Decode(bs[1..])
  }

  lemma DecodeEnd(bytes: seq<Byte>)
    ensures Decode(bytes[|bytes|..]) == []
  {}

  /** Decoding from position `i` on. */
  lemma DecodeAt(bytes: seq<Byte>, i: nat)
    requires i < |bytes|
    ensures Decode(bytes[i..]) ==
      if bytes[i] == EQ && i + 1 < |bytes| && bytes[i + 1] == LF then Decode(bytes[i + 2..])
      else if bytes[i] == EQ && i + 2 < |bytes| && bytes[i + 1] == CR && bytes[i + 2] == LF then Decode(bytes[i + 3..])
      else if bytes[i] == EQ && i + 2 < |bytes| && HexVal(bytes[i + 1]).Some? && HexVal(bytes[i + 2]).Some?
      then [PairValue(bytes[i + 1], bytes[i + 2])] + Decode(bytes[i + 3..])
      else [bytes[i]] + Decode(bytes[i + 1..])
  {
    hide HexVal;
    var rest := bytes[i..];
    assert rest[1..] == bytes[i + 1..];
    assert i + 1 < |bytes| ==> rest[2..] == bytes[i + 2..];
    assert i + 2 < |bytes| ==> rest[3..] == bytes[i + 3..];
  }

  /** The loop over byte positions; it ends on every input and never lengthens it. */
  method DecodeLoop(bytes: seq<Byte>) returns (out: seq<Byte>)
    ensures out == Decode(bytes)
    ensures |out| <= |bytes|
  {
    hide HexVal, Decode;
    out := [];
    var i := 0;
    assert bytes[0..] == bytes;
    DecodeEnd(bytes);
    while i < |bytes|
      invariant 0 <= i <= |bytes|
      invariant out + Decode(bytes[i..]) == Decode(bytes)
      invariant |out| <= i
    {
      var b := bytes[i];
      DecodeAt(bytes, i);
      if b == EQ && i + 1 < |bytes| {
        var n1 := bytes[i + 1];
        if n1 == LF {
          i := i + 2;
          continue;
        }
        if n1 == CR && i + 2 < |bytes| && bytes[i + 2] == LF {
          i := i + 3;
          continue;
        }
        if i + 2 < |bytes| {
          var hi, lo := HexVal(n1), HexVal(bytes[i + 2]);
          if hi.Some? && lo.Some? {
            Snoc(out, PairValue(n1, bytes[i + 2]), Decode(bytes[i + 3..]));
            out := out + [16 * hi.value + lo.value];
            i := i + 3;
            continue;
          }
        }
      }
      Snoc(out, b, Decode(bytes[i + 1..]));
      out := out + [b];
      i := i + 1;
    }
  }

  // ── encodings ──────────────────────────────────────────────────────────

  /** One step of an encoder: a byte as it stands, a byte as two hex digits of
      either case, or a soft line break. */
  datatype Token = Lit(b: Byte) | Hex(b: Byte, upperHi: bool, upperLo: bool) | Soft(crlf: bool)

  function HexDigit(d: Byte, upper: bool): Byte
    requires d < 16
  {
    if d < 10 then 48 + d else if upper then 55 + d else 87 + d
  }

  function Printed(t: Token): seq<Byte> {
    match t
    case Lit(b) => [b]
    case Hex(b, upperHi, upperLo) => [EQ, HexDigit(b / 16, upperHi), HexDigit(b % 16, upperLo)]
    case Soft(crlf) => if crlf then [EQ, CR, LF] else [EQ, LF]
  }

  function Encode(ts: seq<Token>): seq<Byte> { FlatMap(ts, Printed) }

  function ValueOf(t: Token): seq<Byte> { if t.Soft? then [] else [t.b] }

  function Value(ts: seq<Token>): seq<Byte> { FlatMap(ts, ValueOf) }

  /** No literal `=` happens to be followed by what reads as an escape. */
  predicate Unambiguous(ts: seq<Token>) {
    ts == [] || ((ts[0] == Lit(EQ) ==> !OpensEscape(Encode(ts[1..]))) && Unambiguous(ts[1..]))
  }

  lemma HexRoundTrip(d: Byte, upper: bool)
    requires d < 16
    ensures HexVal(HexDigit(d, upper)) == Some(d)
  {}

  /** Bytes read after a literal `=` are literals themselves: every other token starts with `=`. */
  lemma EscapeOfLiterals(ts: seq<Token>)
    requires OpensEscape(Encode(ts))
    ensures ts != [] && ts[0].Lit? && Encode(ts)[0] == ts[0].b && Encode(ts)[1..] == Encode(ts[1..])
    ensures !SoftLf(Encode(ts)) ==> |ts| > 1 && ts[1].Lit? && Encode(ts)[2..] == Encode(ts[2..])
  {
    assert Encode(ts)[1..] == Encode(ts[1..]) by { assert ts[0].Lit?; }
    if !SoftLf(Encode(ts)) {
      assert Encode(ts)[1] == Encode(ts[1..])[0];
      assert ts[1..][1..] == ts[2..];
      assert Encode(ts)[2..] == Encode(ts)[1..][1..];
    }
  }

  /** The encoding in its own characters. */
  lemma InCharacters(d: Byte, upper: bool)
    requires d < 16
    ensures HexDigit(d, upper) == (if upper then "0123456789ABCDEF" else "0123456789abcdef")[d] as int
    ensures EQ == '=' as int && CR == '\r' as int && LF == '\n' as int
  {}

  /** One literal byte at the front. */
  lemma DecodeLiteral(b: Byte, rest: seq<Byte>)
    requires b != EQ || !OpensEscape(rest)
    ensures Decode([b] + rest) == [b] + Decode(rest)
  {
    assert ([b] + rest)[1..] == rest;
  }

  lemma DecodeEscape(t: Token, rest: seq<Byte>)
    requires !t.Lit?
    ensures Decode(Printed(t) + rest) == ValueOf(t) + Decode(rest)
  {
    match t
    case Hex(b, upperHi, upperLo) => DecodeHex(b, upperHi, upperLo, rest);
    case Soft(crlf) => DecodeSoft(crlf, rest);
  }

  lemma DecodeSoft(crlf: bool, rest: seq<Byte>)
    ensures Decode(Printed(Soft(crlf)) + rest) == [] + Decode(rest)
  {
    hide HexVal;
    var p := Printed(Soft(crlf));
    assert (p + rest)[|p|..] == rest && [] + Decode(rest) == Decode(rest);
    assert (p + rest)[0] == EQ && (p + rest)[1] == p[1] && (crlf ==> (p + rest)[2] == LF);
  }

  lemma DecodeHex(b: Byte, upperHi: bool, upperLo: bool, rest: seq<Byte>)
    ensures Decode(Printed(Hex(b, upperHi, upperLo)) + rest) == [b] + Decode(rest)
  {
    var p := Printed(Hex(b, upperHi, upperLo));
    HexRoundTrip(b / 16, upperHi);
    HexRoundTrip(b % 16, upperLo);
    assert HexVal(p[1]).Some? && p[1] != LF && p[1] != CR;
    hide HexVal, HexDigit;
    assert (p + rest)[3..] == rest && (p + rest)[1] == p[1] && (p + rest)[2] == p[2];
  }

  /** A literal `=` before an escape swallows literals and gives back less. */
  lemma DecodeSwallows(ts: seq<Token>)
    requires OpensEscape(Encode(ts))
    ensures ts != [] && (!SoftLf(Encode(ts)) ==> |ts| > 1)
    ensures var s := [EQ] + Encode(ts);
      Decode(s) == if SoftLf(Encode(ts)) then Decode(Encode(ts[1..]))
                   else if SoftCrLf(Encode(ts)) then Decode(Encode(ts[2..]))
                   else [PairValue(Encode(ts)[0], Encode(ts)[1])] + Decode(Encode(ts[2..]))
  {
    var s := [EQ] + Encode(ts);
    EscapeOfLiterals(ts);
    assert s[1..] == Encode(ts) && s[2..] == Encode(ts)[1..];
    if !SoftLf(Encode(ts)) { assert s[3..] == Encode(ts)[2..]; }
  }

  /** Decoding inverts an encoding exactly when it is unambiguous; otherwise
      bytes are lost. */
  lemma {:induction false} DecodeInvertsIff(ts: seq<Token>)
    ensures Decode(Encode(ts)) == Value(ts) <==> Unambiguous(ts)
    ensures |Decode(Encode(ts))| <= |Value(ts)|
    ensures !Unambiguous(ts) ==> |Decode(Encode(ts))| < |Value(ts)|
    decreases |ts|
  {
    if ts == [] { return; }
    var rest := ts[1..];
    DecodeInvertsIff(rest);
    if !ts[0].Lit? {
      DecodeEscape(ts[0], Encode(rest));
    } else if ts[0] == Lit(EQ) && OpensEscape(Encode(rest)) {
      DecodeSwallows(rest);
      EscapeOfLiterals(rest);
      var k := if SoftLf(Encode(rest)) then 1 else 2;
      DecodeInvertsIff(rest[k..]);
      ValueLiterals(rest, k);
    } else {
      DecodeLiteral(ts[0].b, Encode(rest));
    }
  }

  lemma ValueLiterals(ts: seq<Token>, k: nat)
    requires k == 1 || k == 2
    requires k <= |ts| && forall i :: 0 <= i < k ==> ts[i].Lit?
    ensures |Value(ts)| == k + |Value(ts[k..])|
  {
    assert Value(ts) == [ts[0].b] + Value(ts[1..]);
    if k == 2 {
      assert ts[1..][1..] == ts[2..];
      assert Value(ts[1..]) == [ts[1].b] + Value(ts[2..]);
    }
  }

  /** Encoders that escape every `=`, as the standard asks, are inverted. */
  lemma LegalEncodingsInvert(ts: seq<Token>)
    requires Lit(EQ) !in ts
    ensures Decode(Encode(ts)) == Value(ts)
  {
    DecodeInvertsIff(ts);
    NoLiteralEq(ts);
  }

  lemma {:induction false} NoLiteralEq(ts: seq<Token>)
    requires Lit(EQ) !in ts
    ensures Unambiguous(ts)
  {
    if ts != [] {
      assert ts[0] in ts;
      NoLiteralEq(ts[1..]);
    }
  }
}
