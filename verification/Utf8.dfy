/** UTF-8 as RFC 3629 defines it, and as Go's range loop and strings.Builder
    read and write it. */
module Utf8 {
  import opened Basics

  type Bytes = seq<byte>

  /** A Unicode scalar value. */
  type Rune = r: int | 0 <= r < 0xD800 || 0xE000 <= r < 0x110000

  const RUNE_ERROR: Rune := 0xFFFD

  predicate In(b: byte, lo: int, hi: int) {
    lo <= b as int <= hi
  }

  predicate Tail(b: byte) {
    In(b, 0x80, 0xBF)
  }

  /** How many bytes the well-formed character at the front of s takes, following
      the grammar in section 4 of RFC 3629; 0 if there is none. */
  function FrontLen(s: Bytes): (n: nat)
    ensures n <= |s| && n <= 4
  {
    if |s| >= 1 && In(s[0], 0x00, 0x7F) then 1
    else if |s| >= 2 && In(s[0], 0xC2, 0xDF) && Tail(s[1]) then 2
    else if |s| >= 3 && Tail(s[2]) &&
            ((In(s[0], 0xE0, 0xE0) && In(s[1], 0xA0, 0xBF)) ||
             (In(s[0], 0xE1, 0xEC) && Tail(s[1])) ||
             (In(s[0], 0xED, 0xED) && In(s[1], 0x80, 0x9F)) ||
             (In(s[0], 0xEE, 0xEF) && Tail(s[1]))) then 3
    else if |s| >= 4 && Tail(s[2]) && Tail(s[3]) &&
            ((In(s[0], 0xF0, 0xF0) && In(s[1], 0x90, 0xBF)) ||
             (In(s[0], 0xF1, 0xF3) && Tail(s[1])) ||
             (In(s[0], 0xF4, 0xF4) && In(s[1], 0x80, 0x8F))) then 4
    else 0
  }

  predicate Valid(s: Bytes) {
    s == [] || (FrontLen(s) > 0 && Valid(s[FrontLen(s)..]))
  }

  function Bits(b: byte, lead: int): int {
    b as int - lead
  }

  /** utf8.DecodeRuneInString: the rune at the front and its width; an ill-formed
      front decodes as U+FFFD of width 1. */
  function DecodeRune(s: Bytes): (d: (Rune, nat))
    requires s != []
    ensures 1 <= d.1 <= |s|
    ensures FrontLen(s) > 0 ==> d.1 == FrontLen(s)
  {
    match FrontLen(s)
    case 1 => (s[0] as int, 1)
    case 2 => (Bits(s[0], 0xC0) * 64 + Bits(s[1], 0x80), 2)
    case 3 => (Bits(s[0], 0xE0) * 4096 + Bits(s[1], 0x80) * 64 + Bits(s[2], 0x80), 3)
    case 4 => (Bits(s[0], 0xF0) * 262144 + Bits(s[1], 0x80) * 4096 + Bits(s[2], 0x80) * 64 + Bits(s[3], 0x80), 4)
    case _ => (RUNE_ERROR, 1)
  }

  /** The runes a range loop over s visits. */
  function Runes(s: Bytes): seq<Rune> {
    if s == [] then [] else [DecodeRune(s).0] + Runes(s[DecodeRune(s).1..])
  }

  /** WriteRune. */
  function EncodeRune(r: Rune): (b: Bytes)
    ensures 1 <= |b| <= 4
  {
    if r < 0x80 then [r as byte]
    else if r < 0x800 then [(0xC0 + r / 64) as byte, (0x80 + r % 64) as byte]
    else if r < 0x10000 then [(0xE0 + r / 4096) as byte, (0x80 + r / 64 % 64) as byte, (0x80 + r % 64) as byte]
    else [(0xF0 + r / 262144) as byte, (0x80 + r / 4096 % 64) as byte, (0x80 + r / 64 % 64) as byte, (0x80 + r % 64) as byte]
  }

  function Encode(rs: seq<Rune>): Bytes {
    if rs == [] then [] else EncodeRune(rs[0]) + Encode(rs[1..])
  }

  // ---------- decoding and encoding ----------

  lemma Divided64(q: int, d: int)
    requires 0 <= d < 64
    ensures (q * 64 + d) / 64 == q && (q * 64 + d) % 64 == d
  {
  }

  lemma Divided4096(q: int, d: int)
    requires 0 <= d < 4096
    ensures (q * 4096 + d) / 4096 == q
  {
  }

  lemma Divided262144(q: int, d: int)
    requires 0 <= d < 262144
    ensures (q * 262144 + d) / 262144 == q
  {
  }

  /** Base-64 digits, lowest first, and back. */
  lemma Digits(r: int, a: int, b: int, c: int, d: int)
    requires 0 <= b < 64 && 0 <= c < 64 && 0 <= d < 64
    requires r == a * 262144 + b * 4096 + c * 64 + d
    ensures r % 64 == d && r / 64 % 64 == c && r / 4096 % 64 == b && r / 262144 == a
    ensures r / 64 == a * 4096 + b * 64 + c && r / 4096 == a * 64 + b
  {
    Divided64(a * 4096 + b * 64 + c, d);
    Divided64(a * 64 + b, c);
    Divided64(a, b);
    Divided4096(a * 64 + b, c * 64 + d);
    Divided262144(a, b * 4096 + c * 64 + d);
  }

  lemma DecodeEncoded2(r: Rune, s: Bytes)
    requires 0x80 <= r < 0x800 && |s| >= 2 && s[..2] == EncodeRune(r)
    ensures FrontLen(s) == 2 && DecodeRune(s) == (r, 2)
  {
    assert s[0] == s[..2][0] && s[1] == s[..2][1];
  }

  lemma DecodeEncoded3(r: Rune, s: Bytes)
    requires 0x800 <= r < 0x10000 && |s| >= 3 && s[..3] == EncodeRune(r)
    ensures FrontLen(s) == 3 && DecodeRune(s) == (r, 3)
  {
    assert s[0] == s[..3][0] && s[1] == s[..3][1] && s[2] == s[..3][2];
    var a, b, c := r / 4096, r / 64 % 64, r % 64;
    assert r == a * 4096 + b * 64 + c;
  }

  lemma DecodeEncoded4(r: Rune, s: Bytes)
    requires 0x10000 <= r && |s| >= 4 && s[..4] == EncodeRune(r)
    ensures FrontLen(s) == 4 && DecodeRune(s) == (r, 4)
  {
    assert s[0] == s[..4][0] && s[1] == s[..4][1] && s[2] == s[..4][2] && s[3] == s[..4][3];
    var a, b, c, d := r / 262144, r / 4096 % 64, r / 64 % 64, r % 64;
    FourDigits(r, a, b, c, d);
    assert s[0] as int == 0xF0 + a && s[1] as int == 0x80 + b && s[2] as int == 0x80 + c && s[3] as int == 0x80 + d;
    hide EncodeRune;
    assert FrontLen(s) == 4;
  }

  lemma FourDigits(r: Rune, a: int, b: int, c: int, d: int)
    requires 0x10000 <= r && a == r / 262144 && b == r / 4096 % 64 && c == r / 64 % 64 && d == r % 64
    ensures r == a * 262144 + b * 4096 + c * 64 + d
    ensures 0 <= a <= 4 && (a == 0 ==> b >= 16) && (a == 4 ==> b < 16)
    ensures 0 <= b < 64 && 0 <= c < 64 && 0 <= d < 64
  {
  }

  /** What an encoded rune decodes to, whatever follows. */
  lemma DecodeEncoded(r: Rune, rest: Bytes)
    ensures FrontLen(EncodeRune(r) + rest) == |EncodeRune(r)|
    ensures DecodeRune(EncodeRune(r) + rest) == (r, |EncodeRune(r)|)
  {
    var s := EncodeRune(r) + rest;
    if r < 0x80 {
      assert s[0] == EncodeRune(r)[0];
    } else if r < 0x800 {
      assert s[..2] == EncodeRune(r);
      DecodeEncoded2(r, s);
    } else if r < 0x10000 {
      assert s[..3] == EncodeRune(r);
      DecodeEncoded3(r, s);
    } else {
      assert s[..4] == EncodeRune(r);
      DecodeEncoded4(r, s);
    }
  }

  lemma EncodeDecoded3(s: Bytes)
    requires FrontLen(s) == 3
    ensures EncodeRune(DecodeRune(s).0) == s[..3]
  {
    Digits(DecodeRune(s).0, 0, Bits(s[0], 0xE0), Bits(s[1], 0x80), Bits(s[2], 0x80));
  }

  lemma EncodeDecoded4(s: Bytes)
    requires FrontLen(s) == 4
    ensures EncodeRune(DecodeRune(s).0) == s[..4]
  {
    Digits(DecodeRune(s).0, Bits(s[0], 0xF0), Bits(s[1], 0x80), Bits(s[2], 0x80), Bits(s[3], 0x80));
  }

  /** A well-formed front is what its own rune encodes to. */
  lemma EncodeDecoded(s: Bytes)
    requires FrontLen(s) > 0
    ensures EncodeRune(DecodeRune(s).0) == s[..FrontLen(s)]
  {
    if FrontLen(s) == 2 {
      Digits(DecodeRune(s).0, 0, 0, Bits(s[0], 0xC0), Bits(s[1], 0x80));
    } else if FrontLen(s) == 3 {
      EncodeDecoded3(s);
    } else if FrontLen(s) == 4 {
      EncodeDecoded4(s);
    }
  }

  lemma {:induction false} EncodeIsValid(rs: seq<Rune>)
    ensures Valid(Encode(rs)) && Runes(Encode(rs)) == rs
  {
    if rs != [] {
      var rest := Encode(rs[1..]);
      EncodeIsValid(rs[1..]);
      DecodeEncoded(rs[0], rest);
      assert (EncodeRune(rs[0]) + rest)[|EncodeRune(rs[0])|..] == rest;
    }
  }

  lemma {:induction false} ValidIsEncoded(s: Bytes)
    requires Valid(s)
    ensures Encode(Runes(s)) == s
  {
    hide FrontLen, EncodeRune, DecodeRune;
    if s != [] {
      var n := FrontLen(s);
      EncodeDecoded(s);
      ValidIsEncoded(s[n..]);
      EncodeCons(DecodeRune(s).0, Runes(s[n..]));
      hide Encode, Valid;
      assert s == s[..n] + s[n..];
    }
  }

  lemma EncodeCons(r: Rune, rs: seq<Rune>)
    ensures Encode([r] + rs) == EncodeRune(r) + Encode(rs)
  {
    hide EncodeRune;
    assert ([r] + rs)[1..] == rs;
  }

  /** The grammar and the codec agree: exactly the well-formed strings survive
      decoding and encoding. */
  lemma ValidIffRoundTrip(s: Bytes)
    ensures Valid(s) <==> Encode(Runes(s)) == s
  {
    if Valid(s) {
      ValidIsEncoded(s);
    }
    EncodeIsValid(Runes(s));
  }

  lemma {:induction false} EncodeConcat(a: seq<Rune>, b: seq<Rune>)
    ensures Encode(a + b) == Encode(a) + Encode(b)
  {
    if a == [] {
      assert a + b == b;
    } else {
      assert (a + b)[1..] == a[1..] + b;
      EncodeConcat(a[1..], b);
    }
  }

  lemma {:induction false} EncodeLonger(rs: seq<Rune>)
    ensures |rs| <= |Encode(rs)|
  {
    if rs != [] {
      EncodeLonger(rs[1..]);
    }
  }

  /** A well-formed front is seen whatever follows it. */
  lemma FrontLenPrefix(s: Bytes, i: nat)
    requires i <= |s|
    ensures FrontLen(s[..i]) == if 0 < FrontLen(s) <= i then FrontLen(s) else FrontLen(s[..i])
    ensures FrontLen(s) > i ==> FrontLen(s[..i]) == 0
  {
  }

  lemma {:induction false} RunesConcat(a: Bytes, b: Bytes)
    requires Valid(a)
    ensures Runes(a + b) == Runes(a) + Runes(b)
  {
    if a == [] {
      assert a + b == b;
    } else {
      var n := FrontLen(a);
      FrontConcat(a, b);
      hide FrontLen, DecodeRune;
      assert (a + b)[n..] == a[n..] + b;
      RunesConcat(a[n..], b);
    }
  }

  lemma FrontConcat(a: Bytes, b: Bytes)
    requires FrontLen(a) > 0
    ensures FrontLen(a + b) == FrontLen(a) && DecodeRune(a + b) == DecodeRune(a)
  {
    assert (a + b)[..|a|] == a;
  }

  // ---------- rune boundaries ----------

  /** b & 0xC0 != 0x80: the top two bits are not 10. */
  predicate Utf8Start(b: byte) {
    b as int / 64 != 2
  }

  /** On well-formed text the bytes that are not continuation bytes are exactly
      the places where a rune-aligned prefix ends. */
  lemma {:induction false} StartsAreBoundaries(s: Bytes, i: nat)
    requires Valid(s) && i < |s|
    ensures Utf8Start(s[i]) <==> Valid(s[..i])
    ensures Utf8Start(s[i]) ==> Valid(s[i..])
    decreases |s|
  {
    var n := FrontLen(s);
    if i == 0 {
      assert s[..0] == [] && s[0..] == s;
    } else if i < n {
      FrontLenPrefix(s, i);
    } else {
      FrontLenPrefix(s, i);
      hide FrontLen, Utf8Start;
      assert s[n..][i - n] == s[i] && s[..i][n..] == s[n..][..i - n] && s[n..][i - n..] == s[i..];
      StartsAreBoundaries(s[n..], i - n);
    }
  }

  /** No rune takes more than four bytes. */
  lemma {:induction false} StartNear(s: Bytes, i: nat) returns (j: nat)
    requires Valid(s) && i < |s|
    ensures j <= i < j + 4 && Utf8Start(s[j])
    decreases |s|
  {
    var n := FrontLen(s);
    if i < n {
      j := 0;
    } else {
      j := StartNear(s[n..], i - n);
      assert s[n..][j] == s[n + j];
      j := n + j;
    }
  }
}
