/**
 UTF-8 as a browser decodes it: a sequence that breaks off or goes wrong is replaced, as far as it
 could have been the start of a character, by one U+FFFD. Text is a sequence of code points.
 */
module Utf8 {
  type Byte = b: int | 0 <= b < 0x100

  type Text = seq<int>

  const REPLACEMENT := 0xFFFD

  // -------------------------------------------------------------------- decoding

  /** How many bytes must follow a first byte; -1 for a byte that cannot be one. */
  function Need(b: Byte): int
  {
    if b < 0x80 then 0
    else if 0xC2 <= b < 0xE0 then 1
    else if 0xE0 <= b < 0xF0 then 2
    else if 0xF0 <= b < 0xF5 then 3
    else -1
  }

  /** Whether `b` may be byte `i` of a character that begins with `lead`. */
  predicate Continues(lead: Byte, i: nat, b: Byte)
  {
    if i != 1 then 0x80 <= b < 0xC0
    else if lead == 0xE0 then 0xA0 <= b < 0xC0
    else if lead == 0xED then 0x80 <= b < 0xA0
    else if lead == 0xF0 then 0x90 <= b < 0xC0
    else if lead == 0xF4 then 0x80 <= b < 0x90
    else 0x80 <= b < 0xC0
  }

  /** The bytes from place `i` on that go on with the character. */
  function Held(b: seq<Byte>, i: nat, need: int): (n: nat)
    requires b != [] && i <= need + 1
    ensures n <= need + 1 - i && (i <= |b| ==> n <= |b| - i)
    decreases need + 1 - i
  {
    if i > need || i >= |b| || !Continues(b[0], i, b[i]) then 0 else 1 + Held(b, i + 1, need)
  }

  /** The bytes taken for the first character, whole or not. */
  function Piece(b: seq<Byte>): (n: nat)
    requires b != []
    ensures 1 <= n <= |b| && n <= 4
  {
    if Need(b[0]) < 0 then 1 else 1 + Held(b, 1, Need(b[0]))
  }

  predicate Whole(b: seq<Byte>)
    requires b != []
  {
    Need(b[0]) >= 0 && Piece(b) == Need(b[0]) + 1
  }

  /** The code point that the bytes of one character spell. */
  function CodePoint(p: seq<Byte>): int
    requires 1 <= |p| <= 4
  {
    match |p|
    case 1 => p[0]
    case 2 => (p[0] as int - 0xC0) * 0x40 + (p[1] as int - 0x80)
    case 3 => (p[0] as int - 0xE0) * 0x1000 + (p[1] as int - 0x80) * 0x40 + (p[2] as int - 0x80)
    case _ => (p[0] as int - 0xF0) * 0x40000 + (p[1] as int - 0x80) * 0x1000 + (p[2] as int - 0x80) * 0x40
              + (p[3] as int - 0x80)
  }

  function First(b: seq<Byte>): int
    requires b != []
  {
    if Whole(b) then CodePoint(b[..Piece(b)]) else REPLACEMENT
  }

  function Decode(b: seq<Byte>): Text { if b == [] then [] else [First(b)] + Decode(b[Piece(b)..]) }

  // -------------------------------------------------------------------- encoding

  predicate Scalar(c: int) { 0 <= c < 0xD800 || 0xE000 <= c < 0x110000 }

  predicate Scalars(t: Text) { forall i | 0 <= i < |t| :: Scalar(t[i]) }

  function Width(c: int): nat { if c < 0x80 then 1 else if c < 0x800 then 2 else if c < 0x10000 then 3 else 4 }

  function Size(t: Text): nat { if t == [] then 0 else Width(t[0]) + Size(t[1..]) }

  function EncodeOne(c: int): (b: seq<Byte>)
    requires Scalar(c)
    ensures |b| == Width(c)
  {
    if c < 0x80 then [c]
    else if c < 0x800 then [0xC0 + c / 0x40, 0x80 + c % 0x40]
    else
      var q := c / 0x40;
      if c < 0x10000 then [0xE0 + q / 0x40, 0x80 + q % 0x40, 0x80 + c % 0x40]
      else [0xF0 + q / 0x40 / 0x40, 0x80 + q / 0x40 % 0x40, 0x80 + q % 0x40, 0x80 + c % 0x40]
  }

  function Encode(t: Text): seq<Byte>
    requires Scalars(t)
  {
    if t == [] then [] else EncodeOne(t[0]) + Encode(t[1..])
  }

  lemma {:induction false} SizeEncoded(t: Text)
    requires Scalars(t)
    ensures |Encode(t)| == Size(t)
    decreases |t|
  {
    if t != [] { SizeEncoded(t[1..]); }
  }

  lemma {:induction false} SizeConcat(a: Text, b: Text)
    ensures Size(a + b) == Size(a) + Size(b)
    decreases |a|
  {
    if a == [] {
      assert a + b == b;
    } else {
      assert (a + b)[1..] == a[1..] + b;
      SizeConcat(a[1..], b);
    }
  }

  lemma {:induction false} EncodeConcat(a: Text, b: Text)
    requires Scalars(a) && Scalars(b)
    ensures Scalars(a + b) && Encode(a + b) == Encode(a) + Encode(b)
    decreases |a|
  {
    if a == [] {
      assert a + b == b;
    } else {
      assert (a + b)[1..] == a[1..] + b;
      EncodeConcat(a[1..], b);
    }
  }

  // ------------------------------------------------------------------- round trip

  /** The bytes held, place by place. */
  lemma {:induction false} HeldIs(b: seq<Byte>, i: nat, need: int, n: nat)
    requires b != [] && i <= need + 1 && n <= need + 1 - i && i + n <= |b|
    requires forall k | i <= k < i + n :: Continues(b[0], k, b[k])
    requires i + n > need || i + n == |b| || !Continues(b[0], i + n, b[i + n])
    ensures Held(b, i, need) == n
    decreases n
  {
    if n > 0 { HeldIs(b, i + 1, need, n - 1); }
  }

  lemma {:induction false} LeadOf(c: int)
    requires Scalar(c)
    ensures var b := EncodeOne(c);
            && Need(b[0]) == |b| - 1
            && forall k | 1 <= k < |b| :: Continues(b[0], k, b[k])
  {}

  lemma {:induction false} Spells(c: int)
    requires Scalar(c)
    ensures CodePoint(EncodeOne(c)) == c
  {
    var q := c / 0x40;
    assert c == 0x40 * q + c % 0x40 && q == 0x40 * (q / 0x40) + q % 0x40;
    assert q / 0x40 == 0x40 * (q / 0x40 / 0x40) + q / 0x40 % 0x40;
  }

  /** A character at the front is read off whole. */
  lemma {:induction false} ReadsOne(c: int, rest: seq<Byte>)
    requires Scalar(c)
    ensures var b := EncodeOne(c) + rest;
            Whole(b) && Piece(b) == Width(c) && First(b) == c && b[Piece(b)..] == rest
  {
    var e := EncodeOne(c);
    var b := e + rest;
    LeadOf(c);
    assert forall k | 0 <= k < |e| :: b[k] == e[k];
    HeldIs(b, 1, |e| - 1, |e| - 1);
    Spells(c);
    assert b[..|e|] == e;
  }

  lemma {:induction false} DecodesOne(c: int, rest: seq<Byte>)
    requires Scalar(c)
    ensures Decode(EncodeOne(c) + rest) == [c] + Decode(rest)
  {
    ReadsOne(c, rest);
  }

  lemma {:induction false} Regroup<T>(a: seq<T>, b: seq<T>, c: seq<T>)
    ensures a + b + c == a + (b + c)
  {}

  /** Decoding undoes encoding, whatever follows. */
  lemma {:induction false} RoundTrip(t: Text, rest: seq<Byte>)
    requires Scalars(t)
    ensures Decode(Encode(t) + rest) == t + Decode(rest)
    decreases |t|
  {
    if t == [] {
      assert Encode(t) + rest == rest;
    } else {
      var more := Encode(t[1..]) + rest;
      RoundTrip(t[1..], rest);
      DecodesOne(t[0], more);
      Regroup(EncodeOne(t[0]), Encode(t[1..]), rest);
      Regroup([t[0]], t[1..], Decode(rest));
      assert t == [t[0]] + t[1..];
    }
  }

  /** A character cut short, at the end, is one replacement. */
  lemma {:induction false} CutChar(c: int, n: nat)
    requires Scalar(c) && 0 < n < Width(c)
    ensures var part := EncodeOne(c)[..n]; Piece(part) == n && !Whole(part) && Decode(part) == [REPLACEMENT]
  {
    var e := EncodeOne(c);
    var part := e[..n];
    LeadOf(c);
    assert forall k | 0 <= k < n :: part[k] == e[k];
    HeldIs(part, 1, |e| - 1, n - 1);
    assert part[n..] == [];
  }

  // ------------------------------------------------------------ bytes read and bytes counted

  lemma {:induction false} HeldAll(b: seq<Byte>, i: nat, need: int, k: nat)
    requires b != [] && i <= need + 1 && i <= k < i + Held(b, i, need)
    ensures k < |b| && Continues(b[0], k, b[k])
    decreases k - i
  {
    if k > i { HeldAll(b, i + 1, need, k); }
  }

  /** A whole character takes as many bytes as it was read from. */
  lemma {:induction false} WholeWidth(b: seq<Byte>)
    requires b != [] && Whole(b)
    ensures Scalar(First(b)) && Width(First(b)) == Piece(b)
  {
    var need := Need(b[0]);
    if need >= 1 { HeldAll(b, 1, need, 1); }
    if need >= 2 { HeldAll(b, 1, need, 2); }
    if need >= 3 { HeldAll(b, 1, need, 3); }
  }

  /** By how much the text of `b` is larger than `b`: a replacement is three bytes, whatever it stands for. */
  function Excess(b: seq<Byte>): nat
  {
    if b == [] then 0 else (if Whole(b) then 0 else 3 - Piece(b)) + Excess(b[Piece(b)..])
  }

  lemma {:induction false} SizeDecoded(b: seq<Byte>)
    ensures Size(Decode(b)) == |b| + Excess(b)
    decreases |b|
  {
    if b != [] {
      SizeDecoded(b[Piece(b)..]);
      if Whole(b) { WholeWidth(b); }
      assert Decode(b)[1..] == Decode(b[Piece(b)..]);
    }
  }

  /** Every piece that is not a character is three bytes long. */
  predicate Tight(b: seq<Byte>)
  {
    b == [] || ((Whole(b) || Piece(b) == 3) && Tight(b[Piece(b)..]))
  }

  /** The text of `b` is of the size of `b` exactly if nothing shorter than three bytes was replaced. */
  lemma {:induction false} TightIff(b: seq<Byte>)
    ensures Size(Decode(b)) >= |b| && (Size(Decode(b)) == |b| <==> Tight(b))
    decreases |b|
  {
    SizeDecoded(b);
    ExcessZero(b);
  }

  lemma {:induction false} ExcessZero(b: seq<Byte>)
    ensures Excess(b) == 0 <==> Tight(b)
    decreases |b|
  {
    if b != [] { ExcessZero(b[Piece(b)..]); }
  }
}
