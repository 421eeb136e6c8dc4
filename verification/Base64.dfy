/** Padded base64 as in section 4 of RFC 4648, read strictly: canonical padding and no stray bits. */
module Base64 {
  import opened Prelude

  newtype byte = x: int | 0 <= x < 256

  function Letter(d: nat): char
    requires d < 64
  {
    if d < 26 then 'A' + d as char
    else if d < 52 then 'a' + (d - 26) as char
    else if d < 62 then '0' + (d - 52) as char
    else if d == 62 then '+'
    else '/'
  }

  function Value(c: char): (d: Option<nat>)
    ensures d.Some? ==> d.value < 64
  {
    if 'A' <= c <= 'Z' then Some(c as int - 'A' as int)
    else if 'a' <= c <= 'z' then Some(c as int - 'a' as int + 26)
    else if '0' <= c <= '9' then Some(c as int - '0' as int + 52)
    else if c == '+' then Some(62)
    else if c == '/' then Some(63)
    else None
  }

  lemma LetterValue(d: nat)
    requires d < 64
    ensures Value(Letter(d)) == Some(d)
  {
  }

  lemma ValueLetter(c: char)
    requires Value(c).Some?
    ensures Letter(Value(c).value) == c
  {
  }

  /** Three bytes, or as many bits in four groups of six. */
  datatype Bits = Bytes(a: int, b: int, c: int) | Sextets(p: int, q: int, r: int, t: int)

  predicate InRange(x: Bits) {
    match x
    case Bytes(a, b, c) => 0 <= a < 256 && 0 <= b < 256 && 0 <= c < 256
    case Sextets(p, q, r, t) => 0 <= p < 64 && 0 <= q < 64 && 0 <= r < 64 && 0 <= t < 64
  }

  /** The same bits, grouped the other way. */
  function Regroup(x: Bits): (y: Bits)
    requires InRange(x)
    ensures InRange(y) && y.Bytes? == x.Sextets?
  {
    match x
    case Bytes(a, b, c) => Sextets(a / 4, a % 4 * 16 + b / 16, b % 16 * 4 + c / 64, c % 64)
    case Sextets(p, q, r, t) => Bytes(p * 4 + q / 16, q % 16 * 16 + r / 4, r % 4 * 64 + t)
  }

  lemma RegroupTwice(x: Bits)
    requires InRange(x)
    ensures Regroup(Regroup(x)) == x
  {
    var y := Regroup(x);
    match x
    case Bytes(a, b, c) =>
      assert y.q / 16 == a % 4 && y.q % 16 == b / 16;
      assert y.r / 4 == b % 16 && y.r % 4 == c / 64;
    case Sextets(p, q, r, t) =>
      assert y.a / 4 == p && y.a % 4 == q / 16;
      assert y.b / 16 == q % 16 && y.b % 16 == r / 4;
      assert y.c / 64 == r % 4 && y.c % 64 == t;
  }

  /** Four letters for three bytes. */
  function Quad(a: byte, b: byte, c: byte): (s: string)
    ensures |s| == 4
  {
    var x := Regroup(Bytes(a as int, b as int, c as int));
    [Letter(x.p), Letter(x.q), Letter(x.r), Letter(x.t)]
  }

  function Encode(s: seq<byte>): string {
    if |s| == 0 then []
    else if |s| == 1 then Quad(s[0], 0, 0)[..2] + "=="
    else if |s| == 2 then Quad(s[0], s[1], 0)[..3] + "="
    else Quad(s[0], s[1], s[2]) + Encode(s[3..])
  }

  /** Three bytes from four letters. */
  function Triple(s: string): (b: Option<seq<byte>>)
    requires |s| == 4
    ensures b.Some? ==> |b.value| == 3
  {
    match (Value(s[0]), Value(s[1]), Value(s[2]), Value(s[3]))
    case (Some(p), Some(q), Some(r), Some(t)) =>
      var x := Regroup(Sextets(p, q, r, t));
      Some([x.a as byte, x.b as byte, x.c as byte])
    case _ => None
  }

  /** The last four characters, which may be padded; the bits left over must be zero. */
  function DecodeLast(s: string): Option<seq<byte>>
    requires |s| == 4
  {
    if s[3] != '=' then Triple(s)
    else if s[2] != '=' then
      match Triple(s[..3] + "A")
      case Some(b) => if b[2] == 0 then Some(b[..2]) else None
      case None => None
    else
      match Triple(s[..2] + "AA")
      case Some(b) => if b[1] == 0 && b[2] == 0 then Some(b[..1]) else None
      case None => None
  }

  function Decode(s: string): Option<seq<byte>> {
    if |s| == 0 then Some([])
    else if |s| < 4 then None
    else if |s| == 4 then DecodeLast(s)
    else
      match (Triple(s[..4]), Decode(s[4..]))
      case (Some(b), Some(rest)) => Some(b + rest)
      case _ => None
  }

  lemma TripleOfQuad(a: byte, b: byte, c: byte)
    ensures Triple(Quad(a, b, c)) == Some([a, b, c])
  {
    var x := Regroup(Bytes(a as int, b as int, c as int));
    RegroupTwice(Bytes(a as int, b as int, c as int));
    LetterValue(x.p);
    LetterValue(x.q);
    LetterValue(x.r);
    LetterValue(x.t);
  }

  lemma QuadOfTriple(s: string)
    requires |s| == 4 && Triple(s).Some?
    ensures var b := Triple(s).value; Quad(b[0], b[1], b[2]) == s
  {
    RegroupTwice(Sextets(Value(s[0]).value, Value(s[1]).value, Value(s[2]).value, Value(s[3]).value));
    ValueLetter(s[0]);
    ValueLetter(s[1]);
    ValueLetter(s[2]);
    ValueLetter(s[3]);
  }

  predicate Alphabet(c: char) {
    Value(c).Some? || c == '='
  }

  lemma {:induction false} EncodedAlphabet(s: seq<byte>)
    ensures forall c :: c in Encode(s) ==> Alphabet(c)
    ensures s != [] ==> 4 <= |Encode(s)|
  {
    forall d: nat | d < 64 ensures Value(Letter(d)).Some? {
      LetterValue(d);
    }
    if 3 <= |s| {
      EncodedAlphabet(s[3..]);
    }
  }

  lemma LastReadBack(s: seq<byte>)
    requires 1 <= |s| <= 3
    ensures |Encode(s)| == 4 && DecodeLast(Encode(s)) == Some(s)
  {
    var quad := Quad(s[0], if |s| < 2 then 0 else s[1], if |s| < 3 then 0 else s[2]);
    TripleOfQuad(s[0], if |s| < 2 then 0 else s[1], if |s| < 3 then 0 else s[2]);
    EncodedAlphabet(s);
    assert Value('A') == Some(0);
    if |s| == 1 {
      assert Encode(s)[..2] + "AA" == quad;
      assert Triple(quad).value[..1] == s;
    } else if |s| == 2 {
      assert Encode(s)[..3] + "A" == quad;
      assert Triple(quad).value[..2] == s;
    } else {
      assert Encode(s[3..]) == [] && Encode(s) == quad;
      assert Triple(quad).value == s;
      assert Value(quad[3]).Some? && Value('=').None?;
    }
  }

  /** Every byte string is read back from its encoding. */
  lemma {:induction false} DecodeOfEncode(s: seq<byte>)
    ensures Decode(Encode(s)) == Some(s)
  {
    if 3 < |s| {
      TripleOfQuad(s[0], s[1], s[2]);
      DecodeOfEncode(s[3..]);
      EncodedAlphabet(s[3..]);
      assert Encode(s)[..4] == Quad(s[0], s[1], s[2]) && Encode(s)[4..] == Encode(s[3..]);
      assert s == [s[0], s[1], s[2]] + s[3..];
    } else if s != [] {
      LastReadBack(s);
    }
  }

  lemma LastWrittenBack(s: string)
    requires |s| == 4 && DecodeLast(s).Some?
    ensures Encode(DecodeLast(s).value) == s
  {
    if s[3] != '=' {
      QuadOfTriple(s);
      assert Encode(Triple(s).value[3..]) == [];
    } else if s[2] != '=' {
      QuadOfTriple(s[..3] + "A");
      assert s == (s[..3] + "A")[..3] + "=";
    } else {
      QuadOfTriple(s[..2] + "AA");
      assert s == (s[..2] + "AA")[..2] + "==";
    }
  }

  /** And from nothing else: a text that decodes is the encoding of what it decodes to. */
  lemma {:induction false} EncodeOfDecode(s: string)
    requires Decode(s).Some?
    ensures Encode(Decode(s).value) == s
  {
    if |s| == 4 {
      LastWrittenBack(s);
    } else if 4 < |s| {
      QuadOfTriple(s[..4]);
      EncodeOfDecode(s[4..]);
      var b := Triple(s[..4]).value;
      assert (b + Decode(s[4..]).value)[3..] == Decode(s[4..]).value;
      assert s == s[..4] + s[4..];
    }
  }

  // ---- What is written ----

  const ALPHABET: string := "ABCDEFGHIJKLMNOPQRSTUVWXYZ" + "abcdefghijklmnopqrstuvwxyz" + "0123456789" + "+/"

  /** Three bytes from the n-th on, zeros after the last, as one number of 24 bits. */
  ghost function Group(s: seq<byte>, n: nat): (g: nat)
    ensures g < 0x100_0000
  {
    var rest := if n <= |s| then s[n..] else [];
    0x1_0000 * (if |rest| < 1 then 0 else rest[0] as int)
    + 0x100 * (if |rest| < 2 then 0 else rest[1] as int)
    + if |rest| < 3 then 0 else rest[2] as int
  }

  /** The four digits of six bits of such a number, the highest first. */
  ghost function Digit(g: nat, j: nat): (d: nat)
    requires g < 0x100_0000
    ensures d < 64
  {
    match j
    case 0 => g / 64 / 64 / 64
    case 1 => g / 64 / 64 % 64
    case 2 => g / 64 % 64
    case _ => g % 64
  }

  lemma LetterOf(d: nat)
    requires d < 64
    ensures Letter(d) == ALPHABET[d]
  {
  }

  lemma RegroupDigits(a: int, b: int, c: int)
    requires InRange(Bytes(a, b, c))
    ensures var g := 0x1_0000 * a + 0x100 * b + c;
            Regroup(Bytes(a, b, c)) == Sextets(Digit(g, 0), Digit(g, 1), Digit(g, 2), Digit(g, 3))
  {
    var x := Regroup(Bytes(a, b, c));
    var g := 0x1_0000 * a + 0x100 * b + c;
    assert g == 64 * (64 * (64 * x.p + x.q) + x.r) + x.t;
    assert g / 64 == 64 * (64 * x.p + x.q) + x.r;
    assert g / 64 / 64 == 64 * x.p + x.q;
  }

  lemma FirstQuad(s: seq<byte>, i: nat)
    requires s != [] && i < 4
    ensures 4 <= |Encode(s)|
    ensures Encode(s)[i] == if i <= |s| then Letter(Digit(Group(s, 0), i)) else '='
  {
    var b, c := if |s| < 2 then 0 as byte else s[1], if |s| < 3 then 0 as byte else s[2];
    RegroupDigits(s[0] as int, b as int, c as int);
    assert s[0..] == s;
    var quad := Quad(s[0], b, c);
    assert quad[i] == Letter(Digit(Group(s, 0), i));
  }

  lemma GroupShift(s: seq<byte>, n: nat)
    requires 3 <= |s|
    ensures Group(s, n + 3) == Group(s[3..], n)
  {
    assert n <= |s| - 3 ==> s[n + 3..] == s[3..][n..];
  }

  lemma FourMore(n: nat)
    ensures (n + 3 + 2) / 3 * 4 == (n + 2) / 3 * 4 + 4
  {
  }

  lemma LastGroup(n: nat, q: nat)
    requires 3 * q < n
    ensures 4 * q + 4 <= (n + 2) / 3 * 4
  {
  }

  lemma {:induction false} EncodeLength(s: seq<byte>)
    ensures |Encode(s)| == (|s| + 2) / 3 * 4
  {
    if 3 <= |s| {
      EncodeLength(s[3..]);
      assert Encode(s) == Quad(s[0], s[1], s[2]) + Encode(s[3..]);
      FourMore(|s| - 3);
    }
  }

  lemma {:induction false} EncodeLetters(s: seq<byte>, q: nat, j: nat)
    requires j < 4 && 4 * q + j < |Encode(s)|
    ensures Encode(s)[4 * q + j] == if 3 * q + j <= |s| then Letter(Digit(Group(s, 3 * q), j)) else '='
  {
    if q == 0 {
      FirstQuad(s, j);
    } else {
      EncodeLetters(s[3..], q - 1, j);
      GroupShift(s, 3 * (q - 1));
      assert Encode(s)[4 * q + j] == Encode(s[3..])[4 * (q - 1) + j];
    }
  }

  /** What the encoding is: of each three bytes the four digits of six bits, in the standard alphabet, as far as
      there are bytes, and equals signs to fill up the last four. */
  lemma EncodeExactly(s: seq<byte>, q: nat, j: nat)
    requires 3 * q < |s| && j < 4
    ensures |Encode(s)| == (|s| + 2) / 3 * 4 && 4 * q + j < |Encode(s)|
    ensures Encode(s)[4 * q + j] == if 3 * q + j <= |s| then ALPHABET[Digit(Group(s, 3 * q), j)] else '='
  {
    EncodeLength(s);
    LastGroup(|s|, q);
    EncodeLetters(s, q, j);
    LetterOf(Digit(Group(s, 3 * q), j));
  }
}
