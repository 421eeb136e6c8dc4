/** Escaping of a value for a basic string of an agent's TOML configuration, against the grammar of basic
    strings in the "String" section of TOML v1.0.0. */
module TomlEscape {
  import opened Prelude

  /** `char::is_control`: general category Cc. */
  predicate IsControl(c: char) {
    c <= '\U{1F}' || '\U{7F}' <= c <= '\U{9F}'
  }

  function HexDigit(d: nat): char
    requires d < 16
  {
    "0123456789ABCDEF"[d]
  }

  function FourHex(n: nat): (r: string)
    requires n < 0x1_0000
    ensures |r| == 4
  {
    [HexDigit(n / 16 / 16 / 16), HexDigit(n / 16 / 16 % 16), HexDigit(n / 16 % 16), HexDigit(n % 16)]
  }

  function EscapeChar(c: char): string {
    if c == '\\' then "\\\\"
    else if c == '\"' then "\\\""
    else if c == '\n' then "\\n"
    else if c == '\r' then "\\r"
    else if c == '\t' then "\\t"
    else if IsControl(c) then "\\u" + FourHex(c as int)
    else [c]
  }

  function Escape(value: string): string {
    if value == [] then [] else EscapeChar(value[0]) + Escape(value[1..])
  }

  method EscapeToml(value: string) returns (escaped: string)
    ensures escaped == Escape(value)
  {
    escaped := [];
    for i := 0 to |value|
      invariant escaped + Escape(value[i..]) == Escape(value)
    {
      var c := value[i];
      assert value[i..][1..] == value[i + 1..];
      assert escaped + (EscapeChar(c) + Escape(value[i + 1..])) == escaped + EscapeChar(c) + Escape(value[i + 1..]);
      match c {
        case '\\' => escaped := escaped + "\\\\";
        case '\"' => escaped := escaped + "\\\"";
        case '\n' => escaped := escaped + "\\n";
        case '\r' => escaped := escaped + "\\r";
        case '\t' => escaped := escaped + "\\t";
        case _ =>
          if IsControl(c) {
            escaped := escaped + ("\\u" + FourHex(c as int));
          } else {
            escaped := escaped + [c];
          }
      }
    }
  }

  // ---- Reading a basic string ----

  /** basic-unescaped */
  predicate Plain(c: char) {
    c == '\t' || c == ' ' || c == '!' || '#' <= c <= '[' || ']' <= c <= '~' || '\U{80}' <= c
  }

  function HexValue(c: char): Option<nat> {
    if '0' <= c <= '9' then Some(c as int - '0' as int)
    else if 'A' <= c <= 'F' then Some(c as int - 'A' as int + 10)
    else if 'a' <= c <= 'f' then Some(c as int - 'a' as int + 10)
    else None
  }

  /** The number written by four hexadecimal digits. */
  function HexNumber(s: string): Option<nat>
    requires |s| == 4
  {
    match (HexValue(s[0]), HexValue(s[1]), HexValue(s[2]), HexValue(s[3]))
    case (Some(a), Some(b), Some(c), Some(d)) => Some(16 * (16 * (16 * a + b) + c) + d)
    case _ => None
  }

  function LongHexNumber(s: string): Option<nat>
    requires |s| == 8
  {
    match (HexNumber(s[..4]), HexNumber(s[4..]))
    case (Some(high), Some(low)) => Some(0x1_0000 * high + low)
    case _ => None
  }

  /** Only Unicode scalar values may be written. */
  function Scalar(n: Option<nat>): Option<char> {
    if n.Some? && (n.value < 0xD800 || 0xE000 <= n.value < 0x11_0000) then Some(n.value as char) else None
  }

  /** The character that follows the backslash at the head of an escape, and how long the escape is. */
  function ReadEscape(s: string): Option<(char, nat)>
    requires 1 < |s|
  {
    match s[1]
    case '\"' => Some(('\"', 2))
    case '\\' => Some(('\\', 2))
    case 'b' => Some(('\U{8}', 2))
    case 'f' => Some(('\U{C}', 2))
    case 'n' => Some(('\n', 2))
    case 'r' => Some(('\r', 2))
    case 't' => Some(('\t', 2))
    case 'u' =>
      if |s| < 6 then None else (match Scalar(HexNumber(s[2..6])) case Some(c) => Some((c, 6)) case None => None)
    case 'U' =>
      if |s| < 10 then None else (match Scalar(LongHexNumber(s[2..10])) case Some(c) => Some((c, 10)) case None => None)
    case _ => None
  }

  /** The value and the rest of the text, from after the opening quotation mark. */
  function ReadChars(s: string): Option<(string, string)>
    decreases |s|
  {
    if s == [] then None
    else if s[0] == '\"' then Some(([], s[1..]))
    else if s[0] == '\\' then
      if |s| == 1 then None
      else
        match ReadEscape(s)
        case None => None
        case Some((c, n)) =>
          match ReadChars(s[n..])
          case Some((value, rest)) => Some(([c] + value, rest))
          case None => None
    else if Plain(s[0]) then
      match ReadChars(s[1..])
      case Some((value, rest)) => Some(([s[0]] + value, rest))
      case None => None
    else None
  }

  function ReadBasicString(s: string): Option<(string, string)> {
    if s != [] && s[0] == '\"' then ReadChars(s[1..]) else None
  }

  lemma HexDigitValue(d: nat)
    requires d < 16
    ensures HexValue(HexDigit(d)) == Some(d)
  {
  }

  lemma HexReadBack(n: nat)
    requires n < 0x1_0000
    ensures HexNumber(FourHex(n)) == Some(n)
  {
    var n1, n2, n3 := n / 16, n / 16 / 16, n / 16 / 16 / 16;
    HexDigitValue(n3);
    HexDigitValue(n2 % 16);
    HexDigitValue(n1 % 16);
    HexDigitValue(n % 16);
    assert 16 * n3 + n2 % 16 == n2 && 16 * n2 + n1 % 16 == n1 && 16 * n1 + n % 16 == n;
  }

  lemma UnicodeReadBack(c: char, tail: string)
    requires c < '\U{100}' && ReadChars(tail).Some?
    ensures ReadChars("\\u" + FourHex(c as int) + tail) ==
      Some(([c] + ReadChars(tail).value.0, ReadChars(tail).value.1))
  {
    var s := "\\u" + FourHex(c as int) + tail;
    HexReadBack(c as int);
    assert s[2..6] == FourHex(c as int) && s[6..] == tail;
    assert ReadEscape(s) == Some((c, 6));
  }

  /** Reading back one escaped character. */
  lemma CharReadBack(c: char, tail: string)
    requires ReadChars(tail).Some?
    ensures ReadChars(EscapeChar(c) + tail) == Some(([c] + ReadChars(tail).value.0, ReadChars(tail).value.1))
  {
    var s := EscapeChar(c) + tail;
    if c == '\\' || c == '\"' || c == '\n' || c == '\r' || c == '\t' {
      assert s[2..] == tail;
    } else if IsControl(c) {
      UnicodeReadBack(c, tail);
    } else {
      assert s[1..] == tail;
    }
  }

  lemma ConcatAssociative(a: string, b: string, c: string)
    ensures a + b + c == a + (b + c)
  {
  }

  lemma {:induction false} CharsReadBack(value: string, rest: string)
    ensures ReadChars(Escape(value) + ("\"" + rest)) == Some((value, rest))
  {
    var end := "\"" + rest;
    if value == [] {
      assert Escape(value) + end == end && end[1..] == rest;
    } else {
      CharsReadBack(value[1..], rest);
      CharReadBack(value[0], Escape(value[1..]) + end);
      ConcatAssociative(EscapeChar(value[0]), Escape(value[1..]), end);
      assert [value[0]] + value[1..] == value;
    }
  }

  /** Whatever the value, the quoted text is read as one basic string, up to its end and not beyond, and
      gives the value back. */
  lemma RoundTrip(value: string, rest: string)
    ensures ReadBasicString("\"" + Escape(value) + "\"" + rest) == Some((value, rest))
  {
    var s := "\"" + Escape(value) + "\"" + rest;
    assert s[1..] == Escape(value) + ("\"" + rest);
    CharsReadBack(value, rest);
  }

  // ---- What is written ----

  /** Text without control characters, quotation marks and backslashes is written as it is. */
  lemma {:induction false} PlainKept(value: string)
    requires forall c :: c in value ==> ' ' <= c && !('\U{7F}' <= c <= '\U{9F}') && c != '\"' && c != '\\'
    ensures Escape(value) == value
  {
    if value != [] {
      assert forall c :: c in value[1..] ==> c in value;
      assert value[0] in value && value == [value[0]] + value[1..];
      PlainKept(value[1..]);
    }
  }

  lemma DigitWritten(d: nat)
    requires d < 16
    ensures ' ' <= HexDigit(d) < '\U{7F}'
  {
  }

  /** No control character is ever written raw. */
  lemma {:induction false} NothingRaw(value: string)
    ensures forall c :: c in Escape(value) ==> ' ' <= c && !('\U{7F}' <= c <= '\U{9F}')
  {
    if value != [] {
      NothingRaw(value[1..]);
      forall d: nat | d < 16 ensures ' ' <= HexDigit(d) < '\U{7F}' {
        DigitWritten(d);
      }
    }
  }

  lemma EscapeOne(c: char)
    ensures Escape([c]) == EscapeChar(c)
  {
    assert [c][1..] == [];
  }

  /** The five characters with an escape of their own, */
  lemma ShortEscapes()
    ensures Escape("\\") == "\\\\" && Escape("\"") == "\\\""
    ensures Escape("\n") == "\\n" && Escape("\r") == "\\r" && Escape("\t") == "\\t"
  {
    EscapeOne('\\');
    EscapeOne('\"');
    EscapeOne('\n');
    EscapeOne('\r');
    EscapeOne('\t');
  }

  /** and two of the others. */
  lemma LongEscapes()
    ensures Escape("\U{1F}") == "\\u001F" && Escape("\U{85}") == "\\u0085"
  {
    EscapeOne('\U{1F}');
    EscapeOne('\U{85}');
    assert FourHex(0x1F) == "001F" && FourHex(0x85) == "0085";
  }
}
