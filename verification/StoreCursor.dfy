/** Page cursors of the store list: an id inside a JSON object, written as
    unpadded base64url (section 5 of RFC 4648), and read back under limits on
    the length of the cursor and of the id. */
module StoreCursor {
  import opened Options

  type byte = x: int | 0 <= x < 256

  // ---------------------------------------------------------------------
  // UTF-8
  // ---------------------------------------------------------------------

  function CharBytes(c: char): seq<byte> {
    var n := c as int;
    if n < 0x80 then [n]
    else if n < 0x800 then [0xC0 + n / 64, 0x80 + n % 64]
    else if n < 0x1_0000 then [0xE0 + n / 4096, 0x80 + n / 64 % 64, 0x80 + n % 64]
    else [0xF0 + n / 262144, 0x80 + n / 4096 % 64, 0x80 + n / 64 % 64, 0x80 + n % 64]
  }

  function Utf8(s: string): seq<byte> {
    if s == "" then [] else CharBytes(s[0]) + Utf8(s[1..])
  }

  /** The code point that some bytes start with, and how many bytes it takes. */
  function CodePoint(b: seq<byte>): (r: Option<(int, nat)>)
    ensures r.Some? ==> 0 < r.value.1 <= |b|
  {
    if b == [] then None
    else
      var lead: int := b[0];
      if lead < 0x80 then Some((lead, 1))
      else if lead < 0xE0 && |b| >= 2 then
        var n: int := (lead - 0xC0) * 64 + (b[1] as int - 0x80);
        Some((n, 2))
      else if 0xE0 <= lead < 0xF0 && |b| >= 3 then
        var n: int := (lead - 0xE0) * 4096 + (b[1] as int - 0x80) * 64 + (b[2] as int - 0x80);
        Some((n, 3))
      else if 0xF0 <= lead && |b| >= 4 then
        var n: int :=
          (lead - 0xF0) * 262144 + (b[1] as int - 0x80) * 4096 + (b[2] as int - 0x80) * 64 + (b[3] as int - 0x80);
        Some((n, 4))
      else None
  }

  predicate Scalar(n: int) {
    0 <= n < 0xD800 || 0xE000 <= n < 0x11_0000
  }

  /** The text of some bytes, when they are its UTF-8 encoding. */
  function FromUtf8(b: seq<byte>): Option<string> {
    if b == [] then Some("")
    else match CodePoint(b)
      case None => None
      case Some((n, size)) =>
        if !Scalar(n) || CharBytes(n as char) != b[..size] then None
        else match FromUtf8(b[size..])
          case None => None
          case Some(rest) => Some([n as char] + rest)
  }

  lemma CharBytesSize(c: char)
    ensures 1 <= |CharBytes(c)| <= 4
  {
  }

  lemma ShortCharReads(c: char, rest: seq<byte>)
    requires (c as int) < 0x1_0000
    ensures CodePoint(CharBytes(c) + rest) == Some((c as int, |CharBytes(c)|))
  {
    var n := c as int;
    assert n / 4096 == n / 64 / 64;
    assert n == n / 64 * 64 + n % 64;
    assert n / 64 == n / 64 / 64 * 64 + n / 64 % 64;
  }

  lemma LongCharReads(c: char, rest: seq<byte>)
    requires (c as int) >= 0x1_0000
    ensures CodePoint(CharBytes(c) + rest) == Some((c as int, |CharBytes(c)|))
  {
    var n := c as int;
    assert n / 4096 == n / 64 / 64 && n / 262144 == n / 64 / 64 / 64;
    assert n == n / 64 * 64 + n % 64;
    assert n / 64 == n / 64 / 64 * 64 + n / 64 % 64;
    assert n / 4096 == n / 4096 / 64 * 64 + n / 4096 % 64;
  }

  lemma {:induction false} Utf8Reads(s: string)
    ensures FromUtf8(Utf8(s)) == Some(s)
  {
    if s != "" {
      var first, rest := CharBytes(s[0]), Utf8(s[1..]);
      if (s[0] as int) < 0x1_0000 { ShortCharReads(s[0], rest); } else { LongCharReads(s[0], rest); }
      assert (first + rest)[..|first|] == first && (first + rest)[|first|..] == rest;
      Utf8Reads(s[1..]);
      assert s == [s[0]] + s[1..];
    }
  }

  lemma {:induction false} Utf8Append(a: string, b: string)
    ensures Utf8(a + b) == Utf8(a) + Utf8(b)
  {
    if a == "" {
      assert a + b == b;
    } else {
      assert (a + b)[0] == a[0] && (a + b)[1..] == a[1..] + b;
      Utf8Append(a[1..], b);
    }
  }

  // ---------------------------------------------------------------------
  // Unpadded base64url
  // ---------------------------------------------------------------------

  function Digit(n: int): char
    requires 0 <= n < 64
  {
    if n < 26 then 'A' + n as char
    else if n < 52 then 'a' + (n - 26) as char
    else if n < 62 then '0' + (n - 52) as char
    else if n == 62 then '-'
    else '_'
  }

  function Value(c: char): Option<int> {
    if 'A' <= c <= 'Z' then Some(c as int - 'A' as int)
    else if 'a' <= c <= 'z' then Some(c as int - 'a' as int + 26)
    else if '0' <= c <= '9' then Some(c as int - '0' as int + 52)
    else if c == '-' then Some(62)
    else if c == '_' then Some(63)
    else None
  }

  lemma ValueOfDigit(n: int)
    requires 0 <= n < 64
    ensures Value(Digit(n)) == Some(n)
  {
  }

  /** The four digits of three bytes. */
  function Digits3(x: byte, y: byte, z: byte): string {
    [Digit(x / 4), Digit(x % 4 * 16 + y / 16), Digit(y % 16 * 4 + z / 64), Digit(z % 64)]
  }

  function Base64(b: seq<byte>): string {
    if b == [] then ""
    else if |b| == 1 then [Digit(b[0] / 4), Digit(b[0] % 4 * 16)]
    else if |b| == 2 then [Digit(b[0] / 4), Digit(b[0] % 4 * 16 + b[1] / 16), Digit(b[1] % 16 * 4)]
    else Digits3(b[0], b[1], b[2]) + Base64(b[3..])
  }

  /** The bytes of up to four digits: spare low bits are ignored. */
  function Quantum(a: int, b: int, c: int, d: int): (r: seq<byte>)
    requires 0 <= a < 64 && 0 <= b < 64 && 0 <= c < 64 && 0 <= d < 64
    ensures |r| == 3
  {
    [a * 4 + b / 16, b % 16 * 16 + c / 4, c % 4 * 64 + d]
  }

  function ValueAt(s: string, i: nat): (r: Option<int>)
    ensures r.Some? ==> 0 <= r.value < 64
  {
    if i < |s| then Value(s[i]) else Some(0)
  }

  function FromBase64(s: string): Option<seq<byte>> {
    if s == "" then Some([])
    else if |s| == 1 then None
    else
      var a, b, c, d := ValueAt(s, 0), ValueAt(s, 1), ValueAt(s, 2), ValueAt(s, 3);
      if a == None || b == None || c == None || d == None then None
      else
        var bytes := Quantum(a.value, b.value, c.value, d.value);
        if |s| <= 4 then Some(bytes[..|s| - 1])
        else match FromBase64(s[4..])
          case None => None
          case Some(rest) => Some(bytes + rest)
  }

  /** Line ends inside base64 text are skipped. */
  function WithoutLineEnds(s: string): string {
    if s == "" then "" else (if s[0] == '\n' || s[0] == '\r' then "" else [s[0]]) + WithoutLineEnds(s[1..])
  }

  lemma DigitsRead(x: byte, y: byte, z: byte)
    ensures Value(Digit(x / 4)) == Some(x / 4)
    ensures Value(Digit(x % 4 * 16 + y / 16)) == Some(x % 4 * 16 + y / 16)
    ensures Value(Digit(y % 16 * 4 + z / 64)) == Some(y % 16 * 4 + z / 64)
    ensures Value(Digit(z % 64)) == Some(z % 64)
  {
    hide Value, Digit;
    ValueOfDigit(x / 4);
    ValueOfDigit(x % 4 * 16 + y / 16);
    ValueOfDigit(y % 16 * 4 + z / 64);
    ValueOfDigit(z % 64);
  }

  lemma QuantumReads(x: byte, y: byte, z: byte)
    ensures Quantum(x / 4, x % 4 * 16 + y / 16, y % 16 * 4 + z / 64, z % 64) == [x, y, z]
  {
  }

  /** The last one or two bytes are read as if zeros followed. */
  lemma OneByteReads(x: byte)
    ensures FromBase64([Digit(x / 4), Digit(x % 4 * 16)]) == Some([x])
  {
    hide Value, Digit, Quantum;
    DigitsRead(x, 0, 0);
    QuantumReads(x, 0, 0);
    assert [x, 0, 0][..1] == [x];
  }

  lemma TwoBytesRead(x: byte, y: byte)
    ensures FromBase64([Digit(x / 4), Digit(x % 4 * 16 + y / 16), Digit(y % 16 * 4)]) == Some([x, y])
  {
    hide Value, Digit, Quantum;
    DigitsRead(x, y, 0);
    QuantumReads(x, y, 0);
    assert [x, y, 0][..2] == [x, y];
  }

  lemma NothingReads()
    ensures FromBase64(Base64([])) == Some([])
  {
  }

  lemma FourDigitsRead(digits: string, a: int, b: int, c: int, d: int, rest: string)
    requires 0 <= a < 64 && 0 <= b < 64 && 0 <= c < 64 && 0 <= d < 64
    requires |digits| == 4 && Value(digits[0]) == Some(a) && Value(digits[1]) == Some(b)
    requires Value(digits[2]) == Some(c) && Value(digits[3]) == Some(d)
    requires FromBase64(rest).Some?
    ensures FromBase64(digits + rest) == Some(Quantum(a, b, c, d) + FromBase64(rest).value)
  {
    hide Value, Quantum;
    var s, bytes := digits + rest, Quantum(a, b, c, d);
    assert ValueAt(s, 0) == Some(a) && ValueAt(s, 1) == Some(b) && ValueAt(s, 2) == Some(c) && ValueAt(s, 3) == Some(d);
    assert s[4..] == rest;
    assert bytes[..3] == bytes == bytes + [];
  }

  lemma {:induction false} GroupReads(x: byte, y: byte, z: byte, rest: string)
    requires FromBase64(rest).Some?
    ensures FromBase64(Digits3(x, y, z) + rest) == Some([x, y, z] + FromBase64(rest).value)
  {
    hide Value, Digit, Quantum, FromBase64;
    DigitsRead(x, y, z);
    QuantumReads(x, y, z);
    var a, b, c, d := x / 4, x % 4 * 16 + y / 16, y % 16 * 4 + z / 64, z % 64;
    FourDigitsRead(Digits3(x, y, z), a, b, c, d, rest);
  }

  lemma FirstThree<T>(b: seq<T>)
    requires |b| >= 3
    ensures b == [b[0], b[1], b[2]] + b[3..]
  {
  }

  lemma {:induction false} Base64Reads(b: seq<byte>)
    ensures FromBase64(Base64(b)) == Some(b)
  {
    if |b| >= 3 {
      hide Digit, Digits3, Value, FromBase64;
      FirstThree(b);
      Base64Reads(b[3..]);
      GroupReads(b[0], b[1], b[2], Base64(b[3..]));
    } else {
      hide Digit, Value, FromBase64;
      if |b| == 1 {
        OneByteReads(b[0]);
        assert b == [b[0]];
      } else if |b| == 2 {
        TwoBytesRead(b[0], b[1]);
        assert b == [b[0], b[1]];
      } else {
        NothingReads();
      }
    }
  }

  lemma {:induction false} Base64Shape(b: seq<byte>)
    ensures |Base64(b)| == (4 * |b| + 2) / 3
    ensures forall i :: 0 <= i < |Base64(b)| ==> Value(Base64(b)[i]).Some?
  {
    if |b| >= 3 { Base64Shape(b[3..]); }
  }

  lemma {:induction false} NoLineEnds(s: string)
    requires forall i :: 0 <= i < |s| ==> Value(s[i]).Some?
    ensures WithoutLineEnds(s) == s
  {
    if s != "" {
      NoLineEnds(s[1..]);
      assert s == [s[0]] + s[1..];
    }
  }

  // ---------------------------------------------------------------------
  // JSON strings
  // ---------------------------------------------------------------------

  function HexDigit(n: int): char
    requires 0 <= n < 16
  {
    if n < 10 then '0' + n as char else 'a' + (n - 10) as char
  }

  function HexValue(c: char): (r: Option<int>)
    ensures r.Some? ==> 0 <= r.value < 16
  {
    if '0' <= c <= '9' then Some(c as int - '0' as int)
    else if 'a' <= c <= 'f' then Some(c as int - 'a' as int + 10)
    else if 'A' <= c <= 'F' then Some(c as int - 'A' as int + 10)
    else None
  }

  function Hex4(n: int): string
    requires 0 <= n < 0x1_0000
  {
    [HexDigit(n / 4096), HexDigit(n / 256 % 16), HexDigit(n / 16 % 16), HexDigit(n % 16)]
  }

  function FromHex4(s: string): (r: Option<int>)
    requires |s| >= 4
  {
    var a, b, c, d := HexValue(s[0]), HexValue(s[1]), HexValue(s[2]), HexValue(s[3]);
    if a == None || b == None || c == None || d == None then None
    else Some(a.value * 4096 + b.value * 256 + c.value * 16 + d.value)
  }

  /** Characters written as `\u` and four digits: control characters without a
      short form, the characters special in HTML, and two line separators. */
  predicate Numbered(c: char) {
    ((c as int) < 0x20 && c != '\U{8}' && c != '\U{c}' && c != '\n' && c != '\r' && c != '\t')
    || c == '<' || c == '>' || c == '&' || c == '\U{2028}' || c == '\U{2029}'
  }

  function Escape(c: char): string {
    if c == '"' then "\\\""
    else if c == '\\' then "\\\\"
    else if c == '\U{8}' then "\\b"
    else if c == '\U{c}' then "\\f"
    else if c == '\n' then "\\n"
    else if c == '\r' then "\\r"
    else if c == '\t' then "\\t"
    else if Numbered(c) then "\\u" + Hex4(c as int)
    else [c]
  }

  function Escaped(s: string): string {
    if s == "" then "" else Escape(s[0]) + Escaped(s[1..])
  }

  /** The character that an escape stands for, without its backslash, and the
      length of the escape. Escapes of surrogates are not read. */
  function ReadEscape(t: string): (r: Option<(char, nat)>)
    ensures r.Some? ==> r.value.1 <= |t|
  {
    if t == "" then None
    else if t[0] == '"' || t[0] == '\\' || t[0] == '/' then Some((t[0], 1))
    else if t[0] == 'b' then Some(('\U{8}', 1))
    else if t[0] == 'f' then Some(('\U{c}', 1))
    else if t[0] == 'n' then Some(('\n', 1))
    else if t[0] == 'r' then Some(('\r', 1))
    else if t[0] == 't' then Some(('\t', 1))
    else if t[0] == 'u' && |t| >= 5 then
      match FromHex4(t[1..])
      case None => None
      case Some(n) => if Scalar(n) then Some((n as char, 5)) else None
    else None
  }

  /** Reads up to the closing quote; gives the string and what follows it. */
  function ReadString(t: string): Option<(string, string)>
    decreases |t|
  {
    if t == "" || (t[0] as int) < 0x20 then None
    else if t[0] == '"' then Some(("", t[1..]))
    else if t[0] != '\\' then
      match ReadString(t[1..])
      case None => None
      case Some((s, rest)) => Some(([t[0]] + s, rest))
    else match ReadEscape(t[1..])
      case None => None
      case Some((c, size)) =>
        match ReadString(t[1 + size..])
        case None => None
        case Some((s, rest)) => Some(([c] + s, rest))
  }

  lemma HexReads(d: int)
    requires 0 <= d < 16
    ensures HexValue(HexDigit(d)) == Some(d)
  {
  }

  lemma HexSplit(n: int)
    requires 0 <= n < 0x1_0000
    ensures n / 4096 * 4096 + n / 256 % 16 * 256 + n / 16 % 16 * 16 + n % 16 == n
  {
    assert n == n / 16 * 16 + n % 16;
    assert n / 16 == n / 256 * 16 + n / 16 % 16;
    assert n / 256 == n / 4096 * 16 + n / 256 % 16;
  }

  lemma Hex4Reads(n: int, rest: string)
    requires 0 <= n < 0x1_0000
    ensures FromHex4(Hex4(n) + rest) == Some(n)
  {
    hide HexValue, HexDigit;
    HexReads(n / 4096);
    HexReads(n / 256 % 16);
    HexReads(n / 16 % 16);
    HexReads(n % 16);
    HexSplit(n);
  }

  lemma NumberedReads(c: char, rest: string)
    requires Numbered(c)
    ensures ReadEscape("u" + Hex4(c as int) + rest) == Some((c, 5))
  {
    var t := "u" + Hex4(c as int) + rest;
    Hex4Reads(c as int, rest);
    assert t[1..] == Hex4(c as int) + rest;
  }

  /** An escaped character is read back, whatever follows. */
  lemma EscapeReads(c: char, rest: string)
    requires ReadString(rest).Some?
    ensures ReadString(Escape(c) + rest) == Some(([c] + ReadString(rest).value.0, ReadString(rest).value.1))
  {
    var t := Escape(c) + rest;
    if Numbered(c) {
      NumberedReads(c, rest);
      hide Hex4, FromHex4;
      assert t[1..] == "u" + Hex4(c as int) + rest;
      assert |Hex4(c as int)| == 4 by { HexLength(c as int); }
      assert t[6..] == rest;
    } else if |Escape(c)| == 2 {
      assert t[1..] == [Escape(c)[1]] + rest;
      assert t[2..] == rest;
    } else {
      assert t[1..] == rest;
    }
  }

  lemma HexLength(n: int)
    requires 0 <= n < 0x1_0000
    ensures |Hex4(n)| == 4
  {
  }

  lemma {:induction false} StringReads(s: string, rest: string)
    ensures ReadString(Escaped(s) + "\"" + rest) == Some((s, rest))
  {
    if s == "" {
      QuoteCloses(rest);
      assert Escaped(s) + "\"" == "\"";
    } else {
      EscapedSplits(s, rest);
      hide Escape, Escaped, ReadString;
      StringReads(s[1..], rest);
      EscapeReads(s[0], Escaped(s[1..]) + "\"" + rest);
      assert s == [s[0]] + s[1..];
    }
  }

  lemma QuoteCloses(rest: string)
    ensures ReadString("\"" + rest) == Some(("", rest))
  {
    assert ("\"" + rest)[1..] == rest;
  }

  lemma EscapedSplits(s: string, rest: string)
    requires s != ""
    ensures Escaped(s) + "\"" + rest == Escape(s[0]) + (Escaped(s[1..]) + "\"" + rest)
  {
    hide Escape;
  }

  // ---------------------------------------------------------------------
  // Trimming
  // ---------------------------------------------------------------------

  predicate Space(c: char) {
    c == ' ' || '\t' <= c <= '\r' || c == '\U{85}' || c == '\U{a0}' || c == '\U{1680}' || '\U{2000}' <= c <= '\U{200a}'
    || c == '\U{2028}' || c == '\U{2029}' || c == '\U{202f}' || c == '\U{205f}' || c == '\U{3000}'
  }

  function Trim(s: string): string {
    if s == "" then ""
    else if Space(s[0]) then Trim(s[1..])
    else if Space(s[|s| - 1]) then Trim(s[..|s| - 1])
    else s
  }

  predicate Trimmed(s: string) {
    s == "" || (!Space(s[0]) && !Space(s[|s| - 1]))
  }

  lemma {:induction false} TrimTrims(s: string)
    ensures Trimmed(Trim(s))
    ensures Trimmed(s) ==> Trim(s) == s
  {
    if s == "" {
    } else if Space(s[0]) {
      TrimTrims(s[1..]);
    } else if Space(s[|s| - 1]) {
      TrimTrims(s[..|s| - 1]);
    }
  }

  // ---------------------------------------------------------------------
  // Cursors
  // ---------------------------------------------------------------------

  const CURSOR_LIMIT := 2048
  const ID_LIMIT := 255

  const OPENING := "{\"v\":1,\"after_id\":\""

  datatype Decoded = After(id: string) | InvalidCursor

  function ObjectText(id: string): string {
    OPENING + Escaped(id) + "\"}"
  }

  function Encode(afterId: string): string {
    Base64(Utf8(ObjectText(Trim(afterId))))
  }

  /** The object the cursor holds: only the layout that encoding writes is read. */
  function ReadObject(text: string): Option<string> {
    if !(OPENING <= text) then None
    else match ReadString(text[|OPENING|..])
      case None => None
      case Some((id, rest)) => if rest == "}" then Some(id) else None
  }

  /** The empty cursor stands for the first page. */
  function Decode(cursor: string): Decoded {
    var c := Trim(cursor);
    if c == "" then After("")
    else if |Utf8(c)| > CURSOR_LIMIT then InvalidCursor
    else match FromBase64(WithoutLineEnds(c))
      case None => InvalidCursor
      case Some(payload) =>
        match FromUtf8(payload)
        case None => InvalidCursor
        case Some(text) =>
          match ReadObject(text)
          case None => InvalidCursor
          case Some(id) =>
            if Trim(id) == "" || id != Trim(id) || |Utf8(id)| > ID_LIMIT then InvalidCursor else After(id)
  }

  lemma {:induction false} DigitsAreShort(s: string)
    requires forall i :: 0 <= i < |s| ==> Value(s[i]).Some?
    ensures |Utf8(s)| == |s|
  {
    if s != "" { DigitsAreShort(s[1..]); }
  }

  lemma DigitsAreNoSpace(s: string)
    requires forall i :: 0 <= i < |s| ==> Value(s[i]).Some?
    ensures Trimmed(s)
  {
  }

  /** An encoded cursor has no space to trim and one byte a character. */
  lemma {:induction false} EncodedShape(payload: seq<byte>)
    ensures var c := Base64(payload);
      Trim(c) == c && |Utf8(c)| == |c| == (4 * |payload| + 2) / 3 && WithoutLineEnds(c) == c
  {
    hide *;
    var c := Base64(payload);
    Base64Shape(payload);
    DigitsAreShort(c);
    NoLineEnds(c);
    DigitsAreNoSpace(c);
    TrimTrims(c);
  }

  lemma ObjectReads(id: string)
    ensures ReadObject(ObjectText(id)) == Some(id)
  {
    var text := ObjectText(id);
    StringReads(id, "}");
    assert text[|OPENING|..] == Escaped(id) + "\"" + "}";
  }

  /** The object takes 21 bytes beside the escaped id. */
  lemma ObjectSize(id: string)
    ensures |Utf8(ObjectText(id))| == 21 + |Utf8(Escaped(id))|
  {
    hide Utf8, Escaped;
    assert |OPENING| == 19;
    FramedSize(OPENING, Escaped(id), "\"}");
  }

  lemma FramedSize(before: string, middle: string, after: string)
    requires forall i :: 0 <= i < |before| ==> (before[i] as int) < 0x80
    requires forall i :: 0 <= i < |after| ==> (after[i] as int) < 0x80
    ensures |Utf8(before + middle + after)| == |before| + |Utf8(middle)| + |after|
  {
    Utf8Append(before + middle, after);
    Utf8Append(before, middle);
    AsciiSize(before);
    AsciiSize(after);
  }

  lemma {:induction false} AsciiSize(s: string)
    requires forall i :: 0 <= i < |s| ==> (s[i] as int) < 0x80
    ensures |Utf8(s)| == |s|
  {
    if s != "" { AsciiSize(s[1..]); }
  }

  /** Decoding what was encoded gives the trimmed id back exactly when the id is
      not blank and both it and its cursor are within their limits; beyond a
      limit the service refuses the cursor it handed out itself. */
  lemma {:induction false} RoundTrip(id: string)
    ensures var t := Trim(id);
      Decode(Encode(id)) ==
        if t != "" && |Utf8(t)| <= 255 && |Encode(id)| <= 2048 then After(t) else InvalidCursor
  {
    hide Base64, Utf8, FromBase64, FromUtf8, WithoutLineEnds, ReadObject, ObjectText, Trim;
    var t := Trim(id);
    var text := ObjectText(t);
    EncodedShape(Utf8(text));
    Base64Reads(Utf8(text));
    Utf8Reads(text);
    ObjectReads(t);
    ObjectSize(t);
    TrimTrims(id);
    TrimTrims(t);
  }

  // ---------------------------------------------------------------------
  // Which ids fit
  // ---------------------------------------------------------------------

  lemma Utf8One(c: char)
    ensures Utf8([c]) == CharBytes(c)
  {
    assert [c][1..] == "";
    assert CharBytes(c) + [] == CharBytes(c);
  }

  /** Escaping makes at most six bytes of one. */
  lemma EscapeSize(c: char)
    ensures |Utf8(Escape(c))| <= 6 * |CharBytes(c)|
    ensures Numbered(c) ==> |Utf8(Escape(c))| == 6
    ensures Escape(c) == [c] ==> |Utf8(Escape(c))| == |CharBytes(c)|
  {
    CharBytesSize(c);
    if Escape(c) == [c] { Utf8One(c); } else { AsciiSize(Escape(c)); }
  }

  lemma {:induction false} EscapedSize(s: string)
    ensures |Utf8(Escaped(s))| <= 6 * |Utf8(s)|
    ensures (forall i :: 0 <= i < |s| ==> Numbered(s[i])) ==> |Utf8(Escaped(s))| == 6 * |s|
    ensures (forall i :: 0 <= i < |s| ==> Escape(s[i]) == [s[i]]) ==> |Utf8(Escaped(s))| == |Utf8(s)|
  {
    if s != "" {
      hide Escape, Numbered;
      EscapeSize(s[0]);
      EscapedSize(s[1..]);
      Utf8Append(Escape(s[0]), Escaped(s[1..]));
    }
  }

  /** Three bytes take four characters. */
  lemma {:induction false} EncodedSize(id: string)
    ensures |Encode(id)| == (4 * (21 + |Utf8(Escaped(Trim(id)))|) + 2) / 3
  {
    hide Base64, Utf8, ObjectText, Escaped, Trim;
    ObjectSize(Trim(id));
    Base64Shape(Utf8(ObjectText(Trim(id))));
  }

  /** Every trimmed, non-blank id of at most 252 bytes comes back. */
  lemma {:induction false} ShortIdsComeBack(id: string)
    requires Trimmed(id) && id != "" && |Utf8(id)| <= 252
    ensures Decode(Encode(id)) == After(id)
  {
    RoundTrip(id);
    TrimTrims(id);
    EncodedSize(id);
    EscapedSize(id);
  }

  /** An id without characters to escape comes back up to the limit on ids. */
  lemma {:induction false} PlainIdsComeBack(id: string)
    requires Trimmed(id) && id != "" && forall i :: 0 <= i < |id| ==> Escape(id[i]) == [id[i]]
    ensures Decode(Encode(id)) == After(id) <==> |Utf8(id)| <= 255
  {
    hide Escape;
    RoundTrip(id);
    TrimTrims(id);
    EncodedSize(id);
    EscapedSize(id);
  }

  /** 252 is the best bound: 253 control characters, each escaped to six
      characters, make a cursor of 2052. */
  lemma {:induction false} LongerIdMayNotComeBack(id: string)
    requires |id| == 253 && forall i :: 0 <= i < |id| ==> id[i] == '\U{1}'
    ensures Trimmed(id) && |Utf8(id)| == 253 && |Encode(id)| == 2052
    ensures Decode(Encode(id)) == InvalidCursor
  {
    RoundTrip(id);
    TrimTrims(id);
    AsciiSize(id);
    EncodedSize(id);
    EscapedSize(id);
  }
}
