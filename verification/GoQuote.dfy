/** Go's `%q` verb on a string, as far as the decision which runes are printable
    goes; that decision is part of the input. */
module GoQuote {
  import opened NginxLexer

  /** One step of decoding the string: an ASCII byte, the bytes of a printable
      rune, an unprintable rune, or a byte that is not valid UTF-8. */
  datatype AnyRune = Ascii(c: char) | Shown(bytes: string) | Hidden(code: nat) | Invalid(byte: nat)

  predicate WellFormed(r: AnyRune) {
    match r
    case Ascii(c) => c as int < 0x80
    case Shown(bytes) => bytes != "" && forall k :: 0 <= k < |bytes| ==> 0x80 <= bytes[k] as int < 0x100
    case Hidden(code) => 0x80 <= code < 0x11_0000
    case Invalid(byte) => 0x80 <= byte < 0x100
  }

  type Rune = r: AnyRune | WellFormed(r) witness Ascii('a')

  function HexDigit(n: nat): char
    requires n < 16
  {
    if n < 10 then '0' + (n as char) else 'a' + ((n - 10) as char)
  }

  /** The last `digits` hexadecimal digits. */
  function Hex(n: nat, digits: nat): string {
    if digits == 0 then "" else Hex(n / 16, digits - 1) + [HexDigit(n % 16)]
  }

  function EscapeAscii(c: char): string
    requires c as int < 0x80
  {
    var n := c as int;
    if c == '"' || c == '\\' then ['\\', c]
    else if n == 7 then "\\a"
    else if n == 8 then "\\b"
    else if n == 9 then "\\t"
    else if n == 10 then "\\n"
    else if n == 11 then "\\v"
    else if n == 12 then "\\f"
    else if n == 13 then "\\r"
    else if n < 32 || n == 127 then "\\x" + Hex(n, 2)
    else [c]
  }

  function EscapeRune(r: Rune): string {
    match r
    case Ascii(c) => EscapeAscii(c)
    case Shown(bytes) => bytes
    case Hidden(code) => if code < 0x1_0000 then "\\u" + Hex(code, 4) else "\\U" + Hex(code, 8)
    case Invalid(byte) => "\\x" + Hex(byte, 2)
  }

  function Escape(s: seq<Rune>): string {
    if s == [] then "" else EscapeRune(s[0]) + Escape(s[1..])
  }

  function Quoted(s: seq<Rune>): string {
    "\"" + Escape(s) + "\""
  }

  /** Characters that neither escape nor close. */
  predicate Inert(w: string) {
    forall k :: 0 <= k < |w| ==> w[k] != '"' && w[k] != '\\'
  }

  lemma {:induction false} InertCloses(w: string, rest: string)
    requires Inert(w) && Closes(rest, '"')
    ensures Closes(w + rest, '"')
  {
    if w == "" {
      assert w + rest == rest;
    } else {
      InertCloses(w[1..], rest);
      assert (w + rest)[1..] == w[1..] + rest;
    }
  }

  lemma {:induction false} HexInert(n: nat, digits: nat)
    ensures Inert(Hex(n, digits))
  {
    if digits > 0 {
      HexInert(n / 16, digits - 1);
    }
  }

  /** A backslash takes the next character with it. */
  lemma EscapedCloses(c: char, w: string, rest: string)
    requires Inert(w) && Closes(rest, '"')
    ensures Closes(['\\', c] + w + rest, '"')
  {
    InertCloses(w, rest);
    assert (['\\', c] + w + rest)[2..] == w + rest;
  }

  lemma AsciiCloses(c: char, rest: string)
    requires c as int < 0x80 && Closes(rest, '"')
    ensures Closes(EscapeAscii(c) + rest, '"')
  {
    var e := EscapeAscii(c);
    HexInert(c as int, 2);
    if |e| == 1 {
      InertCloses(e, rest);
    } else if |e| == 2 {
      EscapedCloses(e[1], "", rest);
      assert e == ['\\', e[1]] + "";
    } else {
      EscapedCloses('x', Hex(c as int, 2), rest);
      assert e == ['\\', 'x'] + Hex(c as int, 2);
    }
  }

  lemma RuneCloses(r: Rune, rest: string)
    requires Closes(rest, '"')
    ensures Closes(EscapeRune(r) + rest, '"')
  {
    match r
    case Ascii(c) => AsciiCloses(c, rest);
    case Shown(bytes) => InertCloses(bytes, rest);
    case Hidden(code) =>
      HexInert(code, 4);
      HexInert(code, 8);
      EscapedCloses('u', Hex(code, 4), rest);
      EscapedCloses('U', Hex(code, 8), rest);
    case Invalid(byte) =>
      HexInert(byte, 2);
      EscapedCloses('x', Hex(byte, 2), rest);
  }

  lemma {:induction false} EscapeCloses(s: seq<Rune>)
    ensures Closes(Escape(s) + "\"", '"')
  {
    if s != [] {
      EscapeCloses(s[1..]);
      RuneCloses(s[0], Escape(s[1..]) + "\"");
      assert Escape(s) + "\"" == EscapeRune(s[0]) + (Escape(s[1..]) + "\"");
    }
  }

  /** Whatever the string is, what is printed is one closed quoted word. */
  lemma QuotedIsLexeme(s: seq<Rune>)
    ensures IsLexeme(Quoted(s))
  {
    EscapeCloses(s);
    assert Quoted(s)[1..] == Escape(s) + "\"";
  }

  // ---- what is printed can be read back ----

  /** What a string consists of: bytes, and unprintable runes. */
  datatype Unit = Byte(b: nat) | Code(code: nat)

  function Bytes(s: string): seq<Unit> {
    seq(|s|, i requires 0 <= i < |s| => Byte(s[i] as nat))
  }

  function UnitsOf(r: Rune): seq<Unit> {
    match r
    case Ascii(c) => [Byte(c as nat)]
    case Shown(bytes) => Bytes(bytes)
    case Hidden(code) => [Code(code)]
    case Invalid(byte) => [Byte(byte)]
  }

  function Units(s: seq<Rune>): seq<Unit> {
    if s == [] then [] else UnitsOf(s[0]) + Units(s[1..])
  }

  function DigitValue(c: char): nat {
    if '0' <= c <= '9' then c as nat - '0' as nat
    else if 'a' <= c <= 'f' then c as nat - 'a' as nat + 10
    else 0
  }

  function HexValue(s: string): nat {
    if s == "" then 0 else 16 * HexValue(s[..|s| - 1]) + DigitValue(s[|s| - 1])
  }

  /** The characters after a backslash that stand for one byte each. */
  const LETTERS: map<char, nat> := map[
    'a' := 7, 'b' := 8, 't' := 9, 'n' := 10, 'v' := 11, 'f' := 12, 'r' := 13, '"' := 34, '\\' := 92
  ]

  /** How many hexadecimal digits follow a backslash and a letter. */
  function DigitsAfter(c: char): nat {
    if c == 'x' then 2 else if c == 'u' then 4 else if c == 'U' then 8 else 0
  }

  /** Reads escapes back, as Go reads the inside of a string literal. */
  function Decode(s: string): seq<Unit> {
    if s == "" then []
    else if s[0] != '\\' then [Byte(s[0] as nat)] + Decode(s[1..])
    else if |s| < 2 then []
    else if s[1] in LETTERS then [Byte(LETTERS[s[1]])] + Decode(s[2..])
    else
      var n := DigitsAfter(s[1]);
      if n == 0 || |s| < n + 2 then []
      else
        var v := HexValue(s[2..n + 2]);
        [if n == 2 then Byte(v) else Code(v)] + Decode(s[n + 2..])
  }

  function Power(digits: nat): nat {
    if digits == 0 then 1 else 16 * Power(digits - 1)
  }

  lemma {:induction false} HexReadBack(n: nat, digits: nat)
    requires n < Power(digits)
    ensures |Hex(n, digits)| == digits && HexValue(Hex(n, digits)) == n
  {
    if digits > 0 {
      HexReadBack(n / 16, digits - 1);
      var h := Hex(n, digits);
      assert h[..|h| - 1] == Hex(n / 16, digits - 1);
      assert DigitValue(HexDigit(n % 16)) == n % 16;
    }
  }

  lemma {:induction false} InertDecodes(w: string, rest: string)
    requires forall k :: 0 <= k < |w| ==> w[k] != '\\'
    ensures Decode(w + rest) == Bytes(w) + Decode(rest)
  {
    if w == "" {
      assert w + rest == rest && Bytes(w) + Decode(rest) == Decode(rest);
    } else {
      InertDecodes(w[1..], rest);
      assert (w + rest)[1..] == w[1..] + rest;
      assert Bytes(w) == [Byte(w[0] as nat)] + Bytes(w[1..]);
    }
  }

  lemma HexDecodes(c: char, h: string, rest: string)
    requires c in "xuU" && |h| == DigitsAfter(c)
    ensures Decode(['\\', c] + h + rest) == [if c == 'x' then Byte(HexValue(h)) else Code(HexValue(h))] + Decode(rest)
  {
    var s, n := ['\\', c] + h + rest, |h|;
    assert s[0] == '\\' && s[1] == c && c !in LETTERS;
    assert s[2..n + 2] == h && s[n + 2..] == rest;
  }

  lemma NumberDecodes(c: char, n: nat, rest: string)
    requires c in "xuU" && n < Power(DigitsAfter(c))
    ensures Decode(['\\', c] + Hex(n, DigitsAfter(c)) + rest) == [if c == 'x' then Byte(n) else Code(n)] + Decode(rest)
  {
    HexReadBack(n, DigitsAfter(c));
    HexDecodes(c, Hex(n, DigitsAfter(c)), rest);
  }

  lemma LetterDecodes(c: char, rest: string)
    requires c in LETTERS
    ensures Decode(['\\', c] + rest) == [Byte(LETTERS[c])] + Decode(rest)
  {
    assert (['\\', c] + rest)[2..] == rest;
  }

  lemma AsciiDecodes(c: char, rest: string)
    requires c as int < 0x80
    ensures Decode(EscapeAscii(c) + rest) == [Byte(c as nat)] + Decode(rest)
  {
    var e := EscapeAscii(c);
    if e == [c] {
      InertDecodes(e, rest);
    } else if |e| == 2 && e[1] in LETTERS {
      assert e == ['\\', e[1]] && LETTERS[e[1]] == c as nat;
      LetterDecodes(e[1], rest);
    } else {
      assert Power(2) == 16 * Power(1) && Power(1) == 16 * Power(0);
      NumberDecodes('x', c as int, rest);
      assert e == ['\\', 'x'] + Hex(c as int, 2);
    }
  }

  lemma Powers()
    ensures Power(2) == 0x100 && Power(4) == 0x1_0000 && Power(8) == 0x1_0000_0000
  {
    assert Power(2) == 16 * Power(1) && Power(1) == 16 * Power(0);
    assert Power(4) == 16 * Power(3) && Power(3) == 16 * Power(2);
    assert Power(6) == 16 * Power(5) && Power(5) == 16 * Power(4);
    assert Power(8) == 16 * Power(7) && Power(7) == 16 * Power(6);
  }

  lemma RuneDecodes(r: Rune, rest: string)
    ensures Decode(EscapeRune(r) + rest) == UnitsOf(r) + Decode(rest)
  {
    Powers();
    match r
    case Ascii(c) => AsciiDecodes(c, rest);
    case Shown(bytes) => InertDecodes(bytes, rest);
    case Hidden(code) =>
      if code < 0x1_0000 {
        NumberDecodes('u', code, rest);
      } else {
        NumberDecodes('U', code, rest);
      }
    case Invalid(byte) => NumberDecodes('x', byte, rest);
  }

  lemma {:induction false} EscapeReadsBack(s: seq<Rune>)
    ensures Decode(Escape(s)) == Units(s)
  {
    if s != [] {
      EscapeReadsBack(s[1..]);
      RuneDecodes(s[0], Escape(s[1..]));
    }
  }

  /** What is printed between two double quotes reads back as the string, rune
      by rune and byte by byte. */
  lemma QuotedReadsBack(s: seq<Rune>)
    ensures var q := Quoted(s);
            |q| >= 2 && q[0] == '"' && q[|q| - 1] == '"' && Decode(q[1..|q| - 1]) == Units(s)
  {
    EscapeReadsBack(s);
    assert Quoted(s)[1..|Quoted(s)| - 1] == Escape(s);
  }

  ghost predicate Visible(s: string) {
    forall k :: 0 <= k < |s| ==> 0x20 <= s[k] as int < 0x7F
  }

  lemma AsciiIsShort(c: char)
    requires c as int < 0x80
    ensures Visible(EscapeAscii(c))
    ensures var n := c as int;
            |EscapeAscii(c)| == if c == '"' || c == '\\' || 7 <= n <= 13 then 2 else if n < 0x20 || n == 0x7F then 4 else 1
  {
    Powers();
    HexReadBack(c as int, 2);
    HexVisible(c as int, 2);
  }

  /** Only visible ASCII characters and printable runes are printed, each ASCII
      character in the shortest form it has. */
  lemma EscapesAreShort(r: Rune)
    ensures !r.Shown? ==> Visible(EscapeRune(r))
    ensures r.Ascii? ==>
              var n := r.c as int;
              |EscapeRune(r)| ==
              if r.c == '"' || r.c == '\\' || 7 <= n <= 13 then 2
              else if n < 0x20 || n == 0x7F then 4 else 1
  {
    match r
    case Ascii(c) => AsciiIsShort(c);
    case Shown(_) =>
    case Hidden(code) =>
      HexVisible(code, 4);
      HexVisible(code, 8);
    case Invalid(byte) => HexVisible(byte, 2);
  }

  lemma {:induction false} HexVisible(n: nat, digits: nat)
    ensures Visible(Hex(n, digits))
  {
    if digits > 0 {
      HexVisible(n / 16, digits - 1);
    }
  }
}
