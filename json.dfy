/**
 * The text stored under the session key: `JSON.stringify` of an identity on
 * the way in, `JSON.parse` on the way back. Both are foreign to the client;
 * here they are a concrete JSON-shaped serializer for the identity record and
 * a parser that accepts exactly what it writes (and the literal `null`), so
 * that the round trip the session relies on is proved rather than assumed.
 */
module Json {
  import opened Maybe
  import opened Api

  /** What `JSON.parse` yields: it throws, it yields `null`, or it yields an identity record. */
  datatype Parsed = Malformed | Null | Record(identity: Identity)

  // ---------------------------------------------------------------- numbers

  predicate IsDigit(c: char)
  {
    '0' <= c <= '9'
  }

  predicate AllDigits(s: string)
  {
    forall i :: 0 <= i < |s| ==> IsDigit(s[i])
  }

  function DigitChar(d: nat): (c: char)
    requires d < 10
    ensures IsDigit(c)
  {
    ('0' as int + d) as char
  }

  function DigitOf(c: char): (d: nat)
    requires IsDigit(c)
    ensures d < 10 && DigitChar(d) == c
  {
    c as int - '0' as int
  }

  /** Decimal digits of `n`, most significant first, with no leading zero. */
  function NatText(n: nat): (s: string)
    ensures s != [] && AllDigits(s)
    ensures |s| > 1 ==> s[0] != '0'
    ensures s == "0" <==> n == 0
    decreases n
  {
    if n < 10 then [DigitChar(n)] else NatText(n / 10) + [DigitChar(n % 10)]
  }

  /** The number a run of decimal digits denotes. */
  function Value(s: string): nat
    requires AllDigits(s)
  {
    if s == [] then 0 else Value(s[..|s| - 1]) * 10 + DigitOf(s[|s| - 1])
  }

  lemma {:induction false} ValueOfNatText(n: nat)
    ensures Value(NatText(n)) == n
  {
    if n >= 10 {
      var s := NatText(n);
      assert s[..|s| - 1] == NatText(n / 10);
      ValueOfNatText(n / 10);
    }
  }

  /** A digit run without a leading zero is the text of the number it denotes. */
  lemma {:induction false} NatTextOfValue(s: string)
    requires s != [] && AllDigits(s) && (|s| > 1 ==> s[0] != '0')
    ensures NatText(Value(s)) == s
  {
    var init := s[..|s| - 1];
    var d := DigitOf(s[|s| - 1]);
    if init == [] {
      assert s == [DigitChar(d)];
    } else {
      assert init[0] == s[0];
      NatTextOfValue(init);
      var v := Value(init);
      assert v != 0;
      assert Value(s) == v * 10 + d;
      assert Value(s) / 10 == v && Value(s) % 10 == d;
      assert s == init + [s[|s| - 1]];
    }
  }

  /** Length of the run of digits at the front of `s`. */
  function DigitRun(s: string): (k: nat)
    ensures k <= |s| && AllDigits(s[..k])
    ensures k < |s| ==> !IsDigit(s[k])
  {
    if s == [] || !IsDigit(s[0]) then 0
    else
      var k := 1 + DigitRun(s[1..]);
      assert s[..k] == [s[0]] + s[1..][..k - 1];
      k
  }

  lemma {:induction false} DigitRunOfDigits(d: string, rest: string)
    requires AllDigits(d)
    requires rest == [] || !IsDigit(rest[0])
    ensures DigitRun(d + rest) == |d|
  {
    if d != [] {
      assert (d + rest)[1..] == d[1..] + rest;
      DigitRunOfDigits(d[1..], rest);
    } else {
      assert d + rest == rest;
    }
  }

  /** Decimal text of an integer: a minus sign before the digits of a negative number. */
  function IntText(i: int): string
  {
    if i < 0 then "-" + NatText(-i) else NatText(i)
  }

  /** Reads a JSON number without fraction or exponent and without a leading zero. */
  function ParseNat(s: string): Option<(nat, string)>
  {
    var k := DigitRun(s);
    if k == 0 || (k > 1 && s[0] == '0') then None else Some((Value(s[..k]), s[k..]))
  }

  function ParseInt(s: string): Option<(int, string)>
  {
    if s != [] && s[0] == '-' then
      match ParseNat(s[1..])
      case Some((n, r)) => if n == 0 then None else Some((-(n as int), r))
      case None => None
    else
      ParseNat(s)
  }

  /** The digits of `n` followed by a non-digit read back as `n`. */
  lemma ParseNatText(n: nat, rest: string)
    requires rest == [] || !IsDigit(rest[0])
    ensures ParseNat(NatText(n) + rest) == Some((n, rest))
  {
    var d := NatText(n);
    DigitRunOfDigits(d, rest);
    ValueOfNatText(n);
    assert (d + rest)[0] == d[0];
    assert (d + rest)[..|d|] == d && (d + rest)[|d|..] == rest;
  }

  /** A minus sign before the text of a non-zero number reads as its negation. */
  lemma ParseIntNegative(d: string, n: nat, rest: string)
    requires ParseNat(d + rest) == Some((n, rest)) && n != 0
    ensures ParseInt("-" + d + rest) == Some((-(n as int), rest))
  {
    assert ("-" + d + rest)[1..] == d + rest;
  }

  /** Text that does not start with a minus sign reads as a natural number. */
  lemma ParseIntNonNegative(d: string, n: nat, rest: string)
    requires ParseNat(d + rest) == Some((n, rest)) && d != [] && d[0] != '-'
    ensures ParseInt(d + rest) == Some((n, rest))
  {
    assert (d + rest)[0] == d[0];
  }

  lemma ParseIntText(i: int, rest: string)
    requires rest == [] || !IsDigit(rest[0])
    ensures ParseInt(IntText(i) + rest) == Some((i, rest))
  {
    if i < 0 {
      var n: nat := -i;
      ParseNatText(n, rest);
      ParseIntNegative(NatText(n), n, rest);
      assert IntText(i) + rest == "-" + NatText(n) + rest;
    } else {
      ParseNatText(i, rest);
      ParseIntNonNegative(NatText(i), i, rest);
    }
  }

  lemma ParseNatInverse(t: string, n: nat, rest: string)
    requires ParseNat(t) == Some((n, rest))
    ensures t == NatText(n) + rest
  {
    var k := DigitRun(t);
    NatTextOfValue(t[..k]);
    assert t == t[..k] + t[k..];
  }

  lemma MinusText(s: string, n: nat, rest: string)
    requires s != [] && s[0] == '-' && s[1..] == NatText(n) + rest && n != 0
    ensures s == IntText(-(n as int)) + rest
  {
    assert s == "-" + s[1..];
    assert IntText(-(n as int)) == "-" + NatText(n);
  }

  lemma ParseIntInverse(s: string, i: int, rest: string)
    requires ParseInt(s) == Some((i, rest))
    ensures s == IntText(i) + rest
  {
    if s != [] && s[0] == '-' {
      var n := ParseNat(s[1..]).value.0;
      ParseNatInverse(s[1..], n, rest);
      MinusText(s, n, rest);
    } else {
      assert ParseNat(s) == Some((i, rest));
      ParseNatInverse(s, i, rest);
    }
  }

  // ---------------------------------------------------------------- strings

  /** A character `JSON.stringify` writes as it is: neither a control character nor a quote or backslash. */
  predicate Plain(c: char)
  {
    ' ' <= c && c != '"' && c != '\\'
  }

  /** The letter of the two-character escape the serializer writes for `c`, when it has one. */
  function ShortEscape(c: char): Option<char>
  {
    if c == '"' then Some('"')
    else if c == '\\' then Some('\\')
    else if c == '\U{8}' then Some('b')
    else if c == '\t' then Some('t')
    else if c == '\n' then Some('n')
    else if c == '\U{C}' then Some('f')
    else if c == '\r' then Some('r')
    else None
  }

  /** The character a two-character escape stands for (`\u` is read separately). */
  function Unescape(letter: char): (c: Option<char>)
    ensures c.Some? ==> ShortEscape(c.value) == Some(letter)
    ensures c.None? ==> forall d :: ShortEscape(d) != Some(letter)
  {
    if letter == '"' then Some('"')
    else if letter == '\\' then Some('\\')
    else if letter == 'b' then Some('\U{8}')
    else if letter == 't' then Some('\t')
    else if letter == 'n' then Some('\n')
    else if letter == 'f' then Some('\U{C}')
    else if letter == 'r' then Some('\r')
    else None
  }

  predicate IsHex(c: char)
  {
    IsDigit(c) || 'a' <= c <= 'f'
  }

  /** A lower-case hexadecimal digit, as `JSON.stringify` writes them. */
  function HexDigit(d: nat): (c: char)
    requires d < 16
    ensures IsHex(c)
  {
    if d < 10 then DigitChar(d) else ('a' as int + d - 10) as char
  }

  function HexValue(c: char): (d: nat)
    requires IsHex(c)
    ensures d < 16
  {
    if IsDigit(c) then DigitOf(c) else c as int - 'a' as int + 10
  }

  lemma HexRoundTrip(d: nat, c: char)
    requires d < 16 && IsHex(c)
    ensures HexDigit(d) == c <==> HexValue(c) == d
  {
  }

  /** The four hex digits after `\u` for a control character. */
  function HexCode(c: char): (h: string)
    requires c < ' '
    ensures |h| == 4
  {
    ['0', '0', HexDigit(c as int / 16), HexDigit(c as int % 16)]
  }

  /**
   * Reads the four hex digits of a `\u` escape, accepting exactly those the
   * serializer writes: a control character without a two-character escape.
   */
  function ControlOf(h: string): Option<char>
    requires |h| == 4
  {
    if h[0] == '0' && h[1] == '0' && (h[2] == '0' || h[2] == '1') && IsHex(h[3]) then
      var c := (16 * DigitOf(h[2]) + HexValue(h[3])) as char;
      if ShortEscape(c).None? then Some(c) else None
    else None
  }

  /** The hex digits of a control character read back as that character. */
  lemma ControlOfHexCode(c: char)
    requires c < ' ' && ShortEscape(c).None?
    ensures ControlOf(HexCode(c)) == Some(c)
  {
    var h := HexCode(c);
    var hi, lo := c as int / 16, c as int % 16;
    HexRoundTrip(lo, h[3]);
    assert DigitOf(h[2]) == hi;
    assert 16 * hi + lo == c as int;
  }

  /** The `\u` escapes the parser accepts are exactly the serializer's. */
  lemma ControlOfInverse(h: string, c: char)
    requires |h| == 4 && ControlOf(h) == Some(c)
    ensures c < ' ' && ShortEscape(c).None? && h == HexCode(c)
  {
    var hi, lo := DigitOf(h[2]), HexValue(h[3]);
    assert c as int == 16 * hi + lo;
    assert c as int / 16 == hi && c as int % 16 == lo;
    HexRoundTrip(lo, h[3]);
    assert DigitChar(hi) == h[2];
  }

  /**
   * The escape the serializer applies to one character of a string value:
   * quote, backslash and the five common control characters get a letter,
   * the other control characters a `\u00XX` escape, everything else is
   * written as it is.
   */
  function EscapeChar(c: char): (e: string)
    ensures e != []
  {
    match ShortEscape(c)
    case Some(letter) => ['\\', letter]
    case None => if c < ' ' then "\\u" + HexCode(c) else [c]
  }

  function Escape(s: string): string
  {
    if s == [] then [] else EscapeChar(s[0]) + Escape(s[1..])
  }

  /** A string value as JSON text: quoted, with every character escaped as needed. */
  function Quote(s: string): string
  {
    "\"" + Escape(s) + "\""
  }

  /**
   * Reads the body of a string value up to and including its closing quote.
   * A raw control character is refused, as `JSON.parse` refuses it.
   */
  function ParseChars(s: string): Option<(string, string)>
    decreases |s|
  {
    if s == [] then None
    else if s[0] == '"' then Some(([], s[1..]))
    else if s[0] == '\\' then
      if |s| < 2 then None
      else if s[1] == 'u' then
        if |s| < 6 then None
        else
          var c :- ControlOf(s[2..6]);
          var p :- ParseChars(s[6..]);
          Some(([c] + p.0, p.1))
      else
        var c :- Unescape(s[1]);
        var p :- ParseChars(s[2..]);
        Some(([c] + p.0, p.1))
    else if s[0] < ' ' then None
    else
      var p :- ParseChars(s[1..]);
      Some(([s[0]] + p.0, p.1))
  }

  function ParseString(s: string): Option<(string, string)>
  {
    if s != [] && s[0] == '"' then ParseChars(s[1..]) else None
  }

  /** A raw control character where a string value's characters are read makes it unparsable. */
  lemma ParseCharsRefusesControl(s: string)
    requires s != [] && s[0] < ' '
    ensures ParseChars(s) == None
  {
  }

  /** An ordinary character is read as itself. */
  lemma ParseCharsPlain(c: char, tail: string, u: string, rest: string)
    requires Plain(c)
    requires ParseChars(tail) == Some((u, rest))
    ensures ParseChars([c] + tail) == Some(([c] + u, rest))
  {
    assert ([c] + tail)[1..] == tail;
  }

  /** A two-character escape is read as the character escaped. */
  lemma ParseCharsShort(c: char, letter: char, tail: string, u: string, rest: string)
    requires ShortEscape(c) == Some(letter)
    requires ParseChars(tail) == Some((u, rest))
    ensures ParseChars(['\\', letter] + tail) == Some(([c] + u, rest))
  {
    assert (['\\', letter] + tail)[2..] == tail;
  }

  /** A `\u00XX` escape is read as the control character it names. */
  lemma ParseCharsUnicode(c: char, tail: string, u: string, rest: string)
    requires c < ' ' && ShortEscape(c).None?
    requires ParseChars(tail) == Some((u, rest))
    ensures ParseChars("\\u" + HexCode(c) + tail) == Some(([c] + u, rest))
  {
    var s := "\\u" + HexCode(c) + tail;
    assert s[2..6] == HexCode(c) && s[6..] == tail;
    ControlOfHexCode(c);
  }

  /** One escaped character in front of text that reads as `u` reads as that character and `u`. */
  lemma ParseCharsCons(c: char, tail: string, u: string, rest: string)
    requires ParseChars(tail) == Some((u, rest))
    ensures ParseChars(EscapeChar(c) + tail) == Some(([c] + u, rest))
  {
    match ShortEscape(c)
    case Some(letter) =>
      ParseCharsShort(c, letter, tail, u, rest);
    case None =>
      if c < ' ' {
        ParseCharsUnicode(c, tail, u, rest);
      } else {
        ParseCharsPlain(c, tail, u, rest);
      }
  }

  lemma {:induction false} ParseCharsEscape(t: string, rest: string)
    ensures ParseChars(Escape(t) + "\"" + rest) == Some((t, rest))
  {
    if t == [] {
      assert Escape(t) + "\"" + rest == "\"" + rest;
    } else {
      ParseCharsEscape(t[1..], rest);
      var e, tail := EscapeChar(t[0]), Escape(t[1..]) + "\"" + rest;
      assert Escape(t) + "\"" + rest == e + tail;
      ParseCharsCons(t[0], tail, t[1..], rest);
      assert [t[0]] + t[1..] == t;
    }
  }

  /** Text made of one character's escape and the escaped rest of a string is the escape of the whole. */
  lemma EscapeStep(s: string, k: nat, c: char, t: string, rest: string)
    requires k <= |s| && s[..k] == EscapeChar(c)
    requires s[k..] == Escape(t) + "\"" + rest
    ensures s == Escape([c] + t) + "\"" + rest
  {
    assert ([c] + t)[1..] == t;
    assert s == s[..k] + s[k..];
  }

  lemma {:induction false} ParseCharsInverse(s: string, t: string, rest: string)
    requires ParseChars(s) == Some((t, rest))
    ensures s == Escape(t) + "\"" + rest
    decreases |s|
  {
    if s[0] == '"' {
      assert t == [];
      assert s == "\"" + s[1..];
    } else if s[0] == '\\' && s[1] == 'u' {
      var c := ControlOf(s[2..6]).value;
      ControlOfInverse(s[2..6], c);
      var p := ParseChars(s[6..]).value;
      ParseCharsInverse(s[6..], p.0, p.1);
      assert s[..6] == "\\u" + s[2..6];
      EscapeStep(s, 6, c, p.0, rest);
    } else if s[0] == '\\' {
      var c := Unescape(s[1]).value;
      var p := ParseChars(s[2..]).value;
      ParseCharsInverse(s[2..], p.0, p.1);
      assert s[..2] == ['\\', s[1]];
      EscapeStep(s, 2, c, p.0, rest);
    } else {
      var p := ParseChars(s[1..]).value;
      ParseCharsInverse(s[1..], p.0, p.1);
      assert ShortEscape(s[0]).None?;
      assert s[..1] == [s[0]];
      EscapeStep(s, 1, s[0], p.0, rest);
    }
  }

  lemma ParseStringQuote(t: string, rest: string)
    ensures ParseString(Quote(t) + rest) == Some((t, rest))
  {
    assert (Quote(t) + rest)[1..] == Escape(t) + "\"" + rest;
    ParseCharsEscape(t, rest);
  }

  lemma ParseStringInverse(s: string, t: string, rest: string)
    requires ParseString(s) == Some((t, rest))
    ensures s == Quote(t) + rest
  {
    ParseCharsInverse(s[1..], t, rest);
    assert s == "\"" + s[1..];
  }

  // ---------------------------------------------------------------- records

  /** Keeps what follows `lit` when `s` starts with it. */
  function Literal(s: string, lit: string): (r: Option<string>)
    ensures r.Some? <==> lit <= s
    ensures r.Some? ==> s == lit + r.value
  {
    if |lit| <= |s| && s[..|lit|] == lit then Some(s[|lit|..]) else None
  }

  lemma LiteralPrefix(lit: string, rest: string)
    ensures Literal(lit + rest, lit) == Some(rest)
  {
    assert (lit + rest)[..|lit|] == lit && (lit + rest)[|lit|..] == rest;
  }

  const IdField := "{\"id\":"
  const UsernameField := ",\"username\":"
  const EmailField := ",\"email\":"
  const RoleField := ",\"role\":"
  const Close := "}"

  const NullText := "null"

  /** A string value that may be `null`: the literal `null`, or the quoted string. */
  function QuoteOrNull(o: Option<string>): string
  {
    match o
    case None => NullText
    case Some(t) => Quote(t)
  }

  function ParseNullable(s: string): Option<(Option<string>, string)>
  {
    match Literal(s, NullText)
    case Some(rest) => Some((None, rest))
    case None =>
      var p :- ParseString(s);
      Some((Some(p.0), p.1))
  }

  /** A `null` or a quoted string reads back as what was written. */
  lemma ParseNullableQuote(o: Option<string>, rest: string)
    ensures ParseNullable(QuoteOrNull(o) + rest) == Some((o, rest))
  {
    match o
    case None =>
      LiteralPrefix(NullText, rest);
    case Some(t) =>
      assert (Quote(t) + rest)[0] == '"';
      assert Literal(Quote(t) + rest, NullText).None?;
      ParseStringQuote(t, rest);
  }

  lemma ParseNullableInverse(s: string, o: Option<string>, rest: string)
    requires ParseNullable(s) == Some((o, rest))
    ensures s == QuoteOrNull(o) + rest
  {
    if Literal(s, NullText).None? {
      ParseStringInverse(s, o.value, rest);
    }
  }

  /** `JSON.stringify` of an identity record, fields in declaration order. */
  function Serialize(u: Identity): string
  {
    IdField + (IntText(u.id) + (UsernameField + (Quote(u.username) +
      (EmailField + (QuoteOrNull(u.email) + (RoleField + (QuoteOrNull(u.role) + Close)))))))
  }

  function ParseIdentity(s: string): Option<Identity>
  {
    var r0 :- Literal(s, IdField);
    var id :- ParseInt(r0);
    var r1 :- Literal(id.1, UsernameField);
    var name :- ParseString(r1);
    var r2 :- Literal(name.1, EmailField);
    var email :- ParseNullable(r2);
    var r3 :- Literal(email.1, RoleField);
    var role :- ParseNullable(r3);
    if role.1 == Close then Some(Identity(id.0, name.0, email.0, role.0)) else None
  }

  /** `JSON.parse` restricted to what the session ever stores: `null` or an identity record. */
  function Parse(s: string): Parsed
  {
    if s == "null" then Null
    else match ParseIdentity(s)
      case Some(u) => Record(u)
      case None => Malformed
  }

  /** Reading back what was written gives the same identity. */
  lemma {:induction false} ParseSerialize(u: Identity)
    ensures Parse(Serialize(u)) == Record(u)
  {
    var t3 := QuoteOrNull(u.role) + Close;
    var t2 := QuoteOrNull(u.email) + (RoleField + t3);
    var t1 := Quote(u.username) + (EmailField + t2);
    var t0 := IntText(u.id) + (UsernameField + t1);
    LiteralPrefix(IdField, t0);
    ParseIntText(u.id, UsernameField + t1);
    LiteralPrefix(UsernameField, t1);
    ParseStringQuote(u.username, EmailField + t2);
    LiteralPrefix(EmailField, t2);
    ParseNullableQuote(u.email, RoleField + t3);
    LiteralPrefix(RoleField, t3);
    ParseNullableQuote(u.role, Close);
    assert ParseIdentity(Serialize(u)) == Some(u);
    assert Serialize(u)[0] == '{';
  }

  /** The parser accepts nothing but the serializer's output (and `null`). */
  lemma ParseIdentityInverse(s: string, u: Identity)
    requires ParseIdentity(s) == Some(u)
    ensures s == Serialize(u)
  {
    var r0 := Literal(s, IdField).value;
    var id := ParseInt(r0).value;
    ParseIntInverse(r0, id.0, id.1);
    var r1 := Literal(id.1, UsernameField).value;
    var name := ParseString(r1).value;
    ParseStringInverse(r1, name.0, name.1);
    var r2 := Literal(name.1, EmailField).value;
    var email := ParseNullable(r2).value;
    ParseNullableInverse(r2, email.0, email.1);
    var r3 := Literal(email.1, RoleField).value;
    var role := ParseNullable(r3).value;
    ParseNullableInverse(r3, role.0, role.1);
  }

  /** A stored text parses to an identity exactly when it is that identity's serialization. */
  lemma ParseRecordIff(s: string, u: Identity)
    ensures Parse(s) == Record(u) <==> s == Serialize(u)
  {
    if s == Serialize(u) {
      ParseSerialize(u);
    }
    if Parse(s) == Record(u) {
      ParseIdentityInverse(s, u);
    }
  }

  /** A text that is neither `null` nor the serialization of any identity makes `JSON.parse` throw. */
  lemma MalformedIff(s: string)
    ensures Parse(s) == Malformed <==> s != "null" && forall u :: s != Serialize(u)
  {
    if Parse(s) == Malformed {
      forall u ensures s != Serialize(u) {
        ParseRecordIff(s, u);
      }
    } else if Parse(s).Record? {
      ParseRecordIff(s, Parse(s).identity);
    }
  }

  /** No character below U+0020: what `JSON.stringify` output always satisfies. */
  predicate Printable(s: string)
  {
    forall i :: 0 <= i < |s| ==> ' ' <= s[i]
  }

  lemma PrintableConcat(a: string, b: string)
    requires Printable(a) && Printable(b)
    ensures Printable(a + b)
  {
    forall i | 0 <= i < |a + b|
      ensures ' ' <= (a + b)[i]
    {
      if i >= |a| {
        assert (a + b)[i] == b[i - |a|];
      }
    }
  }

  /** Escaping leaves no raw control character. */
  lemma {:induction false} EscapePrintable(t: string)
    ensures Printable(Escape(t))
  {
    if t != [] {
      EscapePrintable(t[1..]);
      var e := EscapeChar(t[0]);
      assert Printable(e) by {
        if ShortEscape(t[0]).None? && t[0] < ' ' {
          assert e == ['\\', 'u', '0', '0', HexCode(t[0])[2], HexCode(t[0])[3]];
        }
      }
      PrintableConcat(e, Escape(t[1..]));
    }
  }

  lemma QuotePrintable(t: string, rest: string)
    requires Printable(rest)
    ensures Printable(Quote(t) + rest)
  {
    EscapePrintable(t);
    PrintableConcat("\"", Escape(t));
    PrintableConcat("\"" + Escape(t), "\"");
    PrintableConcat(Quote(t), rest);
  }

  /** The fixed parts of the record text are printable. */
  lemma FieldsPrintable()
    ensures Printable(IdField) && Printable(UsernameField) && Printable(EmailField)
    ensures Printable(RoleField) && Printable(Close) && Printable("-") && Printable(NullText)
  {
  }

  lemma NullablePrintable(o: Option<string>, rest: string)
    requires Printable(rest)
    ensures Printable(QuoteOrNull(o) + rest)
  {
    FieldsPrintable();
    match o
    case None => PrintableConcat(NullText, rest);
    case Some(t) => QuotePrintable(t, rest);
  }

  /** The serializer writes no raw control character. */
  lemma SerializePrintable(u: Identity)
    ensures Printable(Serialize(u))
  {
    FieldsPrintable();
    var t3 := QuoteOrNull(u.role) + Close;
    NullablePrintable(u.role, Close);
    PrintableConcat(RoleField, t3);
    var t2 := QuoteOrNull(u.email) + (RoleField + t3);
    NullablePrintable(u.email, RoleField + t3);
    PrintableConcat(EmailField, t2);
    var t1 := Quote(u.username) + (EmailField + t2);
    QuotePrintable(u.username, EmailField + t2);
    PrintableConcat(UsernameField, t1);
    var id := IntText(u.id);
    if u.id < 0 {
      PrintableConcat("-", NatText(-u.id));
    }
    PrintableConcat(id, UsernameField + t1);
    PrintableConcat(IdField, id + (UsernameField + t1));
  }

  /**
   * A text holding a raw control character does not parse: `JSON.parse`
   * refuses one inside a string value, and the serializer never writes one.
   */
  lemma RawControlMalformed(s: string, i: nat)
    requires i < |s| && s[i] < ' '
    ensures Parse(s) == Malformed
  {
    assert !Printable(s);
    forall u ensures s != Serialize(u) {
      SerializePrintable(u);
    }
    assert Printable("null");
    MalformedIff(s);
  }

  /** What the serializer writes is never empty, so the session's truthiness test always sees it. */
  lemma SerializeNonEmpty(u: Identity)
    ensures Serialize(u) != "" && Serialize(u) != "null"
  {
    assert Serialize(u)[0] == '{';
  }
}
