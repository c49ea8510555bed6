/** White space, strings and numbers as RFC 8259, sections 2, 6 and 7, writes them, and that the reader takes exactly
    these. */
module JsonTokens {
  import opened JsonText
  import opened JsonLaws

  // ---------------------------------------------------------------- pieces of text

  lemma {:induction false} Regrouped(a: string, b: string, c: string)
    ensures a + (b + c) == a + b + c
  {
  }

  /** `s` starts with `a` and `c`; what follows ends in `rest`. */
  lemma {:induction false} Joined(s: string, a: string, t: string, c: string, b: string, rest: string)
    requires s == a + t && t == c + b + rest
    ensures s == a + (c + b) + rest
  {
  }

  // ---------------------------------------------------------------- white space

  predicate IsGap(s: string) {
    forall i | 0 <= i < |s| :: s[i] == ' ' || s[i] == '\t' || s[i] == '\n' || s[i] == '\r'
  }

  lemma {:induction false} GapIsSkipped(gap: string, t: string)
    requires IsGap(gap) && (t != "" ==> !IsGap(t[..1]))
    ensures SkipSpace(gap + t) == t
  {
    if gap == "" {
      assert gap + t == t && (t != "" ==> t[..1][0] == t[0]);
    } else {
      assert (gap + t)[1..] == gap[1..] + t;
      GapIsSkipped(gap[1..], t);
    }
  }

  /** What is skipped is a gap, and what is left starts with something else. */
  lemma {:induction false} SkippedIsGap(s: string)
    ensures var t := SkipSpace(s);
            |t| <= |s| && t == s[|s| - |t|..] && IsGap(s[..|s| - |t|]) && (t != "" ==> !IsJsonSpace(t[0]))
  {
    if s != "" && IsJsonSpace(s[0]) {
      SkippedIsGap(s[1..]);
      var t := SkipSpace(s);
      assert s[1..][|s| - 1 - |t|..] == s[|s| - |t|..];
      assert s[..|s| - |t|] == [s[0]] + s[1..][..|s| - 1 - |t|];
    }
  }

  // ---------------------------------------------------------------- strings

  /** One character of a string: itself, a two-character escape, a code, or a surrogate pair of codes. */
  datatype Mark = Plain(c: char) | Short(letter: char) | Code(hex: string) | Pair(high: string, low: string)

  predicate IsHexDigit(c: char) {
    '0' <= c <= '9' || 'a' <= c <= 'f' || 'A' <= c <= 'F'
  }

  predicate IsHex(s: string) {
    |s| == 4 && forall i | 0 <= i < 4 :: IsHexDigit(s[i])
  }

  function HexDigitOf(c: char): (d: nat)
    requires IsHexDigit(c)
    ensures d < 16
  {
    if c <= '9' then c as int - '0' as int
    else if c <= 'F' then 10 + c as int - 'A' as int
    else 10 + c as int - 'a' as int
  }

  function HexOf(s: string): (n: nat)
    requires IsHex(s)
    ensures n < 0x10000
  {
    ((HexDigitOf(s[0]) * 16 + HexDigitOf(s[1])) * 16 + HexDigitOf(s[2])) * 16 + HexDigitOf(s[3])
  }

  predicate IsMark(m: Mark) {
    match m
    case Plain(c) => ' ' <= c && c != '"' && c != '\\'
    case Short(letter) => letter in "\"\\/bfnrt"
    case Code(hex) => IsHex(hex) && !(0xD800 <= HexOf(hex) < 0xE000)
    case Pair(high, low) =>
      IsHex(high) && IsHex(low) && 0xD800 <= HexOf(high) < 0xDC00 && 0xDC00 <= HexOf(low) < 0xE000
  }

  function MarkText(m: Mark): string {
    match m
    case Plain(c) => [c]
    case Short(letter) => "\\" + [letter]
    case Code(hex) => "\\u" + hex
    case Pair(high, low) => "\\u" + high + "\\u" + low
  }

  function MarkMeaning(m: Mark): char
    requires IsMark(m)
  {
    match m
    case Plain(c) => c
    case Short(letter) =>
      if letter == 'b' then 0x08 as char else if letter == 'f' then 0x0C as char else if letter == 'n' then '\n'
      else if letter == 'r' then '\r' else if letter == 't' then '\t' else letter
    case Code(hex) => HexOf(hex) as char
    case Pair(high, low) => (0x10000 + (HexOf(high) - 0xD800) * 0x400 + HexOf(low) - 0xDC00) as char
  }

  predicate AreMarks(ms: seq<Mark>) {
    forall i | 0 <= i < |ms| :: IsMark(ms[i])
  }

  function MarksText(ms: seq<Mark>): string {
    if ms == [] then "" else MarkText(ms[0]) + MarksText(ms[1..])
  }

  function MarksMeaning(ms: seq<Mark>): string
    requires AreMarks(ms)
  {
    if ms == [] then "" else [MarkMeaning(ms[0])] + MarksMeaning(ms[1..])
  }

  lemma {:induction false} HexDigitIsRead(c: char)
    ensures HexValue(c) == if IsHexDigit(c) then Ok(HexDigitOf(c), "") else Fail
  {
  }

  lemma {:induction false} HexIsRead(s: string)
    ensures |s| < 4 || !IsHex(s[..4]) ==> Hex4(s).Fail?
    ensures |s| >= 4 && IsHex(s[..4]) ==> Hex4(s) == Ok(HexOf(s[..4]), s[4..])
  {
    if |s| >= 4 {
      HexDigitIsRead(s[0]);
      HexDigitIsRead(s[1]);
      HexDigitIsRead(s[2]);
      HexDigitIsRead(s[3]);
      assert s[..4] == [s[0], s[1], s[2], s[3]];
      hide HexValue, HexDigitOf, IsHexDigit;
    }
  }

  lemma {:induction false} HexBefore(hex: string, rest: string)
    requires IsHex(hex)
    ensures Hex4(hex + rest) == Ok(HexOf(hex), rest)
  {
    HexIsRead(hex + rest);
    assert (hex + rest)[..4] == hex && (hex + rest)[4..] == rest;
    hide Hex4, HexOf, IsHexDigit;
  }

  lemma {:induction false} CodeIsRead(m: Mark, t: string, rest: string)
    requires IsMark(m) && ((m.Code? && t == m.hex + rest) || (m.Pair? && t == m.high + ("\\u" + (m.low + rest))))
    ensures ParseUnicode(t) == Ok(MarkMeaning(m), rest)
  {
    if m.Code? {
      HexBefore(m.hex, rest);
    } else {
      var tail := "\\u" + (m.low + rest);
      HexBefore(m.high, tail);
      assert tail[..2] == "\\u" && tail[2..] == m.low + rest;
      HexBefore(m.low, rest);
    }
    hide Hex4, HexOf, IsHex;
  }

  lemma {:induction false} ShortIsRead(letter: char, rest: string)
    requires IsMark(Short(letter))
    ensures ParseEscape([letter] + rest) == Ok(MarkMeaning(Short(letter)), rest)
  {
    assert ([letter] + rest)[1..] == rest;
  }

  lemma {:induction false} CodeText(m: Mark, rest: string)
    requires m.Code? || m.Pair?
    ensures MarkText(m)[1..] + rest
         == "u" + (if m.Code? then m.hex + rest else m.high + ("\\u" + (m.low + rest)))
  {
  }

  lemma {:induction false} EscapeIsRead(m: Mark, rest: string)
    requires IsMark(m) && !m.Plain?
    ensures ParseEscape(MarkText(m)[1..] + rest) == Ok(MarkMeaning(m), rest)
  {
    if m.Short? {
      ShortIsRead(m.letter, rest);
      assert MarkText(m)[1..] == [m.letter];
      hide *;
    } else {
      CodeText(m, rest);
      var t := if m.Code? then m.hex + rest else m.high + ("\\u" + (m.low + rest));
      CodeIsRead(m, t, rest);
      assert ("u" + t)[1..] == t;
      assert ParseEscape("u" + t) == ParseUnicode(t);
      hide *;
    }
  }

  lemma {:induction false} FirstMarkIsRead(m: Mark, u: string)
    requires IsMark(m) && ParseString(u).Ok?
    ensures ParseString(MarkText(m) + u) == Ok([MarkMeaning(m)] + ParseString(u).value, ParseString(u).rest)
  {
    var s := MarkText(m) + u;
    if m.Plain? {
      assert s[1..] == u;
      PlainMeaning(m);
    } else {
      assert s[0] == '\\' && s[1..] == MarkText(m)[1..] + u;
      EscapeIsRead(m, u);
    }
    hide ParseEscape, MarkMeaning;
  }

  lemma {:induction false} StringIsRead(ms: seq<Mark>, rest: string)
    requires AreMarks(ms)
    ensures ParseString(MarksText(ms) + "\"" + rest) == Ok(MarksMeaning(ms), rest)
    decreases |ms|
  {
    if ms == [] {
      assert MarksText(ms) + "\"" + rest == "\"" + rest && ("\"" + rest)[1..] == rest;
    } else {
      var m, more := ms[0], ms[1..];
      assert ms == [m] + more && IsMark(m);
      StringIsRead(more, rest);
      OneMoreMark(m, more);
      hide *;
      Regrouped(MarksText(more), "\"", rest);
      Regrouped(MarkText(m), MarksText(more), "\"" + rest);
      Regrouped(MarksText(ms), "\"", rest);
      FirstMarkIsRead(m, MarksText(more) + "\"" + rest);
    }
  }

  lemma {:induction false} PlainMeaning(m: Mark)
    requires IsMark(m) && m.Plain?
    ensures MarkMeaning(m) == m.c
  {
  }

  lemma {:induction false} CodeIsMark(t: string) returns (m: Mark)
    requires ParseUnicode(t).Ok?
    ensures var r := ParseUnicode(t);
            && IsMark(m) && (m.Code? || m.Pair?) && MarkText(m) + r.rest == "\\u" + t && MarkMeaning(m) == r.value
  {
    hide Hex4, HexOf, IsHexDigit;
    HexIsRead(t);
    var h, tail := t[..4], t[4..];
    if 0xD800 <= HexOf(h) < 0xE000 {
      HexIsRead(tail[2..]);
      var l, rest := tail[2..][..4], tail[2..][4..];
      m := Pair(h, l);
      assert tail == "\\u" + l + rest;
      assert "\\u" + t == "\\u" + h + "\\u" + l + rest;
    } else {
      m := Code(h);
      assert "\\u" + t == "\\u" + h + tail;
    }
  }

  /** What an accepted escape looks like. */
  lemma {:induction false} EscapeIsMark(s: string) returns (m: Mark)
    requires ParseEscape(s).Ok?
    ensures var r := ParseEscape(s);
            && IsMark(m) && !m.Plain? && MarkText(m) + r.rest == "\\" + s && MarkMeaning(m) == r.value
  {
    EscapeStarts(s);
    hide *;
    if s[0] == 'u' {
      m := CodeIsMark(s[1..]);
    } else {
      m := Short(s[0]);
      ShortIsMark(s);
    }
  }

  lemma {:induction false} EscapeStarts(s: string)
    requires ParseEscape(s).Ok?
    ensures s != "" && (s[0] == 'u' ==> ParseEscape(s) == ParseUnicode(s[1..]) && "\\" + s == "\\u" + s[1..])
  {
    hide ParseUnicode;
  }

  lemma {:induction false} ShortIsMark(s: string)
    requires ParseEscape(s).Ok? && s[0] != 'u'
    ensures var m, r := Short(s[0]), ParseEscape(s);
            IsMark(m) && MarkText(m) + r.rest == "\\" + s && MarkMeaning(m) == r.value
  {
    assert s == [s[0]] + s[1..];
  }

  /** The first character of an accepted string that is not over. */
  lemma {:induction false} FirstMark(s: string) returns (m: Mark, rest: string)
    requires ParseString(s).Ok? && s[0] != '"'
    ensures IsMark(m) && s == MarkText(m) + rest && |rest| < |s| && ParseString(rest).Ok?
    ensures ParseString(s).rest == ParseString(rest).rest
    ensures ParseString(s).value == [MarkMeaning(m)] + ParseString(rest).value
  {
    if s[0] == '\\' {
      m := EscapeIsMark(s[1..]);
      rest := ParseEscape(s[1..]).rest;
      assert "\\" + s[1..] == s;
    } else {
      m, rest := Plain(s[0]), s[1..];
      PlainMark(s[0]);
      assert s == [s[0]] + s[1..];
    }
    hide ParseEscape, MarkMeaning, MarkText, IsMark;
  }

  lemma {:induction false} OneMoreMark(m: Mark, more: seq<Mark>)
    requires IsMark(m) && AreMarks(more)
    ensures AreMarks([m] + more)
    ensures MarksText([m] + more) == MarkText(m) + MarksText(more)
    ensures MarksMeaning([m] + more) == [MarkMeaning(m)] + MarksMeaning(more)
  {
    assert ([m] + more)[1..] == more;
  }

  lemma {:induction false} StringIsWritten(s: string) returns (ms: seq<Mark>)
    requires ParseString(s).Ok?
    ensures var r := ParseString(s);
            AreMarks(ms) && s == MarksText(ms) + "\"" + r.rest && MarksMeaning(ms) == r.value
    decreases |s|
  {
    if s[0] == '"' {
      ms := [];
      assert s == "" + "\"" + s[1..];
    } else {
      var m, rest := FirstMark(s);
      var more := StringIsWritten(rest);
      hide *;
      ms := [m] + more;
      OneMoreMark(m, more);
      var last := "\"" + ParseString(rest).rest;
      Regrouped(MarksText(more), "\"", ParseString(rest).rest);
      Regrouped(MarkText(m), MarksText(more), last);
      Regrouped(MarksText(ms), "\"", ParseString(rest).rest);
    }
  }

  lemma {:induction false} PlainMark(c: char)
    requires ' ' <= c && c != '"' && c != '\\'
    ensures IsMark(Plain(c)) && MarkText(Plain(c)) == [c] && MarkMeaning(Plain(c)) == c
  {
  }

  // ---------------------------------------------------------------- numbers

  /** Sign, integer part, fraction and exponent as they are written; the last two may be empty. */
  datatype Number = Number(negative: bool, digits: string, fraction: string, exponent: string)

  predicate AllDigits(s: string) {
    s != "" && forall i | 0 <= i < |s| :: '0' <= s[i] <= '9'
  }

  predicate IsFraction(s: string) {
    s == "" || (s[0] == '.' && AllDigits(s[1..]))
  }

  predicate IsExponent(s: string) {
    || s == ""
    || ((s[0] == 'e' || s[0] == 'E')
        && (AllDigits(s[1..]) || (|s| > 1 && (s[1] == '+' || s[1] == '-') && AllDigits(s[2..]))))
  }

  predicate IsNumber(n: Number) {
    AllDigits(n.digits) && (n.digits[0] == '0' ==> |n.digits| == 1) && IsFraction(n.fraction) && IsExponent(n.exponent)
  }

  function UnsignedText(n: Number): string {
    n.digits + n.fraction + n.exponent
  }

  function NumberText(n: Number): string {
    (if n.negative then "-" else "") + UnsignedText(n)
  }

  /** The digits before, shifted, and the next digit. */
  function Decimal(s: string, before: nat): nat
    requires forall i | 0 <= i < |s| :: '0' <= s[i] <= '9'
  {
    if s == "" then before else Decimal(s[1..], 10 * before + (s[0] as int - '0' as int))
  }

  predicate Fits64(i: int) {
    -0x8000_0000_0000_0000 <= i < 0x1_0000_0000_0000_0000
  }

  /** An integer of 64 bits is a number; what is larger, has a fraction or an exponent, or is minus zero stays text. */
  function NumberMeaning(n: Number): Json
    requires IsNumber(n)
  {
    var m := Decimal(n.digits, 0);
    var i: int := if n.negative then -(m as int) else m;
    if n.fraction == "" && n.exponent == "" && Fits64(i) && !(n.negative && m == 0) then JNum(i)
    else JFloat(NumberText(n))
  }

  lemma {:induction false} DecimalIsNat(s: string, before: nat, k: nat)
    requires k <= |s| && (forall c :: c in s ==> IsDigit(c)) && forall i | 0 <= i < |s| :: '0' <= s[i] <= '9'
    requires before == NatOf(s[..k])
    ensures Decimal(s[k..], before) == NatOf(s)
    decreases |s| - k
  {
    if k == |s| {
      assert s[..k] == s && s[k..] == "";
    } else {
      assert s[k] in s && s[..k + 1][..k] == s[..k] && s[k..][1..] == s[k + 1..];
      DecimalIsNat(s, 10 * before + (s[k] as int - '0' as int), k + 1);
    }
  }

  lemma {:induction false} DigitsAreRead(s: string, rest: string)
    requires AllDigits(s) && (rest != "" ==> !IsDigit(rest[0]))
    ensures Digits(s + rest) == s && (s + rest)[|s|..] == rest && (forall c :: c in s ==> IsDigit(c))
    ensures NatOf(s) == Decimal(s, 0)
  {
    DigitsOfConcat(s, rest);
    assert s[..0] == "" && s[0..] == s;
    DecimalIsNat(s, 0, 0);
  }

  lemma {:induction false} FractionIsRead(f: string, rest: string)
    requires IsFraction(f) && (rest != "" ==> !IsDigit(rest[0]) && rest[0] != '.')
    ensures Fraction(f + rest) == Ok((), rest)
  {
    if f == "" {
      assert f + rest == rest;
    } else {
      assert (f + rest)[1..] == f[1..] + rest;
      DigitsAreRead(f[1..], rest);
    }
  }

  lemma {:induction false} FirstIsDigit(s: string)
    requires AllDigits(s)
    ensures s != "" && IsDigit(s[0])
  {
  }

  lemma {:induction false} UnsignedExponent(s: string, d: string, rest: string)
    requires HasHead(s, 'e') || HasHead(s, 'E')
    requires s[1..] == d + rest && AllDigits(d) && EndsNumber(rest)
    ensures Exponent(s) == Ok((), rest)
  {
    FirstIsDigit(d);
    DigitsAreRead(d, rest);
    hide Digits, NatOf, Decimal, AllDigits, EndsNumber;
  }

  lemma {:induction false} SignedExponent(s: string, d: string, rest: string)
    requires (HasHead(s, 'e') || HasHead(s, 'E')) && (HasHead(s[1..], '+') || HasHead(s[1..], '-'))
    requires s[2..] == d + rest && AllDigits(d) && EndsNumber(rest)
    ensures Exponent(s) == Ok((), rest)
  {
    DigitsAreRead(d, rest);
    hide Digits, NatOf, Decimal, AllDigits, EndsNumber;
  }

  lemma {:induction false} ExponentIsRead(e: string, rest: string)
    requires IsExponent(e) && EndsNumber(rest)
    ensures Exponent(e + rest) == Ok((), rest)
  {
    var s := e + rest;
    if e == "" {
      assert s == rest;
    } else if AllDigits(e[1..]) {
      hide AllDigits, EndsNumber, Exponent;
      assert s[1..] == e[1..] + rest;
      UnsignedExponent(s, e[1..], rest);
    } else {
      hide AllDigits, EndsNumber, Exponent;
      assert s[2..] == e[2..] + rest && s[1..][0] == e[1];
      SignedExponent(s, e[2..], rest);
    }
  }

  lemma {:induction false} NumberEndIsRead(n: Number, rest: string)
    requires IsNumber(n) && EndsNumber(rest)
    ensures NumberEnd(n.fraction + n.exponent + rest) == Ok((), rest)
    ensures var u := n.fraction + n.exponent + rest; u != "" ==> !IsDigit(u[0])
  {
    var u := n.exponent + rest;
    assert n.fraction + n.exponent + rest == n.fraction + u;
    FractionIsRead(n.fraction, u);
    ExponentIsRead(n.exponent, rest);
  }

  /** Digits, an end and what they are worth. */
  lemma {:induction false} UnsignedValue(s: string, negative: bool, u: string, rest: string)
    requires var d := Digits(s); d != "" && (d[0] == '0' ==> |d| == 1) && u == s[|d|..]
    requires NumberEnd(u) == Ok((), rest)
    ensures var m: int := if negative then -(NatOf(Digits(s)) as int) else NatOf(Digits(s));
            |rest| <= |u| <= |s|
            && ParseUnsigned(s, negative)
               == Ok(if |rest| == |u| && Fits64(m) && !(negative && m == 0) then JNum(m)
                     else JFloat((if negative then "-" else "") + s[..|s| - |rest|]), rest)
  {
    hide Digits, NatOf, NumberEnd;
  }

  lemma {:induction false} UnsignedIsRead(n: Number, rest: string)
    requires IsNumber(n) && EndsNumber(rest)
    ensures ParseUnsigned(UnsignedText(n) + rest, n.negative) == Ok(NumberMeaning(n), rest)
  {
    hide ParseUnsigned, NumberEnd, NatOf, Decimal, Digits, EndsNumber, Fits64, AllDigits, IsFraction, IsExponent;
    var s, u := UnsignedText(n) + rest, n.fraction + n.exponent + rest;
    FirstIsDigit(n.digits);
    NumberEndIsRead(n, rest);
    Prefixed(n.digits + u, n.digits, n.fraction, n.exponent, rest);
    assert s == n.digits + u;
    DigitsAreRead(n.digits, u);
    UnsignedValue(s, n.negative, u, rest);
  }

  lemma {:induction false} NumberIsRead(n: Number, rest: string)
    requires IsNumber(n) && EndsNumber(rest)
    ensures ParseNumber(NumberText(n) + rest) == Ok(NumberMeaning(n), rest)
  {
    hide ParseUnsigned, NumberMeaning, EndsNumber;
    UnsignedIsRead(n, rest);
    var s := NumberText(n) + rest;
    if n.negative {
      assert s[1..] == UnsignedText(n) + rest;
    } else {
      assert s == UnsignedText(n) + rest && s[0] == n.digits[0];
    }
  }

  /** What an accepted fraction, exponent or number looks like. */
  lemma {:induction false} DigitsAreWritten(s: string)
    ensures var d := Digits(s); d != "" ==> AllDigits(d) && s == d + s[|d|..]
    ensures var u := s[|Digits(s)|..]; u != "" ==> !IsDigit(u[0])
  {
    var d := Digits(s);
    assert forall i | 0 <= i < |d| :: d[i] in d;
    if s != "" && IsDigit(s[0]) {
      DigitsAreWritten(s[1..]);
      assert s[1..][|Digits(s[1..])|..] == s[|d|..];
    }
  }

  lemma {:induction false} FractionIsWritten(s: string) returns (f: string)
    requires Fraction(s).Ok?
    ensures IsFraction(f) && s == f + Fraction(s).rest
  {
    if HasHead(s, '.') {
      var d := Digits(s[1..]);
      DigitsAreWritten(s[1..]);
      f := "." + d;
      assert f[1..] == d && s == "." + s[1..];
    } else {
      f := "";
    }
  }

  lemma {:induction false} ExponentParts(s: string, sign: nat)
    requires HasHead(s, 'e') || HasHead(s, 'E')
    requires sign == if HasHead(s[1..], '+') || HasHead(s[1..], '-') then 1 else 0
    requires Exponent(s).Ok?
    ensures var d := Digits(s[1 + sign..]);
            d != "" && 1 + sign + |d| <= |s| && Exponent(s).rest == s[1 + sign + |d|..]
  {
    hide Digits;
  }

  lemma {:induction false} BuiltExponent(s: string, sign: nat, d: string)
    requires HasHead(s, 'e') || HasHead(s, 'E')
    requires sign == if HasHead(s[1..], '+') || HasHead(s[1..], '-') then 1 else 0
    requires 1 + sign + |d| <= |s| && AllDigits(d) && s[1 + sign..] == d + s[1 + sign..][|d|..]
    ensures var e := s[..1 + sign + |d|];
            IsExponent(e) && s == e + s[1 + sign + |d|..]
  {
    var e := s[..1 + sign + |d|];
    assert e[1 + sign..] == d;
    hide AllDigits;
  }

  lemma {:induction false} ExponentIsWritten(s: string) returns (e: string)
    requires Exponent(s).Ok?
    ensures IsExponent(e) && s == e + Exponent(s).rest
  {
    if HasHead(s, 'e') || HasHead(s, 'E') {
      var sign := if HasHead(s[1..], '+') || HasHead(s[1..], '-') then 1 else 0;
      ExponentParts(s, sign);
      var d := Digits(s[1 + sign..]);
      DigitsAreWritten(s[1 + sign..]);
      hide *;
      BuiltExponent(s, sign, d);
      e := s[..1 + sign + |d|];
    } else {
      e := "";
    }
  }

  lemma {:induction false} NumberEndIsWritten(u: string) returns (f: string, e: string)
    requires NumberEnd(u).Ok?
    ensures IsFraction(f) && IsExponent(e) && u == f + e + NumberEnd(u).rest
  {
    f := FractionIsWritten(u);
    e := ExponentIsWritten(Fraction(u).rest);
    var rest := NumberEnd(u).rest;
    assert rest == Exponent(Fraction(u).rest).rest;
    hide *;
    Regrouped(f, e, rest);
  }

  /** The parts of an accepted unsigned number. */
  lemma {:induction false} UnsignedParts(s: string, negative: bool)
    requires ParseUnsigned(s, negative).Ok?
    ensures var d, r := Digits(s), ParseUnsigned(s, negative);
            var u := s[|d|..];
            && AllDigits(d) && (d[0] == '0' ==> |d| == 1) && NumberEnd(u).Ok? && r.rest == NumberEnd(u).rest
            && |r.rest| <= |u| && NatOf(d) == Decimal(d, 0)
            && var m: int := if negative then -(NatOf(d) as int) else NatOf(d);
               r.value == if |r.rest| == |u| && Fits64(m) && !(negative && m == 0) then JNum(m)
                          else JFloat((if negative then "-" else "") + s[..|s| - |r.rest|])
  {
    hide NatOf, Decimal, NumberEnd;
    var d := Digits(s);
    DigitsAreWritten(s);
    assert d[..0] == "" && d[0..] == d;
    assert NatOf("") == 0 by { EmptyNat(); }
    DecimalIsNat(d, 0, 0);
    hide Digits;
  }

  lemma {:induction false} EmptyNat()
    ensures NatOf("") == 0
  {
  }

  lemma {:induction false} Prefixed(s: string, d: string, f: string, e: string, rest: string)
    requires s == d + (f + e + rest)
    ensures s == d + f + e + rest && s[..|s| - |rest|] == d + f + e
  {
    assert s == d + f + e + rest;
  }

  lemma {:induction false} UnsignedIsWritten(s: string, negative: bool) returns (n: Number)
    requires ParseUnsigned(s, negative).Ok?
    ensures var r := ParseUnsigned(s, negative);
            && n.negative == negative && IsNumber(n) && s == UnsignedText(n) + r.rest && NumberMeaning(n) == r.value
  {
    hide ParseUnsigned, NumberEnd, IsFraction, IsExponent, Decimal, NatOf, AllDigits, Digits, Fits64;
    UnsignedParts(s, negative);
    var d, rest := Digits(s), ParseUnsigned(s, negative).rest;
    var u := s[|d|..];
    var f, e := NumberEndIsWritten(u);
    n := Number(negative, d, f, e);
    assert s == d + u by { DigitsAreWritten(s); }
    Prefixed(s, d, f, e, rest);
  }

  lemma {:induction false} NumberIsWritten(s: string) returns (n: Number)
    requires s != "" && ParseNumber(s).Ok?
    ensures IsNumber(n) && s == NumberText(n) + ParseNumber(s).rest && NumberMeaning(n) == ParseNumber(s).value
  {
    hide ParseUnsigned, NumberMeaning, IsNumber, UnsignedText;
    if s[0] == '-' {
      n := UnsignedIsWritten(s[1..], true);
      assert s == "-" + s[1..];
      assert "-" + (UnsignedText(n) + ParseNumber(s).rest) == "-" + UnsignedText(n) + ParseNumber(s).rest;
    } else {
      n := UnsignedIsWritten(s, false);
      assert "" + UnsignedText(n) == UnsignedText(n);
    }
  }
}
