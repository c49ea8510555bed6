/**
 The compact JSON writer and the reader of `serde_json`, on the fragment the repository uses.
 String escaping and number syntax follow RFC 8259, sections 6 and 7.
 */
module JsonText {
  import opened Wrappers

  /** A JSON document. A non-integer number is kept as its literal; objects keep the order of their members. */
  datatype Json =
    | JNull
    | JBool(b: bool)
    | JNum(n: int)
    | JFloat(lit: string)
    | JStr(s: string)
    | JArr(items: seq<Json>)
    | JObj(entries: seq<Entry>)

  datatype Entry = Entry(key: string, value: Json)

  datatype Parsed<+T> = Ok(value: T, rest: string) | Fail

  /** How many containers may be open at once: the reader starts with 128 and refuses at zero. */
  const MAX_DEPTH: nat := 127

  const U64_END := 0x1_0000_0000_0000_0000
  const I64_END := 0x8000_0000_0000_0000

  predicate InRange(n: int) {
    -I64_END <= n < U64_END
  }

  /** The characters a number literal is made of. */
  predicate IsNumberChar(c: char) {
    IsDigit(c) || c == '-' || c == '+' || c == '.' || c == 'e' || c == 'E'
  }

  predicate IsLiteral(s: string) {
    s != "" && forall i | 0 <= i < |s| :: IsNumberChar(s[i])
  }

  predicate Ranged(j: Json) {
    match j
    case JNum(n) => InRange(n)
    case JFloat(lit) => IsLiteral(lit)
    case JArr(items) => forall x | x in items :: Ranged(x)
    case JObj(entries) => forall e | e in entries :: Ranged(e.value)
    case _ => true
  }

  predicate FloatFree(j: Json) {
    match j
    case JFloat(_) => false
    case JArr(items) => forall x | x in items :: FloatFree(x)
    case JObj(entries) => forall e | e in entries :: FloatFree(e.value)
    case _ => true
  }

  function Max(a: nat, b: nat): nat {
    if a < b then b else a
  }

  /** The number of containers open at the deepest point. */
  function Depth(j: Json): nat {
    match j
    case JArr(items) => 1 + ItemsDepth(items)
    case JObj(entries) => 1 + EntriesDepth(entries)
    case _ => 0
  }

  function ItemsDepth(items: seq<Json>): nat {
    if items == [] then 0 else Max(Depth(items[0]), ItemsDepth(items[1..]))
  }

  function EntriesDepth(entries: seq<Entry>): nat {
    if entries == [] then 0 else Max(Depth(entries[0].value), EntriesDepth(entries[1..]))
  }

  // ---------------------------------------------------------------- writer

  function Digit(d: nat): char
    requires d < 16
  {
    "0123456789abcdef"[d]
  }

  function EscapeChar(c: char): string {
    if c == '"' then "\\\""
    else if c == '\\' then "\\\\"
    else if c as int == 0x08 then "\\b"
    else if c as int == 0x0C then "\\f"
    else if c == '\n' then "\\n"
    else if c == '\r' then "\\r"
    else if c == '\t' then "\\t"
    else if c as int < 0x20 then "\\u00" + [Digit(c as int / 16), Digit(c as int % 16)]
    else [c]
  }

  function Escape(s: string): string {
    if s == "" then "" else EscapeChar(s[0]) + Escape(s[1..])
  }

  function PrintStr(s: string): string {
    "\"" + Escape(s) + "\""
  }

  function PrintNat(n: nat): string {
    if n < 10 then [Digit(n)] else PrintNat(n / 10) + [Digit(n % 10)]
  }

  function PrintInt(n: int): string {
    if n < 0 then "-" + PrintNat(-n) else PrintNat(n)
  }

  function Print(j: Json): string
    decreases j
  {
    match j
    case JNull => "null"
    case JBool(b) => if b then "true" else "false"
    case JNum(n) => PrintInt(n)
    case JFloat(lit) => lit
    case JStr(s) => PrintStr(s)
    case JArr(items) => if items == [] then "[]" else "[" + PrintItems(items)
    case JObj(entries) => if entries == [] then "{}" else "{" + PrintEntries(entries)
  }

  /** Elements separated by commas, up to and including the closing bracket. */
  function PrintItems(items: seq<Json>): string
    requires items != []
    decreases items
  {
    Print(items[0]) + if |items| == 1 then "]" else "," + PrintItems(items[1..])
  }

  /** Members separated by commas, up to and including the closing brace. */
  function PrintEntries(entries: seq<Entry>): string
    requires entries != []
    decreases entries
  {
    PrintEntry(entries[0]) + if |entries| == 1 then "}" else "," + PrintEntries(entries[1..])
  }

  function PrintEntry(e: Entry): string
    decreases e
  {
    PrintStr(e.key) + ":" + Print(e.value)
  }

  // ---------------------------------------------------------------- reader

  predicate IsJsonSpace(c: char) {
    c == ' ' || c == '\n' || c == '\t' || c == '\r'
  }

  function SkipSpace(s: string): (r: string)
    ensures |r| <= |s|
  {
    if s != "" && IsJsonSpace(s[0]) then SkipSpace(s[1..]) else s
  }

  predicate StartsWith(s: string, p: string) {
    |p| <= |s| && s[..|p|] == p
  }

  predicate HasHead(s: string, c: char) {
    s != "" && s[0] == c
  }

  predicate IsDigit(c: char) {
    '0' <= c <= '9'
  }

  function DigitValue(c: char): nat
    requires IsDigit(c)
  {
    c as int - '0' as int
  }

  /** The longest prefix of decimal digits. */
  function Digits(s: string): (r: string)
    ensures |r| <= |s| && r == s[..|r|]
    ensures forall c :: c in r ==> IsDigit(c)
  {
    if s != "" && IsDigit(s[0]) then [s[0]] + Digits(s[1..]) else ""
  }

  function NatOf(s: string): nat
    requires forall c :: c in s ==> IsDigit(c)
  {
    if s == "" then 0
    else
      assert s[|s| - 1] in s;
      10 * NatOf(s[..|s| - 1]) + DigitValue(s[|s| - 1])
  }

  /** A fraction `.ddd` if one is there: skipped over, or Fail when the dot has no digit behind it. */
  function Fraction(s: string): (r: Parsed<()>)
    ensures r.Ok? ==> |r.rest| <= |s| && r.rest == s[|s| - |r.rest|..]
    ensures r.Ok? ==> forall i | 0 <= i < |s| - |r.rest| :: IsNumberChar(s[i])
  {
    if !HasHead(s, '.') then Ok((), s)
    else
      var d := Digits(s[1..]);
      if d == "" then Fail else Ok((), s[1 + |d|..])
  }

  /** An exponent if one is there. */
  function Exponent(s: string): (r: Parsed<()>)
    ensures r.Ok? ==> |r.rest| <= |s| && r.rest == s[|s| - |r.rest|..]
    ensures r.Ok? ==> forall i | 0 <= i < |s| - |r.rest| :: IsNumberChar(s[i])
  {
    if !HasHead(s, 'e') && !HasHead(s, 'E') then Ok((), s)
    else
      var sign := if HasHead(s[1..], '+') || HasHead(s[1..], '-') then 1 else 0;
      var d := Digits(s[1 + sign..]);
      if d == "" then Fail else Ok((), s[1 + sign + |d|..])
  }

  /** What may follow the integer part; the result says where the number ends. */
  function NumberEnd(s: string): (r: Parsed<()>)
    ensures r.Ok? ==> |r.rest| <= |s| && r.rest == s[|s| - |r.rest|..]
    ensures r.Ok? ==> forall i | 0 <= i < |s| - |r.rest| :: IsNumberChar(s[i])
  {
    var f := Fraction(s);
    if f.Fail? then Fail else Exponent(f.rest)
  }

  lemma {:induction false} DigitChars(s: string)
    ensures var d := Digits(s); forall k | 0 <= k < |d| :: IsNumberChar(s[k])
  {
    var d := Digits(s);
    assert forall k | 0 <= k < |d| :: s[k] == d[k] && d[k] in d;
  }

  /** The literal that ends where `rest` begins. */
  function Literal(s: string, rest: string, negative: bool): (lit: string)
    requires |rest| < |s| && forall i | 0 <= i < |s| - |rest| :: IsNumberChar(s[i])
    ensures IsLiteral(lit)
  {
    (if negative then "-" else "") + s[..|s| - |rest|]
  }

  lemma {:induction false} LiteralChars(s: string, i: nat, rest: string)
    requires 0 < i <= |s| && |rest| <= |s| - i
    requires forall k | 0 <= k < i :: IsNumberChar(s[k])
    requires forall k | 0 <= k < |s[i..]| - |rest| :: IsNumberChar(s[i..][k])
    ensures forall k | 0 <= k < |s| - |rest| :: IsNumberChar(s[k])
  {
    forall k | i <= k < |s| - |rest| ensures IsNumberChar(s[k]) { assert s[k] == s[i..][k - i]; }
  }

  /** A number without its sign. Anything but an integer of 64 bits stays a literal, and so does `-0`. */
  function ParseUnsigned(s: string, negative: bool): (r: Parsed<Json>)
    ensures r.Ok? ==> |r.rest| < |s| && Ranged(r.value)
  {
    var d := Digits(s);
    if d == "" || (d[0] == '0' && |d| > 1) then Fail
    else
      var u := s[|d|..];
      var e := NumberEnd(u);
      if e.Fail? then Fail
      else
        var n: int := if negative then -(NatOf(d) as int) else NatOf(d);
        if |e.rest| == |u| && InRange(n) && !(negative && n == 0) then Ok(JNum(n), u)
        else
          DigitChars(s);
          LiteralChars(s, |d|, e.rest);
          Ok(JFloat(Literal(s, e.rest, negative)), e.rest)
  }

  function ParseNumber(s: string): (r: Parsed<Json>)
    requires s != ""
    ensures r.Ok? ==> |r.rest| < |s| && Ranged(r.value)
  {
    if s[0] == '-' then ParseUnsigned(s[1..], true) else ParseUnsigned(s, false)
  }

  function HexValue(c: char): Parsed<nat> {
    if '0' <= c <= '9' then Ok(c as int - '0' as int, "")
    else if 'a' <= c <= 'f' then Ok(c as int - 'a' as int + 10, "")
    else if 'A' <= c <= 'F' then Ok(c as int - 'A' as int + 10, "")
    else Fail
  }

  /** Four hexadecimal digits. */
  function Hex4(s: string): (r: Parsed<nat>)
    ensures r.Ok? ==> r.value < 0x10000 && |s| >= 4 && r.rest == s[4..]
  {
    if |s| < 4 then Fail
    else
      var a, b, c, d := HexValue(s[0]), HexValue(s[1]), HexValue(s[2]), HexValue(s[3]);
      if a.Fail? || b.Fail? || c.Fail? || d.Fail? then Fail
      else Ok(a.value * 4096 + b.value * 256 + c.value * 16 + d.value, s[4..])
  }

  /** What follows `\u`: one scalar value, or a high and a low surrogate escape together. */
  function ParseUnicode(s: string): (r: Parsed<char>)
    ensures r.Ok? ==> |r.rest| <= |s| - 4 && r.rest == s[|s| - |r.rest|..]
  {
    var h := Hex4(s);
    if h.Fail? || 0xDC00 <= h.value < 0xE000 then Fail
    else if h.value < 0xD800 || 0xE000 <= h.value then Ok(h.value as char, h.rest)
    else if !StartsWith(h.rest, "\\u") then Fail
    else
      var l := Hex4(h.rest[2..]);
      if l.Fail? || !(0xDC00 <= l.value < 0xE000) then Fail
      else Ok((0x10000 + (h.value - 0xD800) * 0x400 + (l.value - 0xDC00)) as char, l.rest)
  }

  /** What follows a backslash. */
  function ParseEscape(s: string): (r: Parsed<char>)
    ensures r.Ok? ==> |r.rest| < |s| && r.rest == s[|s| - |r.rest|..]
  {
    if s == "" then Fail
    else match s[0]
         case '"' => Ok('"', s[1..])
         case '\\' => Ok('\\', s[1..])
         case '/' => Ok('/', s[1..])
         case 'b' => Ok(0x08 as char, s[1..])
         case 'f' => Ok(0x0C as char, s[1..])
         case 'n' => Ok('\n', s[1..])
         case 'r' => Ok('\r', s[1..])
         case 't' => Ok('\t', s[1..])
         case 'u' => ParseUnicode(s[1..])
         case _ => Fail
  }

  /** The characters of a string and its closing quote; a raw control character is refused. */
  function ParseString(s: string): (r: Parsed<string>)
    ensures r.Ok? ==> |r.rest| < |s|
    decreases |s|
  {
    if s == "" || (s[0] as int) < 0x20 then Fail
    else if s[0] == '"' then Ok("", s[1..])
    else
      var c := if s[0] == '\\' then ParseEscape(s[1..]) else Ok(s[0], s[1..]);
      if c.Fail? then Fail
      else
        var t := ParseString(c.rest);
        if t.Fail? then Fail else Ok([c.value] + t.value, t.rest)
  }

  function ParseLiteral(s: string, word: string, value: Json): (r: Parsed<Json>)
    requires word != "" && Ranged(value)
    ensures r.Ok? ==> |r.rest| < |s| && Ranged(r.value)
  {
    if StartsWith(s, word) then Ok(value, s[|word|..]) else Fail
  }

  /** `depth` is how many more containers may be opened. */
  function ParseValue(s: string, depth: nat): (r: Parsed<Json>)
    ensures r.Ok? ==> |r.rest| < |s| && Ranged(r.value)
    decreases |s|, 2
  {
    var t := SkipSpace(s);
    if t == "" then Fail else ParseToken(t, depth)
  }

  /** The first character decides what kind of value this is. */
  function ParseToken(t: string, depth: nat): (r: Parsed<Json>)
    requires t != ""
    ensures r.Ok? ==> |r.rest| < |t| && Ranged(r.value)
    decreases |t|, 1
  {
    match t[0]
    case 'n' => ParseLiteral(t, "null", JNull)
    case 't' => ParseLiteral(t, "true", JBool(true))
    case 'f' => ParseLiteral(t, "false", JBool(false))
    case '"' => var r := ParseString(t[1..]); if r.Fail? then Fail else Ok(JStr(r.value), r.rest)
    case '[' => if depth == 0 then Fail else ParseArray(t[1..], depth - 1)
    case '{' => if depth == 0 then Fail else ParseObject(t[1..], depth - 1)
    case c => if c == '-' || IsDigit(c) then ParseNumber(t) else Fail
  }

  function ParseArray(s: string, depth: nat): (r: Parsed<Json>)
    ensures r.Ok? ==> |r.rest| < |s| && Ranged(r.value)
    decreases |s|, 5
  {
    var t := SkipSpace(s);
    if HasHead(t, ']') then Ok(JArr([]), t[1..])
    else
      var r := ParseItems(t, depth);
      if r.Fail? then Fail else Ok(JArr(r.value), r.rest)
  }

  function ParseObject(s: string, depth: nat): (r: Parsed<Json>)
    ensures r.Ok? ==> |r.rest| < |s| && Ranged(r.value)
    decreases |s|, 5
  {
    var t := SkipSpace(s);
    if HasHead(t, '}') then Ok(JObj([]), t[1..])
    else
      var r := ParseEntries(t, depth);
      if r.Fail? then Fail else Ok(JObj(r.value), r.rest)
  }

  /** Elements up to and including the closing bracket. */
  function ParseItems(s: string, depth: nat): (r: Parsed<seq<Json>>)
    ensures r.Ok? ==> |r.rest| < |s| && forall x | x in r.value :: Ranged(x)
    decreases |s|, 3
  {
    var v := ParseValue(s, depth);
    if v.Fail? then Fail
    else
      var t := SkipSpace(v.rest);
      if HasHead(t, ']') then Ok([v.value], t[1..])
      else if HasHead(t, ',') then
        var r := ParseItems(t[1..], depth);
        if r.Fail? then Fail else Ok([v.value] + r.value, r.rest)
      else Fail
  }

  /** One member of an object. */
  function ParseEntry(s: string, depth: nat): (r: Parsed<Entry>)
    ensures r.Ok? ==> |r.rest| < |s| && Ranged(r.value.value)
    decreases |s|, 3
  {
    var t := SkipSpace(s);
    if !HasHead(t, '"') then Fail
    else
      var k := ParseString(t[1..]);
      if k.Fail? then Fail
      else
        var c := SkipSpace(k.rest);
        if !HasHead(c, ':') then Fail
        else
          var v := ParseValue(c[1..], depth);
          if v.Fail? then Fail else Ok(Entry(k.value, v.value), v.rest)
  }

  /** Members up to and including the closing brace. */
  function ParseEntries(s: string, depth: nat): (r: Parsed<seq<Entry>>)
    ensures r.Ok? ==> |r.rest| < |s| && forall e | e in r.value :: Ranged(e.value)
    decreases |s|, 4
  {
    var e := ParseEntry(s, depth);
    if e.Fail? then Fail
    else
      var t := SkipSpace(e.rest);
      if HasHead(t, '}') then Ok([e.value], t[1..])
      else if HasHead(t, ',') then
        var r := ParseEntries(t[1..], depth);
        if r.Fail? then Fail else Ok([e.value] + r.value, r.rest)
      else Fail
  }

  /** A whole document: one value with nothing but white space behind it. */
  function Parse(s: string): (r: Option<Json>)
    ensures r.Some? ==> Ranged(r.value)
  {
    var v := ParseValue(s, MAX_DEPTH);
    if v.Ok? && SkipSpace(v.rest) == "" then Some(v.value) else None
  }
}
