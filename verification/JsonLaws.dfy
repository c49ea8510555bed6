/** The reader undoes the writer, exactly up to the reader's depth limit. */
module JsonLaws {
  import opened Wrappers
  import opened JsonText

  /** `rest` cannot be taken for more of a number. */
  predicate EndsNumber(rest: string) {
    rest != "" ==> !IsDigit(rest[0]) && rest[0] != '.' && rest[0] != 'e' && rest[0] != 'E'
  }

  // ---------------------------------------------------------------- strings

  lemma {:induction false} HexDigit(d: nat)
    requires d < 16
    ensures HexValue(Digit(d)) == Ok(d, "")
  {
  }

  /** An escape of a control character without a short form. */
  lemma {:induction false} UnicodeRoundTrip(n: nat, rest: string)
    requires n < 0x20
    ensures ParseUnicode("00" + [Digit(n / 16), Digit(n % 16)] + rest) == Ok(n as char, rest)
  {
    hide HexValue, Digit;
    var s := "00" + [Digit(n / 16), Digit(n % 16)] + rest;
    HexDigit(0);
    HexDigit(n / 16);
    HexDigit(n % 16);
    ZeroDigit();
    assert s[4..] == rest;
  }

  lemma {:induction false} ZeroDigit()
    ensures Digit(0) == '0'
  {
  }

  lemma {:induction false} EscapeCharRoundTrip(c: char, rest: string)
    requires EscapeChar(c)[0] == '\\'
    ensures ParseEscape(EscapeChar(c)[1..] + rest) == Ok(c, rest)
  {
    hide ParseUnicode, Digit;
    var e := EscapeChar(c);
    var s := e[1..] + rest;
    if |e| == 6 {
      var n := c as int;
      UnicodeRoundTrip(n, rest);
      assert s[1..] == "00" + [Digit(n / 16), Digit(n % 16)] + rest;
    } else {
      assert s[1..] == rest;
    }
  }

  lemma {:induction false} EscapeCharShape(c: char)
    ensures var e := EscapeChar(c);
            e != "" && (e[0] != '\\' ==> e == [c] && c != '"' && c as int >= 0x20)
  {
  }

  lemma {:induction false} StringRoundTrip(s: string, rest: string)
    ensures ParseString(Escape(s) + "\"" + rest) == Ok(s, rest)
  {
    hide EscapeChar, ParseEscape;
    var t := Escape(s) + "\"" + rest;
    if s == "" {
      assert t == "\"" + rest;
    } else {
      var c, e := s[0], EscapeChar(s[0]);
      EscapeCharShape(c);
      var u := Escape(s[1..]) + "\"" + rest;
      assert t == e + u;
      StringRoundTrip(s[1..], rest);
      if e[0] == '\\' {
        EscapeCharRoundTrip(c, u);
        assert t[1..] == e[1..] + u;
      } else {
        assert t[1..] == u;
      }
      assert s == [c] + s[1..];
    }
  }

  // ---------------------------------------------------------------- numbers

  lemma {:induction false} PrintNatShape(n: nat)
    ensures var p := PrintNat(n);
            && p != "" && IsDigit(p[0]) && (forall c :: c in p ==> IsDigit(c))
            && (p[0] == '0' ==> |p| == 1)
            && NatOf(p) == n
            && (p[0] == '0' <==> n == 0)
  {
    if n >= 10 {
      PrintNatShape(n / 10);
      assert PrintNat(n)[..|PrintNat(n)| - 1] == PrintNat(n / 10);
    } else {
      assert PrintNat(n)[..0] == "";
    }
  }

  lemma {:induction false} DigitsOfConcat(d: string, rest: string)
    requires forall c :: c in d ==> IsDigit(c)
    requires rest != "" ==> !IsDigit(rest[0])
    ensures Digits(d + rest) == d
  {
    if d != "" {
      assert (d + rest)[1..] == d[1..] + rest;
      DigitsOfConcat(d[1..], rest);
    } else {
      assert d + rest == rest;
    }
  }

  lemma {:induction false} UnsignedDigits(d: string, m: nat, negative: bool, rest: string)
    requires InRange(if negative then -(m as int) else m) && !(negative && m == 0)
    requires d != "" && Digits(d + rest) == d && NatOf(d) == m && (d[0] == '0' ==> |d| == 1)
    requires NumberEnd(rest) == Ok((), rest)
    ensures ParseUnsigned(d + rest, negative) == Ok(JNum(if negative then -(m as int) else m), rest)
  {
    hide Digits, NatOf, NumberEnd, InRange;
    assert (d + rest)[|d|..] == rest;
  }

  lemma {:induction false} UnsignedRoundTrip(m: nat, negative: bool, rest: string)
    requires InRange(if negative then -(m as int) else m) && EndsNumber(rest) && !(negative && m == 0)
    ensures ParseUnsigned(PrintNat(m) + rest, negative) == Ok(JNum(if negative then -(m as int) else m), rest)
  {
    hide ParseUnsigned, Digits, NatOf, PrintNat;
    PrintNatShape(m);
    DigitsOfConcat(PrintNat(m), rest);
    UnsignedDigits(PrintNat(m), m, negative, rest);
  }

  lemma {:induction false} NumberRoundTrip(n: int, rest: string)
    requires InRange(n) && EndsNumber(rest)
    ensures ParseNumber(PrintInt(n) + rest) == Ok(JNum(n), rest)
  {
    hide ParseUnsigned, PrintNat, NatOf, EndsNumber;
    if n < 0 {
      assert (PrintInt(n) + rest)[1..] == PrintNat(-n) + rest;
      UnsignedRoundTrip(-n, true, rest);
    } else {
      PrintNatShape(n);
      assert (PrintInt(n) + rest)[0] == PrintNat(n)[0];
      UnsignedRoundTrip(n, false, rest);
    }
  }

  // ---------------------------------------------------------------- documents

  /** How printed values begin: never with white space or a closing bracket. */
  lemma {:induction false} PrintHead(j: Json)
    requires Ranged(j)
    ensures var p := Print(j);
            p != "" && !IsJsonSpace(p[0]) && p[0] != ']'
    ensures j.JNum? ==> Print(j)[0] == '-' || IsDigit(Print(j)[0])
  {
    if j.JNum? {
      var m := if j.n < 0 then -j.n else j.n;
      PrintNatShape(m);
    }
  }

  lemma {:induction false} LiteralRoundTrip(word: string, rest: string, value: Json)
    requires word != "" && Ranged(value)
    ensures ParseLiteral(word + rest, word, value) == Ok(value, rest)
  {
    assert (word + rest)[|word|..] == rest;
  }

  /** The general form: with `depth` containers allowed, a printed value is read back if it fits and refused if not. */
  lemma {:induction false} ValueRoundTrip(j: Json, rest: string, depth: nat)
    requires Ranged(j) && FloatFree(j) && EndsNumber(rest)
    ensures ParseValue(Print(j) + rest, depth) == if Depth(j) <= depth then Ok(j, rest) else Fail
    decreases j, 1
  {
    PrintHead(j);
    TokenRoundTrip(j, rest, depth);
  }

  lemma {:induction false} TokenRoundTrip(j: Json, rest: string, depth: nat)
    requires Ranged(j) && FloatFree(j) && EndsNumber(rest) && Print(j) != ""
    ensures ParseToken(Print(j) + rest, depth) == if Depth(j) <= depth then Ok(j, rest) else Fail
    decreases j, 0
  {
    hide ParseNumber, ParseArray, ParseObject, ParseString, ParseLiteral, PrintInt;
    var s := Print(j) + rest;
    match j
    case JNull => LiteralRoundTrip("null", rest, j);
    case JBool(b) => LiteralRoundTrip(if b then "true" else "false", rest, j);
    case JNum(n) =>
      PrintHead(j);
      NumberRoundTrip(n, rest);
      assert s[0] == Print(j)[0];
    case JStr(t) =>
      assert s[1..] == Escape(t) + "\"" + rest;
      StringRoundTrip(t, rest);
    case JArr(items) => if depth > 0 { ArrayRoundTrip(items, rest, depth - 1); }
    case JObj(entries) => if depth > 0 { ObjectRoundTrip(entries, rest, depth - 1); }
  }

  lemma {:induction false} ArrayRoundTrip(items: seq<Json>, rest: string, depth: nat)
    requires forall x | x in items :: Ranged(x) && FloatFree(x)
    ensures ParseArray((Print(JArr(items)) + rest)[1..], depth)
         == if ItemsDepth(items) <= depth then Ok(JArr(items), rest) else Fail
    decreases items, 1
  {
    var s := (Print(JArr(items)) + rest)[1..];
    if items == [] {
      assert s == "]" + rest && s[1..] == rest;
    } else {
      assert s == PrintItems(items) + rest;
      PrintHead(items[0]);
      ItemsRoundTrip(items, rest, depth);
    }
  }

  lemma {:induction false} ObjectRoundTrip(entries: seq<Entry>, rest: string, depth: nat)
    requires forall e | e in entries :: Ranged(e.value) && FloatFree(e.value)
    ensures ParseObject((Print(JObj(entries)) + rest)[1..], depth)
         == if EntriesDepth(entries) <= depth then Ok(JObj(entries), rest) else Fail
    decreases entries, 1
  {
    var s := (Print(JObj(entries)) + rest)[1..];
    if entries == [] {
      assert s == "}" + rest && s[1..] == rest;
    } else {
      assert s == PrintEntries(entries) + rest;
      EntriesRoundTrip(entries, rest, depth);
    }
  }

  lemma {:induction false} ItemsRoundTrip(items: seq<Json>, rest: string, depth: nat)
    requires items != [] && forall x | x in items :: Ranged(x) && FloatFree(x)
    ensures ParseItems(PrintItems(items) + rest, depth)
         == if ItemsDepth(items) <= depth then Ok(items, rest) else Fail
    decreases items, 0
  {
    hide ParseValue, Print, Ranged, FloatFree;
    var x, xs := items[0], items[1..];
    assert items == [x] + xs;
    var tail := if |items| == 1 then "]" + rest else "," + (PrintItems(xs) + rest);
    assert PrintItems(items) + rest == Print(x) + tail;
    ValueRoundTrip(x, tail, depth);
    if |items| == 1 {
      assert items == [x] && tail[1..] == rest;
    } else {
      assert tail[1..] == PrintItems(xs) + rest;
      ItemsRoundTrip(xs, rest, depth);
    }
  }

  lemma {:induction false} EntryRoundTrip(e: Entry, rest: string, depth: nat)
    requires Ranged(e.value) && FloatFree(e.value) && EndsNumber(rest)
    ensures ParseEntry(PrintEntry(e) + rest, depth) == if Depth(e.value) <= depth then Ok(e, rest) else Fail
    decreases e
  {
    hide ParseValue, ParseString, Escape, Print;
    var s := PrintEntry(e) + rest;
    var colon := ":" + (Print(e.value) + rest);
    assert s[1..] == Escape(e.key) + "\"" + colon;
    StringRoundTrip(e.key, colon);
    assert colon[1..] == Print(e.value) + rest;
    ValueRoundTrip(e.value, rest, depth);
  }

  lemma {:induction false} EntriesRoundTrip(entries: seq<Entry>, rest: string, depth: nat)
    requires entries != [] && forall e | e in entries :: Ranged(e.value) && FloatFree(e.value)
    ensures ParseEntries(PrintEntries(entries) + rest, depth)
         == if EntriesDepth(entries) <= depth then Ok(entries, rest) else Fail
    decreases entries, 0
  {
    hide ParseEntry, PrintEntry, Ranged, FloatFree;
    var e, es := entries[0], entries[1..];
    assert entries == [e] + es;
    var tail := if |entries| == 1 then "}" + rest else "," + (PrintEntries(es) + rest);
    assert PrintEntries(entries) + rest == PrintEntry(e) + tail;
    EntryRoundTrip(e, tail, depth);
    if |entries| == 1 {
      assert entries == [e] && tail[1..] == rest;
    } else {
      assert tail[1..] == PrintEntries(es) + rest;
      EntriesRoundTrip(es, rest, depth);
    }
  }

  /** Main result for documents: reading back what was written gives it back exactly when it nests at most 127 deep. */
  lemma {:induction false} DocumentRoundTrip(j: Json)
    requires Ranged(j) && FloatFree(j)
    ensures Parse(Print(j)) == if Depth(j) <= MAX_DEPTH then Some(j) else None
  {
    ValueRoundTrip(j, "", MAX_DEPTH);
    assert Print(j) + "" == Print(j);
  }

  // ---------------------------------------------------------------- what printed text looks like

  predicate NoControl(s: string) {
    forall c :: c in s ==> ' ' <= c
  }

  lemma {:induction false} EscapeNoControl(s: string)
    ensures NoControl(Escape(s))
  {
    if s != "" {
      EscapeNoControl(s[1..]);
    }
  }

  lemma {:induction false} IntNoControl(n: int)
    ensures NoControl(PrintInt(n))
  {
    PrintNatShape(if n < 0 then -n else n);
  }

  /** No control character survives printing, so in particular no line feed does. */
  lemma {:induction false} PrintNoControl(j: Json)
    requires Ranged(j)
    ensures NoControl(Print(j))
    decreases j
  {
    match j
    case JNull =>
    case JBool(_) =>
    case JNum(n) => IntNoControl(n);
    case JFloat(_) =>
    case JStr(s) => EscapeNoControl(s);
    case JArr(items) => if items != [] { ItemsNoControl(items); }
    case JObj(entries) => if entries != [] { EntriesNoControl(entries); }
  }

  lemma {:induction false} ItemsNoControl(items: seq<Json>)
    requires items != [] && forall x | x in items :: Ranged(x)
    ensures NoControl(PrintItems(items))
    decreases items
  {
    PrintNoControl(items[0]);
    if |items| > 1 { ItemsNoControl(items[1..]); }
  }

  lemma {:induction false} EntriesNoControl(entries: seq<Entry>)
    requires entries != [] && forall e | e in entries :: Ranged(e.value)
    ensures NoControl(PrintEntries(entries))
    decreases entries
  {
    EscapeNoControl(entries[0].key);
    PrintNoControl(entries[0].value);
    if |entries| > 1 { EntriesNoControl(entries[1..]); }
  }
}
