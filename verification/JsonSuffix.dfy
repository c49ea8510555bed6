/** The reader takes a prefix of its text, and an array it has read ends in a bracket. */
module JsonSuffix {
  import opened JsonText

  /** `rest` is the end of `s`. */
  predicate IsSuffix(s: string, rest: string) {
    |rest| <= |s| && rest == s[|s| - |rest|..]
  }

  /** `rest` is the end of `s`, and `c` stands before it. */
  predicate EndsBefore(s: string, rest: string, c: char) {
    |rest| < |s| && rest == s[|s| - |rest|..] && s[|s| - |rest| - 1] == c
  }

  lemma {:induction false} SuffixTransitive(s: string, t: string, u: string)
    requires IsSuffix(s, t) && IsSuffix(t, u)
    ensures IsSuffix(s, u)
    ensures forall c | EndsBefore(t, u, c) :: EndsBefore(s, u, c)
  {
  }

  /** What stands behind a head. */
  lemma {:induction false} TailSuffix(s: string, c: char)
    requires HasHead(s, c)
    ensures IsSuffix(s, s[1..]) && EndsBefore(s, s[1..], c)
  {
  }

  lemma {:induction false} SkipSpaceSuffix(s: string)
    ensures IsSuffix(s, SkipSpace(s))
  {
    if s != "" && IsJsonSpace(s[0]) {
      SkipSpaceSuffix(s[1..]);
      SuffixTransitive(s, s[1..], SkipSpace(s));
    }
  }

  /** White space, then a head, then what the head leaves. */
  lemma {:induction false} HeadSuffix(s: string, c: char)
    requires HasHead(SkipSpace(s), c)
    ensures var u := SkipSpace(s)[1..]; IsSuffix(s, u) && EndsBefore(s, u, c)
  {
    var t := SkipSpace(s);
    SkipSpaceSuffix(s);
    TailSuffix(t, c);
    SuffixTransitive(s, t, t[1..]);
  }

  lemma {:induction false} StringSuffix(s: string)
    requires ParseString(s).Ok?
    ensures IsSuffix(s, ParseString(s).rest)
    decreases |s|
  {
    hide ParseEscape;
    if s[0] != '"' {
      var c := if s[0] == '\\' then ParseEscape(s[1..]) else Parsed.Ok(s[0], s[1..]);
      StringSuffix(c.rest);
      SuffixTransitive(s[1..], c.rest, ParseString(s).rest);
      SuffixTransitive(s, s[1..], ParseString(s).rest);
    }
  }

  lemma {:induction false} NumberSuffix(s: string)
    requires s != "" && ParseNumber(s).Ok?
    ensures IsSuffix(s, ParseNumber(s).rest)
  {
    var u := if s[0] == '-' then s[1..] else s;
    UnsignedSuffix(u, s[0] == '-');
    SuffixTransitive(s, u, ParseNumber(s).rest);
  }

  lemma {:induction false} UnsignedSuffix(s: string, negative: bool)
    requires ParseUnsigned(s, negative).Ok?
    ensures IsSuffix(s, ParseUnsigned(s, negative).rest)
  {
    hide NatOf, Digits, NumberEnd, InRange, Literal;
    var u := s[|Digits(s)|..];
    SuffixTransitive(s, u, ParseUnsigned(s, negative).rest);
  }

  lemma {:induction false} ValueSuffix(s: string, depth: nat)
    requires ParseValue(s, depth).Ok?
    ensures IsSuffix(s, ParseValue(s, depth).rest)
    ensures ParseValue(s, depth).value.JArr? ==> EndsBefore(s, ParseValue(s, depth).rest, ']')
    decreases |s|, 2
  {
    hide ParseToken, IsSuffix, EndsBefore;
    SkipSpaceSuffix(s);
    TokenSuffix(SkipSpace(s), depth);
    SuffixTransitive(s, SkipSpace(s), ParseValue(s, depth).rest);
  }

  lemma {:induction false} TokenSuffix(t: string, depth: nat)
    requires t != "" && ParseToken(t, depth).Ok?
    ensures IsSuffix(t, ParseToken(t, depth).rest)
    ensures ParseToken(t, depth).value.JArr? ==> EndsBefore(t, ParseToken(t, depth).rest, ']')
    decreases |t|, 1
  {
    hide ParseNumber, ParseString, ParseArray, ParseObject, EndsBefore, IsSuffix;
    TailSuffix(t, t[0]);
    var r := ParseToken(t, depth).rest;
    if t[0] == '"' {
      StringSuffix(t[1..]);
      SuffixTransitive(t, t[1..], r);
    } else if t[0] == '[' {
      ArraySuffix(t[1..], depth - 1);
      SuffixTransitive(t, t[1..], r);
    } else if t[0] == '{' {
      ObjectSuffix(t[1..], depth - 1);
      SuffixTransitive(t, t[1..], r);
    } else if t[0] == 'n' || t[0] == 't' || t[0] == 'f' {
      LiteralSuffix(t, depth);
    } else {
      NumberSuffix(t);
      NumberIsNoArray(t);
    }
  }

  lemma {:induction false} LiteralSuffix(t: string, depth: nat)
    requires t != "" && (t[0] == 'n' || t[0] == 't' || t[0] == 'f') && ParseToken(t, depth).Ok?
    ensures IsSuffix(t, ParseToken(t, depth).rest) && !ParseToken(t, depth).value.JArr?
  {
  }

  lemma {:induction false} NumberIsNoArray(s: string)
    requires s != "" && ParseNumber(s).Ok?
    ensures !ParseNumber(s).value.JArr?
  {
    hide NatOf, Digits, NumberEnd, InRange, Literal;
  }

  lemma {:induction false} ArraySuffix(s: string, depth: nat)
    requires ParseArray(s, depth).Ok?
    ensures IsSuffix(s, ParseArray(s, depth).rest) && EndsBefore(s, ParseArray(s, depth).rest, ']')
    decreases |s|, 5
  {
    hide ParseItems, IsSuffix, EndsBefore;
    var u := SkipSpace(s);
    if HasHead(u, ']') {
      HeadSuffix(s, ']');
    } else {
      SkipSpaceSuffix(s);
      ItemsSuffix(u, depth);
      SuffixTransitive(s, u, ParseItems(u, depth).rest);
    }
  }

  lemma {:induction false} ObjectSuffix(s: string, depth: nat)
    requires ParseObject(s, depth).Ok?
    ensures IsSuffix(s, ParseObject(s, depth).rest) && !ParseObject(s, depth).value.JArr?
    decreases |s|, 5
  {
    hide ParseEntries, IsSuffix, EndsBefore;
    var u := SkipSpace(s);
    if HasHead(u, '}') {
      HeadSuffix(s, '}');
    } else {
      SkipSpaceSuffix(s);
      EntriesSuffix(u, depth);
      SuffixTransitive(s, u, ParseEntries(u, depth).rest);
    }
  }

  lemma {:induction false} ItemsSuffix(s: string, depth: nat)
    requires ParseItems(s, depth).Ok?
    ensures IsSuffix(s, ParseItems(s, depth).rest) && EndsBefore(s, ParseItems(s, depth).rest, ']')
    decreases |s|, 3
  {
    hide ParseValue, IsSuffix, EndsBefore;
    var v := ParseValue(s, depth);
    ValueSuffix(s, depth);
    var t := SkipSpace(v.rest);
    if HasHead(t, ']') {
      HeadSuffix(v.rest, ']');
      SuffixTransitive(s, v.rest, t[1..]);
    } else {
      HeadSuffix(v.rest, ',');
      SuffixTransitive(s, v.rest, t[1..]);
      ItemsSuffix(t[1..], depth);
      SuffixTransitive(s, t[1..], ParseItems(s, depth).rest);
    }
  }

  lemma {:induction false} EntrySuffix(s: string, depth: nat)
    requires ParseEntry(s, depth).Ok?
    ensures IsSuffix(s, ParseEntry(s, depth).rest)
    decreases |s|, 3
  {
    hide ParseValue, ParseString, IsSuffix, EndsBefore;
    var t := SkipSpace(s)[1..];
    HeadSuffix(s, '"');
    var k := ParseString(t);
    StringSuffix(t);
    SuffixTransitive(s, t, k.rest);
    var c := SkipSpace(k.rest)[1..];
    HeadSuffix(k.rest, ':');
    SuffixTransitive(s, k.rest, c);
    ValueSuffix(c, depth);
    SuffixTransitive(s, c, ParseEntry(s, depth).rest);
  }

  lemma {:induction false} EntriesSuffix(s: string, depth: nat)
    requires ParseEntries(s, depth).Ok?
    ensures IsSuffix(s, ParseEntries(s, depth).rest)
    decreases |s|, 4
  {
    hide ParseEntry, IsSuffix, EndsBefore;
    var e := ParseEntry(s, depth);
    EntrySuffix(s, depth);
    var t := SkipSpace(e.rest);
    if HasHead(t, '}') {
      HeadSuffix(e.rest, '}');
      SuffixTransitive(s, e.rest, t[1..]);
    } else {
      HeadSuffix(e.rest, ',');
      SuffixTransitive(s, e.rest, t[1..]);
      EntriesSuffix(t[1..], depth);
      SuffixTransitive(s, t[1..], ParseEntries(s, depth).rest);
    }
  }

  lemma {:induction false} AllSpace(s: string)
    requires SkipSpace(s) == ""
    ensures forall c | c in s :: IsJsonSpace(c)
  {
    if s != "" {
      AllSpace(s[1..]);
      assert s == [s[0]] + s[1..];
    }
  }

  /** A document whose text ends in a brace is no array. */
  lemma {:induction false} BracedIsNoArray(t: string)
    requires t != "" && t[|t| - 1] == '}' && Parse(t).Some?
    ensures !Parse(t).value.JArr?
  {
    hide ParseValue;
    var v := ParseValue(t, MAX_DEPTH);
    ValueSuffix(t, MAX_DEPTH);
    AllSpace(v.rest);
    if v.rest != "" { assert v.rest[|v.rest| - 1] == t[|t| - 1] && v.rest[|v.rest| - 1] in v.rest; }
  }
}
