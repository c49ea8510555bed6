/** What the reader accepts: the texts of RFC 8259, sections 2 to 7, nested at most 127 deep, and nothing else. */
module JsonGrammar {
  import opened Wrappers
  import opened JsonText
  import opened JsonLaws
  import opened JsonTokens

  // ---------------------------------------------------------------- documents

  /** A document as it is written, gaps included: before and after every value, around every key, in empty brackets. */
  datatype Doc =
    | Word(j: Json)
    | Num(number: Number)
    | Str(marks: seq<Mark>)
    | Arr(gap: string, items: seq<Item>)
    | Obj(gap: string, members: seq<Member>)

  datatype Item = Item(before: string, doc: Doc, after: string)

  datatype Member = Member(before: string, key: seq<Mark>, between: string, item: Item)

  predicate IsDoc(d: Doc) {
    match d
    case Word(j) => j.JNull? || j.JBool?
    case Num(n) => IsNumber(n)
    case Str(marks) => AreMarks(marks)
    case Arr(gap, items) => IsGap(gap) && forall x | x in items :: IsItem(x)
    case Obj(gap, members) => IsGap(gap) && forall m | m in members :: IsMember(m)
  }

  predicate IsItem(x: Item) {
    IsGap(x.before) && IsDoc(x.doc) && IsGap(x.after)
  }

  predicate IsMember(m: Member) {
    IsGap(m.before) && AreMarks(m.key) && IsGap(m.between) && IsItem(m.item)
  }

  function Text(d: Doc): string
    decreases d
  {
    match d
    case Word(j) => if j.JNull? then "null" else if j == JBool(true) then "true" else "false"
    case Num(n) => NumberText(n)
    case Str(marks) => "\"" + MarksText(marks) + "\""
    case Arr(gap, items) => if items == [] then "[" + gap + "]" else "[" + ItemsText(items)
    case Obj(gap, members) => if members == [] then "{" + gap + "}" else "{" + MembersText(members)
  }

  function ItemText(x: Item): string
    decreases x
  {
    x.before + Text(x.doc) + x.after
  }

  function ItemsText(items: seq<Item>): string
    requires items != []
    decreases items
  {
    ItemText(items[0]) + if |items| == 1 then "]" else "," + ItemsText(items[1..])
  }

  function MemberText(m: Member): string
    decreases m
  {
    m.before + "\"" + MarksText(m.key) + "\"" + m.between + ":" + ItemText(m.item)
  }

  function MembersText(members: seq<Member>): string
    requires members != []
    decreases members
  {
    MemberText(members[0]) + if |members| == 1 then "}" else "," + MembersText(members[1..])
  }

  /** The value a document stands for. */
  function Meaning(d: Doc): Json
    requires IsDoc(d)
    decreases d, 1
  {
    match d
    case Word(j) => j
    case Num(n) => NumberMeaning(n)
    case Str(marks) => JStr(MarksMeaning(marks))
    case Arr(_, items) => JArr(ItemsMeaning(items))
    case Obj(_, members) => JObj(MembersMeaning(members))
  }

  function ItemMeaning(x: Item): Json
    requires IsItem(x)
    decreases x, 0
  {
    Meaning(x.doc)
  }

  function ItemsMeaning(items: seq<Item>): seq<Json>
    requires forall x | x in items :: IsItem(x)
    decreases items, 0
  {
    if items == [] then [] else [ItemMeaning(items[0])] + ItemsMeaning(items[1..])
  }

  function MemberMeaning(m: Member): Entry
    requires IsMember(m)
    decreases m, 0
  {
    assert IsItem(m.item);
    Entry(MarksMeaning(m.key), ItemMeaning(m.item))
  }

  function MembersMeaning(members: seq<Member>): seq<Entry>
    requires forall m | m in members :: IsMember(m)
    decreases members, 0
  {
    if members == [] then [] else [MemberMeaning(members[0])] + MembersMeaning(members[1..])
  }

  // ---------------------------------------------------------------- every such text is read

  /** No document starts with a gap or a closing bracket. */
  lemma {:induction false} TextHead(d: Doc)
    requires IsDoc(d)
    ensures var t := Text(d); t != "" && !IsJsonSpace(t[0]) && t[0] != ']'
  {
  }

  /** A gap is skipped up to a character that is no white space. */
  lemma {:induction false} SkipTo(gap: string, t: string)
    requires IsGap(gap) && (t != "" ==> !IsJsonSpace(t[0]))
    ensures SkipSpace(gap + t) == t
  {
    if t != "" { assert t[..1][0] == t[0]; }
    GapIsSkipped(gap, t);
  }

  /** With `depth` containers allowed, a document is read as what it means if it fits and refused if not. */
  lemma {:induction false} DocIsRead(d: Doc, rest: string, depth: nat)
    requires IsDoc(d) && EndsNumber(rest)
    ensures ParseToken(Text(d) + rest, depth)
         == if Depth(Meaning(d)) <= depth then Ok(Meaning(d), rest) else Fail
    decreases d, 1
  {
    hide ParseNumber, ParseArray, ParseObject, ParseString, ParseLiteral, NumberText, NumberMeaning, MarksText,
    MarksMeaning;
    var s := Text(d) + rest;
    TextHead(d);
    match d {
      case Word(j) => LiteralRoundTrip(Text(d), rest, j);
      case Num(n) =>
        NumberIsRead(n, rest);
        NumberHead(n);
        assert s[0] == NumberText(n)[0];
      case Str(marks) =>
        assert s[1..] == MarksText(marks) + "\"" + rest;
        StringIsRead(marks, rest);
      case Arr(gap, items) => if depth > 0 { ArrayIsRead(gap, items, rest, depth - 1); }
      case Obj(gap, members) => if depth > 0 { ObjectIsRead(gap, members, rest, depth - 1); }
    }
  }

  lemma {:induction false} NumberHead(n: Number)
    requires IsNumber(n)
    ensures NumberText(n) != "" && (NumberText(n)[0] == '-' || IsDigit(NumberText(n)[0]))
    ensures NumberMeaning(n).JNum? || NumberMeaning(n).JFloat?
  {
    hide Decimal;
  }

  lemma {:induction false} ItemIsRead(x: Item, rest: string, depth: nat)
    requires IsItem(x) && EndsNumber(x.after + rest)
    ensures ParseValue(ItemText(x) + rest, depth)
         == if Depth(ItemMeaning(x)) <= depth then Ok(ItemMeaning(x), x.after + rest) else Fail
    decreases x, 0
  {
    hide ParseToken, Text, Meaning, IsGap;
    var t := Text(x.doc) + (x.after + rest);
    TextHead(x.doc);
    assert ItemText(x) + rest == x.before + t;
    SkipTo(x.before, t);
    DocIsRead(x.doc, x.after + rest, depth);
  }

  /** What may stand behind a value in brackets. */
  predicate Closes(tail: string) {
    tail != "" && (tail[0] == ',' || tail[0] == ']' || tail[0] == '}')
  }

  lemma {:induction false} TailEnds(gap: string, tail: string)
    requires IsGap(gap) && Closes(tail)
    ensures EndsNumber(gap + tail) && SkipSpace(gap + tail) == tail
  {
    SkipTo(gap, tail);
  }

  lemma {:induction false} SkipTwice(s: string)
    ensures SkipSpace(SkipSpace(s)) == SkipSpace(s)
  {
    if s != "" && IsJsonSpace(s[0]) { SkipTwice(s[1..]); }
  }

  /** Reading a list may start behind its first gap. */
  lemma {:induction false} GapsDoNotMatter(s: string, depth: nat)
    ensures ParseItems(SkipSpace(s), depth) == ParseItems(s, depth)
    ensures ParseEntries(SkipSpace(s), depth) == ParseEntries(s, depth)
  {
    SkipTwice(s);
    assert ParseValue(SkipSpace(s), depth) == ParseValue(s, depth);
    assert ParseEntry(SkipSpace(s), depth) == ParseEntry(s, depth);
    hide ParseValue, ParseEntry;
  }

  lemma {:induction false} FullArray(s: string, depth: nat)
    requires !HasHead(SkipSpace(s), ']')
    ensures var r := ParseItems(SkipSpace(s), depth);
            ParseArray(s, depth) == if r.Fail? then Fail else Ok(JArr(r.value), r.rest)
  {
    hide ParseItems, SkipSpace;
  }

  lemma {:induction false} EmptyArray(gap: string, rest: string, depth: nat)
    requires IsGap(gap)
    ensures ParseArray(gap + ("]" + rest), depth) == Ok(JArr([]), rest)
  {
    hide IsGap, ParseItems;
    assert ("]" + rest)[1..] == rest;
    SkipTo(gap, "]" + rest);
  }

  lemma {:induction false} ArrayText(gap: string, items: seq<Item>, rest: string)
    ensures (Text(Arr(gap, items)) + rest)[1..]
         == if items == [] then gap + ("]" + rest) else ItemsText(items) + rest
  {
    hide ItemsText;
  }

  lemma {:induction false} ArrayIsRead(gap: string, items: seq<Item>, rest: string, depth: nat)
    requires IsGap(gap) && forall x | x in items :: IsItem(x)
    ensures ParseArray((Text(Arr(gap, items)) + rest)[1..], depth)
         == if ItemsDepth(ItemsMeaning(items)) <= depth then Ok(JArr(ItemsMeaning(items)), rest) else Fail
    decreases items, 2
  {
    var s := (Text(Arr(gap, items)) + rest)[1..];
    if items == [] {
      assert ItemsMeaning(items) == [];
      hide *;
      ArrayText(gap, items, rest);
      EmptyArray(gap, rest, depth);
      EmptyDepth();
    } else {
      hide *;
      ArrayText(gap, items, rest);
      ItemsStart(items, rest);
      FullArray(s, depth);
      GapsDoNotMatter(s, depth);
      ItemsAreRead(items, rest, depth);
    }
  }

  lemma {:induction false} ItemsStart(items: seq<Item>, rest: string)
    requires items != [] && forall x | x in items :: IsItem(x)
    ensures !HasHead(SkipSpace(ItemsText(items) + rest), ']')
  {
    hide Text, IsGap;
    var x := items[0];
    assert x in items;
    var tail := if |items| == 1 then "]" else "," + ItemsText(items[1..]);
    var t := Text(x.doc) + (x.after + tail + rest);
    TextHead(x.doc);
    assert ItemsText(items) + rest == x.before + t;
    SkipTo(x.before, t);
  }

  lemma {:induction false} DeeperItems(j: Json, js: seq<Json>)
    ensures ItemsDepth([j] + js) == Max(Depth(j), ItemsDepth(js))
  {
    assert ([j] + js)[1..] == js;
  }

  lemma {:induction false} DeeperEntries(e: Entry, es: seq<Entry>)
    ensures EntriesDepth([e] + es) == Max(Depth(e.value), EntriesDepth(es))
  {
    assert ([e] + es)[1..] == es;
  }

  lemma {:induction false} EmptyDepth()
    ensures ItemsDepth([]) == 0 && EntriesDepth([]) == 0
  {
  }

  lemma {:induction false} ItemsAreRead(items: seq<Item>, rest: string, depth: nat)
    requires items != [] && forall x | x in items :: IsItem(x)
    ensures ParseItems(ItemsText(items) + rest, depth)
         == if ItemsDepth(ItemsMeaning(items)) <= depth then Ok(ItemsMeaning(items), rest) else Fail
    decreases items, 0
  {
    hide ParseValue, IsItem, ItemMeaning, Depth, ItemText;
    var x, xs := items[0], items[1..];
    assert items == [x] + xs;
    var tail := if |items| == 1 then "]" + rest else "," + (ItemsText(xs) + rest);
    assert ItemsText(items) + rest == ItemText(x) + tail;
    OneItem(x, tail, depth);
    assert x in items && forall y | y in xs :: y in items;
    DeeperItems(ItemMeaning(x), ItemsMeaning(xs));
    assert ItemsMeaning(items) == [ItemMeaning(x)] + ItemsMeaning(xs);
    if |items| == 1 {
      assert tail[1..] == rest && ItemsMeaning(xs) == [] && ItemsMeaning(items) == [ItemMeaning(x)];
      EmptyDepth();
    } else {
      assert tail[1..] == ItemsText(xs) + rest;
      ItemsAreRead(xs, rest, depth);
    }
    hide ItemsDepth, ItemsMeaning, ItemsText;
  }

  /** A value in brackets, and what stands behind it once the gap is skipped. */
  lemma {:induction false} OneItem(x: Item, tail: string, depth: nat)
    requires IsItem(x) && Closes(tail)
    ensures var v := ParseValue(ItemText(x) + tail, depth);
            && (v.Ok? <==> Depth(ItemMeaning(x)) <= depth)
            && (v.Ok? ==> v.value == ItemMeaning(x) && SkipSpace(v.rest) == tail)
    decreases x, 1
  {
    TailEnds(x.after, tail);
    ItemIsRead(x, tail, depth);
    hide ParseValue, ItemMeaning, Depth, ItemText;
  }

  lemma {:induction false} FullObject(s: string, depth: nat)
    requires !HasHead(SkipSpace(s), '}')
    ensures var r := ParseEntries(SkipSpace(s), depth);
            ParseObject(s, depth) == if r.Fail? then Fail else Ok(JObj(r.value), r.rest)
  {
    hide ParseEntries, SkipSpace;
  }

  lemma {:induction false} EmptyObject(gap: string, rest: string, depth: nat)
    requires IsGap(gap)
    ensures ParseObject(gap + ("}" + rest), depth) == Ok(JObj([]), rest)
  {
    hide IsGap, ParseEntries;
    assert ("}" + rest)[1..] == rest;
    SkipTo(gap, "}" + rest);
  }

  lemma {:induction false} ObjectText(gap: string, members: seq<Member>, rest: string)
    ensures (Text(Obj(gap, members)) + rest)[1..]
         == if members == [] then gap + ("}" + rest) else MembersText(members) + rest
  {
    hide MembersText;
  }

  lemma {:induction false} ObjectIsRead(gap: string, members: seq<Member>, rest: string, depth: nat)
    requires IsGap(gap) && forall m | m in members :: IsMember(m)
    ensures ParseObject((Text(Obj(gap, members)) + rest)[1..], depth)
         == if EntriesDepth(MembersMeaning(members)) <= depth then Ok(JObj(MembersMeaning(members)), rest) else Fail
    decreases members, 2
  {
    var s := (Text(Obj(gap, members)) + rest)[1..];
    if members == [] {
      assert MembersMeaning(members) == [];
      hide *;
      ObjectText(gap, members, rest);
      EmptyObject(gap, rest, depth);
      EmptyDepth();
    } else {
      hide *;
      ObjectText(gap, members, rest);
      MembersStart(members, rest);
      FullObject(s, depth);
      GapsDoNotMatter(s, depth);
      MembersAreRead(members, rest, depth);
    }
  }

  lemma {:induction false} MembersStart(members: seq<Member>, rest: string)
    requires members != [] && forall m | m in members :: IsMember(m)
    ensures !HasHead(SkipSpace(MembersText(members) + rest), '}')
  {
    var m := members[0];
    assert m in members;
    var tail := if |members| == 1 then "}" else "," + MembersText(members[1..]);
    assert MembersText(members) + rest == MemberText(m) + (tail + rest);
    MemberStart(m, tail + rest);
    hide SkipSpace, MemberText, IsMember;
  }

  lemma {:induction false} MemberStart(m: Member, tail: string)
    requires IsMember(m)
    ensures !HasHead(SkipSpace(MemberText(m) + tail), '}')
  {
    hide IsGap, ItemText, MarksText, IsDoc;
    var t := "\"" + (MarksText(m.key) + ("\"" + m.between + ":" + ItemText(m.item) + tail));
    assert MemberText(m) + tail == m.before + t;
    SkipTo(m.before, t);
  }

  lemma {:induction false} MembersAreRead(members: seq<Member>, rest: string, depth: nat)
    requires members != [] && forall m | m in members :: IsMember(m)
    ensures ParseEntries(MembersText(members) + rest, depth)
         == if EntriesDepth(MembersMeaning(members)) <= depth then Ok(MembersMeaning(members), rest) else Fail
    decreases members, 0
  {
    hide ParseEntry, IsMember, MemberMeaning, Depth, MemberText;
    var m, ms := members[0], members[1..];
    assert members == [m] + ms;
    var tail := if |members| == 1 then "}" + rest else "," + (MembersText(ms) + rest);
    assert MembersText(members) + rest == MemberText(m) + tail;
    OneMember(m, tail, depth);
    assert m in members && forall y | y in ms :: y in members;
    DeeperEntries(MemberMeaning(m), MembersMeaning(ms));
    assert MembersMeaning(members) == [MemberMeaning(m)] + MembersMeaning(ms);
    if |members| == 1 {
      assert tail[1..] == rest && MembersMeaning(ms) == [] && MembersMeaning(members) == [MemberMeaning(m)];
      EmptyDepth();
    } else {
      assert tail[1..] == MembersText(ms) + rest;
      MembersAreRead(ms, rest, depth);
    }
    hide EntriesDepth, MembersMeaning, MembersText;
  }

  lemma {:induction false} OneMember(m: Member, tail: string, depth: nat)
    requires IsMember(m) && Closes(tail)
    ensures var e := ParseEntry(MemberText(m) + tail, depth);
            && (e.Ok? <==> Depth(MemberMeaning(m).value) <= depth)
            && (e.Ok? ==> e.value == MemberMeaning(m) && SkipSpace(e.rest) == tail)
    decreases m
  {
    hide ParseValue, ParseString, ItemMeaning, Depth, ItemText, IsGap, IsDoc, MarksText, MarksMeaning;
    assert IsItem(m.item);
    var value := ":" + (ItemText(m.item) + tail);
    var between := m.between + value;
    var key := "\"" + (MarksText(m.key) + "\"" + between);
    assert MemberText(m) + tail == m.before + key;
    SkipTo(m.before, key);
    assert key[1..] == MarksText(m.key) + "\"" + between;
    StringIsRead(m.key, between);
    SkipTo(m.between, value);
    assert value[1..] == ItemText(m.item) + tail;
    OneItem(m.item, tail, depth);
  }

  // ---------------------------------------------------------------- and nothing else is

  /** What is skipped, as a text. */
  function Gap(s: string): string {
    s[..|s| - |SkipSpace(s)|]
  }

  lemma {:induction false} GapFacts(s: string)
    ensures IsGap(Gap(s)) && s == Gap(s) + SkipSpace(s)
  {
    SkippedIsGap(s);
  }

  lemma {:induction false} TwoGaps(a: string, b: string)
    requires IsGap(a) && IsGap(b)
    ensures IsGap(a + b)
  {
  }

  lemma {:induction false} ItemCons(x: Item, xs: seq<Item>)
    requires IsItem(x) && forall y | y in xs :: IsItem(y)
    ensures (forall y | y in [x] + xs :: IsItem(y)) && ItemsMeaning([x] + xs) == [ItemMeaning(x)] + ItemsMeaning(xs)
    ensures ItemsText([x] + xs) == ItemText(x) + if xs == [] then "]" else "," + ItemsText(xs)
  {
    assert ([x] + xs)[1..] == xs;
    hide IsItem, ItemMeaning, ItemText;
  }

  lemma {:induction false} MemberCons(m: Member, ms: seq<Member>)
    requires IsMember(m) && forall y | y in ms :: IsMember(y)
    ensures (forall y | y in [m] + ms :: IsMember(y))
    ensures MembersMeaning([m] + ms) == [MemberMeaning(m)] + MembersMeaning(ms)
    ensures MembersText([m] + ms) == MemberText(m) + if ms == [] then "}" else "," + MembersText(ms)
  {
    assert ([m] + ms)[1..] == ms;
    hide IsMember, MemberMeaning, MemberText;
  }

  /** An accepted value: a gap, a document, the rest. */
  lemma {:induction false} ValueIsWritten(s: string, depth: nat) returns (before: string, d: Doc)
    requires ParseValue(s, depth).Ok?
    ensures var r := ParseValue(s, depth);
            && IsGap(before) && IsDoc(d) && s == before + Text(d) + r.rest
            && Meaning(d) == r.value && Depth(r.value) <= depth
    decreases |s|, 2
  {
    before := Gap(s);
    GapFacts(s);
    d := TokenIsWritten(SkipSpace(s), depth);
    hide ParseToken, Text, Meaning, IsDoc, Depth, Gap, IsGap;
    assert before + (Text(d) + ParseValue(s, depth).rest) == before + Text(d) + ParseValue(s, depth).rest;
  }

  lemma {:induction false} WordIsWritten(t: string, word: string, j: Json)
    requires word != "" && Ranged(j) && ParseLiteral(t, word, j).Ok?
    ensures t == word + ParseLiteral(t, word, j).rest && ParseLiteral(t, word, j).value == j
  {
  }

  lemma {:induction false} TokenIsWritten(t: string, depth: nat) returns (d: Doc)
    requires t != "" && ParseToken(t, depth).Ok?
    ensures var r := ParseToken(t, depth);
            IsDoc(d) && t == Text(d) + r.rest && Meaning(d) == r.value && Depth(r.value) <= depth
    decreases |t|, 1
  {
    hide ParseNumber, ParseArray, ParseObject, ParseString, ParseLiteral, NumberText, NumberMeaning, MarksText,
    MarksMeaning;
    var rest := ParseToken(t, depth).rest;
    assert t == [t[0]] + t[1..];
    match t[0] {
      case 'n' => WordIsWritten(t, "null", JNull); d := Word(JNull);
      case 't' => WordIsWritten(t, "true", JBool(true)); d := Word(JBool(true));
      case 'f' => WordIsWritten(t, "false", JBool(false)); d := Word(JBool(false));
      case '"' =>
        var marks := StringIsWritten(t[1..]);
        d := Str(marks);
      case '[' => d := ArrayIsWritten(t[1..], depth - 1);
      case '{' => d := ObjectIsWritten(t[1..], depth - 1);
      case _ =>
        var n := NumberIsWritten(t);
        NumberHead(n);
        d := Num(n);
    }
  }

  lemma {:induction false} Opened(bracket: string, s: string, gap: string, t: string, inner: string, rest: string)
    requires s == gap + t && t == inner + rest
    ensures bracket + s == bracket + (gap + inner) + rest
  {
  }

  /** A gap before a list is a gap before its first element. */
  lemma {:induction false} GapBeforeItems(gap: string, items: seq<Item>) returns (r: seq<Item>)
    requires IsGap(gap) && items != [] && forall x | x in items :: IsItem(x)
    ensures r != [] && (forall x | x in r :: IsItem(x))
    ensures ItemsText(r) == gap + ItemsText(items) && ItemsMeaning(r) == ItemsMeaning(items)
  {
    hide Text, IsDoc, Meaning;
    var x := items[0].(before := gap + items[0].before);
    assert items[0] in items && items == [items[0]] + items[1..];
    TwoGaps(gap, items[0].before);
    hide IsGap;
    ItemCons(items[0], items[1..]);
    ItemCons(x, items[1..]);
    r := [x] + items[1..];
    assert ItemText(x) == gap + ItemText(items[0]);
    hide ItemsText, ItemsMeaning, ItemText;
  }

  lemma {:induction false} GapBeforeMembers(gap: string, members: seq<Member>) returns (r: seq<Member>)
    requires IsGap(gap) && members != [] && forall m | m in members :: IsMember(m)
    ensures r != [] && (forall m | m in r :: IsMember(m))
    ensures MembersText(r) == gap + MembersText(members) && MembersMeaning(r) == MembersMeaning(members)
  {
    hide IsItem, ItemMeaning, ItemText, MarksText, MarksMeaning, AreMarks;
    var m := members[0].(before := gap + members[0].before);
    assert members[0] in members && members == [members[0]] + members[1..];
    TwoGaps(gap, members[0].before);
    hide IsGap;
    MemberCons(members[0], members[1..]);
    MemberCons(m, members[1..]);
    r := [m] + members[1..];
    assert MemberText(m) == gap + MemberText(members[0]);
    hide MembersText, MembersMeaning, MemberText;
  }

  lemma {:induction false} GapAfterMember(m: Member, gap: string)
    requires IsMember(m) && m.item.after == "" && IsGap(gap)
    ensures var n := m.(item := m.item.(after := gap));
            IsMember(n) && MemberText(n) == MemberText(m) + gap && MemberMeaning(n) == MemberMeaning(m)
  {
    hide IsDoc, Meaning, Text, MarksText, MarksMeaning, AreMarks, IsGap;
    assert IsItem(m.item);
    assert m.item.before + Text(m.item.doc) + "" == m.item.before + Text(m.item.doc);
  }

  lemma {:induction false} ArrayParts(s: string, depth: nat)
    requires ParseArray(s, depth).Ok?
    ensures var t, r := SkipSpace(s), ParseArray(s, depth);
            && |t| <= |s|
            && if HasHead(t, ']') then r == Ok(JArr([]), t[1..]) && t == "]" + t[1..]
               else var xs := ParseItems(t, depth); xs.Ok? && r == Ok(JArr(xs.value), xs.rest)
  {
    hide ParseItems;
  }

  lemma {:induction false} BuiltArray(gap: string, items: seq<Item>)
    requires IsGap(gap) && forall x | x in items :: IsItem(x)
    ensures var d := Arr(gap, items);
            && IsDoc(d) && Meaning(d) == JArr(ItemsMeaning(items))
            && Text(d) == "[" + (if items == [] then gap + "]" else ItemsText(items))
            && (items == [] ==> ItemsMeaning(items) == [])
            && Depth(Meaning(d)) == 1 + ItemsDepth(ItemsMeaning(items))
  {
    hide IsGap, IsItem;
  }

  lemma {:induction false} ArrayIsWritten(s: string, depth: nat) returns (d: Doc)
    requires ParseArray(s, depth).Ok?
    ensures var r := ParseArray(s, depth);
            IsDoc(d) && "[" + s == Text(d) + r.rest && Meaning(d) == r.value && Depth(r.value) <= depth + 1
    decreases |s|, 5
  {
    ArrayParts(s, depth);
    var t := SkipSpace(s);
    GapFacts(s);
    if HasHead(t, ']') {
      hide *;
      BuiltArray(Gap(s), []);
      d := Arr(Gap(s), []);
      Opened("[", s, Gap(s), t, "]", t[1..]);
      EmptyDepth();
    } else {
      hide *;
      var was := ItemsAreWritten(t, depth);
      var items := GapBeforeItems(Gap(s), was);
      assert IsGap("") by { NoGap(); }
      BuiltArray("", items);
      d := Arr("", items);
      Opened("[", s, Gap(s), t, ItemsText(was), ParseArray(s, depth).rest);
    }
  }

  lemma {:induction false} NoGap()
    ensures IsGap("")
  {
  }

  lemma {:induction false} ItemsParts(s: string, depth: nat)
    requires ParseItems(s, depth).Ok?
    ensures var v, r := ParseValue(s, depth), ParseItems(s, depth);
            && v.Ok? && |v.rest| < |s|
            && var t := SkipSpace(v.rest);
               && t != "" && |t| <= |v.rest| && t == [t[0]] + t[1..]
               && if t[0] == ']' then r == Ok([v.value], t[1..])
                  else var xs := ParseItems(t[1..], depth);
                       t[0] == ',' && xs.Ok? && r == Ok([v.value] + xs.value, xs.rest)
  {
    hide ParseValue;
  }

  lemma {:induction false} BuiltItem(before: string, d: Doc, after: string)
    requires IsGap(before) && IsDoc(d) && IsGap(after)
    ensures var x := Item(before, d, after);
            IsItem(x) && ItemText(x) == before + Text(d) + after && ItemMeaning(x) == Meaning(d)
  {
    hide IsGap, IsDoc, Text, Meaning;
  }

  lemma {:induction false} ItemsAreWritten(s: string, depth: nat) returns (items: seq<Item>)
    requires ParseItems(s, depth).Ok?
    ensures var r := ParseItems(s, depth);
            && items != [] && (forall x | x in items :: IsItem(x)) && s == ItemsText(items) + r.rest
            && ItemsMeaning(items) == r.value && ItemsDepth(r.value) <= depth
    decreases |s|, 3
  {
    ItemsParts(s, depth);
    var v := ParseValue(s, depth);
    var before, d := ValueIsWritten(s, depth);
    var t := SkipSpace(v.rest);
    GapFacts(v.rest);
    hide *;
    BuiltItem(before, d, Gap(v.rest));
    var x := Item(before, d, Gap(v.rest));
    Regrouped(before + Text(d), Gap(v.rest), t);
    EmptyDepth();
    var more: seq<Item> := [];
    if t[0] != ']' {
      more := ItemsAreWritten(t[1..], depth);
      Regrouped(",", ItemsText(more), ParseItems(t[1..], depth).rest);
      Joined(s, ItemText(x), t, ",", ItemsText(more), ParseItems(s, depth).rest);
    } else {
      Regrouped(ItemText(x), "]", t[1..]);
    }
    items := [x] + more;
    ItemCons(x, more);
    assert more == [] ==> ItemsMeaning(more) == [] by { NoMembers(); }
    DeeperItems(v.value, ItemsMeaning(more));
    MaxBound(Depth(v.value), ItemsDepth(ItemsMeaning(more)), depth);
    assert [v.value] + [] == [v.value];
  }

  lemma {:induction false} ObjectParts(s: string, depth: nat)
    requires ParseObject(s, depth).Ok?
    ensures var t, r := SkipSpace(s), ParseObject(s, depth);
            && |t| <= |s|
            && if HasHead(t, '}') then r == Ok(JObj([]), t[1..]) && t == "}" + t[1..]
               else var es := ParseEntries(t, depth); es.Ok? && r == Ok(JObj(es.value), es.rest)
  {
    hide ParseEntries;
  }

  lemma {:induction false} BuiltObject(gap: string, members: seq<Member>)
    requires IsGap(gap) && forall m | m in members :: IsMember(m)
    ensures var d := Obj(gap, members);
            && IsDoc(d) && Meaning(d) == JObj(MembersMeaning(members))
            && Text(d) == "{" + (if members == [] then gap + "}" else MembersText(members))
            && (members == [] ==> MembersMeaning(members) == [])
            && Depth(Meaning(d)) == 1 + EntriesDepth(MembersMeaning(members))
  {
    hide IsGap, IsMember;
  }

  lemma {:induction false} ObjectIsWritten(s: string, depth: nat) returns (d: Doc)
    requires ParseObject(s, depth).Ok?
    ensures var r := ParseObject(s, depth);
            IsDoc(d) && "{" + s == Text(d) + r.rest && Meaning(d) == r.value && Depth(r.value) <= depth + 1
    decreases |s|, 5
  {
    ObjectParts(s, depth);
    var t := SkipSpace(s);
    GapFacts(s);
    if HasHead(t, '}') {
      hide *;
      BuiltObject(Gap(s), []);
      d := Obj(Gap(s), []);
      Opened("{", s, Gap(s), t, "}", t[1..]);
      EmptyDepth();
    } else {
      hide *;
      var was := MembersAreWritten(t, depth);
      var members := GapBeforeMembers(Gap(s), was);
      assert IsGap("") by { NoGap(); }
      BuiltObject("", members);
      d := Obj("", members);
      Opened("{", s, Gap(s), t, MembersText(was), ParseObject(s, depth).rest);
    }
  }

  lemma {:induction false} EntryParts(s: string, depth: nat)
    requires ParseEntry(s, depth).Ok?
    ensures var t := SkipSpace(s);
            && t != "" && |t| <= |s| && t == "\"" + t[1..]
            && var k := ParseString(t[1..]);
               && k.Ok? && |k.rest| < |s|
               && var c := SkipSpace(k.rest);
                  && c != "" && |c| <= |k.rest| && c == ":" + c[1..]
                  && var v := ParseValue(c[1..], depth);
                     v.Ok? && ParseEntry(s, depth) == Ok(Entry(k.value, v.value), v.rest)
  {
    hide ParseString, ParseValue;
  }

  lemma {:induction false} BuiltMember(gap: string, key: seq<Mark>, between: string, before: string, d: Doc)
    requires IsGap(gap) && AreMarks(key) && IsGap(between) && IsGap(before) && IsDoc(d)
    ensures var m := Member(gap, key, between, Item(before, d, ""));
            && IsMember(m) && MemberMeaning(m) == Entry(MarksMeaning(key), Meaning(d))
            && MemberText(m) == gap + "\"" + MarksText(key) + "\"" + between + ":" + (before + Text(d))
  {
    assert before + Text(d) + "" == before + Text(d);
    assert IsItem(Item(before, d, ""));
    hide IsDoc, Text, Meaning, IsGap, AreMarks, MarksText, MarksMeaning;
  }

  lemma {:induction false} Glued(a: string, b: string, c: string, d: string, e: string)
    ensures a + ("\"" + (b + "\"" + (c + (":" + (d + e))))) == a + "\"" + b + "\"" + c + ":" + d + e
  {
  }

  lemma {:induction false} MemberIsWritten(s: string, depth: nat) returns (m: Member)
    requires ParseEntry(s, depth).Ok?
    ensures var r := ParseEntry(s, depth);
            && IsMember(m) && m.item.after == "" && s == MemberText(m) + r.rest
            && MemberMeaning(m) == r.value && Depth(r.value.value) <= depth
    decreases |s|, 3
  {
    EntryParts(s, depth);
    var t := SkipSpace(s);
    GapFacts(s);
    hide *;
    var k := ParseString(t[1..]);
    var key := StringIsWritten(t[1..]);
    var c := SkipSpace(k.rest);
    GapFacts(k.rest);
    var before, d := ValueIsWritten(c[1..], depth);
    BuiltMember(Gap(s), key, Gap(k.rest), before, d);
    m := Member(Gap(s), key, Gap(k.rest), Item(before, d, ""));
    Glued(Gap(s), MarksText(key), Gap(k.rest), before + Text(d), ParseEntry(s, depth).rest);
  }

  lemma {:induction false} EntriesParts(s: string, depth: nat)
    requires ParseEntries(s, depth).Ok?
    ensures var e, r := ParseEntry(s, depth), ParseEntries(s, depth);
            && e.Ok? && |e.rest| < |s|
            && var t := SkipSpace(e.rest);
               && t != "" && |t| <= |e.rest| && t == [t[0]] + t[1..]
               && if t[0] == '}' then r == Ok([e.value], t[1..])
                  else var es := ParseEntries(t[1..], depth);
                       t[0] == ',' && es.Ok? && r == Ok([e.value] + es.value, es.rest)
  {
    hide ParseEntry;
  }

  lemma {:induction false} MembersAreWritten(s: string, depth: nat) returns (members: seq<Member>)
    requires ParseEntries(s, depth).Ok?
    ensures var r := ParseEntries(s, depth);
            && members != [] && (forall m | m in members :: IsMember(m)) && s == MembersText(members) + r.rest
            && MembersMeaning(members) == r.value && EntriesDepth(r.value) <= depth
    decreases |s|, 4
  {
    EntriesParts(s, depth);
    var e := ParseEntry(s, depth);
    var m := MemberIsWritten(s, depth);
    var t := SkipSpace(e.rest);
    GapFacts(e.rest);
    hide *;
    var text := MemberText(m);
    GapAfterMember(m, Gap(e.rest));
    m := m.(item := m.item.(after := Gap(e.rest)));
    Regrouped(text, Gap(e.rest), t);
    EmptyDepth();
    var more: seq<Member> := [];
    if t[0] != '}' {
      more := MembersAreWritten(t[1..], depth);
      Regrouped(",", MembersText(more), ParseEntries(t[1..], depth).rest);
      Joined(s, MemberText(m), t, ",", MembersText(more), ParseEntries(s, depth).rest);
    } else {
      Regrouped(MemberText(m), "}", t[1..]);
    }
    members := [m] + more;
    MemberCons(m, more);
    assert more == [] ==> MembersMeaning(more) == [] by { NoMembers(); }
    DeeperEntries(e.value, MembersMeaning(more));
    MaxBound(Depth(e.value.value), EntriesDepth(MembersMeaning(more)), depth);
    assert [e.value] + [] == [e.value];
  }

  lemma {:induction false} NoMembers()
    ensures MembersMeaning([]) == [] && ItemsMeaning([]) == []
  {
  }

  lemma {:induction false} MaxBound(a: nat, b: nat, depth: nat)
    ensures Max(a, b) <= depth <==> a <= depth && b <= depth
  {
  }

  /** `s` is a document with gaps around it, nested at most 127 deep, and means `j`. */
  ghost predicate Writes(s: string, j: Json) {
    Depth(j) <= MAX_DEPTH && exists x: Item :: IsItem(x) && ItemText(x) == s && ItemMeaning(x) == j
  }

  /** Main result: the reader accepts a text as a value exactly when the text writes that value. */
  lemma {:induction false} ReaderIsGrammar(s: string, j: Json)
    ensures Parse(s) == Some(j) <==> Writes(s, j)
  {
    hide ParseValue, IsDoc, Text, Meaning, Depth;
    var v := ParseValue(s, MAX_DEPTH);
    if Parse(s) == Some(j) {
      var before, d := ValueIsWritten(s, MAX_DEPTH);
      GapFacts(v.rest);
      var x := Item(before, d, v.rest);
      assert v.rest == Gap(v.rest);
      assert IsItem(x) && ItemText(x) == s;
    }
    if Writes(s, j) {
      var x: Item :| IsItem(x) && ItemText(x) == s && ItemMeaning(x) == j;
      assert s + "" == s && x.after + "" == x.after;
      SkipTo(x.after, "");
      GapEnds(x.after);
      ItemIsRead(x, "", MAX_DEPTH);
    }
  }

  lemma {:induction false} GapEnds(gap: string)
    requires IsGap(gap)
    ensures EndsNumber(gap + "")
  {
    assert gap + "" == gap;
  }
}
