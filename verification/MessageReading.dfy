/** Exactly which documents the readers of messages and packets accept, and as what: members in any order, unknown
    ones ignored, absent or null options empty, repeated members refused. */
module MessageReading {
  import opened Wrappers
  import opened Strings
  import opened JsonText
  import opened Messages
  import opened Wire

  /** One member alone has this name, and this is its value. */
  ghost predicate Names(es: seq<Entry>, key: string, v: Json) {
    exists i: nat :: IsOnlyNamed(es, key, i) && es[i].value == v
  }

  predicate Lacks(es: seq<Entry>, key: string) {
    forall i | 0 <= i < |es| :: es[i].key != key
  }

  ghost predicate NamesNumber(es: seq<Entry>, key: string, n: Option<u64>) {
    if n.Some? then Names(es, key, JNum(n.value)) else Lacks(es, key) || Names(es, key, JNull)
  }

  ghost predicate NamesText(es: seq<Entry>, key: string, s: Option<string>) {
    if s.Some? then Names(es, key, JStr(s.value)) else Lacks(es, key) || Names(es, key, JNull)
  }

  /** The members describe the element. */
  ghost predicate Describes(es: seq<Entry>, e: Element)
    requires forall x | x in es :: Ranged(x.value)
  {
    match e
    case TextPart(text) => Names(es, "type", JStr("text")) && Names(es, "text", JStr(text))
    case Image(path, size) =>
      Names(es, "type", JStr("image")) && Names(es, "path", JStr(path)) && NamesNumber(es, "size", size)
    case Video(path, ms) =>
      Names(es, "type", JStr("video")) && Names(es, "path", JStr(path)) && NamesNumber(es, "duration_ms", ms)
    case File(path, md5) =>
      Names(es, "type", JStr("file")) && Names(es, "path", JStr(path)) && NamesText(es, "md5", md5)
    case At(user) => Names(es, "type", JStr("at")) && Names(es, "target_user", JStr(user))
    case Reply(id) => Names(es, "type", JStr("reply")) && Names(es, "message_id", JStr(id))
    case JsonPart(payload) =>
      && Names(es, "type", JStr("json"))
      && exists i: nat :: IsOnlyNamed(es, "payload", i) && ToValue(es[i].value) == payload
  }

  /** The content of a recipient: an object that names the identifier, or an array of just it. */
  ghost predicate Holds(content: Json, key: string, id: string) {
    match content
    case JObj(es) => Names(es, key, JStr(id))
    case JArr(items) => items == [JStr(id)]
    case _ => false
  }

  ghost predicate IsRecipient(j: Json, r: Recipient) {
    && j.JObj? && |j.entries| == 1
    && match r
       case Private(id) => j.entries[0].key == "private" && Holds(j.entries[0].value, "user_id", id)
       case Group(id) => j.entries[0].key == "group" && Holds(j.entries[0].value, "group_id", id)
  }

  /** The fields of an element, one after the other. */
  predicate AreFields(items: seq<Json>, e: Element)
    requires forall x | x in items :: Ranged(x)
  {
    match e
    case TextPart(text) => items == [JStr(text)]
    case Image(path, size) => items == [JStr(path), OptionalNumber(size)]
    case Video(path, ms) => items == [JStr(path), OptionalNumber(ms)]
    case File(path, md5) => items == [JStr(path), OptionalString(md5)]
    case At(user) => items == [JStr(user)]
    case Reply(id) => items == [JStr(id)]
    case JsonPart(payload) => |items| == 1 && ToValue(items[0]) == payload
  }

  /** An element as an object, or as an array of its type and its fields. */
  ghost predicate IsElement(j: Json, e: Element)
    requires Ranged(j)
  {
    match j
    case JObj(es) => Describes(es, e)
    case JArr(items) =>
      && items != [] && items[0] == JStr(KindName(KindOf(e)))
      && AreFields(items[1..], e)
    case _ => false
  }

  /** The members describe the message. */
  ghost predicate DescribesMessage(es: seq<Entry>, m: Message)
    requires forall x | x in es :: Ranged(x.value)
  {
    && Names(es, "id", JStr(m.id)) && Names(es, "sender_id", JStr(m.senderId))
    && (exists i: nat :: IsOnlyNamed(es, "recipient", i) && IsRecipient(es[i].value, m.recipient))
    && (exists i: nat :: IsOnlyNamed(es, "elements", i) && AreElements(es[i].value, m.elements))
  }

  ghost predicate AreElements(j: Json, parts: seq<Element>)
    requires Ranged(j)
  {
    j.JArr? && |j.items| == |parts| && forall i | 0 <= i < |parts| :: IsElement(j.items[i], parts[i])
  }

  /** A message as an object, or as an array of its four fields. */
  ghost predicate IsMessage(j: Json, m: Message)
    requires Ranged(j)
  {
    match j
    case JObj(es) => DescribesMessage(es, m)
    case JArr(items) =>
      && |items| == 4 && items[0] == JStr(m.id) && items[1] == JStr(m.senderId)
      && IsRecipient(items[2], m.recipient) && AreElements(items[3], m.elements)
    case _ => false
  }

  // ---------------------------------------------------------------- fields

  lemma {:induction false} FieldMeans(es: seq<Entry>, key: string, v: Json)
    ensures Find(es, key) == Missing <==> Lacks(es, key)
    ensures Find(es, key) == Found(v) <==> Names(es, key, v)
    ensures Lacks(es, key) ==> !Names(es, key, v)
    ensures Find(es, key).Found? ==> Names(es, key, Find(es, key).value)
  {
    FindExact(es, key);
  }

  lemma {:induction false} StringIsRead(es: seq<Entry>, key: string, s: string)
    ensures StringField(es, key) == Some(s) <==> Names(es, key, JStr(s))
  {
    FieldMeans(es, key, JStr(s));
    hide Find, Names;
  }

  lemma {:induction false} NumberIsRead(es: seq<Entry>, key: string, n: Option<u64>)
    ensures OptionalNumberField(es, key) == Some(n) <==> NamesNumber(es, key, n)
  {
    FieldMeans(es, key, OptionalNumber(n));
    hide Find, Names, Lacks;
  }

  lemma {:induction false} TextIsRead(es: seq<Entry>, key: string, s: Option<string>)
    ensures OptionalStringField(es, key) == Some(s) <==> NamesText(es, key, s)
  {
    FieldMeans(es, key, OptionalString(s));
    hide Find, Names, Lacks;
  }

  lemma {:induction false} PayloadIsRead(es: seq<Entry>, payload: Value)
    requires forall x | x in es :: Ranged(x.value)
    ensures FieldsFromJson(JsonKind, es) == Some(JsonPart(payload)) <==>
            exists i: nat :: IsOnlyNamed(es, "payload", i) && ToValue(es[i].value) == payload
  {
    hide ToValue, Ranged;
    if i: nat :| IsOnlyNamed(es, "payload", i) {
      FoundAt(es, "payload", i);
    } else {
      FindExact(es, "payload");
    }
    hide Find;
  }

  lemma {:induction false} OptionalFieldsAreRead(es: seq<Entry>, e: Element)
    requires forall x | x in es :: Ranged(x.value)
    requires e.Image? || e.Video? || e.File?
    requires Names(es, "type", JStr(KindName(KindOf(e))))
    ensures FieldsFromJson(KindOf(e), es) == Some(e) <==> Describes(es, e)
  {
    StringIsRead(es, "path", e.path);
    match e {
      case Image(_, size) => NumberIsRead(es, "size", size);
      case Video(_, ms) => NumberIsRead(es, "duration_ms", ms);
      case File(_, md5) => TextIsRead(es, "md5", md5);
    }
    hide StringField, OptionalNumberField, OptionalStringField, NamesNumber, NamesText, Names, Find, ToValue, Ranged,
    IsOnlyNamed;
  }

  lemma {:induction false} FieldsAreRead(es: seq<Entry>, e: Element)
    requires forall x | x in es :: Ranged(x.value)
    requires Names(es, "type", JStr(KindName(KindOf(e))))
    ensures FieldsFromJson(KindOf(e), es) == Some(e) <==> Describes(es, e)
  {
    match e {
      case TextPart(text) => StringIsRead(es, "text", text);
      case At(user) => StringIsRead(es, "target_user", user);
      case Reply(id) => StringIsRead(es, "message_id", id);
      case JsonPart(payload) => PayloadIsRead(es, payload);
      case _ => OptionalFieldsAreRead(es, e);
    }
    hide StringField, OptionalNumberField, OptionalStringField, NamesNumber, NamesText, Names, Find, ToValue, Ranged,
    IsOnlyNamed;
  }

  lemma {:induction false} DescribedKind(es: seq<Entry>, e: Element)
    requires forall x | x in es :: Ranged(x.value)
    ensures Describes(es, e) ==> Names(es, "type", JStr(KindName(KindOf(e))))
  {
    hide Names, NamesNumber, NamesText, ToValue, Ranged, IsOnlyNamed;
  }

  lemma {:induction false} KindIsRead(es: seq<Entry>, e: Element)
    requires forall x | x in es :: Ranged(x.value)
    ensures ElementFromJson(JObj(es)) == Some(e) ==> Names(es, "type", JStr(KindName(KindOf(e))))
    ensures Names(es, "type", JStr(KindName(KindOf(e)))) ==>
              ElementFromJson(JObj(es)) == FieldsFromJson(KindOf(e), es)
  {
    var tag := StringField(es, "type");
    KindRoundTrip(KindOf(e));
    StringIsRead(es, "type", KindName(KindOf(e)));
    if ElementFromJson(JObj(es)) == Some(e) {
      FieldsKeepKind(KindNamed(tag.value).value, es);
      NamedKind(tag.value);
    }
    hide FieldsFromJson, Find, Names, KindName, KindNamed, StringField;
  }

  lemma {:induction false} FieldsKeepKind(k: Kind, es: seq<Entry>)
    requires forall x | x in es :: Ranged(x.value)
    ensures FieldsFromJson(k, es).Some? ==> KindOf(FieldsFromJson(k, es).value) == k
  {
    hide StringField, OptionalNumberField, OptionalStringField, Find, ToValue, Ranged;
  }

  lemma {:induction false} NamedKind(name: string)
    ensures KindNamed(name).Some? ==> KindName(KindNamed(name).value) == name
  {
  }

  /** An object is read as this element exactly when its members describe it. */
  lemma {:induction false} ElementIsRead(es: seq<Entry>, e: Element)
    requires forall x | x in es :: Ranged(x.value)
    ensures ElementFromJson(JObj(es)) == Some(e) <==> Describes(es, e)
  {
    KindIsRead(es, e);
    DescribedKind(es, e);
    if Names(es, "type", JStr(KindName(KindOf(e)))) { FieldsAreRead(es, e); }
    hide ElementFromJson, FieldsFromJson, Describes, Names;
  }

  // ---------------------------------------------------------------- arrays

  lemma {:induction false} RangedItems(items: seq<Json>)
    requires forall x | x in items :: Ranged(x)
    ensures Ranged(JArr(items))
  {
  }

  lemma {:induction false} TwoPositionsAreRead(items: seq<Json>, e: Element)
    requires (forall x | x in items :: Ranged(x)) && |items| == 2 && (e.Image? || e.Video? || e.File?)
    ensures FieldsFromJson(KindOf(e), AsFields(JArr(items), FieldNames(KindOf(e))).value) == Some(e) <==>
            AreFields(items, e)
  {
    var names := FieldNames(KindOf(e));
    var es := AsFields(JArr(items), names).value;
    assert names[1] != names[0] && es == [Entry(names[0], items[0]), Entry(names[1], items[1])];
    FoundAt(es, names[0], 0);
    FoundAt(es, names[1], 1);
    assert items == [items[0], items[1]];
    hide Find, Ranged, ToValue;
  }

  /** Fields by position are read like fields by name. */
  lemma {:induction false} PositionsAreRead(items: seq<Json>, e: Element)
    requires forall x | x in items :: Ranged(x)
    ensures var fields := AsFields(JArr(items), FieldNames(KindOf(e)));
            (fields.Some? && FieldsFromJson(KindOf(e), fields.value) == Some(e)) <==> AreFields(items, e)
  {
    RangedItems(items);
    if e.Image? || e.Video? || e.File? {
      if |items| == 2 { TwoPositionsAreRead(items, e); }
      hide FieldsFromJson;
    } else if |items| == 1 {
      var names := FieldNames(KindOf(e));
      FoundAt(AsFields(JArr(items), names).value, names[0], 0);
      assert items == [items[0]];
    }
    hide Find, Ranged, ToValue;
  }

  lemma {:induction false} ArrayKind(items: seq<Json>, e: Element)
    requires Ranged(JArr(items)) && items != []
    ensures items[0] == JStr(KindName(KindOf(e))) ==>
              var fields := AsFields(JArr(items[1..]), FieldNames(KindOf(e)));
              ElementFromJson(JArr(items)) == if fields.None? then None else FieldsFromJson(KindOf(e), fields.value)
    ensures ElementFromJson(JArr(items)) == Some(e) ==> items[0] == JStr(KindName(KindOf(e)))
  {
    KindRoundTrip(KindOf(e));
    if items[0].JStr? && KindNamed(items[0].s).Some? {
      var kind := KindNamed(items[0].s).value;
      NamedKind(items[0].s);
      var fields := AsFields(JArr(items[1..]), FieldNames(kind));
      if fields.Some? { FieldsKeepKind(kind, fields.value); }
    }
    hide FieldsFromJson, AsFields, FieldNames, KindName, KindNamed;
  }

  /** What the reader accepts as an element, and as which one. */
  lemma {:induction false} AnyElementIsRead(j: Json, e: Element)
    requires Ranged(j)
    ensures ElementFromJson(j) == Some(e) <==> IsElement(j, e)
  {
    match j {
      case JObj(es) => ElementIsRead(es, e);
      case JArr(items) =>
        if items != [] {
          ArrayKind(items, e);
          PositionsAreRead(items[1..], e);
          hide AsFields, FieldNames, FieldsFromJson, AreFields, KindName, Ranged;
        }
      case _ =>
    }
    hide Describes;
  }

  lemma {:induction false} ElementsAreRead(items: seq<Json>, parts: seq<Element>)
    requires forall x | x in items :: Ranged(x)
    ensures ElementsFromJson(items) == Some(parts) <==>
            |items| == |parts| && forall i | 0 <= i < |parts| :: IsElement(items[i], parts[i])
    decreases |items|
  {
    hide ElementFromJson, IsElement, Ranged;
    if items != [] && parts != [] {
      var xs, es := items[1..], parts[1..];
      assert items == [items[0]] + xs && parts == [parts[0]] + es;
      AnyElementIsRead(items[0], parts[0]);
      ElementsAreRead(xs, es);
      forall i | 0 < i < |parts| && |items| == |parts|
        ensures IsElement(items[i], parts[i]) <==> IsElement(xs[i - 1], es[i - 1]) {}
      if |xs| == |es| && IsElement(items[0], parts[0]) && ElementsFromJson(xs) == Some(es) {
        assert forall i | 0 <= i < |parts| :: IsElement(items[i], parts[i]);
      }
    } else if items != [] {
    }
  }

  lemma {:induction false} ContentIsRead(content: Json, key: string, id: string)
    requires Ranged(content)
    ensures var fields := AsFields(content, [key]);
            (fields.Some? && StringField(fields.value, key) == Some(id)) <==> Holds(content, key, id)
  {
    match content {
      case JObj(es) => StringIsRead(es, key, id);
      case JArr(items) =>
        if |items| == 1 {
          FoundAt(AsFields(content, [key]).value, key, 0);
          assert items == [items[0]];
        }
      case _ =>
    }
    hide Ranged, Find, Names;
  }

  lemma {:induction false} RecipientIsRead(j: Json, r: Recipient)
    requires Ranged(j)
    ensures RecipientFromJson(j) == Some(r) <==> IsRecipient(j, r)
  {
    if j.JObj? && |j.entries| == 1 {
      assert j.entries[0] in j.entries;
      var content := j.entries[0].value;
      match r
      case Private(id) => ContentIsRead(content, "user_id", id);
      case Group(id) => ContentIsRead(content, "group_id", id);
    }
    hide Holds, AsFields, StringField;
  }

  /** The member that alone has this name; past the end if there is none. */
  lemma {:induction false} OnlyMember(es: seq<Entry>, key: string) returns (i: nat)
    ensures i < |es| ==> IsOnlyNamed(es, key, i) && Find(es, key) == Found(es[i].value)
    ensures i >= |es| ==> !Find(es, key).Found?
    ensures forall k: nat | IsOnlyNamed(es, key, k) :: k == i
  {
    FindExact(es, key);
    if k: nat :| IsOnlyNamed(es, key, k) {
      FoundAt(es, key, k);
      i := k;
    } else {
      i := |es|;
    }
  }

  lemma {:induction false} RecipientMember(es: seq<Entry>, r: Recipient)
    requires forall x | x in es :: Ranged(x.value)
    ensures var f := Find(es, "recipient");
            (f.Found? && RecipientFromJson(f.value) == Some(r)) <==>
            exists i: nat :: IsOnlyNamed(es, "recipient", i) && IsRecipient(es[i].value, r)
  {
    var k := OnlyMember(es, "recipient");
    if k < |es| {
      assert es[k] in es;
      RecipientIsRead(es[k].value, r);
    }
    hide Find, IsOnlyNamed, IsRecipient, RecipientFromJson;
  }

  lemma {:induction false} ElementsMember(es: seq<Entry>, parts: seq<Element>)
    requires forall x | x in es :: Ranged(x.value)
    ensures var f := Find(es, "elements");
            (f.Found? && f.value.JArr? && Ranged(f.value) && ElementsFromJson(f.value.items) == Some(parts)) <==>
            exists i: nat :: IsOnlyNamed(es, "elements", i) && AreElements(es[i].value, parts)
  {
    var k := OnlyMember(es, "elements");
    if k < |es| && es[k].value.JArr? {
      assert es[k] in es && Ranged(es[k].value);
      ElementsAreRead(es[k].value.items, parts);
    }
    hide Find, IsOnlyNamed, ElementsFromJson, IsElement;
  }

  lemma {:induction false} MembersAreRead(es: seq<Entry>, m: Message)
    requires forall x | x in es :: Ranged(x.value)
    ensures MessageFromJson(JObj(es)) == Some(m) <==> DescribesMessage(es, m)
  {
    StringIsRead(es, "id", m.id);
    StringIsRead(es, "sender_id", m.senderId);
    RecipientMember(es, m.recipient);
    ElementsMember(es, m.elements);
    hide Names, StringField, Find, IsOnlyNamed, IsRecipient, AreElements, RecipientFromJson, ElementsFromJson, Ranged;
  }

  lemma {:induction false} FourFieldsAreRead(items: seq<Json>, m: Message)
    requires Ranged(JArr(items)) && |items| == 4
    ensures MessageFromJson(JArr(items)) == Some(m) <==> IsMessage(JArr(items), m)
  {
    var es := AsFields(JArr(items), ["id", "sender_id", "recipient", "elements"]).value;
    assert "sender_id"[0] != "recipient"[0];
    FoundAt(es, "id", 0);
    FoundAt(es, "sender_id", 1);
    FoundAt(es, "recipient", 2);
    FoundAt(es, "elements", 3);
    RecipientIsRead(items[2], m.recipient);
    if items[3].JArr? {
      assert Ranged(items[3]);
      ElementsAreRead(items[3].items, m.elements);
    }
    hide Find, Ranged, IsRecipient, RecipientFromJson, ElementsFromJson, IsElement;
  }

  /** What the reader accepts as a message, and as which one: every member where and in whatever order it stands. */
  lemma {:induction false} MessageIsRead(text: string, m: Message)
    ensures DecodeJson(text) == Some(m) <==> Parse(text).Some? && IsMessage(Parse(text).value, m)
  {
    hide Parse, Ranged, MessageFromJson, DescribesMessage, IsRecipient, AreElements;
    var j := Parse(text);
    if j.Some? {
      match j.value
      case JObj(es) =>
        assert forall x | x in es :: Ranged(x.value) by { RangedMembers(es); }
        MembersAreRead(es, m);
      case JArr(items) => if |items| == 4 { FourFieldsAreRead(items, m); } else { WrongLength(items); }
      case _ => NoContainer(j.value);
    }
  }

  lemma {:induction false} RangedMembers(es: seq<Entry>)
    requires Ranged(JObj(es))
    ensures forall x | x in es :: Ranged(x.value)
  {
  }

  lemma {:induction false} WrongLength(items: seq<Json>)
    requires Ranged(JArr(items)) && |items| != 4
    ensures MessageFromJson(JArr(items)).None?
  {
  }

  lemma {:induction false} NoContainer(j: Json)
    requires Ranged(j) && !j.JObj? && !j.JArr?
    ensures MessageFromJson(j).None?
  {
  }

  // ---------------------------------------------------------------- packets

  /** A wire packet as an object that names route and payload, or as an array of the two. */
  ghost predicate IsPacket(j: Json, p: Packet) {
    match j
    case JObj(es) => Names(es, "route", JStr(p.route)) && Names(es, "payload", JStr(p.payload))
    case JArr(items) => items == [JStr(p.route), JStr(p.payload)]
    case _ => false
  }

  /** What the reader accepts as a packet, and as which one. */
  lemma {:induction false} PacketIsRead(line: string, p: Packet)
    ensures ParseWireLine(line) == Some(p) <==> Parse(line).Some? && IsPacket(Parse(line).value, p)
  {
    hide Parse, Find, Names, Ranged;
    var j := Parse(line);
    if j.Some? && j.value.JObj? {
      StringIsRead(j.value.entries, "route", p.route);
      StringIsRead(j.value.entries, "payload", p.payload);
    } else if j.Some? && j.value.JArr? && |j.value.items| == 2 {
      var items := j.value.items;
      var es := AsFields(j.value, ["route", "payload"]).value;
      assert "route"[0] != "payload"[0];
      FoundAt(es, "route", 0);
      FoundAt(es, "payload", 1);
      assert items == [items[0], items[1]];
    }
  }
}
