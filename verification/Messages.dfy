/** The message model and its JSON form: what the serde attributes of `Message` write and accept. */
module Messages {
  import opened Wrappers
  import opened Strings
  import opened JsonText
  import opened JsonLaws

  type u64 = n: int | 0 <= n < U64_END

  /** A `serde_json::Value`: every object is a map, listed by ascending key. */
  predicate IsValue(j: Json) {
    match j
    case JNum(n) => InRange(n)
    case JFloat(lit) => IsLiteral(lit)
    case JArr(items) => forall x | x in items :: IsValue(x)
    case JObj(entries) => Sorted(entries) && forall e | e in entries :: IsValue(e.value)
    case _ => true
  }

  predicate Sorted(es: seq<Entry>) {
    forall i, j :: 0 <= i < j < |es| ==> Less(es[i].key, es[j].key)
  }

  type Value = j: Json | IsValue(j) witness JNull

  datatype Recipient = Private(userId: string) | Group(groupId: string)

  datatype Element =
    | TextPart(text: string)
    | Image(path: string, size: Option<u64>)
    | Video(path: string, durationMs: Option<u64>)
    | File(path: string, md5: Option<string>)
    | At(targetUser: string)
    | Reply(messageId: string)
    | JsonPart(payload: Value)

  datatype Message = Message(id: string, senderId: string, recipient: Recipient, elements: seq<Element>)

  // ---------------------------------------------------------------- documents to values

  /** Map insertion: a later member replaces an earlier one with the same key. */
  function Insert(es: seq<Entry>, e: Entry): (r: seq<Entry>)
    requires Sorted(es)
    ensures Sorted(r) && r != []
    ensures forall x | x in r :: x == e || x in es
    ensures r[0] == e || (es != [] && r[0] == es[0])
  {
    if es == [] then [e]
    else
      LessTotal(e.key, es[0].key);
      if Less(e.key, es[0].key) then
        assert forall i | 0 <= i < |es| :: Less(e.key, es[i].key) by {
          forall i | 0 < i < |es| ensures Less(e.key, es[i].key) { LessTransitive(e.key, es[0].key, es[i].key); }
        }
        [e] + es
      else if e.key == es[0].key then [e] + es[1..]
      else
        var t := Insert(es[1..], e);
        assert forall i | 0 <= i < |t| :: Less(es[0].key, t[i].key) by {
          forall i | 0 <= i < |t| ensures Less(es[0].key, t[i].key) { assert t[i] in t; }
        }
        [es[0]] + t
  }

  function ToMap(es: seq<Entry>): (r: seq<Entry>)
    requires forall e | e in es :: Ranged(e.value)
    ensures Sorted(r) && forall e | e in r :: IsValue(e.value)
    decreases es
  {
    if es == [] then []
    else
      var last := es[|es| - 1];
      Insert(ToMap(es[..|es| - 1]), Entry(last.key, ToValue(last.value)))
  }

  function ToValues(items: seq<Json>): (r: seq<Json>)
    requires forall x | x in items :: Ranged(x)
    ensures forall x | x in r :: IsValue(x)
    decreases items
  {
    if items == [] then [] else [ToValue(items[0])] + ToValues(items[1..])
  }

  /** Reading a document as a `Value`. */
  function ToValue(j: Json): (v: Json)
    requires Ranged(j)
    ensures IsValue(v)
    decreases j
  {
    match j
    case JArr(items) => JArr(ToValues(items))
    case JObj(entries) => JObj(ToMap(entries))
    case _ => j
  }

  lemma {:induction false} InsertLast(es: seq<Entry>, e: Entry)
    requires Sorted(es + [e])
    ensures Sorted(es) && Insert(es, e) == es + [e]
  {
    var t := es + [e];
    assert forall i | 0 <= i < |es| :: t[i] == es[i];
    if es != [] {
      LessTotal(es[0].key, e.key);
      assert Less(t[0].key, t[|es|].key);
      assert es[1..] + [e] == t[1..];
      InsertLast(es[1..], e);
    }
  }

  /** `i` is the last member of that name. */
  predicate IsLastNamed(es: seq<Entry>, key: string, i: nat) {
    i < |es| && es[i].key == key && forall j | i < j < |es| :: es[j].key != key
  }

  lemma {:induction false} InsertExact(es: seq<Entry>, e: Entry, x: Entry)
    requires Sorted(es)
    ensures x in Insert(es, e) <==> x == e || (x in es && x.key != e.key)
    decreases |es|
  {
    if es != [] {
      var rest := es[1..];
      assert es == [es[0]] + rest;
      assert forall y | y in rest :: Less(es[0].key, y.key);
      LessTotal(e.key, es[0].key);
      InsertExact(rest, e, x);
      if x in es {
        if Less(e.key, es[0].key) && x != es[0] { LessTransitive(e.key, es[0].key, x.key); }
        LessTotal(e.key, x.key);
        LessTotal(es[0].key, x.key);
      }
    }
  }

  /** A map holds of every name its last member and nothing else, whatever the order and the repeats. */
  lemma {:induction false} ToMapExact(es: seq<Entry>, key: string, v: Json)
    requires forall e | e in es :: Ranged(e.value)
    ensures Entry(key, v) in ToMap(es) <==> exists i: nat :: IsLastNamed(es, key, i) && ToValue(es[i].value) == v
    decreases |es|
  {
    hide Insert, ToMap, ToValue, Ranged, Sorted;
    if es == [] {
      assert ToMap(es) == [] by { EmptyMap(); }
    } else {
      var init, last := es[..|es| - 1], es[|es| - 1];
      ToMapExact(init, key, v);
      OneMoreMember(init, last);
      assert es == init + [last];
      InsertExact(ToMap(init), Entry(last.key, ToValue(last.value)), Entry(key, v));
      LastOfMore(init, last, key);
    }
  }

  lemma {:induction false} EmptyMap()
    ensures ToMap([]) == []
  {
  }

  lemma {:induction false} OneMoreMember(init: seq<Entry>, last: Entry)
    requires forall e | e in init + [last] :: Ranged(e.value)
    ensures last in init + [last] && forall e | e in init :: Ranged(e.value)
    ensures ToMap(init + [last]) == Insert(ToMap(init), Entry(last.key, ToValue(last.value)))
  {
    var es := init + [last];
    assert es[..|es| - 1] == init && es[|es| - 1] == last;
    assert forall e | e in init :: e in es;
    hide Insert, Ranged, ToValue;
  }

  lemma {:induction false} LastOfMore(init: seq<Entry>, last: Entry, key: string)
    ensures last.key == key ==> IsLastNamed(init + [last], key, |init|)
    ensures forall i: nat | i < |init| ::
              IsLastNamed(init + [last], key, i) <==> IsLastNamed(init, key, i) && last.key != key
    ensures forall i: nat | IsLastNamed(init + [last], key, i) :: i <= |init| && (i == |init| ==> last.key == key)
  {
    var es := init + [last];
    assert es[|init|] == last && forall j | 0 <= j < |init| :: es[j] == init[j];
  }

  /** Values are the documents that reading leaves alone. */
  lemma {:induction false} ValueIsFixed(j: Json)
    requires IsValue(j)
    ensures Ranged(j) && ToValue(j) == j
    decreases j
  {
    match j
    case JArr(items) => ValuesAreFixed(items);
    case JObj(entries) => MapIsFixed(entries);
    case _ =>
  }

  lemma {:induction false} ValuesAreFixed(items: seq<Json>)
    requires forall x | x in items :: IsValue(x)
    ensures (forall x | x in items :: Ranged(x)) && ToValues(items) == items
    decreases items
  {
    if items != [] {
      ValueIsFixed(items[0]);
      ValuesAreFixed(items[1..]);
      assert items == [items[0]] + items[1..];
    }
  }

  lemma {:induction false} MapIsFixed(es: seq<Entry>)
    requires Sorted(es) && forall e | e in es :: IsValue(e.value)
    ensures (forall e | e in es :: Ranged(e.value)) && ToMap(es) == es
    decreases es
  {
    hide Less, Insert, IsValue, Ranged;
    if es != [] {
      var init, last := es[..|es| - 1], es[|es| - 1];
      assert last in es;
      ValueIsFixed(last.value);
      MapIsFixed(init);
      assert es == init + [last];
      InsertLast(init, last);
    }
  }

  // ---------------------------------------------------------------- messages to documents

  function OptionalNumber(n: Option<u64>): Json {
    if n.None? then JNull else JNum(n.value)
  }

  function OptionalString(s: Option<string>): Json {
    if s.None? then JNull else JStr(s.value)
  }

  datatype Kind = TextKind | ImageKind | VideoKind | FileKind | AtKind | ReplyKind | JsonKind

  function KindOf(e: Element): Kind {
    match e
    case TextPart(_) => TextKind
    case Image(_, _) => ImageKind
    case Video(_, _) => VideoKind
    case File(_, _) => FileKind
    case At(_) => AtKind
    case Reply(_) => ReplyKind
    case JsonPart(_) => JsonKind
  }

  /** Variant names in snake case. */
  function KindName(k: Kind): string {
    match k
    case TextKind => "text"
    case ImageKind => "image"
    case VideoKind => "video"
    case FileKind => "file"
    case AtKind => "at"
    case ReplyKind => "reply"
    case JsonKind => "json"
  }

  function Fields(e: Element): seq<Entry> {
    match e
    case TextPart(text) => [Entry("text", JStr(text))]
    case Image(path, size) => [Entry("path", JStr(path)), Entry("size", OptionalNumber(size))]
    case Video(path, ms) => [Entry("path", JStr(path)), Entry("duration_ms", OptionalNumber(ms))]
    case File(path, md5) => [Entry("path", JStr(path)), Entry("md5", OptionalString(md5))]
    case At(user) => [Entry("target_user", JStr(user))]
    case Reply(id) => [Entry("message_id", JStr(id))]
    case JsonPart(payload) => [Entry("payload", payload)]
  }

  /** Internally tagged: the variant name is the member `type`, next to the fields. */
  function ElementToJson(e: Element): Json {
    JObj([Entry("type", JStr(KindName(KindOf(e))))] + Fields(e))
  }

  function ElementsToJson(es: seq<Element>): (r: seq<Json>)
    ensures |r| == |es| && forall i | 0 <= i < |r| :: r[i] == ElementToJson(es[i])
  {
    if es == [] then [] else [ElementToJson(es[0])] + ElementsToJson(es[1..])
  }

  /** Externally tagged, variant names in lower case. */
  function RecipientToJson(r: Recipient): Json {
    match r
    case Private(id) => JObj([Entry("private", JObj([Entry("user_id", JStr(id))]))])
    case Group(id) => JObj([Entry("group", JObj([Entry("group_id", JStr(id))]))])
  }

  function MessageToJson(m: Message): Json {
    JObj([
      Entry("id", JStr(m.id)),
      Entry("sender_id", JStr(m.senderId)),
      Entry("recipient", RecipientToJson(m.recipient)),
      Entry("elements", JArr(ElementsToJson(m.elements)))
    ])
  }

  function EncodeJson(m: Message): string {
    Print(MessageToJson(m))
  }

  // ---------------------------------------------------------------- documents to messages

  datatype Field = Missing | Found(value: Json) | Duplicate

  /** The field called `key`; members with other names are ignored, a repeated one is an error. */
  function Find(es: seq<Entry>, key: string): (r: Field)
    ensures r.Found? ==> Entry(key, r.value) in es
  {
    if es == [] then Missing
    else
      var r := Find(es[1..], key);
      if es[0].key != key then r
      else if r.Missing? then Found(es[0].value)
      else Duplicate
  }

  function StringField(es: seq<Entry>, key: string): Option<string> {
    var f := Find(es, key);
    if f.Found? && f.value.JStr? then Some(f.value.s) else None
  }

  /** An absent or null field is `None`; the outer option is the failure. */
  function OptionalNumberField(es: seq<Entry>, key: string): Option<Option<u64>> {
    var f := Find(es, key);
    if f.Missing? || (f.Found? && f.value.JNull?) then Some(None)
    else if f.Found? && f.value.JNum? && 0 <= f.value.n < U64_END then Some(Some(f.value.n))
    else None
  }

  function OptionalStringField(es: seq<Entry>, key: string): Option<Option<string>> {
    var f := Find(es, key);
    if f.Missing? || (f.Found? && f.value.JNull?) then Some(None)
    else if f.Found? && f.value.JStr? then Some(Some(f.value.s))
    else None
  }

  function MapOption<A, B>(o: Option<A>, f: A -> B): Option<B> {
    if o.None? then None else Some(f(o.value))
  }

  function KindNamed(name: string): Option<Kind> {
    if name == "text" then Some(TextKind)
    else if name == "image" then Some(ImageKind)
    else if name == "video" then Some(VideoKind)
    else if name == "file" then Some(FileKind)
    else if name == "at" then Some(AtKind)
    else if name == "reply" then Some(ReplyKind)
    else if name == "json" then Some(JsonKind)
    else None
  }

  function FieldsFromJson(k: Kind, es: seq<Entry>): Option<Element>
    requires forall e | e in es :: Ranged(e.value)
  {
    match k
    case TextKind => MapOption(StringField(es, "text"), t => TextPart(t))
    case ImageKind =>
      var path, size := StringField(es, "path"), OptionalNumberField(es, "size");
      if path.None? || size.None? then None else Some(Image(path.value, size.value))
    case VideoKind =>
      var path, ms := StringField(es, "path"), OptionalNumberField(es, "duration_ms");
      if path.None? || ms.None? then None else Some(Video(path.value, ms.value))
    case FileKind =>
      var path, md5 := StringField(es, "path"), OptionalStringField(es, "md5");
      if path.None? || md5.None? then None else Some(File(path.value, md5.value))
    case AtKind => MapOption(StringField(es, "target_user"), u => At(u))
    case ReplyKind => MapOption(StringField(es, "message_id"), i => Reply(i))
    case JsonKind =>
      var f := Find(es, "payload");
      if f.Found? then Some(JsonPart(ToValue(f.value))) else None
  }

  /** The fields of a struct: the members of an object, or the items of an array that has exactly as many. */
  function AsFields(j: Json, names: seq<string>): (r: Option<seq<Entry>>)
    requires Ranged(j)
    ensures r.Some? ==> forall e | e in r.value :: Ranged(e.value)
  {
    match j
    case JObj(entries) => Some(entries)
    case JArr(items) =>
      if |items| == |names| then Some(seq(|items|, i requires 0 <= i < |items| => Entry(names[i], items[i]))) else None
    case _ => None
  }

  function FieldNames(k: Kind): seq<string> {
    match k
    case TextKind => ["text"]
    case ImageKind => ["path", "size"]
    case VideoKind => ["path", "duration_ms"]
    case FileKind => ["path", "md5"]
    case AtKind => ["target_user"]
    case ReplyKind => ["message_id"]
    case JsonKind => ["payload"]
  }

  /** An object with its tag among the members, or an array with its tag in front. */
  function ElementFromJson(j: Json): Option<Element>
    requires Ranged(j)
  {
    match j
    case JObj(entries) =>
      var tag := StringField(entries, "type");
      var kind := if tag.None? then None else KindNamed(tag.value);
      if kind.None? then None else FieldsFromJson(kind.value, entries)
    case JArr(items) =>
      var kind := if items == [] || !items[0].JStr? then None else KindNamed(items[0].s);
      if kind.None? then None
      else
        var fields := AsFields(JArr(items[1..]), FieldNames(kind.value));
        if fields.None? then None else FieldsFromJson(kind.value, fields.value)
    case _ => None
  }

  function ElementsFromJson(items: seq<Json>): Option<seq<Element>>
    requires forall x | x in items :: Ranged(x)
  {
    if items == [] then Some([])
    else
      var e, es := ElementFromJson(items[0]), ElementsFromJson(items[1..]);
      if e.None? || es.None? then None else Some([e.value] + es.value)
  }

  function RecipientFromJson(j: Json): Option<Recipient>
    requires Ranged(j)
  {
    if !j.JObj? || |j.entries| != 1 then None
    else
      assert j.entries[0] in j.entries;
      var variant, content := j.entries[0].key, j.entries[0].value;
      var name := if variant == "private" then "user_id" else "group_id";
      var fields := AsFields(content, [name]);
      if fields.None? || (variant != "private" && variant != "group") then None
      else if variant == "private" then MapOption(StringField(fields.value, name), u => Private(u))
      else MapOption(StringField(fields.value, name), g => Group(g))
  }

  function MessageFromJson(j: Json): Option<Message>
    requires Ranged(j)
  {
    var fields := AsFields(j, ["id", "sender_id", "recipient", "elements"]);
    if fields.None? then None
    else
      var es := fields.value;
      var id, sender := StringField(es, "id"), StringField(es, "sender_id");
      var recipient, elements := Find(es, "recipient"), Find(es, "elements");
      if id.None? || sender.None? || !recipient.Found? || !elements.Found? || !elements.value.JArr? then None
      else
        assert Entry("elements", elements.value) in es && Entry("recipient", recipient.value) in es;
        assert Ranged(elements.value) && Ranged(recipient.value);
        var r, parts := RecipientFromJson(recipient.value), ElementsFromJson(elements.value.items);
        if r.None? || parts.None? then None else Some(Message(id.value, sender.value, r.value, parts.value))
  }

  function DecodeJson(text: string): Option<Message> {
    var j := Parse(text);
    if j.None? then None else MessageFromJson(j.value)
  }

  // ---------------------------------------------------------------- round trip

  lemma {:induction false} NotFound(es: seq<Entry>, key: string)
    requires forall i | 0 <= i < |es| :: es[i].key != key
    ensures Find(es, key) == Missing
  {
    if es != [] { NotFound(es[1..], key); }
  }

  /** A key that occurs exactly once is found. */
  lemma {:induction false} FoundAt(es: seq<Entry>, key: string, i: nat)
    requires i < |es| && es[i].key == key
    requires forall k | 0 <= k < |es| && k != i :: es[k].key != key
    ensures Find(es, key) == Found(es[i].value)
  {
    if i == 0 { NotFound(es[1..], key); } else { FoundAt(es[1..], key, i - 1); }
  }

  lemma {:induction false} FoundTwice(es: seq<Entry>, key: string, i: nat, j: nat)
    requires i < j < |es| && es[i].key == es[j].key == key
    ensures Find(es, key) == Duplicate
  {
    if i > 0 {
      FoundTwice(es[1..], key, i - 1, j - 1);
    } else {
      assert es[1..][j - 1].key == key;
      if Find(es[1..], key) == Missing { MissingMeans(es[1..], key); }
    }
  }

  lemma {:induction false} MissingMeans(es: seq<Entry>, key: string)
    ensures Find(es, key) == Missing <==> forall i | 0 <= i < |es| :: es[i].key != key
  {
    if es != [] { MissingMeans(es[1..], key); }
  }

  /** `i` is the only member of that name. */
  predicate IsOnlyNamed(es: seq<Entry>, key: string, i: nat) {
    i < |es| && es[i].key == key && forall k | 0 <= k < |es| && k != i :: es[k].key != key
  }

  /** A field is found exactly when one member alone has its name, wherever it stands. */
  lemma {:induction false} FindExact(es: seq<Entry>, key: string)
    ensures Find(es, key) == Missing <==> forall i | 0 <= i < |es| :: es[i].key != key
    ensures forall v :: Find(es, key) == Found(v) <==> exists i: nat :: IsOnlyNamed(es, key, i) && es[i].value == v
  {
    MissingMeans(es, key);
    if i: nat :| i < |es| && es[i].key == key {
      if j: nat :| j < |es| && j != i && es[j].key == key {
        FoundTwice(es, key, if i < j then i else j, if i < j then j else i);
      } else {
        FoundAt(es, key, i);
        assert IsOnlyNamed(es, key, i);
      }
    }
  }

  /** In a map a name has its one value or none. */
  lemma {:induction false} FindInMap(es: seq<Entry>, key: string, v: Json)
    requires Sorted(es)
    ensures Find(es, key) == Found(v) <==> Entry(key, v) in es
    ensures Find(es, key) != Duplicate
  {
    forall i, j | 0 <= i < j < |es| ensures es[i].key != es[j].key { LessTotal(es[i].key, es[j].key); }
    MissingMeans(es, key);
    if i: nat :| i < |es| && es[i].key == key {
      FoundAt(es, key, i);
      assert es[i] in es;
    }
  }

  lemma {:induction false} KindRoundTrip(k: Kind)
    ensures KindNamed(KindName(k)) == Some(k)
  {
  }

  lemma {:induction false} FieldsRoundTrip(e: Element, es: seq<Entry>)
    requires es == [Entry("type", JStr(KindName(KindOf(e))))] + Fields(e)
    requires forall x | x in es :: Ranged(x.value)
    ensures FieldsFromJson(KindOf(e), es) == Some(e)
  {
    hide Find, KindName, Ranged, ToValue, IsValue;
    FoundAt(es, es[1].key, 1);
    if |es| == 3 {
      FoundAt(es, es[2].key, 2);
    }
    if e.JsonPart? {
      ValueIsFixed(e.payload);
    }
  }

  lemma {:induction false} ElementRoundTrip(e: Element)
    ensures Ranged(ElementToJson(e)) && ElementFromJson(ElementToJson(e)) == Some(e)
  {
    hide Find, KindName, KindNamed, FieldsFromJson;
    var es := ElementToJson(e).entries;
    if e.JsonPart? {
      ValueIsFixed(e.payload);
    }
    assert forall x | x in es :: Ranged(x.value);
    FoundAt(es, "type", 0);
    KindRoundTrip(KindOf(e));
    FieldsRoundTrip(e, es);
  }

  lemma {:induction false} ElementsRoundTrip(es: seq<Element>)
    ensures (forall x | x in ElementsToJson(es) :: Ranged(x)) && ElementsFromJson(ElementsToJson(es)) == Some(es)
  {
    if es != [] {
      ElementRoundTrip(es[0]);
      ElementsRoundTrip(es[1..]);
      var js := ElementsToJson(es);
      assert js[1..] == ElementsToJson(es[1..]);
      assert js == [js[0]] + js[1..] && es == [es[0]] + es[1..];
    }
  }

  lemma {:induction false} RecipientRoundTrip(r: Recipient)
    ensures Ranged(RecipientToJson(r)) && RecipientFromJson(RecipientToJson(r)) == Some(r)
  {
    var inner := RecipientToJson(r).entries[0].value;
    FoundAt(inner.entries, inner.entries[0].key, 0);
    assert Ranged(inner);
  }

  lemma {:induction false} MessageFields(m: Message)
    ensures var es := MessageToJson(m).entries;
            && StringField(es, "id") == Some(m.id) && StringField(es, "sender_id") == Some(m.senderId)
            && Find(es, "recipient") == Found(RecipientToJson(m.recipient))
            && Find(es, "elements") == Found(JArr(ElementsToJson(m.elements)))
  {
    hide Find, RecipientToJson, ElementsToJson;
    var es := MessageToJson(m).entries;
    assert "sender_id"[0] != "recipient"[0];
    FoundAt(es, "id", 0);
    FoundAt(es, "sender_id", 1);
    FoundAt(es, "recipient", 2);
    FoundAt(es, "elements", 3);
  }

  /** The serde shapes lose nothing: tags, nulls for absent options, and map payloads all come back. */
  lemma {:induction false} MessageRoundTrip(m: Message)
    ensures Ranged(MessageToJson(m)) && MessageFromJson(MessageToJson(m)) == Some(m)
  {
    hide Find, StringField, RecipientToJson, ElementsToJson, RecipientFromJson, ElementsFromJson;
    RecipientRoundTrip(m.recipient);
    ElementsRoundTrip(m.elements);
    MessageFields(m);
    assert Ranged(JArr(ElementsToJson(m.elements)));
  }

  /** The same message without field names: an array of the four fields is read as well. */
  lemma {:induction false} ArrayFormIsRead(m: Message)
    ensures var parts := JArr(ElementsToJson(m.elements));
            var a := JArr([JStr(m.id), JStr(m.senderId), RecipientToJson(m.recipient), parts]);
            Ranged(a) && MessageFromJson(a) == Some(m)
  {
    hide Find, StringField, RecipientToJson, ElementsToJson, RecipientFromJson, ElementsFromJson;
    RecipientRoundTrip(m.recipient);
    ElementsRoundTrip(m.elements);
    MessageFields(m);
    var parts := JArr(ElementsToJson(m.elements));
    assert Ranged(parts);
    var a := JArr([JStr(m.id), JStr(m.senderId), RecipientToJson(m.recipient), parts]);
    assert AsFields(a, ["id", "sender_id", "recipient", "elements"]).value == MessageToJson(m).entries;
  }

  // ---------------------------------------------------------------- depth

  lemma {:induction false} ItemsDepthBound(items: seq<Json>, d: nat)
    ensures ItemsDepth(items) <= d <==> forall x | x in items :: Depth(x) <= d
  {
    if items != [] {
      ItemsDepthBound(items[1..], d);
      assert items == [items[0]] + items[1..];
      if ItemsDepth(items) <= d {
        forall x | x in items ensures Depth(x) <= d {
          if x != items[0] { assert x in items[1..]; }
        }
      } else {
        assert items[0] in items;
      }
    }
  }

  lemma {:induction false} EntriesDepthBound(es: seq<Entry>, d: nat)
    ensures EntriesDepth(es) <= d <==> forall e | e in es :: Depth(e.value) <= d
  {
    if es != [] {
      EntriesDepthBound(es[1..], d);
      assert es == [es[0]] + es[1..];
    }
  }

  /** How deep a JSON part of a message may nest: the message, its element list and the element take three levels. */
  const MAX_PAYLOAD_DEPTH: nat := 124

  predicate PayloadsFit(m: Message) {
    forall e | e in m.elements && e.JsonPart? :: Depth(e.payload) <= MAX_PAYLOAD_DEPTH
  }

  predicate PayloadsFloatFree(m: Message) {
    forall e | e in m.elements && e.JsonPart? :: FloatFree(e.payload)
  }

  lemma {:induction false} ElementDepth(e: Element)
    ensures Depth(ElementToJson(e)) <= 125 <==> (e.JsonPart? ==> Depth(e.payload) <= MAX_PAYLOAD_DEPTH)
  {
    var es := ElementToJson(e).entries;
    EntriesDepthBound(es, MAX_PAYLOAD_DEPTH);
    assert es[1] in es;
  }

  lemma {:induction false} ElementsDepth(m: Message)
    ensures ItemsDepth(ElementsToJson(m.elements)) <= 125 <==> PayloadsFit(m)
  {
    hide Depth, ElementToJson;
    var js := ElementsToJson(m.elements);
    ItemsDepthBound(js, 125);
    forall i | 0 <= i < |js|
      ensures js[i] in js && m.elements[i] in m.elements
      ensures Depth(js[i]) <= 125 <==> (m.elements[i].JsonPart? ==> Depth(m.elements[i].payload) <= MAX_PAYLOAD_DEPTH)
    {
      ElementDepth(m.elements[i]);
    }
  }

  lemma {:induction false} RecipientDepth(r: Recipient)
    ensures Depth(RecipientToJson(r)) <= 2 && FloatFree(RecipientToJson(r))
  {
    var es := RecipientToJson(r).entries;
    EntriesDepthBound(es, 1);
    EntriesDepthBound(es[0].value.entries, 0);
    assert FloatFree(es[0].value);
  }

  lemma {:induction false} MessageDepth(m: Message)
    ensures Depth(MessageToJson(m)) <= MAX_DEPTH <==> PayloadsFit(m)
  {
    hide RecipientToJson, ElementsToJson, EntriesDepth, ItemsDepth, PayloadsFit;
    var es := MessageToJson(m).entries;
    ElementsDepth(m);
    RecipientDepth(m.recipient);
    EntriesDepthBound(es, 126);
    assert es[3] in es;
  }

  lemma {:induction false} ElementFloatFree(e: Element)
    requires e.JsonPart? ==> FloatFree(e.payload)
    ensures FloatFree(ElementToJson(e))
  {
    var es := ElementToJson(e).entries;
    assert forall x | x in es :: FloatFree(x.value);
  }

  lemma {:induction false} MessageFloatFree(m: Message)
    requires PayloadsFloatFree(m)
    ensures FloatFree(MessageToJson(m))
  {
    hide RecipientToJson, ElementToJson;
    RecipientDepth(m.recipient);
    var js := ElementsToJson(m.elements);
    forall i | 0 <= i < |js| ensures FloatFree(js[i]) {
      assert m.elements[i] in m.elements;
      ElementFloatFree(m.elements[i]);
    }
    assert FloatFree(JArr(js));
    hide ElementsToJson;
  }

  /** The text codec: decoding what was encoded gives the message back exactly when no payload nests past 124 levels. */
  lemma {:induction false} TextRoundTrip(m: Message)
    requires PayloadsFloatFree(m)
    ensures DecodeJson(EncodeJson(m)) == if PayloadsFit(m) then Some(m) else None
  {
    MessageRoundTrip(m);
    MessageFloatFree(m);
    MessageDepth(m);
    DocumentRoundTrip(MessageToJson(m));
  }

  /** Arrays in arrays, `n` deep. */
  function Nest(n: nat): Json {
    if n == 0 then JArr([]) else JArr([Nest(n - 1)])
  }

  lemma {:induction false} NestShape(n: nat)
    ensures IsValue(Nest(n)) && FloatFree(Nest(n)) && Depth(Nest(n)) == n + 1
  {
    if n > 0 {
      NestShape(n - 1);
      var x := Nest(n - 1);
      assert ItemsDepth([x]) == Depth(x) by { assert [x][1..] == []; }
    }
  }

  /** It happens: a payload of 124 levels comes back, one more and the message is lost. */
  lemma {:induction false} DeepPayloadIsLost(id: string, sender: string, recipient: Recipient)
    ensures IsValue(Nest(123)) && IsValue(Nest(124))
    ensures var m := Message(id, sender, recipient, [JsonPart(Nest(123))]); DecodeJson(EncodeJson(m)) == Some(m)
    ensures DecodeJson(EncodeJson(Message(id, sender, recipient, [JsonPart(Nest(124))]))) == None
  {
    hide Nest, DecodeJson, EncodeJson;
    NestShape(123);
    NestShape(124);
    TextRoundTrip(Message(id, sender, recipient, [JsonPart(Nest(123))]));
    var m := Message(id, sender, recipient, [JsonPart(Nest(124))]);
    assert m.elements[0] in m.elements;
    TextRoundTrip(m);
  }
}
