/** The four send routes: what they normalise, what they refuse, and the plain text a message becomes. */
module SendRoutes {
  import opened Wrappers
  import opened Strings
  import opened JsonText
  import opened JsonLaws
  import opened Messages
  import opened Utf8

  datatype ApiError = InvalidRequest | EventDispatch | ProtocolSend

  datatype MessageType = PrivateType | GroupType

  datatype Compat = Compat(messageType: MessageType, userId: Option<string>, groupId: Option<string>, text: string)

  datatype Request =
    | SendAny(message: Message)
    | SendCompat(compat: Compat)
    | SendPrivate(userId: string, text: string)
    | SendGroup(groupId: string, text: string)

  // ---------------------------------------------------------------- validation and normalisation

  function RecipientId(r: Recipient): string {
    match r
    case Private(id) => id
    case Group(id) => id
  }

  predicate ValidRecipient(m: Message) {
    !IsBlank(RecipientId(m.recipient))
  }

  predicate ValidPayload(m: Message) {
    !IsBlank(m.id) && !IsBlank(m.senderId) && m.elements != []
  }

  function TrimRecipient(r: Recipient): Recipient {
    match r
    case Private(id) => Private(Trim(id))
    case Group(id) => Group(Trim(id))
  }

  function Normalized(m: Message): Message {
    m.(id := Trim(m.id), senderId := Trim(m.senderId), recipient := TrimRecipient(m.recipient))
  }

  function PrepareAny(m: Message): Result<Message, ApiError> {
    var n := Normalized(m);
    if !ValidPayload(n) || !ValidRecipient(n) then Failure(InvalidRequest) else Success(n)
  }

  function TextMessage(recipient: Recipient, text: string): Message {
    Message("api-" + PrintNat(Size(text)), "api", recipient, [TextPart(text)])
  }

  function PrepareCompat(c: Compat): Result<Message, ApiError> {
    if IsBlank(c.text) then Failure(InvalidRequest)
    else
      match c.messageType
      case PrivateType =>
        var id := if c.userId.Some? then Trim(c.userId.value) else "";
        if id == "" then Failure(InvalidRequest) else Success(TextMessage(Private(id), c.text))
      case GroupType =>
        var id := if c.groupId.Some? then Trim(c.groupId.value) else "";
        if id == "" then Failure(InvalidRequest) else Success(TextMessage(Group(id), c.text))
  }

  /** What a handler passes on to `push_send_event`, or why it does not get there. */
  function Prepare(r: Request): Result<Message, ApiError> {
    match r
    case SendAny(m) => PrepareAny(m)
    case SendCompat(c) => if IsBlank(c.text) then Failure(InvalidRequest) else PrepareCompat(c)
    case SendPrivate(user, text) =>
      if IsBlank(text) then Failure(InvalidRequest) else PrepareCompat(Compat(PrivateType, Some(user), None, text))
    case SendGroup(group, text) =>
      if IsBlank(text) then Failure(InvalidRequest) else PrepareCompat(Compat(GroupType, None, Some(group), text))
  }

  /** Passes both validators, and nothing in its address needs trimming. */
  predicate IsNormal(m: Message) {
    && ValidRecipient(m) && ValidPayload(m)
    && RecipientId(m.recipient) != "" && IsTrimmed(RecipientId(m.recipient))
    && IsTrimmed(m.id) && IsTrimmed(m.senderId)
  }

  lemma {:induction false} TextMessageIsNormal(recipient: Recipient, text: string)
    requires RecipientId(recipient) != "" && IsTrimmed(RecipientId(recipient))
    ensures IsNormal(TextMessage(recipient, text))
    ensures Normalized(TextMessage(recipient, text)) == TextMessage(recipient, text)
  {
    var m := TextMessage(recipient, text);
    PrintNatShape(Size(text));
    assert m.id[0] == 'a' && m.senderId == "api";
    TrimmedIsFixed(m.id);
    TrimmedIsFixed(m.senderId);
    TrimmedIsFixed(RecipientId(recipient));
  }

  lemma {:induction false} NormalizedIsNormal(m: Message)
    requires PrepareAny(m).Success?
    ensures IsNormal(Normalized(m)) && Normalized(Normalized(m)) == Normalized(m)
  {
    TrimFacts(m.id);
    TrimFacts(m.senderId);
    TrimFacts(RecipientId(m.recipient));
    hide IsTrimmed, Trim;
  }

  /** Whatever route a message takes, what is pushed is normal; pushing it through the general route changes nothing. */
  lemma {:induction false} EveryRouteNormalizes(r: Request)
    requires Prepare(r).Success?
    ensures IsNormal(Prepare(r).value)
    ensures PrepareAny(Prepare(r).value) == Prepare(r)
  {
    hide Trim, IsTrimmed;
    match r
    case SendAny(m) => NormalizedIsNormal(m);
    case SendCompat(c) =>
      var id := if c.messageType.PrivateType? then c.userId else c.groupId;
      if id.Some? { CompatIsNormal(c, id.value); }
    case SendPrivate(user, text) => CompatIsNormal(Compat(PrivateType, Some(user), None, text), user);
    case SendGroup(group, text) => CompatIsNormal(Compat(GroupType, None, Some(group), text), group);
  }

  lemma {:induction false} CompatIsNormal(c: Compat, id: string)
    requires Some(id) == if c.messageType.PrivateType? then c.userId else c.groupId
    requires PrepareCompat(c).Success?
    ensures var m := PrepareCompat(c).value;
            && m == TextMessage(if c.messageType.PrivateType? then Private(Trim(id)) else Group(Trim(id)), c.text)
            && IsNormal(m) && PrepareAny(m) == Success(m)
  {
    TrimFacts(id);
    TextMessageIsNormal(if c.messageType.PrivateType? then Private(Trim(id)) else Group(Trim(id)), c.text);
    hide TextMessage, Trim, IsBlank, IsTrimmed;
  }

  /** Exactly which requests get through, in terms of what the caller wrote; nothing else of the message is touched. */
  lemma {:induction false} WhoGetsThrough(r: Request)
    ensures Prepare(r).Success? <==>
            match r
            case SendAny(m) =>
              !IsBlank(m.id) && !IsBlank(m.senderId) && m.elements != [] && !IsBlank(RecipientId(m.recipient))
            case SendCompat(c) =>
              && !IsBlank(c.text)
              && var id := if c.messageType.PrivateType? then c.userId else c.groupId;
                 id.Some? && !IsBlank(id.value)
            case SendPrivate(user, text) => !IsBlank(user) && !IsBlank(text)
            case SendGroup(group, text) => !IsBlank(group) && !IsBlank(text)
    ensures r.SendAny? && Prepare(r).Success? ==> Prepare(r).value.elements == r.message.elements
    ensures Prepare(r).Failure? ==> Prepare(r).error == InvalidRequest
  {
    if r.SendAny? {
      TrimFacts(r.message.id);
      TrimFacts(r.message.senderId);
      TrimFacts(RecipientId(r.message.recipient));
    }
  }

  // ---------------------------------------------------------------- plain text

  function RenderElement(e: Element): string {
    match e
    case TextPart(text) => text
    case Image(path, _) => "[Image:" + path + "]"
    case Video(path, _) => "[Video:" + path + "]"
    case File(path, _) => "[File:" + path + "]"
    case At(user) => "[@" + user + "]"
    case Reply(id) => "[Reply:" + id + "]"
    case JsonPart(payload) => Print(payload)
  }

  function Rendered(es: seq<Element>): string {
    if es == [] then "" else RenderElement(es[0]) + Rendered(es[1..])
  }

  function PlainText(m: Message): string {
    if Rendered(m.elements) == "" then m.senderId + ": " + m.id else Rendered(m.elements)
  }

  lemma {:induction false} RenderedAppend(es: seq<Element>, e: Element)
    ensures Rendered(es + [e]) == Rendered(es) + RenderElement(e)
  {
    if es == [] {
      assert [e][1..] == [] && RenderElement(e) + "" == RenderElement(e);
    } else {
      assert (es + [e])[1..] == es[1..] + [e];
      RenderedAppend(es[1..], e);
    }
  }

  lemma {:induction false} Pushed(output: string, head: string, body: string)
    ensures output + head + body + "]" == output + (head + body + "]")
  {
  }

  /** One turn of the loop. */
  method AppendElement(before: string, e: Element) returns (output: string)
    ensures output == before + RenderElement(e)
  {
    hide Print;
    output := before;
    match e
    case TextPart(text) =>
      output := output + text;
    case Image(path, _) =>
      Pushed(output, "[Image:", path);
      output := output + "[Image:";
      output := output + path;
      output := output + "]";
    case Video(path, _) =>
      Pushed(output, "[Video:", path);
      output := output + "[Video:";
      output := output + path;
      output := output + "]";
    case File(path, _) =>
      Pushed(output, "[File:", path);
      output := output + "[File:";
      output := output + path;
      output := output + "]";
    case At(user) =>
      Pushed(output, "[@", user);
      output := output + "[@";
      output := output + user;
      output := output + "]";
    case Reply(id) =>
      Pushed(output, "[Reply:", id);
      output := output + "[Reply:";
      output := output + id;
      output := output + "]";
    case JsonPart(payload) =>
      output := output + Print(payload);
  }

  method MessageToPlainText(m: Message) returns (output: string)
    ensures output == PlainText(m)
  {
    hide RenderElement;
    output := "";
    for i := 0 to |m.elements|
      invariant output == Rendered(m.elements[..i])
    {
      output := AppendElement(output, m.elements[i]);
      RenderedAppend(m.elements[..i], m.elements[i]);
      assert m.elements[..i] + [m.elements[i]] == m.elements[..i + 1];
    }
    assert m.elements[..|m.elements|] == m.elements;
    if output == "" {
      output := output + m.senderId;
      output := output + ": ";
      output := output + m.id;
    }
  }

  // ---------------------------------------------------------------- reading the text back

  /** What a reader of the text makes out: single letters, and tagged parts. */
  datatype Part = Letter(c: char) | Tag(kind: Kind, content: string)

  function TagText(k: Kind): string {
    match k
    case ImageKind => "[Image:"
    case VideoKind => "[Video:"
    case FileKind => "[File:"
    case AtKind => "[@"
    case ReplyKind => "[Reply:"
    case _ => ""
  }

  predicate OpensTag(s: string, k: Kind) {
    TagText(k) != "" && StartsWith(s, TagText(k))
  }

  /** The kind of tag that opens here. */
  function KindAt(s: string): Option<Kind> {
    if OpensTag(s, ImageKind) then Some(ImageKind)
    else if OpensTag(s, VideoKind) then Some(VideoKind)
    else if OpensTag(s, FileKind) then Some(FileKind)
    else if OpensTag(s, AtKind) then Some(AtKind)
    else if OpensTag(s, ReplyKind) then Some(ReplyKind)
    else None
  }

  function UpTo(s: string, c: char): (n: nat)
    ensures n <= |s|
  {
    if s == "" || s[0] == c then 0 else 1 + UpTo(s[1..], c)
  }

  /** A tag runs up to the next closing bracket; everything else is letters. */
  function ReadParts(s: string): seq<Part>
    decreases |s|
  {
    if s == "" then []
    else
      var k := KindAt(s);
      var body := if k.Some? then s[|TagText(k.value)|..] else "";
      var n := UpTo(body, ']');
      if k.Some? && n < |body| then [Tag(k.value, body[..n])] + ReadParts(body[n + 1..])
      else [Letter(s[0])] + ReadParts(s[1..])
  }

  function Letters(s: string): seq<Part> {
    if s == "" then [] else [Letter(s[0])] + Letters(s[1..])
  }

  /** What the element is to a reader. */
  function PartsOf(e: Element): seq<Part> {
    match e
    case TextPart(text) => Letters(text)
    case Image(path, _) => [Tag(ImageKind, path)]
    case Video(path, _) => [Tag(VideoKind, path)]
    case File(path, _) => [Tag(FileKind, path)]
    case At(user) => [Tag(AtKind, user)]
    case Reply(id) => [Tag(ReplyKind, id)]
    case JsonPart(payload) => Letters(Print(payload))
  }

  function AllParts(es: seq<Element>): seq<Part> {
    if es == [] then [] else PartsOf(es[0]) + AllParts(es[1..])
  }

  /** No text or document has an opening bracket, no other content a closing one. */
  predicate IsPlain(e: Element) {
    match e
    case TextPart(text) => '[' !in text
    case Image(path, _) => ']' !in path
    case Video(path, _) => ']' !in path
    case File(path, _) => ']' !in path
    case At(user) => ']' !in user
    case Reply(id) => ']' !in id
    case JsonPart(payload) => '[' !in Print(payload)
  }

  /** The second character tells the tags apart. */
  lemma {:induction false} TagOpens(s: string, k: Kind)
    ensures OpensTag(s, k) ==> |s| >= 2 && s[0] == '[' && s[1] == TagText(k)[1]
  {
    if OpensTag(s, k) { assert s[..|TagText(k)|][0] == s[0] && s[..|TagText(k)|][1] == s[1]; }
  }

  lemma {:induction false} NoTagOpens(s: string)
    requires s != "" && s[0] != '['
    ensures KindAt(s).None?
  {
    forall k ensures !OpensTag(s, k) { TagOpens(s, k); }
    hide OpensTag;
  }

  lemma {:induction false} LettersAreRead(text: string, rest: string)
    requires '[' !in text
    ensures ReadParts(text + rest) == Letters(text) + ReadParts(rest)
  {
    if text == "" {
      assert text + rest == rest;
    } else {
      assert (text + rest)[1..] == text[1..] + rest;
      LettersAreRead(text[1..], rest);
      NoTagOpens(text + rest);
      hide KindAt, UpTo, TagText;
    }
  }

  lemma {:induction false} UpToBracket(content: string, rest: string)
    requires ']' !in content
    ensures UpTo(content + "]" + rest, ']') == |content|
  {
    var s := content + "]" + rest;
    if content != "" {
      assert s[1..] == content[1..] + "]" + rest;
      UpToBracket(content[1..], rest);
    }
  }

  lemma {:induction false} TagKind(k: Kind, rest: string)
    requires TagText(k) != ""
    ensures KindAt(TagText(k) + rest) == Some(k)
  {
    var s := TagText(k) + rest;
    assert s[..|TagText(k)|] == TagText(k) && s[1] == TagText(k)[1];
    forall j | TagText(j) != "" && TagText(j)[1] != s[1] ensures !OpensTag(s, j) { TagOpens(s, j); }
    hide StartsWith;
  }

  lemma {:induction false} TagIsRead(k: Kind, content: string, rest: string)
    requires TagText(k) != "" && ']' !in content
    ensures ReadParts(TagText(k) + content + "]" + rest) == [Tag(k, content)] + ReadParts(rest)
  {
    var s := TagText(k) + content + "]" + rest;
    var body := content + "]" + rest;
    assert s == TagText(k) + body;
    TagKind(k, body);
    UpToBracket(content, rest);
    assert s[|TagText(k)|..] == body && body[..|content|] == content && body[|content| + 1..] == rest;
    hide TagText, KindAt, UpTo;
  }

  lemma {:induction false} ElementIsReadBack(e: Element, rest: string)
    requires IsPlain(e)
    ensures ReadParts(RenderElement(e) + rest) == PartsOf(e) + ReadParts(rest)
  {
    hide ReadParts, Letters, Print;
    match e
    case TextPart(text) => LettersAreRead(text, rest);
    case Image(path, _) => TagIsRead(ImageKind, path, rest);
    case Video(path, _) => TagIsRead(VideoKind, path, rest);
    case File(path, _) => TagIsRead(FileKind, path, rest);
    case At(user) => TagIsRead(AtKind, user, rest);
    case Reply(id) => TagIsRead(ReplyKind, id, rest);
    case JsonPart(payload) => LettersAreRead(Print(payload), rest);
  }

  /** The plain text still tells kind and content of every element, in order, as long as no text has an opening bracket
      and no other content a closing one. */
  lemma {:induction false} RenderingIsReadBack(es: seq<Element>)
    requires forall e | e in es :: IsPlain(e)
    ensures ReadParts(Rendered(es)) == AllParts(es)
  {
    hide ReadParts, RenderElement, PartsOf, IsPlain;
    if es == [] {
      assert ReadParts("") == [] by { NothingToRead(); }
    } else {
      assert es[0] in es;
      ElementIsReadBack(es[0], Rendered(es[1..]));
      RenderingIsReadBack(es[1..]);
    }
  }

  /** Only a message whose elements are all empty texts renders as sender and id. */
  lemma {:induction false} AddressIsFallback(m: Message)
    ensures PlainText(m)
         == if forall e | e in m.elements :: e == TextPart("") then m.senderId + ": " + m.id else Rendered(m.elements)
  {
    EmptyRendering(m.elements);
  }

  lemma {:induction false} EmptyRendering(es: seq<Element>)
    ensures Rendered(es) == "" <==> forall e | e in es :: e == TextPart("")
  {
    if es != [] {
      assert es == [es[0]] + es[1..];
      EmptyRendering(es[1..]);
      assert forall e | e in es :: e == es[0] || e in es[1..];
      if es[0].JsonPart? {
        ValueIsFixed(es[0].payload);
        PrintHead(es[0].payload);
      }
      assert RenderElement(es[0]) == "" <==> es[0] == TextPart("");
      assert es[0] in es && forall e | e in es[1..] :: e in es;
      hide RenderElement;
    }
  }

  lemma {:induction false} NothingToRead()
    ensures ReadParts("") == []
  {
  }

  // ---------------------------------------------------------------- the renderer's guard

  /** The renderer's guard refuses the message: its text is blank. */
  predicate GuardTrips(m: Message) {
    IsBlank(PlainText(m))
  }

  predicate BlankText(e: Element) {
    e.TextPart? && IsBlank(e.text)
  }

  lemma {:induction false} BlankConcat(a: string, b: string)
    ensures IsBlank(a + b) <==> IsBlank(a) && IsBlank(b)
  {
    TrimFacts(a);
    TrimFacts(b);
    TrimFacts(a + b);
    assert forall c :: c in a + b <==> c in a || c in b;
  }

  lemma {:induction false} NotBlank(s: string, i: nat)
    requires i < |s| && !IsWhitespace(s[i])
    ensures !IsBlank(s)
  {
    TrimFacts(s);
    assert s[i] in s;
  }

  lemma {:induction false} PrintedIsNotBlank(j: Json)
    requires Ranged(j)
    ensures !IsBlank(Print(j))
  {
    PrintHead(j);
    NotBlank(Print(j), 0);
  }

  lemma {:induction false} ElementBlank(e: Element)
    ensures IsBlank(RenderElement(e)) <==> BlankText(e)
  {
    if e.JsonPart? {
      ValueIsFixed(e.payload);
      PrintedIsNotBlank(e.payload);
    } else if !e.TextPart? {
      assert RenderElement(e)[0] == '[';
      NotBlank(RenderElement(e), 0);
    }
  }

  lemma {:induction false} RenderedBlank(es: seq<Element>)
    ensures IsBlank(Rendered(es)) <==> forall e | e in es :: BlankText(e)
  {
    if es == [] {
      TrimFacts("");
    } else {
      assert es == [es[0]] + es[1..];
      ElementBlank(es[0]);
      RenderedBlank(es[1..]);
      BlankConcat(RenderElement(es[0]), Rendered(es[1..]));
      hide IsBlank, RenderElement;
    }
  }

  /** The guard trips exactly on messages made of blank texts only that are not all empty. */
  lemma {:induction false} GuardTripsOnBlankTexts(m: Message)
    ensures GuardTrips(m) <==> Rendered(m.elements) != "" && forall e | e in m.elements :: BlankText(e)
  {
    RenderedBlank(m.elements);
    if Rendered(m.elements) == "" {
      var s := m.senderId + ": " + m.id;
      assert s[|m.senderId|] == ':';
      NotBlank(s, |m.senderId|);
    }
    hide IsBlank, BlankText;
  }

  /** The three text routes never trip it; their text is rendered as the caller wrote it, and goes to the recipient the
      caller named. */
  lemma {:induction false} TextRoutesRender(r: Request)
    requires Prepare(r).Success? && !r.SendAny?
    ensures var m := Prepare(r).value;
            && !GuardTrips(m) && PlainText(m) == (if r.SendCompat? then r.compat.text else r.text)
            && m.senderId == "api" && m.id == "api-" + PrintNat(Size(PlainText(m)))
            && m.recipient == match r
                              case SendPrivate(user, _) => Private(Trim(user))
                              case SendGroup(group, _) => Group(Trim(group))
                              case SendCompat(c) =>
                                if c.messageType.PrivateType? then Private(Trim(c.userId.value))
                                else Group(Trim(c.groupId.value))
  {
    var m := Prepare(r).value;
    var text := if r.SendCompat? then r.compat.text else r.text;
    assert m.elements == [TextPart(text)];
    assert m.elements[1..] == [] && text + "" == text;
    assert Rendered(m.elements) == text;
    TrimFacts(text);
  }

  /** The general route can: a message of one space passes both validators and is then refused by the renderer. */
  lemma {:induction false} GeneralRouteCanTrip(id: string, sender: string, recipient: Recipient)
    requires !IsBlank(id) && !IsBlank(sender) && !IsBlank(RecipientId(recipient))
    ensures var r := SendAny(Message(id, sender, recipient, [TextPart(" ")]));
            Prepare(r).Success? && GuardTrips(Prepare(r).value)
  {
    var m := Message(id, sender, recipient, [TextPart(" ")]);
    WhoGetsThrough(SendAny(m));
    TrimFacts(" ");
    assert Rendered([TextPart(" ")]) == " " by { assert [TextPart(" ")][1..] == []; }
    GuardTripsOnBlankTexts(Normalized(m));
    hide Trim, IsBlank;
  }
}
