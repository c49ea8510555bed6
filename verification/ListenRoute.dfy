/** Polling for events over HTTP: the type filter, the window of received events and what is returned. */
module ListenRoute {
  import opened Wrappers
  import opened Strings
  import opened Listener

  datatype ListenQuery = ListenQuery(
    maxEvents: Option<nat>, limit: Option<nat>,
    types: Option<string>, typesAlias: Option<string>, postType: Option<string>)

  // ---------------------------------------------------------------- the type filter

  const COMMA := ','

  /** The pieces between commas: always one more than there are commas. */
  function Pieces(s: string): (r: seq<string>)
    ensures r != []
  {
    if s == "" then [""]
    else
      var rest := Pieces(s[1..]);
      if s[0] == COMMA then [""] + rest else [[s[0]] + rest[0]] + rest[1..]
  }

  function Join(pieces: seq<string>): string
    requires pieces != []
  {
    if |pieces| == 1 then pieces[0] else pieces[0] + [COMMA] + Join(pieces[1..])
  }

  /** Cutting loses nothing and leaves no comma. */
  lemma {:induction false} PiecesJoin(s: string)
    ensures Join(Pieces(s)) == s
    ensures forall p | p in Pieces(s) :: COMMA !in p
  {
    if s != "" {
      var rest := Pieces(s[1..]);
      PiecesJoin(s[1..]);
      assert s == [s[0]] + s[1..];
      if s[0] == COMMA {
        assert ([""] + rest)[1..] == rest;
      } else {
        var all := [[s[0]] + rest[0]] + rest[1..];
        assert all[1..] == rest[1..];
        if |rest| > 1 {
          assert [s[0]] + (rest[0] + [COMMA] + Join(rest[1..])) == [s[0]] + rest[0] + [COMMA] + Join(rest[1..]);
        }
      }
    }
  }

  /** There is only one way to cut. */
  lemma {:induction false} JoinPieces(pieces: seq<string>)
    requires pieces != [] && forall p | p in pieces :: COMMA !in p
    ensures Pieces(Join(pieces)) == pieces
    decreases |pieces|, |pieces[0]|
  {
    var s := Join(pieces);
    var rest := pieces[1..];
    assert pieces == [pieces[0]] + rest;
    if pieces[0] != "" {
      var shorter := [pieces[0][1..]] + rest;
      assert s[1..] == Join(shorter) by { assert shorter[1..] == rest; }
      assert pieces[0] in pieces && shorter[0] == pieces[0][1..];
      JoinPieces(shorter);
      assert s[0] == pieces[0][0] && [s[0]] + pieces[0][1..] == pieces[0];
      assert Pieces(s) == [[s[0]] + shorter[0]] + shorter[1..];
    } else if rest != [] {
      assert s[1..] == Join(rest);
      JoinPieces(rest);
    }
  }

  /** The filter of one parameter; `lower` is Unicode lower-casing. */
  function ParseEventTypeList(raw: string, lower: string -> string): set<string> {
    set p | p in Pieces(raw) && lower(Trim(p)) != "" :: lower(Trim(p))
  }

  function ListOf(raw: Option<string>, lower: string -> string): set<string> {
    if raw.None? then {} else ParseEventTypeList(raw.value, lower)
  }

  /** `type`, else `types`, else `post_type`: the first that names anything. */
  function ParseEventTypes(q: ListenQuery, lower: string -> string): Option<set<string>> {
    if q.types.Some? && ParseEventTypeList(q.types.value, lower) != {}
    then Some(ParseEventTypeList(q.types.value, lower))
    else if q.typesAlias.Some? && ParseEventTypeList(q.typesAlias.value, lower) != {}
    then Some(ParseEventTypeList(q.typesAlias.value, lower))
    else if q.postType.Some? && ParseEventTypeList(q.postType.value, lower) != {}
    then Some(ParseEventTypeList(q.postType.value, lower))
    else None
  }

  predicate NamesSomething(raw: Option<string>) {
    raw.Some? && exists p :: p in Pieces(raw.value) && !IsBlank(p)
  }

  /** Lower-casing maps nothing but the empty string to the empty string. */
  ghost predicate KeepsText(lower: string -> string) {
    forall s :: lower(s) == "" <==> s == ""
  }

  /** A list names no type exactly when all its pieces are blank; then the next parameter counts, and with none left
      every event passes. */
  lemma {:induction false} FilterPrecedence(q: ListenQuery, lower: string -> string)
    requires KeepsText(lower)
    ensures ParseEventTypes(q, lower) ==
            if NamesSomething(q.types) then Some(ListOf(q.types, lower))
            else if NamesSomething(q.typesAlias) then Some(ListOf(q.typesAlias, lower))
            else if NamesSomething(q.postType) then Some(ListOf(q.postType, lower))
            else None
    ensures ParseEventTypes(q, lower).Some? ==> ParseEventTypes(q, lower).value != {}
  {
    ListNames(q.types, lower);
    ListNames(q.typesAlias, lower);
    ListNames(q.postType, lower);
  }

  lemma {:induction false} ListNames(raw: Option<string>, lower: string -> string)
    requires KeepsText(lower)
    ensures ListOf(raw, lower) != {} <==> NamesSomething(raw)
  {
    if NamesSomething(raw) {
      var p :| p in Pieces(raw.value) && !IsBlank(p);
      assert lower(Trim(p)) in ListOf(raw, lower);
    }
    if ListOf(raw, lower) != {} {
      var t :| t in ListOf(raw, lower);
      var p :| p in Pieces(raw.value) && lower(Trim(p)) != "" && lower(Trim(p)) == t;
      assert !IsBlank(p);
    }
  }

  /** `a` is white space, a name, and white space. */
  predicate Around(piece: string, name: string) {
    IsTrimmed(name) && name != "" && exists i | 0 <= i <= |piece| :: Padded(piece, name, i)
  }

  /** A list of names, separated by commas and surrounded by white space, asks for just these types. */
  lemma {:induction false} NamesAreRead(pieces: seq<string>, lower: string -> string, name: string)
    requires KeepsText(lower) && pieces != [] && forall p | p in pieces :: COMMA !in p
    ensures forall p | p in pieces && Around(p, name) :: lower(name) in ParseEventTypeList(Join(pieces), lower)
    ensures forall t | t in ParseEventTypeList(Join(pieces), lower) ::
              exists p :: p in pieces && Around(p, Trim(p)) && t == lower(Trim(p))
  {
    hide Padded, IsTrimmed, Trim;
    JoinPieces(pieces);
    forall p | p in pieces
      ensures Around(p, name) ==> lower(name) in ParseEventTypeList(Join(pieces), lower)
      ensures Trim(p) != "" ==> Around(p, Trim(p))
    {
      TrimIsMiddle(p, name);
      TrimIsMiddle(p, Trim(p));
      PaddingFits(p, Trim(p));
    }
  }

  lemma {:induction false} PaddingFits(p: string, name: string)
    ensures forall i: nat | Padded(p, name, i) :: i <= |p|
  {
  }

  // ---------------------------------------------------------------- the window

  const DEFAULT_EVENTS := 8
  const MOST_EVENTS := 32

  function Clamp(n: nat, low: nat, high: nat): nat
    requires low <= high
  {
    if n < low then low else if n > high then high else n
  }

  function Distance(a: nat, b: nat): nat {
    if a < b then b - a else a - b
  }

  /** No number from 1 to 32 is nearer. */
  predicate Nearest(n: nat, asked: nat) {
    1 <= n <= 32 && forall k | 1 <= k <= 32 :: Distance(n, asked) <= Distance(k, asked)
  }

  /** The number asked for, or the nearest allowed one; `max_events` counts before `limit`. */
  function MaxEvents(q: ListenQuery): (n: nat)
    ensures q.maxEvents.Some? ==> Nearest(n, q.maxEvents.value)
    ensures q.maxEvents.None? && q.limit.Some? ==> Nearest(n, q.limit.value)
    ensures q.maxEvents.None? && q.limit.None? ==> n == 8
  {
    var asked :=
      if q.maxEvents.Some? then q.maxEvents.value else if q.limit.Some? then q.limit.value else DEFAULT_EVENTS;
    Clamp(asked, 1, MOST_EVENTS)
  }

  /** One wait for an event: it comes, with its text if it could be serialised, or the wait is cut short by the
      time-out, a lagging receiver or the end of the bus. */
  datatype Wait = Came(event: Event, text: Option<string>) | CutShort

  function PostType(e: Event): string {
    if e.MessageReceived? then "message" else "meta_event"
  }

  predicate Wanted(e: Event, filter: Option<set<string>>) {
    filter.None? || PostType(e) in filter.value
  }

  function Kept(w: Wait, filter: Option<set<string>>): seq<string> {
    if w.Came? && Wanted(w.event, filter) && w.text.Some? then [w.text.value] else []
  }

  /** The texts of the wanted events, in order. */
  function Records(waits: seq<Wait>, filter: Option<set<string>>): seq<string> {
    if waits == [] then [] else Kept(waits[0], filter) + Records(waits[1..], filter)
  }

  /** The first `n` waits, up to the first that is cut short. */
  function Window(waits: seq<Wait>, n: nat): seq<Wait> {
    if n == 0 || waits == [] || waits[0].CutShort? then [] else [waits[0]] + Window(waits[1..], n - 1)
  }

  predicate IsRun(w: seq<Wait>, waits: seq<Wait>, n: nat) {
    |w| <= n && |w| <= |waits| && w == waits[..|w|] && forall x | x in w :: x.Came?
  }

  lemma {:induction false} RunHead(w: seq<Wait>, waits: seq<Wait>, n: nat)
    ensures IsRun(w, waits, n) && w != [] ==> n > 0 && waits != [] && waits[0].Came?
  {
    if IsRun(w, waits, n) && w != [] { assert w[0] in w; }
  }

  /** The window is the longest uninterrupted beginning of at most `n` events. */
  lemma {:induction false} WindowIsLongest(waits: seq<Wait>, n: nat)
    ensures IsRun(Window(waits, n), waits, n)
    ensures forall w | IsRun(w, waits, n) :: |w| <= |Window(waits, n)|
  {
    if n > 0 && waits != [] && waits[0].Came? {
      WindowIsLongest(waits[1..], n - 1);
      forall w | IsRun(w, waits, n) ensures |w| <= |Window(waits, n)| {
        if w != [] {
          assert forall x | x in w[1..] :: x in w;
          assert IsRun(w[1..], waits[1..], n - 1);
        }
      }
    } else {
      forall w | IsRun(w, waits, n) ensures w == [] {
        RunHead(w, waits, n);
      }
    }
  }

  lemma {:induction false} RecordsAppend(a: seq<Wait>, w: Wait, filter: Option<set<string>>)
    ensures Records(a + [w], filter) == Records(a, filter) + Kept(w, filter)
  {
    if a == [] {
      assert [w][1..] == [] && Kept(w, filter) + [] == Kept(w, filter);
    } else {
      assert (a + [w])[1..] == a[1..] + [w];
      RecordsAppend(a[1..], w, filter);
    }
  }

  lemma {:induction false} OneMoreWait(waits: seq<Wait>, n: nat, i: nat, filter: Option<set<string>>)
    requires i < |waits| && i < n && waits[i].Came?
    requires Window(waits, n) == waits[..i] + Window(waits[i..], n - i)
    ensures Window(waits, n) == waits[..i + 1] + Window(waits[i + 1..], n - (i + 1))
    ensures Records(waits[..i + 1], filter) == Records(waits[..i], filter) + Kept(waits[i], filter)
  {
    RecordsAppend(waits[..i], waits[i], filter);
    assert waits[..i + 1] == waits[..i] + [waits[i]];
    assert waits[i..][1..] == waits[i + 1..];
    hide Records, Kept;
  }

  /** A wait beyond those given times out. */
  method ListenMessages(q: ListenQuery, waits: seq<Wait>, lower: string -> string) returns (records: seq<string>)
    ensures records == Records(Window(waits, MaxEvents(q)), ParseEventTypes(q, lower))
  {
    var maxEvents := MaxEvents(q);
    var filter := ParseEventTypes(q, lower);
    hide ParseEventTypes, MaxEvents, PostType;
    records := [];
    var i := 0;
    while i < maxEvents
      invariant i <= maxEvents && i <= |waits|
      invariant Window(waits, maxEvents) == waits[..i] + Window(waits[i..], maxEvents - i)
      invariant records == Records(waits[..i], filter)
    {
      if i == |waits| || waits[i].CutShort? { break; }
      var event, text := waits[i].event, waits[i].text;
      OneMoreWait(waits, maxEvents, i, filter);
      i := i + 1;
      if filter.Some? && PostType(event) !in filter.value { continue; }
      if text.Some? { records := records + [text.value]; }
    }
    assert waits[..i] + [] == waits[..i];
  }

  /** The texts of the messages, of the other events, or of both, in order. */
  function Picked(waits: seq<Wait>, messages: bool, others: bool): seq<string> {
    if waits == [] then []
    else
      var w := waits[0];
      var wanted := w.Came? && if w.event.MessageReceived? then messages else others;
      (if wanted && w.text.Some? then [w.text.value] else [])
      + Picked(waits[1..], messages, others)
  }

  /** What a filter lets through: messages under the name message, everything else under the name meta_event. */
  lemma {:induction false} FilterPicks(waits: seq<Wait>, types: set<string>)
    ensures Records(waits, Some(types)) == Picked(waits, "message" in types, "meta_event" in types)
    ensures Records(waits, None) == Picked(waits, true, true)
  {
    if waits != [] { FilterPicks(waits[1..], types); }
  }

  lemma {:induction false} OneWaitShared(w: Wait)
    ensures |Kept(w, Some({"message"}))| + |Kept(w, Some({"meta_event"}))| == |Kept(w, None)| <= 1
  {
    if w.Came? { assert PostType(w.event) == "message" || PostType(w.event) == "meta_event"; }
    assert "message" != "meta_event";
  }

  /** Every wait uses up one place, wanted or not: what two complementary filters keep is together what no filter
      keeps, and never more than the limit. */
  lemma {:induction false} FiltersShareTheWindow(waits: seq<Wait>, n: nat)
    ensures var w := Window(waits, n);
            |Records(w, Some({"message"}))| + |Records(w, Some({"meta_event"}))| == |Records(w, None)| <= n
  {
    hide Kept;
    if n > 0 && waits != [] && waits[0].Came? {
      var w := Window(waits, n);
      FiltersShareTheWindow(waits[1..], n - 1);
      assert w[0] == waits[0] && w[1..] == Window(waits[1..], n - 1);
      OneWaitShared(waits[0]);
    }
  }
}
