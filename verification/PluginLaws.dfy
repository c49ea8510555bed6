/** The protocol every backend instance sees, and where every loaded instance ends up. */
module PluginLaws {
  import opened PluginSteps

  // ---------------------------------------------------------------- the protocol

  /** May `e` come next, after `past`? This speaks of the log alone. */
  ghost predicate Allowed(past: seq<Event>, e: Event) {
    match e
    case LoadBegan(i) => LoadBegan(i) !in past
    case LoadEnded(i, _) => LoadBegan(i) in past && LoadEnded(i, true) !in past && LoadEnded(i, false) !in past
    case Reached(i, c) => LoadEnded(i, true) in past && UnloadBegan(i) !in past && Reached(i, c) !in past
    case Returned(i, c) => Reached(i, c) in past && Returned(i, c) !in past
    case UnloadBegan(i) =>
      LoadEnded(i, true) in past && UnloadBegan(i) !in past && forall c ::
            Reached(i, c) in past ==> Returned(i, c) in past
    case UnloadEnded(i, _) => UnloadBegan(i) in past
  }

  ghost predicate Protocol(log: seq<Event>) {
    forall p :: 0 <= p < |log| ==> Allowed(log[..p], log[p])
  }

  lemma {:induction false} ProtocolExtends(log: seq<Event>, e: Event)
    requires Protocol(log) && Allowed(log, e)
    ensures Protocol(log + [e])
  {
    hide Allowed;
    var more := log + [e];
    forall p | 0 <= p < |more| ensures Allowed(more[..p], more[p]) {
      if p < |log| {
        assert more[..p] == log[..p];
      } else {
        assert more[..p] == log;
      }
    }
  }

  // ---------------------------------------------------------------- invariants

  /** Registered instances were inserted under their name and have met no fate yet; every other inserted one has. */
  ghost predicate Registry(w: World) {
    && (forall n | n in w.registry ::
          w.registry[n] in w.calls && w.calls[w.registry[n]] == Inserted(n) && w.registry[n] !in w.fate)
    && (forall i | i in w.fate :: i in w.calls && w.calls[i].Inserted?)
    && (forall i | i in w.calls && w.calls[i].Inserted? && i !in w.fate ::
          w.calls[i].name in w.registry && w.registry[w.calls[i].name] == i)
  }

  function Ahead(call: Call): seq<Visit>
    requires Reads(call)
  {
    if call.Between? then call.todo else [call.now] + call.todo
  }

  /** Whoever holds the read lock is walking through the registry as it is now. */
  ghost predicate Readers(w: World) {
    && (forall c, v | c in w.calls && Reads(w.calls[c]) && v in Ahead(w.calls[c]) ::
          v.name in w.registry && w.registry[v.name] == v.inst)
    && (forall c | c in w.calls && Reads(w.calls[c]) :: Distinct(Ahead(w.calls[c])))
  }

  predicate Distinct(visits: seq<Visit>) {
    forall i, j | 0 <= i < j < |visits| :: visits[i].name != visits[j].name
  }

  ghost predicate Unloads(w: World) {
    && (forall c | c in w.calls && (w.calls[c].Taken? || w.calls[c].Unloading?) ::
          w.calls[c].inst in w.fate && w.fate[w.calls[c].inst] == Removed)
    && (forall c, d |
          c in w.calls && d in w.calls && w.calls[c].Taken? && w.calls[d].Taken?
          && w.calls[c].inst == w.calls[d].inst :: c == d)
  }

  datatype LoadPhase = NotBegun | Began | EndedWell | EndedBadly

  function PhaseOf(w: World, i: Id): LoadPhase {
    if i !in w.calls then NotBegun
    else match w.calls[i]
         case Loading(_) => Began
         case Loaded(_) => EndedWell
         case Inserted(_) => EndedWell
         case LoadFailed => EndedBadly
         case _ => NotBegun
  }

  /** The log knows of one instance's loading what its call knows. */
  predicate LoadLogAt(w: World, i: Id) {
    && (LoadBegan(i) in w.log <==> !PhaseOf(w, i).NotBegun?)
    && (LoadEnded(i, true) in w.log <==> PhaseOf(w, i).EndedWell?)
    && (LoadEnded(i, false) in w.log <==> PhaseOf(w, i).EndedBadly?)
  }

  predicate UnloadLogAt(w: World, i: Id) {
    UnloadBegan(i) in w.log ==> i in w.fate && w.fate[i] == Removed
  }

  /** A taken instance has not begun to unload, one whose unloading runs has. */
  predicate UnloadCallAt(w: World, c: Id) {
    c in w.calls ==>
      && (w.calls[c].Taken? ==> UnloadBegan(w.calls[c].inst) !in w.log)
      && (w.calls[c].Unloading? ==> UnloadBegan(w.calls[c].inst) in w.log)
  }

  /** What the log says of dispatch call `c` and instance `i`. */
  predicate ReachLogAt(w: World, i: Id, c: Id) {
    && (Reached(i, c) in w.log ==>
          c in w.calls && (Returned(i, c) in w.log || (w.calls[c].Calling? && w.calls[c].now.inst == i)))
    && (Returned(i, c) in w.log ==> Reached(i, c) in w.log)
    && (c in w.calls && w.calls[c].Calling? && w.calls[c].now.inst == i ==>
          Reached(i, c) in w.log && Returned(i, c) !in w.log)
  }

  predicate AheadLogAt(w: World, v: Visit, c: Id) {
    c in w.calls && Reads(w.calls[c]) && v in w.calls[c].todo ==> Reached(v.inst, c) !in w.log
  }

  ghost predicate Logged(w: World) {
    && (forall i :: LoadLogAt(w, i))
    && (forall i :: UnloadLogAt(w, i))
    && (forall c :: UnloadCallAt(w, c))
    && (forall i, c :: ReachLogAt(w, i, c))
    && (forall v, c :: AheadLogAt(w, v, c))
  }

  ghost predicate Inv(w: World) {
    Registry(w) && Readers(w) && Unloads(w) && Logged(w) && Protocol(w.log)
  }

  // ---------------------------------------------------------------- what a step moves

  /** What a step adds to the log. */
  function Spoken(w: World, s: Step): seq<Event>
    requires Enabled(w, s)
  {
    match s
    case Build(c, valid) => if valid then [LoadBegan(c)] else []
    case LoadEnd(c, ok) => [LoadEnded(c, ok)]
    case UnloadBegin(c) => [UnloadBegan(w.calls[c].inst)]
    case UnloadEnd(c, ok) => [UnloadEnded(w.calls[c].inst, ok)]
    case Reach(c) => [Reached(w.calls[c].todo[0].inst, c)]
    case Return(c, _) => [Returned(w.calls[c].now.inst, c)]
    case _ => []
  }

  lemma {:induction false} LogMove(w: World, s: Step)
    requires Enabled(w, s)
    ensures Next(w, s).log == w.log + Spoken(w, s)
  {
  }

  /** A step moves its own call only. */
  lemma {:induction false} CallMove(w: World, s: Step)
    requires Enabled(w, s)
    ensures var v := Next(w, s); s.c in v.calls && v.calls == w.calls[s.c := v.calls[s.c]]
  {
  }

  /** While someone reads, the registry stands still; no step takes a fate back. */
  lemma {:induction false} RegistryMove(w: World, s: Step)
    requires Enabled(w, s)
    ensures var v := Next(w, s);
            && (!s.Insert? && !s.Remove? ==> v.registry == w.registry && v.fate == w.fate)
            && (v.registry != w.registry ==> NoReader(w))
  {
  }

  lemma {:induction false} PhaseMove(w: World, s: Step, i: Id)
    requires Enabled(w, s)
    ensures PhaseOf(Next(w, s), i)
         == if s.Build? && s.c == i && s.valid then Began
            else if s.LoadEnd? && s.c == i then (if s.ok then EndedWell else EndedBadly)
            else PhaseOf(w, i)
  {
    CallMove(w, s);
    if s.c == i {
      OwnPhase(w, s);
    } else {
      hide Next, Enabled;
    }
  }

  lemma {:induction false} OwnPhase(w: World, s: Step)
    requires Enabled(w, s)
    ensures PhaseOf(Next(w, s), s.c)
         == if s.Build? && s.valid then Began
            else if s.LoadEnd? then (if s.ok then EndedWell else EndedBadly)
            else PhaseOf(w, s.c)
  {
  }

  // ---------------------------------------------------------------- every step keeps them

  lemma {:induction false} RegistryInsert(w: World, c: Id)
    requires Registry(w) && c in w.calls && w.calls[c].Loaded?
    ensures Registry(InsertNext(w, c))
  {
  }

  lemma {:induction false} RegistryRemove(w: World, c: Id, name: string)
    requires Registry(w) && c !in w.calls
    ensures Registry(RemoveNext(w, c, name))
  {
  }

  lemma {:induction false} RegistryStep(w: World, s: Step)
    requires Registry(w) && Enabled(w, s)
    ensures Registry(Next(w, s))
  {
    hide InsertNext, RemoveNext;
    match s
    case Insert(c) => RegistryInsert(w, c);
    case Remove(c, name) => RegistryRemove(w, c, name);
    case _ =>
      RegistryMove(w, s);
      CallMove(w, s);
      QuietInserted(w, s);
      hide Next, Enabled;
  }

  lemma {:induction false} QuietInserted(w: World, s: Step)
    requires Enabled(w, s) && !s.Insert? && !s.Remove?
    ensures !Next(w, s).calls[s.c].Inserted? && (s.c in w.calls ==> !w.calls[s.c].Inserted?)
  {
  }

  /** A call with an instance in hand had it before, or has just taken it from the registry. */
  lemma {:induction false} TakenMove(w: World, s: Step, c: Id)
    requires Enabled(w, s) && c in Next(w, s).calls
    requires Next(w, s).calls[c].Taken? || Next(w, s).calls[c].Unloading?
    ensures var x := Next(w, s).calls[c];
            || (c in w.calls && w.calls[c].inst == x.inst
                && (w.calls[c].Taken? || (w.calls[c].Unloading? && x.Unloading?)))
            || (s.Remove? && s.c == c && s.name in w.registry && x == Taken(w.registry[s.name]))
  {
  }

  lemma {:induction false} FateMove(w: World, s: Step, i: Id)
    requires Registry(w) && Enabled(w, s) && i in w.fate
    ensures i in Next(w, s).fate && Next(w, s).fate[i] == w.fate[i]
  {
    RegistryMove(w, s);
    hide CheckNext, BuildNext, LoadEndNext, UnloadBeginNext, UnloadEndNext, ReachNext, ReturnNext;
  }

  lemma {:induction false} TakenFate(w: World, s: Step)
    requires Enabled(w, s) && s.Remove? && s.name in w.registry
    ensures Next(w, s).fate == w.fate[w.registry[s.name] := Removed]
  {
  }

  lemma {:induction false} UnloadStepAt(w: World, s: Step, c: Id)
    requires Registry(w) && Unloads(w) && Enabled(w, s) && c in Next(w, s).calls
    requires Next(w, s).calls[c].Taken? || Next(w, s).calls[c].Unloading?
    ensures var v := Next(w, s); v.calls[c].inst in v.fate && v.fate[v.calls[c].inst] == Removed
  {
    hide Next;
    TakenMove(w, s, c);
    if c in w.calls && (w.calls[c].Taken? || w.calls[c].Unloading?) {
      FateMove(w, s, w.calls[c].inst);
    } else {
      TakenFate(w, s);
    }
  }

  lemma {:induction false} UnloadPairStep(w: World, s: Step, c: Id, d: Id)
    requires Registry(w) && Unloads(w) && Enabled(w, s) && c in Next(w, s).calls && d in Next(w, s).calls
    requires var v := Next(w, s); v.calls[c].Taken? && v.calls[d].Taken? && v.calls[c].inst == v.calls[d].inst
    ensures c == d
  {
    TakenMove(w, s, c);
    TakenMove(w, s, d);
    hide Next, Enabled;
  }

  lemma {:induction false} UnloadsStep(w: World, s: Step)
    requires Registry(w) && Unloads(w) && Enabled(w, s)
    ensures Unloads(Next(w, s))
  {
    hide Next, Enabled, Registry;
    var v := Next(w, s);
    forall c | c in v.calls && (v.calls[c].Taken? || v.calls[c].Unloading?)
      ensures v.calls[c].inst in v.fate && v.fate[v.calls[c].inst] == Removed
    {
      UnloadStepAt(w, s, c);
    }
    forall c, d |
      c in v.calls && d in v.calls && v.calls[c].Taken? && v.calls[d].Taken? && v.calls[c].inst == v.calls[d].inst
      ensures c == d
    {
      UnloadPairStep(w, s, c, d);
    }
  }

  /** A call that reads afterwards has just begun, or read before and may have moved on by one visit. */
  lemma {:induction false} ReadMove(w: World, s: Step, c: Id)
    requires Enabled(w, s) && c in Next(w, s).calls && Reads(Next(w, s).calls[c])
    ensures var x := Next(w, s).calls[c];
            || (s == Begin(c, Ahead(x)) && Next(w, s).registry == w.registry)
            || (c in w.calls && Reads(w.calls[c]) && Next(w, s).registry == w.registry
                && (Ahead(x) == Ahead(w.calls[c]) || (Ahead(w.calls[c]) != [] && Ahead(x) == Ahead(w.calls[c])[1..])))
  {
    CallMove(w, s);
    RegistryMove(w, s);
    if s.c == c {
      OwnReadMove(w, s);
    } else {
      hide Next, Ahead, Lists;
      assert w.calls[c] == Next(w, s).calls[c];
    }
  }

  lemma {:induction false} OwnReadMove(w: World, s: Step)
    requires Enabled(w, s) && s.c in Next(w, s).calls && Reads(Next(w, s).calls[s.c])
    ensures var x := Next(w, s).calls[s.c];
            || (s == Begin(s.c, Ahead(x)) && Next(w, s).registry == w.registry)
            || (s.c in w.calls && Reads(w.calls[s.c]) && Next(w, s).registry == w.registry
                && var before := Ahead(w.calls[s.c]);
                   Ahead(x) == before || (before != [] && Ahead(x) == before[1..]))
  {
    hide Lists, NoReader;
    match s
    case Reach(c) => assert [w.calls[c].todo[0]] + w.calls[c].todo[1..] == w.calls[c].todo;
    case Return(c, _) => assert ([w.calls[c].now] + w.calls[c].todo)[1..] == w.calls[c].todo;
    case _ =>
  }

  lemma {:induction false} ReaderStep(w: World, s: Step, c: Id)
    requires Readers(w) && Enabled(w, s) && c in Next(w, s).calls && Reads(Next(w, s).calls[c])
    ensures Distinct(Ahead(Next(w, s).calls[c]))
    ensures forall v | v in Ahead(Next(w, s).calls[c]) ::
          v.name in Next(w, s).registry && Next(w, s).registry[v.name] == v.inst
  {
    hide Next, Ahead;
    ReadMove(w, s, c);
    var after := Ahead(Next(w, s).calls[c]);
    if s != Begin(c, after) {
      var before := Ahead(w.calls[c]);
      assert forall x | x in after :: x in before;
    }
  }

  lemma {:induction false} ReadersStep(w: World, s: Step)
    requires Readers(w) && Enabled(w, s)
    ensures Readers(Next(w, s))
  {
    hide Readers, Next, Ahead, Distinct;
    forall c | c in Next(w, s).calls && Reads(Next(w, s).calls[c])
      ensures Distinct(Ahead(Next(w, s).calls[c]))
      ensures forall v | v in Ahead(Next(w, s).calls[c]) ::
            v.name in Next(w, s).registry && Next(w, s).registry[v.name] == v.inst
    {
      ReaderStep(w, s, c);
    }
    ReadersIntro(Next(w, s));
  }

  lemma {:induction false} ReadersIntro(w: World)
    requires forall c | c in w.calls && Reads(w.calls[c]) ::
               Distinct(Ahead(w.calls[c])) && forall v | v in Ahead(w.calls[c]) ::
                     v.name in w.registry && w.registry[v.name] == v.inst
    ensures Readers(w)
  {
  }

  lemma {:induction false} LoadLogStep(w: World, s: Step, i: Id)
    requires LoadLogAt(w, i) && Enabled(w, s)
    ensures LoadLogAt(Next(w, s), i)
  {
    hide Next;
    LogMove(w, s);
    PhaseMove(w, s, i);
  }

  lemma {:induction false} UnloadLogStep(w: World, s: Step, i: Id)
    requires Registry(w) && Unloads(w) && UnloadLogAt(w, i) && Enabled(w, s)
    ensures UnloadLogAt(Next(w, s), i)
  {
  }

  lemma {:induction false} UnloadCallStep(w: World, s: Step, c: Id)
    requires Registry(w) && Unloads(w) && UnloadCallAt(w, c) && (forall i :: UnloadLogAt(w, i)) && Enabled(w, s)
    ensures UnloadCallAt(Next(w, s), c)
  {
    if s.Remove? && s.name in w.registry {
      assert UnloadLogAt(w, w.registry[s.name]);
    }
  }

  lemma {:induction false} ReachLogStep(w: World, s: Step, i: Id, c: Id)
    requires ReachLogAt(w, i, c) && (forall v :: AheadLogAt(w, v, c)) && Enabled(w, s)
    ensures ReachLogAt(Next(w, s), i, c)
  {
    if s.Reach? && s.c == c {
      var v := w.calls[c].todo[0];
      assert AheadLogAt(w, v, c) && v in w.calls[c].todo;
      assert Reached(v.inst, c) !in w.log;
    }
  }

  /** What a call has yet to visit afterwards it had yet to visit before, and it has not just been reached. */
  lemma {:induction false} TodoMove(w: World, s: Step, v: Visit, c: Id)
    requires Readers(w) && Enabled(w, s) && c in Next(w, s).calls
    requires Reads(Next(w, s).calls[c]) && v in Next(w, s).calls[c].todo
    ensures (s.Begin? && s.c == c)
         || (c in w.calls && Reads(w.calls[c]) && v in w.calls[c].todo && v in Ahead(w.calls[c]))
    ensures s.Reach? && s.c == c ==> w.calls[c].todo[0].name != v.name
  {
    CallMove(w, s);
    if s.Reach? && s.c == c {
      var todo := w.calls[c].todo;
      var k :| 1 <= k < |todo| && todo[k] == v;
      assert Distinct(Ahead(w.calls[c]));
    }
    hide Lists, NoReader, Readers;
  }

  lemma {:induction false} AheadLogStep(w: World, s: Step, v: Visit, c: Id)
    requires Registry(w) && Readers(w) && AheadLogAt(w, v, c) && (forall i :: ReachLogAt(w, i, c)) && Enabled(w, s)
    ensures AheadLogAt(Next(w, s), v, c)
  {
    hide Next, Ahead;
    var u := Next(w, s);
    LogMove(w, s);
    assert ReachLogAt(w, v.inst, c);
    if c in u.calls && Reads(u.calls[c]) && v in u.calls[c].todo {
      TodoMove(w, s, v, c);
      if s.Reach? && s.c == c {
        FirstAhead(w, c);
        assert v in Ahead(w.calls[c]);
      }
    }
  }

  lemma {:induction false} FirstAhead(w: World, c: Id)
    requires Enabled(w, Reach(c))
    ensures w.calls[c].todo[0] in Ahead(w.calls[c])
  {
  }

  lemma {:induction false} ReachAllowed(w: World, c: Id)
    requires Registry(w) && Readers(w) && Logged(w) && Enabled(w, Reach(c))
    ensures Allowed(w.log, Reached(w.calls[c].todo[0].inst, c))
  {
    var v := w.calls[c].todo[0];
    assert v in Ahead(w.calls[c]);
    assert LoadLogAt(w, v.inst) && UnloadLogAt(w, v.inst) && AheadLogAt(w, v, c);
  }

  lemma {:induction false} UnloadAllowed(w: World, c: Id)
    requires Registry(w) && Readers(w) && Unloads(w) && Logged(w) && Enabled(w, UnloadBegin(c))
    ensures Allowed(w.log, UnloadBegan(w.calls[c].inst))
  {
    var i := w.calls[c].inst;
    assert LoadLogAt(w, i) && UnloadCallAt(w, c);
    assert forall d | d in w.calls && w.calls[d].Calling? :: w.calls[d].now in Ahead(w.calls[d]);
    forall d | Reached(i, d) in w.log ensures Returned(i, d) in w.log {
      assert ReachLogAt(w, i, d);
    }
  }

  lemma {:induction false} ProtocolStep(w: World, s: Step)
    requires Inv(w) && Enabled(w, s)
    ensures Protocol(Next(w, s).log)
  {
    hide Protocol, Registry, Readers, Unloads;
    match s
    case Build(c, valid) => assert LoadLogAt(w, c); if valid { ProtocolExtends(w.log, LoadBegan(c)); }
    case LoadEnd(c, ok) => assert LoadLogAt(w, c); ProtocolExtends(w.log, LoadEnded(c, ok));
    case Reach(c) => ReachAllowed(w, c); ProtocolExtends(w.log, Reached(w.calls[c].todo[0].inst, c));
    case Return(c, _) =>
      assert ReachLogAt(w, w.calls[c].now.inst, c);
      ProtocolExtends(w.log, Returned(w.calls[c].now.inst, c));
    case UnloadBegin(c) => UnloadAllowed(w, c); ProtocolExtends(w.log, UnloadBegan(w.calls[c].inst));
    case UnloadEnd(c, ok) => assert UnloadCallAt(w, c); ProtocolExtends(w.log, UnloadEnded(w.calls[c].inst, ok));
    case _ =>
  }

  lemma {:induction false} LoggedStep(w: World, s: Step)
    requires Inv(w) && Enabled(w, s)
    ensures Logged(Next(w, s))
  {
    hide Next, Protocol, Registry, Readers, Unloads, LoadLogAt, UnloadLogAt, UnloadCallAt, ReachLogAt, AheadLogAt;
    forall i ensures LoadLogAt(Next(w, s), i) { LoadLogStep(w, s, i); }
    forall i ensures UnloadLogAt(Next(w, s), i) { UnloadLogStep(w, s, i); }
    forall c ensures UnloadCallAt(Next(w, s), c) { UnloadCallStep(w, s, c); }
    forall i, c ensures ReachLogAt(Next(w, s), i, c) { ReachLogStep(w, s, i, c); }
    forall v, c ensures AheadLogAt(Next(w, s), v, c) { AheadLogStep(w, s, v, c); }
  }

  lemma {:induction false} RunInv(steps: seq<Step>)
    requires Legal(steps)
    ensures Inv(End(steps))
    decreases |steps|
  {
    hide Next, Enabled, Registry, Readers, Unloads, Logged, Protocol;
    if steps == [] {
      InitInv();
    } else {
      var w, s := End(steps[..|steps| - 1]), steps[|steps| - 1];
      RunInv(steps[..|steps| - 1]);
      RegistryStep(w, s);
      ReadersStep(w, s);
      UnloadsStep(w, s);
      LoggedStep(w, s);
      ProtocolStep(w, s);
    }
  }

  lemma {:induction false} InitInv()
    ensures Inv(Init)
  {
  }

  // ---------------------------------------------------------------- main results

  /** Main result: in every interleaving the log keeps the protocol. Each instance is reached only after
      its own load succeeded, begins to unload at most once and only when no dispatch is inside it, and is
      never reached again. */
  lemma {:induction false} EveryRunKeepsProtocol(steps: seq<Step>)
    requires Legal(steps)
    ensures Protocol(End(steps).log)
  {
    hide Protocol, Legal, End;
    RunInv(steps);
  }

  lemma {:induction false} PrefixMember(log: seq<Event>, e: Event, p: nat)
    requires p <= |log|
    ensures e in log[..p] <==> exists r :: 0 <= r < p && log[r] == e
  {
    if r :| 0 <= r < p && log[r] == e {
      assert log[..p][r] == e;
    }
  }

  /** An instance is reached by one dispatch at most once. */
  lemma {:induction false} ReachedOnce(log: seq<Event>, p: nat, q: nat, i: Id, c: Id)
    requires Protocol(log) && p < |log| && q < |log| && log[p] == log[q] == Reached(i, c)
    ensures p == q
  {
    var e := Reached(i, c);
    PrefixMember(log, e, p);
    PrefixMember(log, e, q);
    assert Allowed(log[..p], log[p]) && Allowed(log[..q], log[q]);
  }

  lemma {:induction false} UnloadsOnce(log: seq<Event>, p: nat, q: nat, i: Id)
    requires Protocol(log) && p < |log| && q < |log| && log[p] == log[q] == UnloadBegan(i)
    ensures p == q
  {
    var e := UnloadBegan(i);
    PrefixMember(log, e, p);
    PrefixMember(log, e, q);
    assert Allowed(log[..p], log[p]) && Allowed(log[..q], log[q]);
  }

  /** What the protocol means across a whole log: a dispatch enters an instance after its load succeeded, and has
      left it again by the time it begins to unload. */
  lemma {:induction false} ProtocolOrders(log: seq<Event>, p: nat, i: Id, c: Id)
    requires Protocol(log) && p < |log| && log[p] == Reached(i, c)
    ensures exists r :: 0 <= r < p && log[r] == LoadEnded(i, true)
    ensures forall q | 0 <= q < |log| && log[q] == UnloadBegan(i) :: p < q && exists r ::
          p < r < q && log[r] == Returned(i, c)
  {
    assert Allowed(log[..p], log[p]);
    PrefixMember(log, LoadEnded(i, true), p);
    PrefixMember(log, UnloadBegan(i), p);
    forall q | 0 <= q < |log| && log[q] == UnloadBegan(i)
      ensures p < q && exists r :: p < r < q && log[r] == Returned(i, c)
    {
      assert Allowed(log[..q], log[q]);
      PrefixMember(log, Reached(i, c), q);
      PrefixMember(log, Returned(i, c), q);
      var r :| 0 <= r < q && log[r] == Returned(i, c);
      assert Allowed(log[..r], log[r]);
      PrefixMember(log, Reached(i, c), r);
      var p' :| 0 <= p' < r && log[p'] == Reached(i, c);
      ReachedOnce(log, p, p', i, c);
    }
  }

  /** The places of an instance whose load succeeded. */
  datatype Place = Awaiting | RegisteredAs(name: string) | Gone(fate: Fate)

  predicate IsAt(w: World, i: Id, p: Place) {
    match p
    case Awaiting => i in w.calls && w.calls[i].Loaded?
    case RegisteredAs(n) => n in w.registry && w.registry[n] == i
    case Gone(f) => i in w.fate && w.fate[i] == f
  }

  /** Conservation: an instance was loaded exactly if it is in one of the places, and then in exactly one. */
  lemma {:induction false} LoadedIsSomewhere(steps: seq<Step>, i: Id)
    requires Legal(steps)
    ensures LoadEnded(i, true) in End(steps).log <==> exists p :: IsAt(End(steps), i, p)
    ensures forall p, q :: IsAt(End(steps), i, p) && IsAt(End(steps), i, q) ==> p == q
  {
    hide Protocol, Legal, End;
    RunInv(steps);
    var w := End(steps);
    assert LoadLogAt(w, i);
    if i in w.calls && w.calls[i].Loaded? {
      assert IsAt(w, i, Awaiting);
    } else if i in w.fate {
      assert IsAt(w, i, Gone(w.fate[i]));
    } else if i in w.calls && w.calls[i].Inserted? {
      assert IsAt(w, i, RegisteredAs(w.calls[i].name));
    }
  }

  /** The price of checking the name too early: an overwritten instance is never asked to unload. */
  lemma {:induction false} OverwrittenNeverUnloads(steps: seq<Step>, i: Id)
    requires Legal(steps) && i in End(steps).fate && End(steps).fate[i] == Overwritten
    ensures UnloadBegan(i) !in End(steps).log
  {
    hide Protocol, Legal, End;
    RunInv(steps);
    assert UnloadLogAt(End(steps), i);
  }

  lemma {:induction false} Extend(steps: seq<Step>, s: Step)
    requires Legal(steps) && Enabled(End(steps), s)
    ensures Legal(steps + [s]) && End(steps + [s]) == Next(End(steps), s)
  {
    hide Next, Enabled;
    assert (steps + [s])[..|steps|] == steps;
  }
}
