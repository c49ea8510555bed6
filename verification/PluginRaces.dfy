/** When a load overwrites a loaded plugin of the same name, and how callers can rule it out. */
module PluginRaces {
  import opened Strings
  import opened PluginSteps
  import opened PluginLaws

  /** The insertion at the end of a load finds its name taken. */
  predicate InsertsOver(w: World, s: Step) {
    s.Insert? && s.c in w.calls && w.calls[s.c].Loaded? && w.calls[s.c].name in w.registry
  }

  ghost predicate NeverInsertsOver(steps: seq<Step>)
    requires Legal(steps)
    decreases |steps|
  {
    steps == []
    || (NeverInsertsOver(steps[..|steps| - 1]) && !InsertsOver(End(steps[..|steps| - 1]), steps[|steps| - 1]))
  }

  /** Every instance that left the registry was removed by an unload. */
  predicate AllRemoved(w: World) {
    forall i | i in w.fate :: w.fate[i] == Removed
  }

  lemma {:induction false} OverwriteStep(w: World, s: Step)
    requires Registry(w) && Enabled(w, s)
    ensures AllRemoved(Next(w, s)) <==> AllRemoved(w) && !InsertsOver(w, s)
  {
    if s.Insert? {
      hide CheckNext, BuildNext, LoadEndNext, RemoveNext, UnloadBeginNext, UnloadEndNext, ReachNext, ReturnNext;
      InsertFate(w, s.c);
    } else if s.Remove? {
      RemoveFate(w, s.c, s.name);
    } else {
      RegistryMove(w, s);
      hide Next, Enabled, Registry;
    }
  }

  lemma {:induction false} InsertFate(w: World, c: Id)
    requires Registry(w) && c in w.calls && w.calls[c].Loaded?
    ensures AllRemoved(InsertNext(w, c)) <==> AllRemoved(w) && w.calls[c].name !in w.registry
  {
    var v, name := InsertNext(w, c), w.calls[c].name;
    if name in w.registry {
      assert v.fate[w.registry[name]] == Overwritten;
    }
  }

  lemma {:induction false} RemoveFate(w: World, c: Id, name: string)
    requires Registry(w)
    ensures AllRemoved(RemoveNext(w, c, name)) <==> AllRemoved(w)
  {
    var v := RemoveNext(w, c, name);
    forall i | i in w.fate ensures i in v.fate && v.fate[i] == w.fate[i] {}
  }

  lemma {:induction false} NobodyGone()
    ensures AllRemoved(Init)
  {
  }

  /** Main result: every instance that left the registry was removed by an unload, none overwritten, exactly when no
      insertion ever found its name taken. */
  lemma {:induction false} OverwrittenIffInsertedOver(steps: seq<Step>)
    requires Legal(steps)
    ensures AllRemoved(End(steps)) <==> NeverInsertsOver(steps)
    decreases |steps|
  {
    hide Next, Enabled, Registry, Readers, Unloads, Logged, Protocol, InsertsOver, AllRemoved;
    if steps == [] {
      NobodyGone();
    } else {
      var w, s := End(steps[..|steps| - 1]), steps[|steps| - 1];
      OverwrittenIffInsertedOver(steps[..|steps| - 1]);
      RunInv(steps[..|steps| - 1]);
      OverwriteStep(w, s);
    }
  }

  // ---------------------------------------------------------------- what callers can arrange

  /** A load stands between its check and its insertion. */
  predicate Waits(call: Call) {
    call.Absent? || call.Loading? || call.Loaded?
  }

  predicate Loads(call: Call, name: string) {
    Waits(call) && call.name == name
  }

  /** No load of a name starts while another load of that name is under way. */
  ghost predicate LoadsApart(steps: seq<Step>)
    requires Legal(steps)
    decreases |steps|
  {
    steps == []
    || (var before, s := End(steps[..|steps| - 1]), steps[|steps| - 1];
        LoadsApart(steps[..|steps| - 1])
        && (s.Check? ==> forall d | d in before.calls :: !Loads(before.calls[d], s.name)))
  }

  /** Loads under way have different names, none of them registered. */
  predicate Apart(w: World) {
    && (forall c | c in w.calls && Waits(w.calls[c]) :: w.calls[c].name !in w.registry)
    && (forall c, d | c in w.calls && d in w.calls && Waits(w.calls[c]) && Waits(w.calls[d])
                      && w.calls[c].name == w.calls[d].name :: c == d)
  }

  /** A load under way was under way before under that name, or has just passed its check. */
  lemma {:induction false} WaitMove(w: World, s: Step, c: Id)
    requires Enabled(w, s) && c in Next(w, s).calls && Waits(Next(w, s).calls[c])
    ensures var x := Next(w, s).calls[c];
            || (c in w.calls && Waits(w.calls[c]) && w.calls[c].name == x.name && !(s.Insert? && s.c == c))
            || (s.Check? && s.c == c && s.name == x.name && x.name !in w.registry)
  {
  }

  /** The registry gains a name by an insertion only. */
  lemma {:induction false} NameMove(w: World, s: Step, name: string)
    requires Enabled(w, s) && name in Next(w, s).registry
    ensures name in w.registry || (s.Insert? && w.calls[s.c].name == name)
  {
    RegistryMove(w, s);
    hide CheckNext, BuildNext, LoadEndNext, UnloadBeginNext, UnloadEndNext, ReachNext, ReturnNext;
  }

  lemma {:induction false} ApartStep(w: World, s: Step)
    requires Apart(w) && Enabled(w, s)
    requires s.Check? ==> forall d | d in w.calls :: !Loads(w.calls[d], s.name)
    ensures Apart(Next(w, s))
  {
    hide Next;
    var v := Next(w, s);
    forall c | c in v.calls && Waits(v.calls[c]) ensures v.calls[c].name !in v.registry {
      WaitMove(w, s, c);
      if v.calls[c].name in v.registry { NameMove(w, s, v.calls[c].name); }
    }
    forall c, d |
      c in v.calls && d in v.calls && Waits(v.calls[c]) && Waits(v.calls[d]) && v.calls[c].name == v.calls[d].name
      ensures c == d
    {
      WaitMove(w, s, c);
      WaitMove(w, s, d);
    }
  }

  lemma {:induction false} RunApart(steps: seq<Step>)
    requires Legal(steps) && LoadsApart(steps)
    ensures Apart(End(steps))
    decreases |steps|
  {
    hide Next, Enabled, Apart, Loads;
    if steps == [] {
      assert Apart(Init) by { InitApart(); }
    } else {
      RunApart(steps[..|steps| - 1]);
      ApartStep(End(steps[..|steps| - 1]), steps[|steps| - 1]);
    }
  }

  lemma {:induction false} InitApart()
    ensures Apart(Init)
  {
  }

  /** Callers who never start a load of a name while another one is under way never overwrite: whoever leaves the
      registry is removed by an unload. */
  lemma {:induction false} ApartNeverOverwrites(steps: seq<Step>)
    requires Legal(steps) && LoadsApart(steps)
    ensures NeverInsertsOver(steps) && AllRemoved(End(steps))
    decreases |steps|
  {
    hide Next, Enabled;
    if steps != [] {
      ApartNeverOverwrites(steps[..|steps| - 1]);
      RunApart(steps[..|steps| - 1]);
    }
    OverwrittenIffInsertedOver(steps);
  }

  // ---------------------------------------------------------------- a race

  /** Call `c` checks, builds and loads a plugin whose name is still free. */
  lemma {:induction false} LoadUp(before: seq<Step>, c: Id, name: string) returns (steps: seq<Step>)
    requires Legal(before) && c !in End(before).calls && !IsBlank(name) && name !in End(before).registry
    ensures Legal(steps) && End(steps).calls == End(before).calls[c := Loaded(name)]
    ensures End(steps).registry == End(before).registry && End(steps).fate == End(before).fate
  {
    hide Legal, End, InsertNext, RemoveNext, ReachNext, ReturnNext, UnloadBeginNext, UnloadEndNext, NoReader, Lists;
    Extend(before, Check(c, name, true));
    steps := before + [Check(c, name, true)];
    Extend(steps, Build(c, true));
    steps := steps + [Build(c, true)];
    Extend(steps, LoadEnd(c, true));
    steps := steps + [LoadEnd(c, true)];
    assert End(steps).calls == End(before).calls[c := Loaded(name)];
  }

  /** Two loads of one name can both pass the check; the second insertion overwrites the first instance. */
  lemma {:induction false} RacingLoads(name: string) returns (steps: seq<Step>)
    requires !IsBlank(name)
    ensures Legal(steps) && End(steps).registry == map[name := 1]
    ensures 0 in End(steps).fate && End(steps).fate[0] == Overwritten
    ensures !NeverInsertsOver(steps) && !LoadsApart(steps)
  {
    hide Legal, End, CheckNext, BuildNext, LoadEndNext, RemoveNext, ReachNext, ReturnNext, UnloadBeginNext,
    UnloadEndNext, Lists;
    hide NeverInsertsOver, LoadsApart;
    assert Legal([]) && End([]) == Init by { LegalInit(); }
    steps := LoadUp([], 0, name);
    steps := LoadUp(steps, 1, name);
    Extend(steps, Insert(0));
    steps := steps + [Insert(0)];
    Extend(steps, Insert(1));
    steps := steps + [Insert(1)];
    OverwrittenIffInsertedOver(steps);
    if LoadsApart(steps) { ApartNeverOverwrites(steps); }
  }

  lemma {:induction false} LegalInit()
    ensures Legal([]) && End([]) == Init
  {
  }
}
