/** The plugin manager as one caller sees it: an object whose calls run to completion. */
module PluginObject {
  import opened Strings
  import opened Sorting
  import opened Utf8
  import opened PluginSteps
  import opened Sequences
  import opened PluginLaws

  datatype LoadResult = LoadedAs(name: string) | EmptyName | Disabled | AlreadyLoaded | InvalidSource | BackendFailed

  datatype UnloadResult = UnloadOk | UnloadFailed | UnknownName

  /** How one plugin answers an event. */
  datatype Answer = Quiet | Action(payload: string) | Error

  datatype DispatchResult = Actions(actions: seq<(string, string)>) | Failed

  /** The actions of the plugins that emit one, in iteration order; the first error discards everything. */
  function Collected(order: seq<string>, answers: seq<Answer>): (r: DispatchResult)
    requires |order| == |answers|
  {
    if order == [] then Actions([])
    else if answers[0].Error? then Failed
    else
      var rest := Collected(order[1..], answers[1..]);
      if rest.Failed? || answers[0].Quiet? then rest else Actions([(order[0], answers[0].payload)] + rest.actions)
  }

  function LoadSpec(plugins: map<string, Id>, name: string, enabled: bool, valid: bool, loads: bool, inst: Id)
    : (map<string, Id>, LoadResult)
  {
    var r := if IsBlank(name) then EmptyName else if !enabled then Disabled
             else if name in plugins then AlreadyLoaded
             else if !valid then InvalidSource else if !loads then BackendFailed else LoadedAs(name);
    (if r.LoadedAs? then plugins[name := inst] else plugins, r)
  }

  function UnloadSpec(plugins: map<string, Id>, name: string, unloads: bool): (map<string, Id>, UnloadResult) {
    (plugins - {name}, if name !in plugins then UnknownName else if unloads then UnloadOk else UnloadFailed)
  }

  class PluginManager {
    var plugins: map<string, Id>

    constructor ()
      ensures plugins == map[]
    {
      plugins := map[];
    }

    method Load(name: string, enabled: bool, valid: bool, loads: bool, inst: Id) returns (r: LoadResult)
      modifies this
      ensures (plugins, r) == LoadSpec(old(plugins), name, enabled, valid, loads, inst)
      ensures r == EmptyName <==> IsBlank(name)
      ensures r == Disabled <==> !IsBlank(name) && !enabled
      ensures r == AlreadyLoaded <==> !IsBlank(name) && enabled && name in old(plugins)
      ensures r == InvalidSource <==> !IsBlank(name) && enabled && name !in old(plugins) && !valid
      ensures r == BackendFailed <==> !IsBlank(name) && enabled && name !in old(plugins) && valid && !loads
      ensures plugins == if r == LoadedAs(name) then old(plugins)[name := inst] else old(plugins)
    {
      if Trim(name) == "" { return EmptyName; }
      if !enabled { return Disabled; }
      if name in plugins { return AlreadyLoaded; }
      if !valid { return InvalidSource; }
      if !loads { return BackendFailed; }
      plugins := plugins[name := inst];
      r := LoadedAs(name);
    }

    /** The plugin leaves the registry even when its own unloading then fails. */
    method Unload(name: string, unloads: bool) returns (r: UnloadResult)
      modifies this
      ensures (plugins, r) == UnloadSpec(old(plugins), name, unloads)
      ensures r == UnknownName <==> name !in old(plugins)
      ensures r == UnloadOk <==> name in old(plugins) && unloads
      ensures plugins.Keys == old(plugins).Keys - {name} && forall n | n in plugins :: plugins[n] == old(plugins)[n]
    {
      if name !in plugins {
        assert plugins - {name} == plugins;
        return UnknownName;
      }
      plugins := plugins - {name};
      r := if unloads then UnloadOk else UnloadFailed;
    }

    /** `order` is the map's iteration order, `answers` what each plugin replies. */
    method Dispatch(order: seq<string>, answers: seq<Answer>) returns (r: DispatchResult)
      requires |order| == |answers| && forall n :: n in order <==> n in plugins
      ensures r == Collected(order, answers)
    {
      var actions: seq<(string, string)> := [];
      var i := 0;
      while i < |order|
        invariant i <= |order|
        invariant Collected(order, answers)
               == var rest := Collected(order[i..], answers[i..]);
                  if rest.Failed? then Failed else Actions(actions + rest.actions)
      {
        if answers[i].Error? { return Failed; }
        assert order[i..][1..] == order[i + 1..] && answers[i..][1..] == answers[i + 1..];
        if answers[i].Action? {
          ghost var rest := Collected(order[i + 1..], answers[i + 1..]);
          ghost var one := [(order[i], answers[i].payload)];
          assert rest.Actions? ==> actions + one + rest.actions == actions + (one + rest.actions);
          actions := actions + [(order[i], answers[i].payload)];
        }
        i := i + 1;
      }
      assert actions + [] == actions;
      r := Actions(actions);
    }

    method List() returns (names: seq<string>)
      ensures ByteAscending(names) && forall n :: n in names <==> n in plugins
    {
      var found: seq<string> := [];
      var rest := plugins.Keys;
      while rest != {}
        invariant rest <= plugins.Keys
        invariant forall n :: n in found <==> n in plugins && n !in rest
      {
        var n :| n in rest;
        rest := rest - {n};
        found := found + [n];
      }
      names := SortKeys(found);
      AscendingInBytes(names);
    }
  }

  /** A dispatch fails exactly when some plugin errs; otherwise it returns exactly the emitted actions, paired with
      their plugins. */
  lemma {:induction false} CollectedFacts(order: seq<string>, answers: seq<Answer>)
    requires |order| == |answers|
    ensures Collected(order, answers).Failed? <==> exists i :: 0 <= i < |answers| && answers[i].Error?
    ensures Collected(order, answers).Actions? ==>
              forall n, p :: (n, p) in Collected(order, answers).actions
                        <==> exists i :: 0 <= i < |order| && order[i] == n && answers[i] == Action(p)
    decreases |order|
  {
    if order != [] {
      var ns, xs := order[1..], answers[1..];
      CollectedFacts(ns, xs);
      assert forall i | 0 < i < |order| :: order[i] == ns[i - 1] && answers[i] == xs[i - 1];
      assert forall i | 0 <= i < |ns| :: ns[i] == order[i + 1] && xs[i] == answers[i + 1];
      if Collected(order, answers).Actions? {
        forall n, p
          ensures (n, p) in Collected(order, answers).actions
             <==> exists i :: 0 <= i < |order| && order[i] == n && answers[i] == Action(p)
        {
          if i :| 0 <= i < |order| && order[i] == n && answers[i] == Action(p) {
            if i > 0 { assert ns[i - 1] == n && xs[i - 1] == Action(p); }
          }
        }
      }
    }
  }

  function Joined(a: DispatchResult, b: DispatchResult): DispatchResult {
    if a.Failed? || b.Failed? then Failed else Actions(a.actions + b.actions)
  }

  /** The actions stand in iteration order: cut the iteration anywhere, and what the first part returns comes first. */
  lemma {:induction false} CollectedInOrder(order: seq<string>, answers: seq<Answer>, k: nat)
    requires k <= |order| == |answers|
    ensures Collected(order, answers)
         == Joined(Collected(order[..k], answers[..k]), Collected(order[k..], answers[k..]))
    decreases k
  {
    if k == 0 {
      assert order[0..] == order && answers[0..] == answers;
      var all := Collected(order, answers);
      assert all.Actions? ==> [] + all.actions == all.actions;
    } else {
      CollectedInOrder(order[1..], answers[1..], k - 1);
      assert order[..k][1..] == order[1..][..k - 1] && answers[..k][1..] == answers[1..][..k - 1];
      assert order[1..][k - 1..] == order[k..] && answers[1..][k - 1..] == answers[k..];
      var one := [(order[0], if answers[0].Action? then answers[0].payload else "")];
      var first, second := Collected(order[1..][..k - 1], answers[1..][..k - 1]), Collected(order[k..], answers[k..]);
      Associative(one, Said(first), Said(second));
    }
  }

  function Said(r: DispatchResult): seq<(string, string)> {
    if r.Failed? then [] else r.actions
  }

  // ---------------------------------------------------------------- calls as runs

  /** How a load call of the steps ends with that result. */
  predicate EndsAs(call: Call, r: LoadResult) {
    match r
    case LoadedAs(name) => call == Inserted(name)
    case BackendFailed => call.LoadFailed?
    case _ => call.LoadRefused?
  }

  /** A load that nothing interrupts does, as a run of the steps, what the object's method does. */
  lemma {:induction false} LoadIsARun(steps: seq<Step>, c: Id, name: string, enabled: bool, valid: bool, loads: bool)
    returns (more: seq<Step>)
    requires Legal(steps) && c !in End(steps).calls && NoReader(End(steps))
    ensures Legal(more) && c in End(more).calls
    ensures var (plugins, r) := LoadSpec(End(steps).registry, name, enabled, valid, loads, c);
            End(more).registry == plugins && EndsAs(End(more).calls[c], r)
  {
    hide Legal, End, RemoveNext, UnloadBeginNext, UnloadEndNext, ReachNext, ReturnNext, Lists;
    Extend(steps, Check(c, name, enabled));
    more := steps + [Check(c, name, enabled)];
    if End(more).calls[c].Absent? {
      Extend(more, Build(c, valid));
      more := more + [Build(c, valid)];
      if valid {
        Extend(more, LoadEnd(c, loads));
        more := more + [LoadEnd(c, loads)];
        if loads {
          Extend(more, Insert(c));
          more := more + [Insert(c)];
        }
      }
    }
  }

  /** An uninterrupted unload does what the object's method does, and calls the removed instance's backend. */
  lemma {:induction false} UnloadIsARun(steps: seq<Step>, c: Id, name: string, unloads: bool) returns (more: seq<Step>)
    requires Legal(steps) && c !in End(steps).calls && NoReader(End(steps))
    ensures Legal(more) && c in End(more).calls
    ensures var w, v := End(steps), End(more);
            var (plugins, r) := UnloadSpec(w.registry, name, unloads);
            && v.registry == plugins
            && if r.UnknownName? then v.calls[c].NotFound? && v.log == w.log
               else v.calls[c].Unloaded?
                    && v.log == w.log + [UnloadBegan(w.registry[name]), UnloadEnded(w.registry[name], r.UnloadOk?)]
  {
    hide Legal, End, CheckNext, BuildNext, LoadEndNext, InsertNext, ReachNext, ReturnNext, Lists;
    Extend(steps, Remove(c, name));
    more := steps + [Remove(c, name)];
    if End(more).calls[c].Taken? {
      Extend(more, UnloadBegin(c));
      more := more + [UnloadBegin(c)];
      Extend(more, UnloadEnd(c, unloads));
      more := more + [UnloadEnd(c, unloads)];
    }
  }

  function ResponseOf(a: Answer): Response {
    match a
    case Quiet => Silent
    case Action(payload) => Emits(payload)
    case Error => Fails
  }

  /** What the plugins to visit hear of dispatch `c`, up to the first that errs. */
  function Heard(todo: seq<Visit>, answers: seq<Answer>, c: Id): seq<Event>
    requires |todo| == |answers|
  {
    if todo == [] then []
    else
      [Reached(todo[0].inst, c), Returned(todo[0].inst, c)]
      + if answers[0].Error? then [] else Heard(todo[1..], answers[1..], c)
  }

  function Names(todo: seq<Visit>): seq<string> {
    seq(|todo|, i requires 0 <= i < |todo| => todo[i].name)
  }

  /** Where a dispatch with these actions ends. */
  function DispatchEnd(got: seq<(string, string)>, r: DispatchResult): Call {
    if r.Failed? then DispatchFailed else Dispatched(got + r.actions)
  }

  lemma {:induction false} VisitOne(
    steps: seq<Step>, c: Id, todo: seq<Visit>, got: seq<(string, string)>, answer: Answer) returns (more: seq<Step>)
    requires Legal(steps) && c in End(steps).calls && End(steps).calls[c] == Between(todo, got) && todo != []
    ensures Legal(more) && c in End(more).calls && End(more).registry == End(steps).registry
    ensures End(more).calls[c]
         == if answer.Error? then DispatchFailed
            else Between(todo[1..], got + if answer.Action? then [(todo[0].name, answer.payload)] else [])
    ensures End(more).log == End(steps).log + [Reached(todo[0].inst, c), Returned(todo[0].inst, c)]
  {
    hide Legal, End, CheckNext, BuildNext, LoadEndNext, InsertNext, RemoveNext, UnloadBeginNext, UnloadEndNext, Lists;
    Extend(steps, Reach(c));
    more := steps + [Reach(c)];
    Extend(more, Return(c, ResponseOf(answer)));
    more := more + [Return(c, ResponseOf(answer))];
    assert got + [] == got;
  }

  lemma {:induction false} OneAnswer(todo: seq<Visit>, answers: seq<Answer>, got: seq<(string, string)>)
    requires todo != [] && |todo| == |answers|
    ensures var one := if answers[0].Action? then [(todo[0].name, answers[0].payload)] else [];
            DispatchEnd(got, Collected(Names(todo), answers))
            == if answers[0].Error? then DispatchFailed
               else DispatchEnd(got + one, Collected(Names(todo[1..]), answers[1..]))
  {
    assert Names(todo)[1..] == Names(todo[1..]);
    var rest := Collected(Names(todo[1..]), answers[1..]);
    if rest.Actions? && answers[0].Action? {
      Associative(got, [(todo[0].name, answers[0].payload)], rest.actions);
    }
    assert got + [] == got;
  }

  lemma {:induction false} VisitRun(
    steps: seq<Step>, c: Id, todo: seq<Visit>, got: seq<(string, string)>, answers: seq<Answer>)
    returns (more: seq<Step>)
    requires Legal(steps) && c in End(steps).calls && End(steps).calls[c] == Between(todo, got) && |todo| == |answers|
    ensures Legal(more) && c in End(more).calls && End(more).registry == End(steps).registry
    ensures End(more).calls[c] == DispatchEnd(got, Collected(Names(todo), answers))
    ensures End(more).log == End(steps).log + Heard(todo, answers, c)
    decreases |todo|
  {
    hide Legal, End, CheckNext, BuildNext, LoadEndNext, InsertNext, RemoveNext, ReachNext, ReturnNext,
    UnloadBeginNext, UnloadEndNext, Lists;
    if todo == [] {
      Extend(steps, Finish(c));
      more := steps + [Finish(c)];
      assert got + [] == got;
    } else {
      more := VisitOne(steps, c, todo, got, answers[0]);
      OneAnswer(todo, answers, got);
      hide Collected, DispatchEnd, Names;
      if !answers[0].Error? {
        var one := [Reached(todo[0].inst, c), Returned(todo[0].inst, c)];
        Associative(End(steps).log, one, Heard(todo[1..], answers[1..], c));
        var action := if answers[0].Action? then [(todo[0].name, answers[0].payload)] else [];
        more := VisitRun(more, c, todo[1..], got + action, answers[1..]);
      }
    }
  }

  /** A dispatch that nothing interrupts ends as the object's method does, with the same actions, and its calls to the
      plugins are those of the iteration up to the first error. */
  lemma {:induction false} DispatchIsARun(steps: seq<Step>, c: Id, todo: seq<Visit>, answers: seq<Answer>)
    returns (more: seq<Step>)
    requires Legal(steps) && c !in End(steps).calls && Lists(todo, End(steps).registry) && |todo| == |answers|
    ensures forall n :: n in Names(todo) <==> n in End(steps).registry
    ensures Legal(more) && c in End(more).calls && End(more).registry == End(steps).registry
    ensures End(more).calls[c] == match Collected(Names(todo), answers)
                                  case Failed => DispatchFailed
                                  case Actions(actions) => Dispatched(actions)
    ensures End(more).log == End(steps).log + Heard(todo, answers, c)
  {
    ListedNames(todo, End(steps).registry);
    hide Legal, End, Lists, CheckNext, BuildNext, LoadEndNext, InsertNext, RemoveNext, ReachNext, ReturnNext,
    UnloadBeginNext, UnloadEndNext, Collected, Names;
    Extend(steps, Begin(c, todo));
    more := VisitRun(steps + [Begin(c, todo)], c, todo, [], answers);
    var r := Collected(Names(todo), answers);
    assert r.Actions? ==> [] + r.actions == r.actions;
  }

  /** Every duplicate-free listing of the names is an order in which a dispatch may walk the registry. */
  lemma {:induction false} AnyOrderIsAllowed(names: seq<string>, registry: map<string, Id>)
    requires forall n :: n in names <==> n in registry
    ensures Lists(seq(|names|, i requires 0 <= i < |names| => assert names[i] in names;
                                  Visit(names[i], registry[names[i]])), registry)
            <==> forall i, j | 0 <= i < j < |names| :: names[i] != names[j]
  {
    var order := seq(|names|, i requires 0 <= i < |names| => assert names[i] in names;
                                  Visit(names[i], registry[names[i]]));
    forall n | n in registry ensures Visit(n, registry[n]) in order {
      var i :| 0 <= i < |names| && names[i] == n;
      assert order[i] == Visit(n, registry[n]);
    }
    forall v | v in order ensures v.name in registry && registry[v.name] == v.inst {
      var i :| 0 <= i < |order| && order[i] == v;
      assert names[i] in names;
    }
    if Lists(order, registry) {
      forall i, j | 0 <= i < j < |names| ensures names[i] != names[j] { assert order[i].name != order[j].name; }
    }
  }

  lemma {:induction false} ListedNames(todo: seq<Visit>, registry: map<string, Id>)
    requires Lists(todo, registry)
    ensures forall n :: n in Names(todo) <==> n in registry
  {
    forall n | n in registry ensures n in Names(todo) {
      var i :| 0 <= i < |todo| && todo[i] == Visit(n, registry[n]);
      assert Names(todo)[i] == n;
    }
  }
}
