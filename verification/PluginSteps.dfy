/**
 The plugin registry as a transition system. The registry sits behind a read/write lock: `dispatch` holds the read
 lock through its whole loop, `load` and `unload` take the write lock for one insertion or removal. Backends are
 foreign; how their calls end is left open.
 */
module PluginSteps {
  import opened Strings

  /** A loading call and the backend instance it builds share an identity. */
  type Id = nat

  /** One plugin that `dispatch` still has to visit. */
  datatype Visit = Visit(name: string, inst: Id)

  datatype Call =
    // load
    | Absent(name: string)
    | Loading(name: string)
    | Loaded(name: string)
    | Inserted(name: string)
    | LoadRefused
    | LoadFailed
    // unload
    | Taken(inst: Id)
    | Unloading(inst: Id)
    | Unloaded
    | NotFound
    // dispatch; `got` are the actions so far, each with its plugin's name
    | Between(todo: seq<Visit>, got: seq<(string, string)>)
    | Calling(now: Visit, todo: seq<Visit>, got: seq<(string, string)>)
    | Dispatched(got: seq<(string, string)>)
    | DispatchFailed

  /** What a backend instance has seen. `Reached` and `Returned` name the dispatching call. */
  datatype Event =
    | LoadBegan(inst: Id)
    | LoadEnded(inst: Id, ok: bool)
    | Reached(inst: Id, via: Id)
    | Returned(inst: Id, via: Id)
    | UnloadBegan(inst: Id)
    | UnloadEnded(inst: Id, ok: bool)

  datatype Fate = Overwritten | Removed

  /** `log` and `fate` are history; no step looks at them. */
  datatype World = World(registry: map<string, Id>, calls: map<Id, Call>, log: seq<Event>, fate: map<Id, Fate>)

  const Init := World(map[], map[], [], map[])

  datatype Response = Silent | Emits(payload: string) | Fails

  datatype Step =
    | Check(c: Id, name: string, enabled: bool)
    | Build(c: Id, valid: bool)
    | LoadEnd(c: Id, ok: bool)
    | Insert(c: Id)
    | Remove(c: Id, name: string)
    | UnloadBegin(c: Id)
    | UnloadEnd(c: Id, ok: bool)
    | Begin(c: Id, order: seq<Visit>)
    | Reach(c: Id)
    | Return(c: Id, response: Response)
    | Finish(c: Id)

  predicate Reads(call: Call) {
    call.Between? || call.Calling?
  }

  /** The write lock is free only while no dispatch holds the read lock. */
  predicate NoReader(w: World) {
    forall c | c in w.calls :: !Reads(w.calls[c])
  }

  /** Some iteration order of the registry. */
  predicate Lists(order: seq<Visit>, registry: map<string, Id>) {
    && (forall v | v in order :: v.name in registry && registry[v.name] == v.inst)
    && (forall n | n in registry :: Visit(n, registry[n]) in order)
    && (forall i, j | 0 <= i < j < |order| :: order[i].name != order[j].name)
  }

  predicate Enabled(w: World, s: Step) {
    match s
    case Check(c, _, _) => c !in w.calls
    case Build(c, _) => c in w.calls && w.calls[c].Absent?
    case LoadEnd(c, _) => c in w.calls && w.calls[c].Loading?
    case Insert(c) => c in w.calls && w.calls[c].Loaded? && NoReader(w)
    case Remove(c, _) => c !in w.calls && NoReader(w)
    case UnloadBegin(c) => c in w.calls && w.calls[c].Taken?
    case UnloadEnd(c, _) => c in w.calls && w.calls[c].Unloading?
    case Begin(c, order) => c !in w.calls && Lists(order, w.registry)
    case Reach(c) => c in w.calls && w.calls[c].Between? && w.calls[c].todo != []
    case Return(c, _) => c in w.calls && w.calls[c].Calling?
    case Finish(c) => c in w.calls && w.calls[c].Between? && w.calls[c].todo == []
  }

  function Set(w: World, c: Id, call: Call): World {
    w.(calls := w.calls[c := call])
  }

  function Log(w: World, e: Event): World {
    w.(log := w.log + [e])
  }

  function CheckNext(w: World, c: Id, name: string, enabled: bool): World {
    Set(w, c, if IsBlank(name) || !enabled || name in w.registry then LoadRefused else Absent(name))
  }

  /** An invalid source is refused before the backend is ever called. */
  function BuildNext(w: World, c: Id, valid: bool): World
    requires c in w.calls && w.calls[c].Absent?
  {
    if valid then Log(Set(w, c, Loading(w.calls[c].name)), LoadBegan(c)) else Set(w, c, LoadRefused)
  }

  function LoadEndNext(w: World, c: Id, ok: bool): World
    requires c in w.calls && w.calls[c].Loading?
  {
    Log(Set(w, c, if ok then Loaded(w.calls[c].name) else LoadFailed), LoadEnded(c, ok))
  }

  /** The map is not checked again: an instance inserted meanwhile under the same name is overwritten and dropped. */
  function InsertNext(w: World, c: Id): World
    requires c in w.calls && w.calls[c].Loaded?
  {
    var name := w.calls[c].name;
    Set(w, c, Inserted(name))
    .(registry := w.registry[name := c],
      fate := if name in w.registry then w.fate[w.registry[name] := Overwritten] else w.fate)
  }

  function RemoveNext(w: World, c: Id, name: string): World {
    if name in w.registry then
      Set(w, c, Taken(w.registry[name]))
      .(registry := w.registry - {name}, fate := w.fate[w.registry[name] := Removed])
    else Set(w, c, NotFound)
  }

  function UnloadBeginNext(w: World, c: Id): World
    requires c in w.calls && w.calls[c].Taken?
  {
    var i := w.calls[c].inst;
    Log(Set(w, c, Unloading(i)), UnloadBegan(i))
  }

  function UnloadEndNext(w: World, c: Id, ok: bool): World
    requires c in w.calls && w.calls[c].Unloading?
  {
    Log(Set(w, c, Unloaded), UnloadEnded(w.calls[c].inst, ok))
  }

  function ReachNext(w: World, c: Id): World
    requires c in w.calls && w.calls[c].Between? && w.calls[c].todo != []
  {
    var todo := w.calls[c].todo;
    Log(Set(w, c, Calling(todo[0], todo[1..], w.calls[c].got)), Reached(todo[0].inst, c))
  }

  /** The first failing plugin ends the whole dispatch. */
  function ReturnNext(w: World, c: Id, response: Response): World
    requires c in w.calls && w.calls[c].Calling?
  {
    var was := w.calls[c];
    var call :=
      match response
      case Fails => DispatchFailed
      case Silent => Between(was.todo, was.got)
      case Emits(payload) => Between(was.todo, was.got + [(was.now.name, payload)]);
    Log(Set(w, c, call), Returned(was.now.inst, c))
  }

  function Next(w: World, s: Step): World
    requires Enabled(w, s)
  {
    match s
    case Check(c, name, enabled) => CheckNext(w, c, name, enabled)
    case Build(c, valid) => BuildNext(w, c, valid)
    case LoadEnd(c, ok) => LoadEndNext(w, c, ok)
    case Insert(c) => InsertNext(w, c)
    case Remove(c, name) => RemoveNext(w, c, name)
    case UnloadBegin(c) => UnloadBeginNext(w, c)
    case UnloadEnd(c, ok) => UnloadEndNext(w, c, ok)
    case Begin(c, order) => Set(w, c, Between(order, []))
    case Reach(c) => ReachNext(w, c)
    case Return(c, response) => ReturnNext(w, c, response)
    case Finish(c) => Set(w, c, Dispatched(w.calls[c].got))
  }

  predicate Legal(steps: seq<Step>)
    decreases |steps|, 0
  {
    steps == [] || (Legal(steps[..|steps| - 1]) && Enabled(End(steps[..|steps| - 1]), steps[|steps| - 1]))
  }

  function End(steps: seq<Step>): World
    requires Legal(steps)
    decreases |steps|, 1
  {
    if steps == [] then Init else Next(End(steps[..|steps| - 1]), steps[|steps| - 1])
  }
}
