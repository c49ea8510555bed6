/** Where every task handle is, and what a shutdown can leave behind. */
module RuntimeLaws {
  import opened RuntimeSteps

  // ---------------------------------------------------------------- conservation

  /** The places a task handle can be in. */
  datatype Place = InCall | InMap(name: string) | Detached | DrainedBy(shutdown: Id)

  predicate IsAt(w: World, t: Id, p: Place) {
    match p
    case InCall => t in w.calls && w.calls[t].Spawned?
    case InMap(name) => name in w.tasks && w.tasks[name] == t
    case Detached => t in w.calls && w.calls[t].Duplicate?
    case DrainedBy(d) => d in w.log.drained && t in w.log.drained[d]
  }

  predicate InTasks(w: World, t: Id)
    requires t in w.calls && w.calls[t].Registered?
  {
    w.calls[t].name in w.tasks && w.tasks[w.calls[t].name] == t
  }

  predicate Drains(call: Call) {
    call.Joining? || call.Finished? || call.JoinBroken?
  }

  predicate Mapped(w: World) {
    forall n | n in w.tasks :: w.tasks[n] in w.calls && w.calls[w.tasks[n]].Registered? && w.calls[w.tasks[n]].name == n
  }

  predicate DrainedApart(w: World) {
    && (forall d, t | d in w.log.drained && t in w.log.drained[d] :: t in w.log.drainedBy && w.log.drainedBy[t] == d)
    && (forall t | t in w.log.drainedBy ::
          w.log.drainedBy[t] in w.log.drained && t in w.log.drained[w.log.drainedBy[t]])
  }

  /** A registered task is in the map or was drained, never both. */
  predicate Kept(w: World) {
    && (forall t | t in w.log.drainedBy :: t in w.calls && w.calls[t].Registered?)
    && (forall t | t in w.calls && w.calls[t].Registered? :: InTasks(w, t) <==> t !in w.log.drainedBy)
  }

  /** A join phase accounts for what it drained. */
  predicate Joins(w: World) {
    && (forall d | d in w.log.drained :: d in w.calls && Drains(w.calls[d]))
    && (forall d | d in w.calls && w.calls[d].Joining? ::
          var j := w.calls[d];
          d in w.log.drained && j.pending !! j.joined && j.pending + j.joined == w.log.drained[d] && j.stopped ==
          |j.joined|)
    && (forall d | d in w.calls && w.calls[d].Finished? :: d in w.log.drained && w.calls[d].count == |w.log.drained[d]|)
  }

  predicate Placed(w: World) {
    Mapped(w) && DrainedApart(w) && Kept(w)
  }

  predicate Conserved(w: World) {
    Placed(w) && Joins(w)
  }

  /** No handle moves into or out of the map or a drained set. */
  predicate SamePlaces(w: World, v: World) {
    && v.tasks == w.tasks && v.log.drained == w.log.drained && v.log.drainedBy == w.log.drainedBy
    && (forall t | t in w.calls && w.calls[t].Registered? :: t in v.calls && v.calls[t] == w.calls[t])
    && (forall t | t in v.calls && v.calls[t].Registered? :: t in w.calls && v.calls[t] == w.calls[t])
  }

  /** No join phase moves. */
  predicate SameTally(w: World, v: World) {
    && v.log.drained == w.log.drained
    && (forall t | t in w.calls && Drains(w.calls[t]) :: t in v.calls && v.calls[t] == w.calls[t])
    && (forall t | t in v.calls && Drains(v.calls[t]) :: t in w.calls && v.calls[t] == w.calls[t])
  }

  lemma {:induction false} SamePlacesPlaced(w: World, v: World)
    requires Placed(w) && SamePlaces(w, v)
    ensures Placed(v)
  {
  }

  lemma {:induction false} SameTallyJoins(w: World, v: World)
    requires Joins(w) && SameTally(w, v)
    ensures Joins(v)
  {
  }

  predicate Quiet(s: Step) {
    !s.Insert? && !s.Drain? && !s.Join? && !s.Settle?
  }

  lemma {:induction false} QuietPlaces(w: World, s: Step)
    requires Enabled(w, s) && Quiet(s)
    ensures SamePlaces(w, Act(w, s))
  {
  }

  lemma {:induction false} QuietTally(w: World, s: Step)
    requires Enabled(w, s) && Quiet(s)
    ensures SameTally(w, Act(w, s))
  {
  }

  lemma {:induction false} InsertPlaces(w: World, c: Id)
    requires Placed(w) && c in w.calls && w.calls[c].Spawned?
    ensures Placed(InsertNext(w, c)) && SameTally(w, InsertNext(w, c))
  {
  }

  lemma {:induction false} TaskValues(w: World, t: Id)
    requires Mapped(w)
    ensures t in w.tasks.Values <==> t in w.calls && w.calls[t].Registered? && InTasks(w, t)
  {
    if t in w.tasks.Values {
      var n :| n in w.tasks && w.tasks[n] == t;
    }
  }

  /** A drain, spelled out: every task of the map goes to call `c`, and no other call moves. */
  predicate Drained(w: World, v: World, c: Id, taken: set<Id>) {
    && v.tasks == map[] && v.log.drained == w.log.drained[c := taken]
    && v.log.drainedBy.Keys == w.log.drainedBy.Keys + taken
    && (forall t | t in v.log.drainedBy :: v.log.drainedBy[t] == if t in taken then c else w.log.drainedBy[t])
    && c in w.calls && w.calls[c].Signalled?
    && v.calls.Keys == w.calls.Keys && (forall d | d in w.calls && d != c :: v.calls[d] == w.calls[d])
    && v.calls[c] == Joining(w.calls[c].signal, taken, {}, 0)
  }

  lemma {:induction false} DrainIsDrained(w: World, c: Id)
    requires c in w.calls && w.calls[c].Signalled?
    ensures Drained(w, DrainNext(w, c), c, w.tasks.Values)
  {
    hide AllTo;
  }

  ghost predicate TakesAll(w: World, taken: set<Id>) {
    forall t :: t in taken <==> t in w.calls && w.calls[t].Registered? && InTasks(w, t)
  }

  lemma {:induction false} DrainedIsApart(w: World, v: World, c: Id, taken: set<Id>)
    requires Drained(w, v, c, taken) && DrainedApart(w) && c !in w.log.drained
    requires forall t | t in taken :: t !in w.log.drainedBy
    ensures DrainedApart(v)
  {
  }

  lemma {:induction false} DrainedIsKept(w: World, v: World, c: Id, taken: set<Id>)
    requires Drained(w, v, c, taken) && Kept(w) && TakesAll(w, taken)
    ensures Kept(v)
  {
    forall t | t in v.calls && v.calls[t].Registered? ensures !InTasks(v, t) && t in v.log.drainedBy {
      assert t != c && v.calls[t] == w.calls[t];
    }
  }

  lemma {:induction false} DrainedJoins(w: World, v: World, c: Id, taken: set<Id>)
    requires Drained(w, v, c, taken) && Joins(w)
    ensures Joins(v) && c !in w.log.drained
  {
  }

  lemma {:induction false} DrainConserves(w: World, c: Id)
    requires Conserved(w) && c in w.calls && w.calls[c].Signalled?
    ensures Conserved(DrainNext(w, c))
  {
    hide DrainNext, DrainedApart, Joins;
    var v, taken := DrainNext(w, c), w.tasks.Values;
    forall t ensures t in taken <==> t in w.calls && w.calls[t].Registered? && InTasks(w, t) { TaskValues(w, t); }
    DrainIsDrained(w, c);
    DrainedJoins(w, v, c, taken);
    DrainedIsApart(w, v, c, taken);
    DrainedIsKept(w, v, c, taken);
  }

  lemma {:induction false} JoinJoins(w: World, c: Id, task: Id, outcome: Outcome)
    requires Joins(w) && c in w.calls && w.calls[c].Joining? && task in w.calls[c].pending
    ensures Joins(JoinNext(w, c, task, outcome))
  {
    var x := w.calls[c];
    assert task !in x.joined;
    assert x.pending - {task} + (x.joined + {task}) == w.log.drained[c];
  }

  lemma {:induction false} JoinPlaces(w: World, c: Id, task: Id, outcome: Outcome)
    requires c in w.calls && w.calls[c].Joining? && task in w.calls[c].pending
    ensures SamePlaces(w, JoinNext(w, c, task, outcome))
  {
  }

  lemma {:induction false} SettleJoins(w: World, c: Id)
    requires Joins(w) && c in w.calls && w.calls[c].Joining? && w.calls[c].pending == {}
    ensures Joins(SettleNext(w, c))
  {
    assert w.calls[c].joined == w.log.drained[c];
  }

  lemma {:induction false} SettlePlaces(w: World, c: Id)
    requires c in w.calls && w.calls[c].Joining? && w.calls[c].pending == {}
    ensures SamePlaces(w, SettleNext(w, c))
  {
  }

  lemma {:induction false} StepConserves(w: World, s: Step)
    requires Conserved(w) && Enabled(w, s)
    ensures Conserved(Next(w, s))
  {
    hide Conserved, Act;
    ActConserves(w, s);
    TickConserves(Act(w, s), Next(w, s));
  }

  lemma {:induction false} TickConserves(w: World, v: World)
    requires Conserved(w) && v == w.(log := w.log.(clock := v.log.clock))
    ensures Conserved(v)
  {
    hide Placed, Joins;
    SamePlacesPlaced(w, v);
    SameTallyJoins(w, v);
  }

  lemma {:induction false} ActConserves(w: World, s: Step)
    requires Conserved(w) && Enabled(w, s)
    ensures Conserved(Act(w, s))
  {
    hide Placed, Joins, SamePlaces, SameTally;
    hide InsertNext, DrainNext, JoinNext, SettleNext, CheckNext, MarkNext, SubscribeNext, SpawnNext, LookNext, SendNext;
    var v := Act(w, s);
    match s
    case Insert(c) => InsertPlaces(w, c); SameTallyJoins(w, v);
    case Drain(c) => DrainConserves(w, c);
    case Join(c, t, o) => JoinJoins(w, c, t, o); JoinPlaces(w, c, t, o); SamePlacesPlaced(w, v);
    case Settle(c) => SettleJoins(w, c); SettlePlaces(w, c); SamePlacesPlaced(w, v);
    case _ => QuietPlaces(w, s); QuietTally(w, s); SamePlacesPlaced(w, v); SameTallyJoins(w, v);
  }

  lemma {:induction false} RunConserves(steps: seq<Step>)
    requires Legal(steps)
    ensures Conserved(End(steps))
    decreases |steps|
  {
    hide Conserved, Next, Enabled;
    if steps == [] {
      InitConserves();
    } else {
      RunConserves(steps[..|steps| - 1]);
      StepConserves(End(steps[..|steps| - 1]), steps[|steps| - 1]);
    }
  }

  /** Before the first start nothing is accepted: every registration is rejected and every shutdown refused. */
  lemma {:induction false} NothingBeforeStart(steps: seq<Step>)
    requires Legal(steps) && Start !in steps
    ensures var w := End(steps);
            && w.phase == Initialized && w.tasks == map[] && w.receivers == {}
            && forall c | c in w.calls :: w.calls[c].Rejected? || w.calls[c].Refused?
    decreases |steps|
  {
    if steps != [] {
      var init, last := steps[..|steps| - 1], steps[|steps| - 1];
      assert last in steps && forall s | s in init :: s in steps;
      NothingBeforeStart(init);
    }
  }

  lemma {:induction false} InitConserves()
    ensures Conserved(Init)
  {
  }

  /** What a place says about the handle. */
  lemma {:induction false} PlaceMeans(w: World, t: Id, p: Place)
    requires Placed(w) && IsAt(w, t, p)
    ensures t in w.calls
    ensures match p
            case InCall => w.calls[t].Spawned?
            case InMap(name) => w.calls[t].Registered? && w.calls[t].name == name && t !in w.log.drainedBy
            case Detached => w.calls[t].Duplicate?
            case DrainedBy(d) => w.calls[t].Registered? && t in w.log.drainedBy && w.log.drainedBy[t] == d
  {
    match p
    case InCall =>
    case InMap(name) => assert w.tasks[name] == t && InTasks(w, t);
    case Detached =>
    case DrainedBy(d) => assert t in w.log.drained[d];
  }

  /** A handle is in no two places. */
  lemma {:induction false} PlacesExclude(w: World, t: Id, p: Place, q: Place)
    requires Placed(w) && IsAt(w, t, p) && IsAt(w, t, q)
    ensures p == q
  {
    hide Placed, IsAt;
    PlaceMeans(w, t, p);
    PlaceMeans(w, t, q);
  }

  /** Main result: in every interleaving each spawned handle is in exactly one place. */
  lemma {:induction false} ExactlyOnePlace(steps: seq<Step>, t: Id)
    requires Legal(steps) && t in End(steps).calls && HasTask(End(steps).calls[t])
    ensures exists p :: IsAt(End(steps), t, p) && forall q :: IsAt(End(steps), t, q) ==> q == p
  {
    hide Legal, End, IsAt, Placed, Joins;
    var w := End(steps);
    RunConserves(steps);
    var p := PlaceOf(w, t);
    forall q | IsAt(w, t, q) ensures q == p { PlacesExclude(w, t, p, q); }
  }

  ghost function PlaceOf(w: World, t: Id): (p: Place)
    requires Conserved(w) && t in w.calls && HasTask(w.calls[t])
    ensures IsAt(w, t, p)
  {
    if w.calls[t].Spawned? then InCall
    else if w.calls[t].Duplicate? then Detached
    else if InTasks(w, t) then InMap(w.calls[t].name)
    else DrainedBy(w.log.drainedBy[t])
  }

  // ---------------------------------------------------------------- what shutdowns return

  ghost function RegisteredTasks(w: World): set<Id> {
    set t | t in w.calls && w.calls[t].Registered?
  }

  /** The counts returned by the shutdowns numbered below `n`, added up. */
  function Counts(w: World, n: nat): nat {
    if n == 0 then 0
    else Counts(w, n - 1) + if n - 1 in w.calls && w.calls[n - 1].Finished? then w.calls[n - 1].count else 0
  }

  /** The tasks drained by those of them that returned a count. */
  ghost function Counted(w: World, n: nat): set<Id> {
    set t | t in w.log.drainedBy && w.log.drainedBy[t] < n
            && w.log.drainedBy[t] in w.calls && w.calls[w.log.drainedBy[t]].Finished?
  }

  lemma {:induction false} CountsCount(w: World, n: nat)
    requires DrainedApart(w) && Joins(w)
    ensures Counts(w, n) == |Counted(w, n)|
  {
    if n > 0 {
      var d := n - 1;
      CountsCount(w, d);
      if d in w.calls && w.calls[d].Finished? {
        assert Counted(w, n) == Counted(w, d) + w.log.drained[d];
        assert Counted(w, d) !! w.log.drained[d];
      } else {
        assert Counted(w, n) == Counted(w, d);
      }
    } else {
      assert Counted(w, 0) == {};
    }
  }

  /** A count that was returned is the number of tasks that call drained, and the returned counts of any shutdowns
      together never exceed the number of successful registrations. */
  lemma {:induction false} CountsBounded(steps: seq<Step>, n: nat)
    requires Legal(steps)
    ensures var w := End(steps);
            && Counts(w, n) <= |RegisteredTasks(w)|
            && (forall d | d in w.calls && w.calls[d].Finished? ::
                  d in w.log.drained && w.calls[d].count == |w.log.drained[d]|)
            && (forall d, e | d in w.log.drained && e in w.log.drained && d != e ::
                  w.log.drained[d] !! w.log.drained[e])
  {
    hide Legal, End;
    var w := End(steps);
    RunConserves(steps);
    CountsCount(w, n);
    SubsetSize(Counted(w, n), RegisteredTasks(w));
    DrainsAreDisjoint(w);
    hide Counted, RegisteredTasks, Counts, Placed;
  }

  lemma {:induction false} DrainsAreDisjoint(w: World)
    requires Conserved(w)
    ensures forall d, e | d in w.log.drained && e in w.log.drained && d != e :: w.log.drained[d] !! w.log.drained[e]
  {
    forall d, e | d in w.log.drained && e in w.log.drained && d != e ensures w.log.drained[d] !! w.log.drained[e] {
      assert forall t | t in w.log.drained[d] :: w.log.drainedBy[t] == d;
    }
  }

  lemma {:induction false} SubsetSize(a: set<Id>, b: set<Id>)
    requires a <= b
    ensures |a| <= |b|
  {
    assert b == a + (b - a);
  }
}
