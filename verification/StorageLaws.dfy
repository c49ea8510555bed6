/** Whole runs of the store: refinement, agreement of the two implementations, isolation and bookkeeping. */
module StorageLaws {
  import opened Wrappers
  import opened Strings
  import opened Sequences
  import opened Sorting
  import opened JsonText
  import opened JsonLaws
  import opened Messages
  import opened Utf8
  import opened Storage
  import opened StorageSql

  ghost function RunFlat(values: Flat, ops: seq<Op>): (Flat, seq<Reply>)
    decreases ops
  {
    if ops == [] then (values, [])
    else
      var (v, reply) := FlatStep(values, ops[0]);
      var (end, replies) := RunFlat(v, ops[1..]);
      (end, [reply] + replies)
  }

  ghost function RunTable(t: Table, ops: seq<Op>): (Table, seq<Reply>)
    decreases ops
  {
    if ops == [] then (t, [])
    else
      var (u, reply) := TableStep(t, ops[0]);
      var (end, replies) := RunTable(u, ops[1..]);
      (end, [reply] + replies)
  }

  ghost function RunSql(rows: Rows, ops: seq<Op>): (Rows, seq<Reply>)
    decreases ops
  {
    if ops == [] then (rows, [])
    else
      var (r, reply) := SqlStep(rows, ops[0]);
      var (end, replies) := RunSql(r, ops[1..]);
      (end, [reply] + replies)
  }

  predicate NulFree(ops: seq<Op>) {
    forall op | op in ops :: NUL !in op.ns
  }

  /** Refinement over runs: with NUL-free namespaces the flat map answers as a map from (namespace, key) would. */
  lemma {:induction false} RunRefines(values: Flat, t: Table, ops: seq<Op>)
    requires Represents(values, t) && NulFree(ops)
    ensures RunFlat(values, ops).1 == RunTable(t, ops).1
    ensures Represents(RunFlat(values, ops).0, RunTable(t, ops).0)
    decreases ops
  {
    hide Represents, FlatStep, TableStep;
    if ops != [] {
      StepRefines(values, t, ops[0]);
      RunRefines(FlatStep(values, ops[0]).0, TableStep(t, ops[0]).0, ops[1..]);
    }
  }

  // ---------------------------------------------------------------- one key's history

  /** What a look at (ns, key) finds: nothing, or the last value put since it was last removed or its namespace
      cleared, with the time of that put and the time of the first put since then. */
  datatype Register = Empty | Holding(value: Value, first: u64, last: u64)

  predicate NamesKey(op: Op, ns: string, key: string) {
    (op.Put? || op.Remove?) && op.ns == ns && op.key == key
  }

  function Written(r: Register, op: Op, ns: string, key: string): Register {
    if NamesKey(op, ns, key) && op.Put? then
      (if r.Empty? then Holding(op.value, op.later, op.later) else Holding(op.value, r.first, op.now))
    else if NamesKey(op, ns, key) || (op.Clear? && op.ns == ns) then Empty
    else r
  }

  function History(r: Register, ops: seq<Op>, ns: string, key: string): Register
    decreases |ops|
  {
    if ops == [] then r else History(Written(r, ops[0], ns, key), ops[1..], ns, key)
  }

  function RegisterOf(ns: string, key: string, found: Option<Record>): Register {
    if found.None? then Empty else Holding(found.value.value, found.value.createdAt, found.value.updatedAt)
  }

  lemma {:induction false} TableIsRegisters(t: Table, ops: seq<Op>, ns: string, key: string)
    requires !IsBlank(ns) && !IsBlank(key)
    ensures RegisterOf(ns, key, Lookup(RunTable(t, ops).0, ns, key))
         == History(RegisterOf(ns, key, Lookup(t, ns, key)), ops, ns, key)
    decreases |ops|
  {
    if ops != [] {
      var u := TableStep(t, ops[0]).0;
      OneWrite(t, ops[0], ns, key);
      TableIsRegisters(u, ops[1..], ns, key);
      hide TableStep, Written, IsBlank;
    }
  }

  lemma {:induction false} OneWrite(t: Table, op: Op, ns: string, key: string)
    requires !IsBlank(ns) && !IsBlank(key)
    ensures RegisterOf(ns, key, Lookup(TableStep(t, op).0, ns, key))
         == Written(RegisterOf(ns, key, Lookup(t, ns, key)), op, ns, key)
  {
    hide IsBlank;
  }

  /** Reading gives what the history of this one key says, whatever else was done to other keys and namespaces. */
  lemma {:induction false} GetReadsHistory(ops: seq<Op>, ns: string, key: string)
    requires NulFree(ops) && NUL !in ns && !IsBlank(ns) && !IsBlank(key)
    ensures var reply := FlatStep(RunFlat(map[], ops).0, Op.Get(ns, key)).1;
            match History(Empty, ops, ns, key)
            case Empty => reply == Reply.Found(None)
            case Holding(value, first, last) => reply == Reply.Found(Some(Record(ns, key, value, first, last)))
  {
    hide Represents, RunFlat, RunTable, IsBlank;
    assert Represents(map[], map[]) by { EmptyRepresents(); }
    RunRefines(map[], map[], ops);
    var t := RunTable(map[], ops).0;
    StepRefines(RunFlat(map[], ops).0, t, Op.Get(ns, key));
    TableIsRegisters(map[], ops, ns, key);
    TableNames(RunFlat(map[], ops).0, t);
  }

  lemma {:induction false} EmptyRepresents()
    ensures Represents(map[], map[])
  {
  }

  lemma {:induction false} TableNames(values: Flat, t: Table)
    requires Represents(values, t)
    ensures forall p | p in t :: t[p].ns == p.0 && t[p].key == p.1
  {
  }

  /** A blank namespace, or a blank key where one is named, is refused without effect, and nothing else is. */
  lemma {:induction false} BlankIsInvalid(values: Flat, rows: Rows, op: Op)
    ensures var blank := IsBlank(op.ns) || ((op.Put? || op.Get? || op.Remove?) && IsBlank(op.key));
            && (FlatStep(values, op).1 == Invalid <==> blank) && (SqlStep(rows, op).1 == Invalid <==> blank)
            && (blank ==> FlatStep(values, op).0 == values && SqlStep(rows, op).0 == rows)
  {
    hide IsBlank;
  }

  /** Both times of every row are signed 64-bit integers. */
  predicate TimesFit(rows: Rows) {
    forall p | p in rows ::
      && -0x8000_0000_0000_0000 <= rows[p].createdAt < 0x8000_0000_0000_0000
      && -0x8000_0000_0000_0000 <= rows[p].updatedAt < 0x8000_0000_0000_0000
  }

  /** No operation writes anything else. */
  lemma {:induction false} TimesStayFit(rows: Rows, ops: seq<Op>)
    requires TimesFit(rows)
    ensures TimesFit(RunSql(rows, ops).0)
    decreases |ops|
  {
    if ops != [] {
      assert TimesFit(SqlStep(rows, ops[0]).0) by { hide Print, Parse, IsBlank; }
      TimesStayFit(SqlStep(rows, ops[0]).0, ops[1..]);
    }
  }

  /** The SQL store fails exactly on a row it cannot use: a get whose text does not parse or whose times are negative,
      a put onto a row with a negative time of creation. The in-memory store never fails. */
  lemma {:induction false} BrokenRows(values: Flat, rows: Rows, op: Op)
    requires TimesFit(rows)
    ensures FlatStep(values, op).1 != Broken
    ensures SqlStep(rows, op).1 == Broken <==>
            && Valid(op) && (op.Put? || op.Get?) && (op.ns, op.key) in rows
            && var row := rows[(op.ns, op.key)];
               row.createdAt < 0 || (op.Get? && (row.updatedAt < 0 || Parse(row.text).None?))
    ensures SqlStep(rows, op).1 == Broken ==> SqlStep(rows, op).0 == rows
  {
    hide IsBlank, Parse, ToValue;
  }

  // ---------------------------------------------------------------- two implementations

  /** What the SQL store needs to keep a record: readable text, a time that fits a signed integer, and, where the
      record is new, one clock reading for both stores. */
  predicate Storable(t: Table, op: Op) {
    op.Put? && Valid(op) ==>
      && op.now < I64_END && FloatFree(op.value) && Depth(op.value) <= MAX_DEPTH
      && ((op.ns, op.key) !in t ==> op.now == op.later)
  }

  /** Every put is storable where it stands. */
  ghost predicate AllStorable(t: Table, ops: seq<Op>)
    decreases ops
  {
    ops == [] || (Storable(t, ops[0]) && AllStorable(TableStep(t, ops[0]).0, ops[1..]))
  }

  predicate RowHolds(row: Row, r: Record) {
    && row == Row(Print(r.value), r.createdAt, r.updatedAt)
    && r.createdAt < I64_END && r.updatedAt < I64_END && FloatFree(r.value) && Depth(r.value) <= MAX_DEPTH
  }

  predicate SqlRepresents(rows: Rows, t: Table) {
    rows.Keys == t.Keys && forall p | p in t :: t[p].ns == p.0 && t[p].key == p.1 && RowHolds(rows[p], t[p])
  }

  lemma {:induction false} RowReads(row: Row, r: Record)
    requires RowHolds(row, r)
    ensures RecordOf(r.ns, r.key, row) == Some(r)
  {
    ValueIsFixed(r.value);
    DocumentRoundTrip(r.value);
  }

  lemma {:induction false} SqlPutRefines(rows: Rows, t: Table, op: Op)
    requires SqlRepresents(rows, t) && op.Put? && Storable(t, op) && Valid(op)
    ensures SqlStep(rows, op).1 == TableStep(t, op).1
    ensures SqlRepresents(SqlStep(rows, op).0, TableStep(t, op).0)
  {
    hide Print, FloatFree, Depth, RecordOf, IsBlank;
    var p := (op.ns, op.key);
    var r := MakeRecord(op.ns, op.key, op.value, Lookup(t, op.ns, op.key), op.now, op.later);
    assert TableStep(t, op).0 == t[p := r];
    assert SqlStep(rows, op).0 == rows[p := Row(Print(r.value), r.createdAt, r.updatedAt)];
  }

  lemma {:induction false} SqlStepRefines(rows: Rows, t: Table, op: Op)
    requires SqlRepresents(rows, t) && Storable(t, op)
    ensures SqlStep(rows, op).1 == TableStep(t, op).1
    ensures SqlRepresents(SqlStep(rows, op).0, TableStep(t, op).0)
  {
    if op.Put? && Valid(op) {
      hide SqlStep, TableStep, SqlRepresents;
      SqlPutRefines(rows, t, op);
    } else {
      hide Print, FloatFree, Depth, RecordOf;
      assert RowKeys(rows, op.ns) == TableKeys(t, op.ns);
      if op.Get? && (op.ns, op.key) in t {
        RowReads(rows[(op.ns, op.key)], t[(op.ns, op.key)]);
      }
    }
  }

  lemma {:induction false} RunSqlRefines(rows: Rows, t: Table, ops: seq<Op>)
    requires SqlRepresents(rows, t) && AllStorable(t, ops)
    ensures RunSql(rows, ops).1 == RunTable(t, ops).1
    decreases ops
  {
    hide SqlRepresents, SqlStep, TableStep, Storable;
    if ops != [] {
      SqlStepRefines(rows, t, ops[0]);
      RunSqlRefines(SqlStep(rows, ops[0]).0, TableStep(t, ops[0]).0, ops[1..]);
    }
  }

  /** Main result: from empty stores, operations whose puts are storable where they stand get the same replies from
      both implementations. */
  lemma {:induction false} BackendsAgree(ops: seq<Op>)
    requires NulFree(ops) && AllStorable(map[], ops)
    ensures RunFlat(map[], ops).1 == RunSql(map[], ops).1
  {
    RunRefines(map[], map[], ops);
    RunSqlRefines(map[], map[], ops);
  }

  /** Every put is followed by a look at what it put. */
  predicate Probed(ops: seq<Op>)
    decreases ops
  {
    ops == []
    || ((ops[0].Put? ==> |ops| > 1 && ops[1] == Op.Get(ops[0].ns, ops[0].key)) && Probed(ops[1..]))
  }

  predicate PutsFloatFree(ops: seq<Op>) {
    forall op | op in ops && op.Put? :: FloatFree(op.value)
  }

  /** A put that is not storable shows at the next look. */
  lemma {:induction false} UnstorableShows(rows: Rows, t: Table, op: Op)
    requires SqlRepresents(rows, t) && op.Put? && Valid(op) && FloatFree(op.value) && !Storable(t, op)
    ensures var get := Op.Get(op.ns, op.key);
            SqlStep(SqlStep(rows, op).0, get).1 != TableStep(TableStep(t, op).0, get).1
  {
    hide Print, FloatFree, Depth, Parse, IsBlank;
    ValueIsFixed(op.value);
    DocumentRoundTrip(op.value);
    var p, get := (op.ns, op.key), Op.Get(op.ns, op.key);
    var r := MakeRecord(op.ns, op.key, op.value, Lookup(t, op.ns, op.key), op.now, op.later);
    assert TableStep(TableStep(t, op).0, get).1 == Reply.Found(Some(r));
    var row := SqlStep(rows, op).0[p];
    assert row.text == Print(op.value) && row.updatedAt == AsI64(op.now);
  }

  lemma {:induction false} RepliesUnfold(rows: Rows, t: Table, ops: seq<Op>)
    requires ops != []
    ensures RunSql(rows, ops).1 == [SqlStep(rows, ops[0]).1] + RunSql(SqlStep(rows, ops[0]).0, ops[1..]).1
    ensures RunTable(t, ops).1 == [TableStep(t, ops[0]).1] + RunTable(TableStep(t, ops[0]).0, ops[1..]).1
  {
    hide SqlStep, TableStep;
  }

  lemma {:induction false} AgreeMeansStorable(rows: Rows, t: Table, ops: seq<Op>)
    requires SqlRepresents(rows, t) && Probed(ops) && PutsFloatFree(ops)
    requires RunSql(rows, ops).1 == RunTable(t, ops).1
    ensures AllStorable(t, ops)
    decreases ops
  {
    hide SqlRepresents, SqlStep, TableStep, Storable, RunSql, RunTable;
    if ops != [] {
      var op, rest := ops[0], ops[1..];
      var r, u := SqlStep(rows, op).0, TableStep(t, op).0;
      assert op in ops && forall x | x in rest :: x in ops;
      RepliesUnfold(rows, t, ops);
      SameCons(SqlStep(rows, op).1, TableStep(t, op).1, RunSql(r, rest).1, RunTable(u, rest).1);
      if Storable(t, op) {
        SqlStepRefines(rows, t, op);
        AgreeMeansStorable(r, u, rest);
      } else {
        UnstorableIsPut(t, op);
        RepliesUnfold(r, u, rest);
        SameCons(SqlStep(r, rest[0]).1, TableStep(u, rest[0]).1,
                 RunSql(SqlStep(r, rest[0]).0, rest[1..]).1, RunTable(TableStep(u, rest[0]).0, rest[1..]).1);
        UnstorableShows(rows, t, op);
      }
    }
  }

  lemma {:induction false} UnstorableIsPut(t: Table, op: Op)
    requires !Storable(t, op)
    ensures op.Put? && Valid(op)
  {
  }

  /** The condition is exact: where every put is looked at, the stores answer alike if and only if every put is
      storable where it stands. */
  lemma {:induction false} AgreeIffStorable(ops: seq<Op>)
    requires NulFree(ops) && Probed(ops) && PutsFloatFree(ops)
    ensures RunFlat(map[], ops).1 == RunSql(map[], ops).1 <==> AllStorable(map[], ops)
  {
    RunRefines(map[], map[], ops);
    if AllStorable(map[], ops) { RunSqlRefines(map[], map[], ops); }
    if RunFlat(map[], ops).1 == RunSql(map[], ops).1 { AgreeMeansStorable(map[], map[], ops); }
  }

  lemma {:induction false} RunTwo(values: Flat, rows: Rows, a: Op, b: Op)
    ensures RunFlat(values, [a, b]).1 == [FlatStep(values, a).1, FlatStep(FlatStep(values, a).0, b).1]
    ensures RunSql(rows, [a, b]).1 == [SqlStep(rows, a).1, SqlStep(SqlStep(rows, a).0, b).1]
  {
    hide FlatStep, SqlStep;
    assert [a, b][1..] == [b] && [b][1..] == [];
    var v, r := FlatStep(values, a).0, SqlStep(rows, a).0;
    assert RunFlat(v, [b]).1 == [FlatStep(v, b).1];
    assert RunSql(r, [b]).1 == [SqlStep(r, b).1];
  }

  // ---------------------------------------------------------------- isolation

  ghost predicate SameSlice(t: Table, u: Table, ns: string) {
    forall k :: Lookup(t, ns, k) == Lookup(u, ns, k)
  }

  lemma {:induction false} OthersKeepTheirSlice(t: Table, op: Op, ns: string)
    requires op.ns != ns
    ensures SameSlice(t, TableStep(t, op).0, ns)
  {
  }

  lemma {:induction false} SliceDecidesReply(t: Table, u: Table, query: Op)
    requires SameSlice(t, u, query.ns)
    ensures TableStep(t, query).1 == TableStep(u, query).1
  {
    var ns := query.ns;
    forall k ensures (ns, k) in t <==> (ns, k) in u {
      assert Lookup(t, ns, k) == Lookup(u, ns, k);
    }
    assert TableKeys(t, ns) == TableKeys(u, ns);
    if query.Get? || query.Remove? {
      assert Lookup(t, ns, query.key) == Lookup(u, ns, query.key);
    }
  }

  /** An operation on one namespace changes no reply to any operation on another. */
  lemma {:induction false} Isolation(values: Flat, t: Table, op: Op, query: Op)
    requires Represents(values, t) && NUL !in op.ns && NUL !in query.ns && op.ns != query.ns
    ensures FlatStep(FlatStep(values, op).0, query).1 == FlatStep(values, query).1
  {
    hide Represents, FlatStep, TableStep, SameSlice;
    var u := TableStep(t, op).0;
    StepRefines(values, t, op);
    StepRefines(FlatStep(values, op).0, u, query);
    StepRefines(values, t, query);
    OthersKeepTheirSlice(t, op, query.ns);
    SliceDecidesReply(t, u, query);
  }

  // ---------------------------------------------------------------- namespaces with NUL

  lemma {:induction false} NulPairsAreNotBlank()
    ensures !IsBlank("a\0b") && !IsBlank("c") && !IsBlank("a") && !IsBlank("b\0c")
  {
    TrimFacts("a\0b");
    TrimFacts("c");
    TrimFacts("a");
    TrimFacts("b\0c");
    assert 'a' in "a\0b" && 'c' in "c" && 'a' in "a" && 'b' in "b\0c";
  }

  /** With a NUL inside, two different pairs share a flat key: what one puts, the other reads. */
  lemma {:induction false} NulCollides(value: Value, now: u64)
    ensures QualifiedKey("a\0b", "c") == QualifiedKey("a", "b\0c")
    ensures RunFlat(map[], [Op.Put("a\0b", "c", value, now, now), Op.Get("a", "b\0c")]).1
         == [Done, Reply.Found(Some(Record("a\0b", "c", value, now, now)))]
  {
    var put, get := Op.Put("a\0b", "c", value, now, now), Op.Get("a", "b\0c");
    hide IsBlank;
    assert QualifiedKey("a\0b", "c") == "a\0b\0c" == QualifiedKey("a", "b\0c");
    NulPairsAreNotBlank();
    assert Valid(put) && Valid(get);
    RunTwo(map[], map[], put, get);
  }

  /** The pair (namespace, key) is recoverable from the flat key for all keys exactly when the namespace has no NUL. */
  lemma {:induction false} SplitInvertsIffNulFree(ns: string)
    ensures NUL !in ns <==> forall key :: SplitOnce(QualifiedKey(ns, key)) == Some((ns, key))
  {
    forall key | NUL !in ns ensures SplitOnce(QualifiedKey(ns, key)) == Some((ns, key)) { SplitQualified(ns, key); }
    SplitParts(QualifiedKey(ns, ""));
  }

  ghost predicate QueriesAgree(values: Flat, ns: string) {
    && FlatCount(values, ns) == |Listing(FlatKeys(values, ns))|
    && |FlatCleared(values, ns)| + FlatCount(values, ns) == |values|
  }

  /** `keys`, `count_namespace` and `clear_namespace` report the same number on every store exactly when the
      namespace has no NUL. */
  lemma {:induction false} QueriesAgreeIffNulFree(ns: string)
    ensures NUL !in ns <==> forall values: Flat :: QueriesAgree(values, ns)
  {
    if NUL !in ns {
      forall values: Flat ensures QueriesAgree(values, ns) {
        NamespaceSlice(values, ns);
        ListingLength(FlatKeys(values, ns));
      }
    } else {
      var q := QualifiedKey(ns, "k");
      var values: Flat := map[q := Record(ns, "k", JNull, 0, 0)];
      SplitParts(q);
      assert q[..|ns| + 1] == ns + [NUL];
      assert q in (set p | p in values && StartsWith(p, ns + [NUL]));
      assert FlatKeys(values, ns) == {};
      assert !QueriesAgree(values, ns);
    }
  }

  // ---------------------------------------------------------------- bookkeeping

  /** The clock readings of a run in order, none before `start`. */
  predicate ClockFrom(start: u64, ops: seq<Op>)
    decreases ops
  {
    ops == [] || (if ops[0].Put? then start <= ops[0].now <= ops[0].later && ClockFrom(ops[0].later, ops[1..])
                  else ClockFrom(start, ops[1..]))
  }

  predicate TimesOrdered(values: Flat) {
    forall q | q in values :: values[q].createdAt <= values[q].updatedAt
  }

  predicate TimesUpTo(values: Flat, now: u64) {
    TimesOrdered(values) && forall q | q in values :: values[q].updatedAt <= now
  }

  predicate Deletes(op: Op, ns: string, key: string) {
    op.ns == ns && (op.Clear? || (op.Remove? && op.key == key))
  }

  lemma {:induction false} TimesStep(values: Flat, now: u64, op: Op)
    requires TimesUpTo(values, now) && (op.Put? ==> now <= op.now <= op.later)
    ensures TimesUpTo(FlatStep(values, op).0, if op.Put? then op.later else now)
  {
    hide QualifiedKey, IsBlank, InNamespace, StartsWith;
  }

  /** Under a monotone clock and serialised puts, no record of the store is changed before it was created, whatever
      the namespaces look like. */
  lemma {:induction false} TimesStayOrdered(values: Flat, now: u64, ops: seq<Op>)
    requires TimesUpTo(values, now) && ClockFrom(now, ops)
    ensures TimesOrdered(RunFlat(values, ops).0)
    decreases ops
  {
    hide FlatStep;
    if ops != [] {
      TimesStep(values, now, ops[0]);
      TimesStayOrdered(FlatStep(values, ops[0]).0, if ops[0].Put? then ops[0].later else now, ops[1..]);
    }
  }

  lemma {:induction false} TableKeepsCreated(t: Table, ops: seq<Op>, ns: string, key: string)
    requires (ns, key) in t && forall op | op in ops :: !Deletes(op, ns, key)
    ensures (ns, key) in RunTable(t, ops).0 && RunTable(t, ops).0[(ns, key)].createdAt == t[(ns, key)].createdAt
    decreases ops
  {
    if ops != [] {
      assert !Deletes(ops[0], ns, key);
      TableKeepsCreated(TableStep(t, ops[0]).0, ops[1..], ns, key);
    }
  }

  /** From its insertion until it is deleted, a record of the store stays and keeps its creation time, as long as no
      namespace has a NUL. */
  lemma {:induction false} CreatedIsFixed(values: Flat, t: Table, ops: seq<Op>, ns: string, key: string)
    requires Represents(values, t) && NulFree(ops) && NUL !in ns
    requires FlatLookup(values, ns, key).Some? && forall op | op in ops :: !Deletes(op, ns, key)
    ensures var later := FlatLookup(RunFlat(values, ops).0, ns, key);
            later.Some? && later.value.createdAt == FlatLookup(values, ns, key).value.createdAt
  {
    hide Represents, RunFlat, RunTable, FlatLookup;
    LookupAgrees(values, t, ns, key);
    RunRefines(values, t, ops);
    TableKeepsCreated(t, ops, ns, key);
    LookupAgrees(RunFlat(values, ops).0, RunTable(t, ops).0, ns, key);
  }

  /** With a NUL it does not: removing one pair deletes the record of another. */
  lemma {:induction false} NulDeletes(value: Value, now: u64)
    ensures var put, remove := Op.Put("a\0b", "c", value, now, now), Op.Remove("a", "b\0c");
            && !Deletes(remove, "a\0b", "c")
            && FlatLookup(FlatStep(map[], put).0, "a\0b", "c").Some?
            && FlatLookup(FlatStep(FlatStep(map[], put).0, remove).0, "a\0b", "c").None?
  {
    NulCollides(value, now);
    NulPairsAreNotBlank();
    hide QualifiedKey, IsBlank;
  }

  /** Serialisation matters: a put whose clock reading predates a record's creation leaves it changed before
      created, and no other put does. */
  lemma {:induction false} StaleClock(values: Flat, ns: string, key: string, value: Value, now: u64, later: u64)
    requires TimesOrdered(values) && !IsBlank(ns) && !IsBlank(key)
    ensures var before := FlatLookup(values, ns, key);
            TimesOrdered(FlatStep(values, Op.Put(ns, key, value, now, later)).0)
            <==> (before.Some? ==> before.value.createdAt <= now)
  {
    hide QualifiedKey, IsBlank;
    var q, v := QualifiedKey(ns, key), FlatStep(values, Op.Put(ns, key, value, now, later)).0;
    assert v[q] == MakeRecord(ns, key, value, FlatLookup(values, ns, key), now, later);
  }

  /** What the three queries say about one namespace of the live store, and that clearing empties it. */
  lemma {:induction false} NamespaceReport(values: Flat, t: Table, ns: string)
    requires Represents(values, t) && NUL !in ns && !IsBlank(ns)
    ensures var names := FlatStep(values, Op.Keys(ns)).1.keys;
            && ByteAscending(names) && (forall k :: k in names <==> (ns, k) in t)
            && FlatStep(values, Op.Count(ns)).1 == Number(|names|)
            && FlatStep(values, Op.Clear(ns)).1 == Number(|names|)
            && FlatStep(FlatStep(values, Op.Clear(ns)).0, Op.Keys(ns)).1 == Listed([])
  {
    hide Represents, FlatStep;
    StepRefines(values, t, Op.Keys(ns));
    StepRefines(values, t, Op.Count(ns));
    StepRefines(values, t, Op.Clear(ns));
    var cleared := TableStep(t, Op.Clear(ns)).0;
    StepRefines(FlatStep(values, Op.Clear(ns)).0, cleared, Op.Keys(ns));
    ListingLength(TableKeys(t, ns));
    AscendingInBytes(Listing(TableKeys(t, ns)));
    assert TableKeys(cleared, ns) == {};
    forall k ensures k in TableKeys(t, ns) <==> (ns, k) in t { assert (ns, k) in t ==> (ns, k).1 == k; }
  }
}
