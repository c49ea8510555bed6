/** The namespaced store: one flat map in memory, one table with a two-column primary key in SQL. */
module Storage {
  import opened Wrappers
  import opened Strings
  import opened Sorting
  import opened JsonText
  import opened Messages
  import opened Utf8

  datatype Record = Record(ns: string, key: string, value: Value, createdAt: u64, updatedAt: u64)

  /** `Put` carries both readings of the clock the in-memory store takes: `now` on entry, `later` for a fresh record. */
  datatype Op =
    | Put(ns: string, key: string, value: Value, now: u64, later: u64)
    | Get(ns: string, key: string)
    | Remove(ns: string, key: string)
    | Keys(ns: string)
    | Clear(ns: string)
    | Count(ns: string)

  datatype Reply =
    | Invalid
    | Broken
    | Done
    | Found(record: Option<Record>)
    | Removed(removed: bool)
    | Listed(keys: seq<string>)
    | Number(n: nat)

  predicate Valid(op: Op) {
    !IsBlank(op.ns) && (op.Put? || op.Get? || op.Remove? ==> !IsBlank(op.key))
  }

  // ---------------------------------------------------------------- the flat map

  type Flat = map<string, Record>

  function QualifiedKey(ns: string, key: string): string {
    ns + [NUL] + key
  }

  /** `split_once` at the first NUL. */
  function SplitOnce(s: string): Option<(string, string)> {
    if s == "" then None
    else if s[0] == NUL then Some(("", s[1..]))
    else
      var r := SplitOnce(s[1..]);
      if r.None? then None else Some(([s[0]] + r.value.0, r.value.1))
  }

  predicate InNamespace(q: string, ns: string) {
    SplitOnce(q).Some? && SplitOnce(q).value.0 == ns
  }

  function FlatLookup(values: Flat, ns: string, key: string): Option<Record> {
    var q := QualifiedKey(ns, key);
    if q in values then Some(values[q]) else None
  }

  function MakeRecord(ns: string, key: string, value: Value, existing: Option<Record>, now: u64, later: u64): Record {
    match existing
    case Some(previous) => Record(ns, key, value, previous.createdAt, now)
    case None => Record(ns, key, value, later, later)
  }

  ghost function FlatKeys(values: Flat, ns: string): set<string> {
    set q | q in values && InNamespace(q, ns) :: SplitOnce(q).value.1
  }

  function FlatCleared(values: Flat, ns: string): Flat {
    map q | q in values && !InNamespace(q, ns) :: values[q]
  }

  function FlatCount(values: Flat, ns: string): nat {
    |set q | q in values && StartsWith(q, ns + [NUL])|
  }

  /** What the in-memory store does, operation by operation. */
  ghost function FlatStep(values: Flat, op: Op): (Flat, Reply) {
    if !Valid(op) then (values, Invalid)
    else
      match op
      case Put(ns, key, value, now, later) =>
        (values[QualifiedKey(ns, key) := MakeRecord(ns, key, value, FlatLookup(values, ns, key), now, later)], Done)
      case Get(ns, key) => (values, Reply.Found(FlatLookup(values, ns, key)))
      case Remove(ns, key) => (values - {QualifiedKey(ns, key)}, Removed(QualifiedKey(ns, key) in values))
      case Keys(ns) => (values, Listed(Listing(FlatKeys(values, ns))))
      case Clear(ns) =>
        var left := FlatCleared(values, ns);
        (left, Number(if |left| <= |values| then |values| - |left| else 0))
      case Count(ns) => (values, Number(FlatCount(values, ns)))
  }

  class MemoryStore {
    var values: map<string, Record>

    constructor ()
      ensures values == map[]
    {
      values := map[];
    }

    method Put(ns: string, key: string, value: Value, now: u64, later: u64) returns (reply: Reply)
      modifies this
      ensures (values, reply) == FlatStep(old(values), Op.Put(ns, key, value, now, later))
    {
      if IsBlank(ns) || IsBlank(key) { return Invalid; }
      var q := QualifiedKey(ns, key);
      var current := if q in values then Some(values[q]) else None;
      values := values - {q};
      values := values[q := MakeRecord(ns, key, value, current, now, later)];
      assert values == old(values)[q := MakeRecord(ns, key, value, current, now, later)];
      reply := Done;
    }

    method Get(ns: string, key: string) returns (reply: Reply)
      ensures (values, reply) == FlatStep(values, Op.Get(ns, key))
    {
      if IsBlank(ns) || IsBlank(key) { return Invalid; }
      reply := Reply.Found(FlatLookup(values, ns, key));
    }

    method Remove(ns: string, key: string) returns (reply: Reply)
      modifies this
      ensures (values, reply) == FlatStep(old(values), Op.Remove(ns, key))
    {
      if IsBlank(ns) || IsBlank(key) { return Invalid; }
      reply := Removed(QualifiedKey(ns, key) in values);
      values := values - {QualifiedKey(ns, key)};
    }

    /** Collects the matching keys in whatever order the map yields them, then sorts. */
    method Keys(ns: string) returns (reply: Reply)
      ensures (values, reply) == FlatStep(values, Op.Keys(ns))
      ensures reply.Listed? ==> ByteAscending(reply.keys)
    {
      if IsBlank(ns) { return Invalid; }
      var found: seq<string> := [];
      var rest := values.Keys;
      while rest != {}
        invariant rest <= values.Keys
        invariant forall k :: k in found <==> exists q :: q in values && q !in rest && SplitOnce(q) == Some((ns, k))
      {
        var q :| q in rest;
        rest := rest - {q};
        if InNamespace(q, ns) {
          assert SplitOnce(q) == Some((ns, SplitOnce(q).value.1));
          found := found + [SplitOnce(q).value.1];
        }
      }
      AscendingUnique(SortKeys(found), Listing(FlatKeys(values, ns)));
      AscendingInBytes(SortKeys(found));
      reply := Listed(SortKeys(found));
    }

    method ClearNamespace(ns: string) returns (reply: Reply)
      modifies this
      ensures (values, reply) == FlatStep(old(values), Op.Clear(ns))
    {
      if IsBlank(ns) { return Invalid; }
      var before := |values|;
      values := FlatCleared(values, ns);
      reply := Number(if |values| <= before then before - |values| else 0);
    }

    method CountNamespace(ns: string) returns (reply: Reply)
      ensures (values, reply) == FlatStep(values, Op.Count(ns))
    {
      if IsBlank(ns) { return Invalid; }
      reply := Number(FlatCount(values, ns));
    }
  }

  // ---------------------------------------------------------------- the specification

  type Table = map<(string, string), Record>

  function Lookup(t: Table, ns: string, key: string): Option<Record> {
    if (ns, key) in t then Some(t[(ns, key)]) else None
  }

  ghost function TableKeys(t: Table, ns: string): set<string> {
    set p | p in t && p.0 == ns :: p.1
  }

  /** The store as its users see it: a map from (namespace, key). */
  ghost function TableStep(t: Table, op: Op): (Table, Reply) {
    if !Valid(op) then (t, Invalid)
    else
      match op
      case Put(ns, key, value, now, later) =>
        (t[(ns, key) := MakeRecord(ns, key, value, Lookup(t, ns, key), now, later)], Done)
      case Get(ns, key) => (t, Reply.Found(Lookup(t, ns, key)))
      case Remove(ns, key) => (t - {(ns, key)}, Removed((ns, key) in t))
      case Keys(ns) => (t, Listed(Listing(TableKeys(t, ns))))
      case Clear(ns) => (map p | p in t && p.0 != ns :: t[p], Number(|TableKeys(t, ns)|))
      case Count(ns) => (t, Number(|TableKeys(t, ns)|))
  }

  /** The flat map holds the table: flat keys are exactly namespace, NUL, key of their records. */
  predicate Represents(values: Flat, t: Table) {
    && (forall p | p in t :: NUL !in p.0 && t[p].ns == p.0 && t[p].key == p.1
                             && QualifiedKey(p.0, p.1) in values && values[QualifiedKey(p.0, p.1)] == t[p])
    && (forall q | q in values :: (values[q].ns, values[q].key) in t && q == QualifiedKey(values[q].ns, values[q].key))
  }

  lemma {:induction false} SplitQualified(ns: string, key: string)
    requires NUL !in ns
    ensures SplitOnce(QualifiedKey(ns, key)) == Some((ns, key))
  {
    var q := QualifiedKey(ns, key);
    if ns == "" {
      assert q[1..] == key;
    } else {
      assert q[1..] == QualifiedKey(ns[1..], key);
      SplitQualified(ns[1..], key);
      assert ns == [ns[0]] + ns[1..];
    }
  }

  lemma {:induction false} SplitParts(q: string)
    ensures var r := SplitOnce(q);
            r.Some? ==> NUL !in r.value.0 && q == QualifiedKey(r.value.0, r.value.1)
  {
    if q != "" && q[0] != NUL { SplitParts(q[1..]); }
  }

  /** For a namespace without NUL, the prefix test of `count_namespace` and the split of the other two agree on
      every flat key. */
  lemma {:induction false} PrefixIsNamespace(q: string, ns: string)
    requires NUL !in ns
    ensures StartsWith(q, ns + [NUL]) <==> InNamespace(q, ns)
  {
    if StartsWith(q, ns + [NUL]) {
      assert q == QualifiedKey(ns, q[|ns| + 1..]);
      SplitQualified(ns, q[|ns| + 1..]);
    }
    SplitParts(q);
  }

  lemma {:induction false} QualifiedSetSize(ns: string, keys: set<string>)
    ensures |(set k | k in keys :: QualifiedKey(ns, k))| == |keys|
  {
    if keys != {} {
      var k :| k in keys;
      QualifiedSetSize(ns, keys - {k});
      var image := set j | j in keys - {k} :: QualifiedKey(ns, j);
      forall j | j in keys - {k} ensures QualifiedKey(ns, j) != QualifiedKey(ns, k) {
        assert QualifiedKey(ns, j)[|ns| + 1..] == j && QualifiedKey(ns, k)[|ns| + 1..] == k;
      }
      assert (set j | j in keys :: QualifiedKey(ns, j)) == image + {QualifiedKey(ns, k)};
    }
  }

  /** The flat keys of one namespace, and how many there are. */
  lemma {:induction false} NamespaceSlice(values: Flat, ns: string)
    requires NUL !in ns
    ensures FlatCount(values, ns) == |FlatKeys(values, ns)|
    ensures |FlatCleared(values, ns)| + |FlatKeys(values, ns)| == |values|
  {
    var slice := set q | q in values && InNamespace(q, ns);
    var image := set k | k in FlatKeys(values, ns) :: QualifiedKey(ns, k);
    forall q | q in slice ensures q in image {
      SplitParts(q);
      assert SplitOnce(q).value.1 in FlatKeys(values, ns);
    }
    forall q | q in image ensures q in slice {
      var k :| k in FlatKeys(values, ns) && q == QualifiedKey(ns, k);
      var q' :| q' in values && InNamespace(q', ns) && SplitOnce(q').value.1 == k;
      SplitParts(q');
    }
    QualifiedSetSize(ns, FlatKeys(values, ns));
    assert slice == image;
    forall q | q in values ensures StartsWith(q, ns + [NUL]) <==> InNamespace(q, ns) { PrefixIsNamespace(q, ns); }
    assert (set q | q in values && StartsWith(q, ns + [NUL])) == slice;
    assert FlatCleared(values, ns).Keys + slice == values.Keys;
  }

  lemma {:induction false} KeysAgree(values: Flat, t: Table, ns: string)
    requires Represents(values, t) && NUL !in ns
    ensures FlatKeys(values, ns) == TableKeys(t, ns)
  {
    forall k | k in FlatKeys(values, ns) ensures k in TableKeys(t, ns) {
      var q :| q in values && InNamespace(q, ns) && SplitOnce(q).value.1 == k;
      SplitQualified(values[q].ns, values[q].key);
      assert (ns, k) in t;
    }
    forall k | k in TableKeys(t, ns) ensures k in FlatKeys(values, ns) {
      assert (ns, k) in t;
      SplitQualified(ns, k);
      assert QualifiedKey(ns, k) in values;
    }
  }

  lemma {:induction false} LookupAgrees(values: Flat, t: Table, ns: string, key: string)
    requires Represents(values, t) && NUL !in ns
    ensures FlatLookup(values, ns, key) == Lookup(t, ns, key)
  {
    var q := QualifiedKey(ns, key);
    SplitQualified(ns, key);
    if q in values {
      SplitQualified(values[q].ns, values[q].key);
    }
  }

  /** One operation: same reply, and the flat map still holds the table. */
  lemma {:induction false} StepRefines(values: Flat, t: Table, op: Op)
    requires Represents(values, t) && NUL !in op.ns
    ensures FlatStep(values, op).1 == TableStep(t, op).1
    ensures Represents(FlatStep(values, op).0, TableStep(t, op).0)
  {
    if Valid(op) {
      match op
      case Put(_, _, _, _, _) => PutRefines(values, t, op);
      case Get(ns, key) => LookupAgrees(values, t, ns, key);
      case Remove(_, _) => RemoveRefines(values, t, op);
      case Keys(ns) => KeysAgree(values, t, ns);
      case Clear(_) => ClearRefines(values, t, op);
      case Count(ns) =>
        KeysAgree(values, t, ns);
        NamespaceSlice(values, ns);
    }
  }

  lemma {:induction false} PutRefines(values: Flat, t: Table, op: Op)
    requires Represents(values, t) && NUL !in op.ns && op.Put? && Valid(op)
    ensures FlatStep(values, op).1 == TableStep(t, op).1
    ensures Represents(FlatStep(values, op).0, TableStep(t, op).0)
  {
    LookupAgrees(values, t, op.ns, op.key);
    QualifiedInjective(values, t, op.ns, op.key);
  }

  lemma {:induction false} RemoveRefines(values: Flat, t: Table, op: Op)
    requires Represents(values, t) && NUL !in op.ns && op.Remove? && Valid(op)
    ensures FlatStep(values, op).1 == TableStep(t, op).1
    ensures Represents(FlatStep(values, op).0, TableStep(t, op).0)
  {
    LookupAgrees(values, t, op.ns, op.key);
    QualifiedInjective(values, t, op.ns, op.key);
  }

  lemma {:induction false} ClearRefines(values: Flat, t: Table, op: Op)
    requires Represents(values, t) && NUL !in op.ns && op.Clear? && Valid(op)
    ensures FlatStep(values, op).1 == TableStep(t, op).1
    ensures Represents(FlatStep(values, op).0, TableStep(t, op).0)
  {
    KeysAgree(values, t, op.ns);
    NamespaceSlice(values, op.ns);
    forall p | p in t ensures InNamespace(QualifiedKey(p.0, p.1), op.ns) <==> p.0 == op.ns {
      SplitQualified(p.0, p.1);
    }
  }

  lemma {:induction false} QualifiedInjective(values: Flat, t: Table, ns: string, key: string)
    requires Represents(values, t) && NUL !in ns
    ensures forall p | p in t && QualifiedKey(p.0, p.1) == QualifiedKey(ns, key) :: p == (ns, key)
  {
    SplitQualified(ns, key);
    forall p | p in t && QualifiedKey(p.0, p.1) == QualifiedKey(ns, key) ensures p == (ns, key) {
      SplitQualified(p.0, p.1);
    }
  }
}
