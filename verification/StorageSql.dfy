/** The SQL implementation: six statements over a table whose rows hold the value as JSON text and the times as
    signed integers. */
module StorageSql {
  import opened Wrappers
  import opened Strings
  import opened Sorting
  import opened JsonText
  import opened Messages
  import opened Utf8
  import opened Storage

  datatype Row = Row(text: string, createdAt: int, updatedAt: int)

  type Rows = map<(string, string), Row>

  /** `as i64`. */
  function AsI64(n: u64): int {
    if n < I64_END then n else n - U64_END
  }

  /** `record_to_entry`: the text must parse and both times must be representable again. */
  function RecordOf(ns: string, key: string, row: Row): Option<Record> {
    var j := Parse(row.text);
    if j.None? then None
    else if !(0 <= row.createdAt < U64_END && 0 <= row.updatedAt < U64_END) then None
    else Some(Record(ns, key, ToValue(j.value), row.createdAt, row.updatedAt))
  }

  ghost function RowKeys(rows: Rows, ns: string): set<string> {
    set p | p in rows && p.0 == ns :: p.1
  }

  ghost function SqlStep(rows: Rows, op: Op): (Rows, Reply) {
    if !Valid(op) then (rows, Invalid)
    else
      match op
      case Put(ns, key, value, now, _) =>
        if (ns, key) !in rows then (rows[(ns, key) := Row(Print(value), AsI64(now), AsI64(now))], Done)
        else if rows[(ns, key)].createdAt < 0 then (rows, Broken)
        else (rows[(ns, key) := Row(Print(value), rows[(ns, key)].createdAt, AsI64(now))], Done)
      case Get(ns, key) =>
        if (ns, key) !in rows then (rows, Reply.Found(None))
        else
          var r := RecordOf(ns, key, rows[(ns, key)]);
          (rows, if r.None? then Broken else Reply.Found(r))
      case Remove(ns, key) => (rows - {(ns, key)}, Removed((ns, key) in rows))
      case Keys(ns) => (rows, Listed(Listing(RowKeys(rows, ns))))
      case Clear(ns) => (map p | p in rows && p.0 != ns :: rows[p], Number(|RowKeys(rows, ns)|))
      case Count(ns) => (rows, Number(|RowKeys(rows, ns)|))
  }

  lemma {:induction false} RowKeysSize(ns: string, keys: set<string>)
    ensures |(set k | k in keys :: (ns, k))| == |keys|
  {
    if keys != {} {
      var k :| k in keys;
      RowKeysSize(ns, keys - {k});
      assert (set j | j in keys :: (ns, j)) == (set j | j in keys - {k} :: (ns, j)) + {(ns, k)};
    }
  }

  class SqliteStore {
    var rows: map<(string, string), Row>

    constructor ()
      ensures rows == map[]
    {
      rows := map[];
    }

    /** One transaction: select the creation time, then insert or, on conflict, update value and time of change. */
    method Put(ns: string, key: string, value: Value, now: u64) returns (reply: Reply)
      modifies this
      ensures forall later :: (rows, reply) == SqlStep(old(rows), Op.Put(ns, key, value, now, later))
    {
      if IsBlank(ns) || IsBlank(key) { return Invalid; }
      var payload := Print(value);
      var createdAt := now;
      if (ns, key) in rows {
        if rows[(ns, key)].createdAt < 0 { return Broken; }
        rows := rows[(ns, key) := rows[(ns, key)].(text := payload, updatedAt := AsI64(now))];
      } else {
        rows := rows[(ns, key) := Row(payload, AsI64(createdAt), AsI64(now))];
      }
      reply := Done;
    }

    method Get(ns: string, key: string) returns (reply: Reply)
      ensures (rows, reply) == SqlStep(rows, Op.Get(ns, key))
    {
      if IsBlank(ns) || IsBlank(key) { return Invalid; }
      if (ns, key) !in rows { return Reply.Found(None); }
      var r := RecordOf(ns, key, rows[(ns, key)]);
      reply := if r.None? then Broken else Reply.Found(r);
    }

    method Remove(ns: string, key: string) returns (reply: Reply)
      modifies this
      ensures (rows, reply) == SqlStep(old(rows), Op.Remove(ns, key))
    {
      if IsBlank(ns) || IsBlank(key) { return Invalid; }
      reply := Removed((ns, key) in rows);
      rows := rows - {(ns, key)};
    }

    /** Selects the keys of one namespace in ascending order, row by row. */
    method Keys(ns: string) returns (reply: Reply)
      ensures (rows, reply) == SqlStep(rows, Op.Keys(ns))
      ensures reply.Listed? ==> ByteAscending(reply.keys)
    {
      if IsBlank(ns) { return Invalid; }
      var keys: seq<string> := [];
      var rest := rows.Keys;
      while rest != {}
        invariant rest <= rows.Keys
        invariant Ascending(keys)
        invariant forall k :: k in keys <==> (ns, k) in rows && (ns, k) !in rest
      {
        var p :| p in rest;
        rest := rest - {p};
        if p.0 == ns { keys := InsertString(keys, p.1); }
      }
      AscendingUnique(keys, Listing(RowKeys(rows, ns)));
      AscendingInBytes(keys);
      reply := Listed(keys);
    }

    /** Deletes one namespace and reports the affected rows. */
    method ClearNamespace(ns: string) returns (reply: Reply)
      modifies this
      ensures (rows, reply) == SqlStep(old(rows), Op.Clear(ns))
    {
      if IsBlank(ns) { return Invalid; }
      var affected := set p | p in rows && p.0 == ns;
      reply := Number(|affected|);
      RowKeysSize(ns, RowKeys(rows, ns));
      assert affected == (set k | k in RowKeys(rows, ns) :: (ns, k));
      rows := map p | p in rows && p.0 != ns :: rows[p];
    }

    method CountNamespace(ns: string) returns (reply: Reply)
      ensures (rows, reply) == SqlStep(rows, Op.Count(ns))
    {
      if IsBlank(ns) { return Invalid; }
      var selected := set p | p in rows && p.0 == ns;
      RowKeysSize(ns, RowKeys(rows, ns));
      assert selected == (set k | k in RowKeys(rows, ns) :: (ns, k));
      reply := Number(|selected|);
    }
  }
}
