/** The vector index over any sequence of changes to its three tables. */
module VectorRuns {
  import opened VectorIndex

  /** The changes that succeed: vectors have the right dimension. */
  datatype Op =
    | Upsert(table: Table, id: string, vector: Vector)
    | Batch(table: Table, records: seq<Record>)
    | Delete(table: Table, id: string)

  function Apply(ix: Index, op: Op): Index {
    match op
    case Upsert(t, id, vector) => Put(Mapped(ix, id), t, id, vector)
    case Batch(t, records) => PutAll(ix, t, records)
    case Delete(t, id) => Removed(ix, t, id)
  }

  /** The index that the changes make of the empty one. */
  function Run(ops: seq<Op>): Index {
    if ops == [] then EMPTY else Apply(Run(ops[..|ops| - 1]), ops[|ops| - 1])
  }

  /** What each change would do to a plain map of its own table. */
  function ApplyPlain(m: map<string, Vector>, op: Op): map<string, Vector> {
    match op
    case Upsert(_, id, vector) => m[id := vector]
    case Batch(_, records) => Upserted(m, records)
    case Delete(_, id) => m - {id}
  }

  /** Three plain maps that know nothing of each other. */
  function Plain(ops: seq<Op>, t: Table): map<string, Vector> {
    if ops == [] then map[]
    else
      var before, op := Plain(ops[..|ops| - 1], t), ops[|ops| - 1];
      if op.table == t then ApplyPlain(before, op) else before
  }

  /** The tables look like the plain maps at every moment. */
  ghost predicate LooksPlain(ops: seq<Op>) {
    forall n, t: Table | 0 <= n <= |ops| :: Run(ops[..n]).Contents(t) == Plain(ops[..n], t)
  }

  /** No delete names an id that another table holds at that moment. */
  ghost predicate DeletesOwn(ops: seq<Op>) {
    forall n, t: Table | 0 <= n < |ops| :: ops[n].Delete? && t != ops[n].table ==> ops[n].id !in Plain(ops[..n], t)
  }

  lemma ApplyOk(ix: Index, op: Op)
    requires ix.Ok()
    ensures Apply(ix, op).Ok()
  {
    match op
    case Upsert(t, id, vector) => UpsertIsUpdate(ix, t, id, vector);
    case Batch(t, records) => PutAllIsUpdate(ix, t, records);
    case Delete(t, id) => RemovedKeepsOk(ix, t, id);
  }

  lemma {:induction false} RunOk(ops: seq<Op>)
    ensures Run(ops).Ok()
  {
    hide Index.Ok, Apply;
    if ops == [] {
      EmptyOk();
    } else {
      RunOk(ops[..|ops| - 1]);
      ApplyOk(Run(ops[..|ops| - 1]), ops[|ops| - 1]);
    }
  }

  lemma EmptyOk()
    ensures EMPTY.Ok() && forall t :: EMPTY.Contents(t) == map[] && EMPTY.Orphans(t) == {}
  {
  }

  /** One change: its own table follows the plain map. Another table is left alone by anything but a delete of an
      id that it holds. */
  lemma ApplyTable(ix: Index, op: Op, t: Table)
    requires ix.Ok()
    ensures var ix' := Apply(ix, op);
      if op.table == t then ix'.Contents(t) == ApplyPlain(ix.Contents(t), op) && ix'.Orphans(t) == ix.Orphans(t)
      else SameTable(ix, ix', t) <==> !(op.Delete? && op.id in ix.Contents(t))
    ensures op.Delete? ==> Apply(ix, op).Contents(t) == ix.Contents(t) - {op.id}
  {
    hide Found, Unowned, Index.Ok, Put, Mapped, PutAll, Removed;
    match op
    case Upsert(u, id, vector) => UpsertIsUpdate(ix, u, id, vector);
    case Batch(u, records) => PutAllIsUpdate(ix, u, records);
    case Delete(u, id) => RemovedIsDelete(ix, u, id, t);
  }

  /** Over any sequence of changes in which no delete meets an id of another table, each table is a plain map of
      its own, and no row is ever orphaned. */
  lemma {:induction false} RunIsPlain(ops: seq<Op>, t: Table)
    requires DeletesOwn(ops)
    ensures Run(ops).Contents(t) == Plain(ops, t) && Run(ops).Orphans(t) == {}
  {
    hide Found, Unowned, Index.Ok, Apply, ApplyPlain;
    if ops == [] {
      EmptyOk();
    } else {
      var n := |ops| - 1;
      var front := ops[..n];
      assert forall k | 0 <= k <= n :: front[..k] == ops[..k];
      assert DeletesOwn(front);
      RunIsPlain(front, t);
      RunOk(front);
      ApplyTable(Run(front), ops[n], t);
    }
  }

  /** The tables look like independent plain maps throughout if and only if no delete names an id that another
      table holds. */
  lemma {:induction false} LooksPlainExactlyWhen(ops: seq<Op>)
    ensures LooksPlain(ops) <==> DeletesOwn(ops)
  {
    hide Index.Ok, Apply, ApplyPlain, Index.Contents;
    if DeletesOwn(ops) {
      forall n, t: Table | 0 <= n <= |ops|
        ensures Run(ops[..n]).Contents(t) == Plain(ops[..n], t)
      {
        assert forall k | 0 <= k <= n :: ops[..n][..k] == ops[..k];
        RunIsPlain(ops[..n], t);
      }
    } else {
      var n, t: Table :| 0 <= n < |ops| && ops[n].Delete? && t != ops[n].table && ops[n].id in Plain(ops[..n], t);
      assert ops[..n + 1][..n] == ops[..n];
      RunOk(ops[..n]);
      ApplyTable(Run(ops[..n]), ops[n], t);
      assert Plain(ops[..n + 1], t) == Plain(ops[..n], t);
      assert Run(ops[..n + 1]) == Apply(Run(ops[..n]), ops[n]);
      var here, next := Run(ops[..n]).Contents(t), Run(ops[..n + 1]).Contents(t);
      assert here == Plain(ops[..n], t) ==> next != Plain(ops[..n + 1], t);
    }
  }

  /** An id can come to be held by two tables, and a delete from one then takes it from the other, whose row stays
      behind. */
  lemma SharedIdIsLost(v: Vector) returns (ops: seq<Op>)
    ensures ops == [Upsert(Memories, "a", v), Upsert(Rules, "a", v), Delete(Memories, "a")]
    ensures "a" in Run(ops[..2]).Contents(Memories) && "a" in Run(ops[..2]).Contents(Rules)
    ensures "a" !in Run(ops).Contents(Rules) && Run(ops).Orphans(Rules) != {}
  {
    ops := [Upsert(Memories, "a", v), Upsert(Rules, "a", v), Delete(Memories, "a")];
    assert ops[..2][..1] == [Upsert(Memories, "a", v)] && ops[..2][..1][..0] == [];
    assert Run(ops[..2][..1]) == Index(map["a" := 1], 2, map[], map[1 := v], map[]);
    assert Run(ops[..2]) == Index(map["a" := 1], 2, map[], map[1 := v], map[1 := v]);
    assert Run(ops) == Index(map[], 2, map[], map[], map[1 := v]);
    assert 1 in Run(ops).Orphans(Rules);
  }
}
