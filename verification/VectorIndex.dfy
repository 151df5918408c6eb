/** The vector index of a project: the SQLite store with its map from record ids to row numbers, and the
    LanceDB store, as the maps from ids to vectors that they stand for. */
module VectorIndex {
  import opened Wrappers

  type Vector = seq<real>

  datatype Table = DocChunks | Memories | Rules

  datatype Record = Record(id: string, vector: Vector)

  datatype Error = InvalidTable | WrongDimension | Identical | Unsupported | CountMismatch

  datatype Result<+T> = Ok(value: T) | Err(error: Error)

  function TableOf(name: string): Option<Table> {
    if name in {"vec_project_memories", "project_memories"} then Some(Memories)
    else if name in {"vec_learned_rules", "learned_rules"} then Some(Rules)
    else if name in {"vec_doc_chunks", "doc_chunks"} then Some(DocChunks)
    else None
  }

  /** Each table has two names, one with the prefix of the virtual table, and no other name is known. */
  lemma TableNames(name: string)
    ensures TableOf("project_memories") == TableOf("vec_project_memories") == Some(Memories)
    ensures TableOf("learned_rules") == TableOf("vec_learned_rules") == Some(Rules)
    ensures TableOf("doc_chunks") == TableOf("vec_doc_chunks") == Some(DocChunks)
    ensures TableOf(name).Some? <==> IsBaseName(name) || exists base :: IsBaseName(base) && name == "vec_" + base
  {
    assert "vec_" + "project_memories" == "vec_project_memories";
    assert "vec_" + "learned_rules" == "vec_learned_rules";
    assert "vec_" + "doc_chunks" == "vec_doc_chunks";
    assert IsBaseName("project_memories") && IsBaseName("learned_rules") && IsBaseName("doc_chunks");
  }

  predicate IsBaseName(name: string) { name in {"project_memories", "learned_rules", "doc_chunks"} }

  // ---------- Records ----------

  function Ids(records: seq<Record>): set<string> {
    set r | r in records :: r.id
  }

  /** All vectors have the same given dimension. */
  predicate AllOf(records: seq<Record>, dimension: nat) {
    forall i | 0 <= i < |records| :: |records[i].vector| == dimension
  }

  predicate DistinctIds(records: seq<Record>) {
    forall i, j | 0 <= i < j < |records| :: records[i].id != records[j].id
  }

  function Upserted(m: map<string, Vector>, records: seq<Record>): map<string, Vector> {
    if records == [] then m
    else
      var last := records[|records| - 1];
      Upserted(m, records[..|records| - 1])[last.id := last.vector]
  }

  lemma {:induction false} UpsertedKeys(m: map<string, Vector>, records: seq<Record>)
    ensures Upserted(m, records).Keys == m.Keys + Ids(records)
  {
    if records != [] {
      var front, last := records[..|records| - 1], records[|records| - 1];
      UpsertedKeys(m, front);
      assert Ids(records) == Ids(front) + {last.id} by {
        assert records == front + [last];
      }
    }
  }

  lemma {:induction false} IdCount(records: seq<Record>)
    requires DistinctIds(records)
    ensures |Ids(records)| == |records|
  {
    if records != [] {
      var front, last := records[..|records| - 1], records[|records| - 1];
      IdCount(front);
      assert last.id !in Ids(front);
      assert Ids(records) == Ids(front) + {last.id} by {
        assert records == front + [last];
      }
    }
  }

  /** Each record is found under its id, and an id without a record keeps what it had. */
  lemma {:induction false} UpsertedLookup(m: map<string, Vector>, records: seq<Record>, id: string)
    requires DistinctIds(records)
    ensures id !in Ids(records) ==>
      (id in Upserted(m, records) <==> id in m) && (id in m ==> Upserted(m, records)[id] == m[id])
    ensures forall r | r in records && r.id == id :: id in Upserted(m, records) && Upserted(m, records)[id] == r.vector
  {
    if records != [] {
      var front, last := records[..|records| - 1], records[|records| - 1];
      assert records == front + [last];
      UpsertedLookup(m, front, id);
      assert forall r | r in front :: r.id in Ids(front);
      assert last.id in Ids(records) && forall r | r in front :: r in records;
      assert last.id !in Ids(front);
    }
  }

  /** The cardinality argument behind the count check: an index that holds all records, and has as many rows
      as there are records, holds nothing else, neither other ids nor rows without an id. */
  lemma CountCheckIsExact(old': map<string, Vector>, orphans: set<nat>, records: seq<Record>)
    requires DistinctIds(records)
    ensures |Upserted(old', records)| + |orphans| == |records| <==> old'.Keys <= Ids(records) && orphans == {}
  {
    UpsertedKeys(old', records);
    IdCount(records);
    var keys := Upserted(old', records).Keys;
    assert |Upserted(old', records)| == |keys|;
    if old'.Keys <= Ids(records) {
      assert keys == Ids(records);
    } else {
      var id :| id in old'.Keys && id !in Ids(records);
      SubsetSize(Ids(records) + {id}, keys);
    }
  }

  // ---------- The SQLite store ----------

  predicate Injective(m: map<string, nat>) {
    forall x, y | x in m && y in m && m[x] == m[y] :: x == y
  }

  lemma {:induction false} InjectiveSize(m: map<string, nat>)
    requires Injective(m)
    ensures |m.Values| == |m|
    decreases |m|
  {
    if m != map[] {
      var x :| x in m;
      var rest := m - {x};
      InjectiveSize(rest);
      assert m.Values == rest.Values + {m[x]} by {
        forall v | v in m.Values
          ensures v in rest.Values + {m[x]}
        {
          var y :| y in m && m[y] == v;
          assert y != x ==> y in rest && rest[y] == v;
        }
      }
      assert m[x] !in rest.Values;
      assert |m.Keys| == |rest.Keys| + 1 by {
        assert m.Keys == rest.Keys + {x};
      }
    }
  }

  type Rows = map<nat, Vector>

  predicate Below(rows: Rows, n: nat) {
    forall row | row in rows :: row < n
  }

  /** The vectors among the rows that can be found by id. */
  function Found(ids: map<string, nat>, rows: Rows): map<string, Vector> {
    map id | id in ids && ids[id] in rows :: rows[ids[id]]
  }

  /** The rows that belong to no id any more. */
  function Unowned(ids: map<string, nat>, rows: Rows): set<nat> {
    set row | row in rows && row !in ids.Values
  }

  lemma FoundMapped(ids: map<string, nat>, rows: Rows, id: string, row: nat)
    requires id !in ids && row !in rows
    ensures Found(ids[id := row], rows) == Found(ids, rows)
    ensures Unowned(ids[id := row], rows) == Unowned(ids, rows)
  {
    var ids' := ids[id := row];
    assert ids'[id] == row && forall x | x in ids :: x in ids' && ids'[x] == ids[x];
    assert forall v | v in ids.Values + {row} :: v in ids'.Values;
    assert ids'.Values == ids.Values + {row};
  }

  lemma FoundPut(ids: map<string, nat>, rows: Rows, id: string, vector: Vector)
    requires Injective(ids) && id in ids
    ensures Found(ids, (rows - {ids[id]})[ids[id] := vector]) == Found(ids, rows)[id := vector]
    ensures Unowned(ids, (rows - {ids[id]})[ids[id] := vector]) == Unowned(ids, rows)
  {
    assert ids[id] in ids.Values;
  }

  lemma ValuesWithout(ids: map<string, nat>, id: string)
    requires Injective(ids) && id in ids
    ensures (ids - {id}).Values == ids.Values - {ids[id]}
  {
    var rest := ids - {id};
    forall v | v in ids.Values && v != ids[id]
      ensures v in rest.Values
    {
      var x :| x in ids && ids[x] == v;
      assert x in rest && rest[x] == v;
    }
  }

  lemma FoundRemoved(ids: map<string, nat>, rows: Rows, id: string)
    requires Injective(ids) && id in ids
    ensures Found(ids - {id}, rows - {ids[id]}) == Found(ids, rows) - {id}
    ensures Unowned(ids - {id}, rows - {ids[id]}) == Unowned(ids, rows)
    ensures Found(ids - {id}, rows) == Found(ids, rows) - {id}
    ensures Unowned(ids - {id}, rows) == Unowned(ids, rows) + if ids[id] in rows then {ids[id]} else {}
  {
    ValuesWithout(ids, id);
    assert ids[id] in ids.Values;
    hide Injective;
  }

  lemma FoundSize(ids: map<string, nat>, rows: Rows)
    requires Injective(ids)
    ensures |rows| == |Found(ids, rows)| + |Unowned(ids, rows)|
  {
    var found := map id | id in ids && ids[id] in rows :: ids[id];
    assert Injective(found);
    InjectiveSize(found);
    assert found.Keys == Found(ids, rows).Keys;
    assert rows.Keys == found.Values + Unowned(ids, rows) by {
      forall row | row in rows && row in ids.Values
        ensures row in found.Values
      {
        var id :| id in ids && ids[id] == row;
        assert id in found && found[id] == row;
      }
    }
    assert |rows| == |rows.Keys| && |found| == |found.Keys| && |Found(ids, rows)| == |Found(ids, rows).Keys|;
  }

  /** The map from ids to row numbers, the next row number, and the rows of the three tables. */
  datatype Index = Index(idMap: map<string, nat>, nextRow: nat, chunks: Rows, memories: Rows, rules: Rows) {
    function RowsOf(t: Table): Rows {
      match t case DocChunks => chunks case Memories => memories case Rules => rules
    }

    function With(t: Table, rows: Rows): Index {
      match t
      case DocChunks => this.(chunks := rows)
      case Memories => this.(memories := rows)
      case Rules => this.(rules := rows)
    }

    /** Row numbers are never used again: every one in use was given out before. */
    predicate Ok() {
      && Injective(idMap)
      && (forall id | id in idMap :: idMap[id] < nextRow)
      && Below(chunks, nextRow) && Below(memories, nextRow) && Below(rules, nextRow)
    }

    function Contents(t: Table): map<string, Vector> { Found(idMap, RowsOf(t)) }

    function Orphans(t: Table): set<nat> { Unowned(idMap, RowsOf(t)) }
  }

  const EMPTY: Index := Index(map[], 1, map[], map[], map[])

  /** Gives an id a row number when it has none. */
  function Mapped(ix: Index, id: string): (r: Index)
    ensures id in r.idMap
  {
    if id in ix.idMap then ix else ix.(idMap := ix.idMap[id := ix.nextRow], nextRow := ix.nextRow + 1)
  }

  /** Replaces the row of an id that has a row number. */
  function Put(ix: Index, t: Table, id: string, vector: Vector): Index
    requires id in ix.idMap
  {
    ix.With(t, (ix.RowsOf(t) - {ix.idMap[id]})[ix.idMap[id] := vector])
  }

  /** The upserts of a batch, one after the other. */
  function PutAll(ix: Index, t: Table, records: seq<Record>): Index {
    if records == [] then ix
    else
      var last := records[|records| - 1];
      Put(Mapped(PutAll(ix, t, records[..|records| - 1]), last.id), t, last.id, last.vector)
  }

  function Removed(ix: Index, t: Table, id: string): Index {
    if id !in ix.idMap then ix
    else ix.With(t, ix.RowsOf(t) - {ix.idMap[id]}).(idMap := ix.idMap - {id})
  }

  predicate SameTable(ix: Index, ix': Index, t: Table) {
    ix'.Contents(t) == ix.Contents(t) && ix'.Orphans(t) == ix.Orphans(t)
  }

  lemma MappedKeeps(ix: Index, id: string, t: Table)
    requires ix.Ok()
    ensures Mapped(ix, id).Ok() && SameTable(ix, Mapped(ix, id), t)
  {
    hide Found, Unowned;
    if id !in ix.idMap {
      assert ix.nextRow !in ix.RowsOf(t);
      FoundMapped(ix.idMap, ix.RowsOf(t), id, ix.nextRow);
    }
  }

  lemma PutIsUpdate(ix: Index, t: Table, id: string, vector: Vector)
    requires ix.Ok() && id in ix.idMap
    ensures var ix' := Put(ix, t, id, vector);
      && ix'.Ok()
      && ix'.Contents(t) == ix.Contents(t)[id := vector]
      && ix'.Orphans(t) == ix.Orphans(t)
      && forall t' | t' != t :: SameTable(ix, ix', t')
  {
    hide Found, Unowned, Injective;
    FoundPut(ix.idMap, ix.RowsOf(t), id, vector);
  }

  /** An upsert changes one id of one table, and makes no orphans. */
  lemma UpsertIsUpdate(ix: Index, t: Table, id: string, vector: Vector)
    requires ix.Ok()
    ensures var ix' := Put(Mapped(ix, id), t, id, vector);
      && ix'.Ok()
      && ix'.Contents(t) == ix.Contents(t)[id := vector]
      && ix'.Orphans(t) == ix.Orphans(t)
      && forall t' | t' != t :: SameTable(ix, ix', t')
  {
    hide Found, Unowned, Injective, Put, Mapped;
    MappedKeeps(ix, id, t);
    PutIsUpdate(Mapped(ix, id), t, id, vector);
    forall t' | t' != t
      ensures SameTable(ix, Put(Mapped(ix, id), t, id, vector), t')
    {
      MappedKeeps(ix, id, t');
      assert SameTable(Mapped(ix, id), Put(Mapped(ix, id), t, id, vector), t');
    }
  }

  /** A batch overwrites the ids of its records in one table, and changes nothing else. */
  lemma {:induction false} PutAllIsUpdate(ix: Index, t: Table, records: seq<Record>)
    requires ix.Ok()
    ensures var ix' := PutAll(ix, t, records);
      && ix'.Ok()
      && ix'.Contents(t) == Upserted(ix.Contents(t), records)
      && ix'.Orphans(t) == ix.Orphans(t)
      && forall t' | t' != t :: SameTable(ix, ix', t')
  {
    hide Found, Unowned, Injective, Put, Mapped;
    if records != [] {
      var front, last := records[..|records| - 1], records[|records| - 1];
      PutAllIsUpdate(ix, t, front);
      UpsertIsUpdate(PutAll(ix, t, front), t, last.id, last.vector);
      forall t' | t' != t
        ensures SameTable(ix, PutAll(ix, t, records), t')
      {
        assert SameTable(ix, PutAll(ix, t, front), t');
        assert SameTable(PutAll(ix, t, front), PutAll(ix, t, records), t');
      }
    }
  }

  lemma RemovedKeepsOk(ix: Index, t: Table, id: string)
    requires ix.Ok()
    ensures Removed(ix, t, id).Ok()
  {
  }

  /** A delete takes the id from its table, and from the other tables as well: its rows there become orphans.
      So another table is left as it was if and only if it does not hold the id. */
  lemma RemovedIsDelete(ix: Index, t: Table, id: string, t': Table)
    requires ix.Ok()
    ensures var ix' := Removed(ix, t, id);
      && ix'.Contents(t') == ix.Contents(t') - {id}
      && (t' == t ==> ix'.Orphans(t) == ix.Orphans(t))
      && (t' != t ==> ix'.RowsOf(t') == ix.RowsOf(t') && (SameTable(ix, ix', t') <==> id !in ix.Contents(t')))
  {
    var rows := ix.RowsOf(t');
    InFound(ix.idMap, rows, id);
    hide Found, Unowned, Injective, Below;
    if id in ix.idMap {
      FoundRemoved(ix.idMap, rows, id);
      WithRows(ix, t, ix.RowsOf(t) - {ix.idMap[id]}, t');
      hide Index.RowsOf, Index.With;
      assert id in ix.Contents(t') ==> Removed(ix, t, id).Contents(t') != ix.Contents(t');
    } else {
      assert Removed(ix, t, id) == ix;
    }
  }

  lemma InFound(ids: map<string, nat>, rows: Rows, id: string)
    ensures id in Found(ids, rows) <==> id in ids && ids[id] in rows
  {
  }

  lemma WithRows(ix: Index, t: Table, rows: Rows, t': Table)
    ensures ix.With(t, rows).RowsOf(t') == if t' == t then rows else ix.RowsOf(t')
    ensures ix.With(t, rows).idMap == ix.idMap
  {
  }

  /** A table has one row for each id that it holds, and its orphans. */
  lemma RowCount(ix: Index, t: Table)
    requires ix.Ok()
    ensures |ix.RowsOf(t)| == |ix.Contents(t)| + |ix.Orphans(t)|
  {
    FoundSize(ix.idMap, ix.RowsOf(t));
  }

  class SqliteVecStore {
    const dimension: nat
    var idMap: map<string, nat>
    var nextRow: nat
    var chunks: Rows
    var memories: Rows
    var rules: Rows

    function State(): Index
      reads this
    {
      Index(idMap, nextRow, chunks, memories, rules)
    }

    ghost predicate Valid()
      reads this
    {
      State().Ok()
    }

    constructor (dimension: nat)
      ensures Valid() && this.dimension == dimension && State() == EMPTY
    {
      this.dimension := dimension;
      idMap, nextRow, chunks, memories, rules := map[], 1, map[], map[], map[];
    }

    method EnsureMapping(id: string) returns (row: nat)
      requires Valid()
      modifies this`idMap, this`nextRow
      ensures Valid() && State() == Mapped(old(State()), id)
      ensures id in idMap && idMap[id] == row
    {
      hide Index.Ok, SameTable, Found, Unowned, Injective;
      MappedKeeps(State(), id, DocChunks);
      if id !in idMap {
        idMap := idMap[id := nextRow];
        nextRow := nextRow + 1;
      }
      row := idMap[id];
    }

    method SetRows(t: Table, rows: Rows)
      modifies this`chunks, this`memories, this`rules
      ensures State() == old(State()).With(t, rows)
    {
      match t
      case DocChunks => chunks := rows;
      case Memories => memories := rows;
      case Rules => rules := rows;
    }

    /** One upsert inside a transaction. When the vector has the wrong dimension it fails half done, and the
        transaction has to be rolled back. */
    method UpsertRow(t: Table, id: string, vector: Vector) returns (r: Result<()>)
      requires Valid()
      modifies this
      ensures r == if |vector| == dimension then Ok(()) else Err(WrongDimension)
      ensures r.Ok? ==> Valid() && State() == Put(Mapped(old(State()), id), t, id, vector)
      ensures r.Ok? ==> State().Contents(t) == old(State()).Contents(t)[id := vector]
      ensures r.Ok? ==> State().Orphans(t) == old(State()).Orphans(t)
      ensures r.Ok? ==> forall t' | t' != t :: SameTable(old(State()), State(), t')
    {
      hide Found, Unowned, Injective, SameTable;
      UpsertIsUpdate(State(), t, id, vector);
      var row := EnsureMapping(id);
      SetRows(t, State().RowsOf(t) - {row});
      if |vector| != dimension {
        return Err(WrongDimension);
      }
      SetRows(t, State().RowsOf(t)[row := vector]);
      r := Ok(());
    }

    /** All records of a batch go into the table in one transaction, or none. */
    method BatchUpsert(t: Table, records: seq<Record>) returns (r: Result<()>)
      requires Valid()
      modifies this
      ensures Valid()
      ensures r == if AllOf(records, dimension) then Ok(()) else Err(WrongDimension)
      ensures State() == if r.Ok? then PutAll(old(State()), t, records) else old(State())
      ensures r.Ok? ==> State().Contents(t) == Upserted(old(State()).Contents(t), records)
      ensures r.Ok? ==> State().Orphans(t) == old(State()).Orphans(t)
      ensures r.Ok? ==> forall t' | t' != t :: SameTable(old(State()), State(), t')
    {
      hide Found, Unowned, Injective, Mapped, Put;
      var before := State();
      for i := 0 to |records|
        invariant Valid() && AllOf(records[..i], dimension)
        invariant State() == PutAll(before, t, records[..i])
      {
        r := UpsertRow(t, records[i].id, records[i].vector);
        if r.Err? {
          idMap, nextRow, chunks, memories, rules :=
            before.idMap, before.nextRow, before.chunks, before.memories, before.rules;
          assert !AllOf(records, dimension);
          return;
        }
        assert records[..i + 1][..i] == records[..i];
      }
      assert records[..|records|] == records;
      PutAllIsUpdate(before, t, records);
      r := Ok(());
    }

    method DeleteEmbedding(name: string, id: string) returns (r: Result<()>)
      requires Valid()
      modifies this
      ensures Valid()
      ensures r == match TableOf(name) case Some(_) => Ok(()) case None => Err(InvalidTable)
      ensures State() == match TableOf(name) case Some(t) => Removed(old(State()), t, id) case None => old(State())
    {
      var table := TableOf(name);
      if table == None {
        return Err(InvalidTable);
      }
      RemovedKeepsOk(State(), table.value, id);
      if id in idMap {
        SetRows(table.value, State().RowsOf(table.value) - {idMap[id]});
        idMap := idMap - {id};
      }
      r := Ok(());
    }

    /** Counts rows, with or without an id. */
    method Count(t: Table) returns (n: nat)
      requires Valid()
      ensures n == |State().Contents(t)| + |State().Orphans(t)|
    {
      RowCount(State(), t);
      n := |State().RowsOf(t)|;
    }
  }
}
