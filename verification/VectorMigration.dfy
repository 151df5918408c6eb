/** Moving the vectors of a project to the other backend: batch writes, a count check, and only then the
    switch. The vectors come from the relational tables, not from the old index. */
module VectorMigration {
  import opened Wrappers
  import opened VectorIndex

  // ---------- The LanceDB store ----------

  datatype LanceTable = LanceTable(dimension: nat, rows: seq<Record>)

  function Without(rows: seq<Record>, ids: set<string>): (r: seq<Record>)
    ensures (forall i | 0 <= i < |rows| :: rows[i].id in ids) <==> r == []
  {
    if rows == [] then []
    else (if rows[0].id in ids then [] else [rows[0]]) + Without(rows[1..], ids)
  }

  class LanceStore {
    var tables: map<Table, LanceTable>

    /** An upsert deletes the old records and appends the new ones. A record of another dimension makes it
        fail when the old records are gone already. */
    method BatchUpsert(t: Table, records: seq<Record>) returns (r: Result<()>)
      modifies this
      ensures r == if Fits(LanceViewOf(old(tables), t), records) then Ok(()) else Err(WrongDimension)
      ensures r.Ok? ==> LanceViewOf(tables, t) == After(LanceViewOf(old(tables), t), records)
      ensures r.Err? ==> LanceViewOf(tables, t).rows == Without(LanceViewOf(old(tables), t).rows, Ids(records))
      ensures forall t' | t' != t :: LanceViewOf(tables, t') == LanceViewOf(old(tables), t')
    {
      if records == [] {
        return Ok(());
      }
      var dimension := |records[0].vector|;
      if t !in tables {
        tables := tables[t := LanceTable(dimension, [])];
      }
      var kept := Without(tables[t].rows, Ids(records));
      hide Without, AllOf, Ids;
      tables := tables[t := tables[t].(rows := kept)];
      if !AllOf(records, dimension) || tables[t].dimension != dimension {
        return Err(WrongDimension);
      }
      tables := tables[t := tables[t].(rows := kept + records)];
      r := Ok(());
    }
  }

  // ---------- What a table of either store looks like ----------

  datatype View =
    | SqliteView(size: nat, contents: map<string, Vector>, orphans: set<nat>)
    | LanceView(dimension: Option<nat>, rows: seq<Record>)

  function LanceViewOf(tables: map<Table, LanceTable>, t: Table): View {
    if t in tables then LanceView(Some(tables[t].dimension), tables[t].rows) else LanceView(None, [])
  }

  /** Rows, with or without an id. */
  function RowsIn(v: View): nat {
    match v
    case SqliteView(_, contents, orphans) => |contents| + |orphans|
    case LanceView(_, rows) => |rows|
  }

  predicate Fits(v: View, records: seq<Record>) {
    match v
    case SqliteView(dimension, _, _) => AllOf(records, dimension)
    case LanceView(dimension, _) =>
      records != [] ==> AllOf(records, |records[0].vector|) && dimension in {None, Some(|records[0].vector|)}
  }

  function After(v: View, records: seq<Record>): View {
    match v
    case SqliteView(_, contents, _) => v.(contents := Upserted(contents, records))
    case LanceView(_, rows) =>
      if records == [] then v
      else LanceView(Some(|records[0].vector|), Without(rows, Ids(records)) + records)
  }

  /** Every row of the table belongs to one of the records. */
  predicate Clean(v: View, records: seq<Record>) {
    match v
    case SqliteView(_, contents, orphans) => contents.Keys <= Ids(records) && orphans == {}
    case LanceView(_, rows) => forall i | 0 <= i < |rows| :: rows[i].id in Ids(records)
  }

  /** The table holds the records, each with its vector, and nothing else. */
  predicate Holds(v: View, records: seq<Record>) {
    match v
    case SqliteView(_, contents, orphans) =>
      && contents.Keys == Ids(records) && orphans == {}
      && forall r | r in records :: r.id in contents && contents[r.id] == r.vector
    case LanceView(_, rows) => rows == records
  }

  predicate HasDimension(v: View, d: nat) {
    match v
    case SqliteView(dimension, _, _) => dimension == d
    case LanceView(dimension, _) => dimension in {None, Some(d)}
  }

  /** A batch fits if and only if one dimension suits the table and all records. */
  lemma FitsExactlyWhen(v: View, records: seq<Record>)
    ensures Fits(v, records) <==> exists d: nat :: AllOf(records, d) && HasDimension(v, d)
  {
    if Fits(v, records) {
      var d := match v
        case SqliteView(dimension, _, _) => dimension
        case LanceView(dimension, _) =>
          if records != [] then |records[0].vector| else if dimension.Some? then dimension.value else 0;
      assert AllOf(records, d) && HasDimension(v, d);
    }
    if d: nat :| AllOf(records, d) && HasDimension(v, d) {
      assert records != [] ==> |records[0].vector| == d;
    }
  }

  /** All vectors of the table have its dimension. */
  predicate Uniform(v: View) {
    match v
    case SqliteView(dimension, contents, _) => forall id | id in contents :: |contents[id]| == dimension
    case LanceView(dimension, rows) => rows == [] || (dimension.Some? && AllOf(rows, dimension.value))
  }

  lemma {:induction false} WithoutKeepsAll(rows: seq<Record>, ids: set<string>, d: nat)
    requires AllOf(rows, d)
    ensures AllOf(Without(rows, ids), d)
  {
    if rows != [] {
      WithoutKeepsAll(rows[1..], ids, d);
    }
  }

  lemma {:induction false} UpsertedKeepsAll(m: map<string, Vector>, records: seq<Record>, d: nat)
    requires AllOf(records, d) && forall id | id in m :: |m[id]| == d
    ensures forall id | id in Upserted(m, records) :: |Upserted(m, records)[id]| == d
  {
    if records != [] {
      UpsertedKeepsAll(m, records[..|records| - 1], d);
    }
  }

  /** A batch that fits leaves all vectors of a table with one dimension. */
  lemma FittingKeepsUniform(v: View, records: seq<Record>)
    requires Uniform(v) && Fits(v, records)
    ensures Uniform(After(v, records))
  {
    match v
    case SqliteView(dimension, contents, _) => UpsertedKeepsAll(contents, records, dimension);
    case LanceView(dimension, rows) =>
      if records != [] {
        WithoutKeepsAll(rows, Ids(records), |records[0].vector|);
      }
  }

  /** A batch passes the count check if and only if the table held nothing but (old) rows of the same ids, and
      then the table holds exactly the records. */
  lemma CountCheck(v: View, records: seq<Record>)
    requires DistinctIds(records)
    ensures RowsIn(After(v, records)) == |records| <==> Clean(v, records)
    ensures RowsIn(After(v, records)) == |records| ==> Holds(After(v, records), records)
  {
    match v
    case SqliteView(_, contents, orphans) =>
      CountCheckIsExact(contents, orphans, records);
      UpsertedKeys(contents, records);
      forall r | r in records
        ensures r.id in Upserted(contents, records) && Upserted(contents, records)[r.id] == r.vector
      {
        UpsertedLookup(contents, records, r.id);
      }
    case LanceView(_, rows) =>
      assert records == [] ==> Ids(records) == {};
      var kept := Without(rows, Ids(records));
      assert |kept + records| == |records| <==> kept == [];
  }

  // ---------- The migration ----------

  datatype Target = ToSqlite(sqlite: SqliteVecStore) | ToLance(lance: LanceStore) {
    ghost function Store(): object {
      match this case ToSqlite(s) => s case ToLance(l) => l
    }

    ghost predicate Valid()
      reads Store()
    {
      ToSqlite? ==> sqlite.Valid()
    }

    ghost function View(t: Table): View
      reads Store()
    {
      match this
      case ToSqlite(s) => SqliteView(s.dimension, s.State().Contents(t), s.State().Orphans(t))
      case ToLance(l) => LanceViewOf(l.tables, t)
    }
  }

  /** The batch write of one table. Without records the migration writes nothing. */
  method WriteBatch(target: Target, t: Table, records: seq<Record>) returns (r: Result<()>)
    requires target.Valid()
    modifies target.Store()
    ensures target.Valid()
    ensures r == if Fits(old(target.View(t)), records) then Ok(()) else Err(WrongDimension)
    ensures r.Ok? ==> target.View(t) == After(old(target.View(t)), records)
    ensures r.Ok? ==> forall t' | t' != t :: target.View(t') == old(target.View(t'))
  {
    r := Ok(());
    if records != [] {
      match target {
        case ToSqlite(s) =>
          r := s.BatchUpsert(t, records);
          if r.Ok? {
            forall t' | t' != t
              ensures target.View(t') == old(target.View(t'))
            {
              assert SameTable(old(s.State()), s.State(), t');
            }
          }
        case ToLance(l) =>
          r := l.BatchUpsert(t, records);
      }
    }
  }

  method CountRows(target: Target, t: Table) returns (n: nat)
    requires target.Valid()
    ensures n == RowsIn(target.View(t))
  {
    match target {
      case ToSqlite(s) => n := s.Count(t);
      case ToLance(l) => n := if t in l.tables then |l.tables[t].rows| else 0;
    }
  }

  class Settings {
    var vectorBackend: string
  }

  datatype Report = Report(chunks: nat, memories: nat, rules: nat, total: nat)

  const BACKENDS: set<string> := {"sqlite-vec", "lancedb"}

  predicate Goes(v: View, records: seq<Record>) { Fits(v, records) && Clean(v, records) }

  /** The migration goes through if and only if the backends are two known ones, all vectors fit, and every
      row that the target held before belongs to a record. Then the target holds exactly the records and is
      the backend in use. When it fails the backend in use stays. */
  method MigrateVectorBackend(chunks: seq<Record>, memories: seq<Record>, rules: seq<Record>, from: string, to: string,
                              sqlite: SqliteVecStore, lance: LanceStore, settings: Settings) returns (r: Result<Report>)
    requires sqlite.Valid()
    requires DistinctIds(chunks) && DistinctIds(memories) && DistinctIds(rules)
    modifies sqlite, lance, settings
    ensures var target := if to == "lancedb" then ToLance(lance) else ToSqlite(sqlite);
      && (r.Ok? <==>
            && from != to && from in BACKENDS && to in BACKENDS
            && Goes(old(target.View(DocChunks)), chunks)
            && Goes(old(target.View(Memories)), memories)
            && Goes(old(target.View(Rules)), rules))
      && (r.Ok? ==>
            && Holds(target.View(DocChunks), chunks)
            && Holds(target.View(Memories), memories)
            && Holds(target.View(Rules), rules)
            && settings.vectorBackend == to
            && r.value == Report(|chunks|, |memories|, |rules|, |chunks| + |memories| + |rules|))
    ensures r.Err? ==> settings.vectorBackend == old(settings.vectorBackend)
    ensures r == Err(Identical) <==> from == to
    ensures r == Err(Unsupported) <==> from != to && !(from in BACKENDS && to in BACKENDS)
    ensures to != "sqlite-vec" || from == to ==> sqlite.State() == old(sqlite.State())
    ensures to != "lancedb" || from == to ==> lance.tables == old(lance.tables)
  {
    hide Fits, Holds, Clean, After, RowsIn, Target.View, Target.Valid, SqliteVecStore.Valid;
    if from == to {
      return Err(Identical);
    }
    if from !in BACKENDS || to !in BACKENDS {
      return Err(Unsupported);
    }
    var target := if to == "lancedb" then ToLance(lance) else ToSqlite(sqlite);
    ghost var view0, view1, view2 :=
      old(target.View(DocChunks)), old(target.View(Memories)), old(target.View(Rules));
    CountCheck(view0, chunks);
    CountCheck(view1, memories);
    CountCheck(view2, rules);
    var written := WriteBatch(target, DocChunks, chunks);
    if written.Err? {
      return Err(written.error);
    }
    written := WriteBatch(target, Memories, memories);
    if written.Err? {
      return Err(written.error);
    }
    written := WriteBatch(target, Rules, rules);
    if written.Err? {
      return Err(written.error);
    }
    var n0 := CountRows(target, DocChunks);
    var n1 := CountRows(target, Memories);
    var n2 := CountRows(target, Rules);
    if n0 != |chunks| || n1 != |memories| || n2 != |rules| {
      return Err(CountMismatch);
    }
    settings.vectorBackend := to;
    r := Ok(Report(|chunks|, |memories|, |rules|, |chunks| + |memories| + |rules|));
  }
}
