/** The data of the store: property values, rows, keys and model schemas.

A row is the JSON object of an entity, `_version_` included. A property that is
`null`, `undefined` or missing reads as None, so such properties are simply not
in the map. */
module Rows {

  datatype Option<+T> = None | Some(value: T)

  // Text is a string that is not a number, Dec a decimal string, Num a JSON number.
  datatype Value = Text(s: string) | Dec(d: int) | Num(n: int)

  type Row = map<string, Value>

  datatype Key = Key(model: string, id: string)

  type Tables = map<Key, Row>

  // New property values of an update; None writes null.
  type Values = map<string, Option<Value>>

  const VERSION: string := "_version_"

  // One model. The capacity is None for unbounded, 0 when not given.
  datatype Schema = Schema(columns: set<string>, defaults: map<string, Value>, maxCached: Option<nat>)

  datatype IndexName = IndexName(model: string, name: string)

  // All models, and the properties of every unique index.
  datatype Schemas = Schemas(models: map<string, Schema>, uniques: map<IndexName, seq<string>>)

  // Every model has the `_version_` column, never in a unique index; indexed properties are columns.
  ghost predicate WellFormed(s: Schemas) {
    && (forall m | m in s.models :: VERSION in s.models[m].columns)
    && (forall n | n in s.uniques :: n.model in s.models)
    && (forall n, p | n in s.uniques && p in s.uniques[n] :: p != VERSION && p in s.models[n.model].columns)
  }

  function Read(r: Row, p: string): Option<Value> {
    if p in r then Some(r[p]) else None
  }

  /** Assigns every given property, dropping those assigned null. */
  function Overwrite(r: Row, vs: Values): Row {
    map p | p in r.Keys + vs.Keys && (if p in vs then vs[p].Some? else true)
      :: if p in vs then vs[p].value else r[p]
  }

  // Rows are what can be read of them.
  lemma SameRow(a: Row, b: Row)
    requires forall p :: Read(a, p) == Read(b, p)
    ensures a == b
  {
    forall p
      ensures p in a <==> p in b
      ensures p in a ==> a[p] == b[p]
    {
      assert Read(a, p) == Read(b, p);
    }
  }

  lemma OverwriteRead(r: Row, vs: Values, p: string)
    ensures Read(Overwrite(r, vs), p) == if p in vs then vs[p] else Read(r, p)
  {
  }

  function Columns(s: Schema, r: Row): Row {
    map p | p in r && p in s.columns :: r[p]
  }

  function WithDefaults(s: Schema, r: Row): Row {
    map p | p in r.Keys + s.defaults.Keys :: if p in r then r[p] else s.defaults[p]
  }

  function Truthy(v: Option<Value>): bool {
    match v
    case None => false
    case Some(Text(s)) => s != ""
    case Some(Dec(_)) => true
    case Some(Num(n)) => n != 0
  }

  type IndexValue = seq<Option<Value>>

  function IndexValueOf(r: Row, fields: seq<string>): IndexValue {
    seq(|fields|, i requires 0 <= i < |fields| => Read(r, fields[i]))
  }

  predicate AllTruthy(v: IndexValue) {
    forall i | 0 <= i < |v| :: Truthy(v[i])
  }

  // Rows that agree on the indexed properties have the same indexed value.
  lemma SameIndexValue(r: Row, r': Row, fields: seq<string>)
    requires forall p | p in fields :: Read(r, p) == Read(r', p)
    ensures IndexValueOf(r, fields) == IndexValueOf(r', fields)
  {
    forall i | 0 <= i < |fields|
      ensures Read(r, fields[i]) == Read(r', fields[i])
    {
      assert fields[i] in fields;
    }
  }

  lemma IndexValueOfColumns(s: Schemas, r: Row, n: IndexName)
    requires WellFormed(s) && n in s.uniques
    ensures IndexValueOf(Columns(s.models[n.model], r), s.uniques[n]) == IndexValueOf(r, s.uniques[n])
  {
    SameIndexValue(Columns(s.models[n.model], r), r, s.uniques[n]);
  }
}
