/**
 * The statements `DbQueryHelper` prepares: SQL text with PostgreSQL's numbered
 * placeholders `$1 .. $n` and the tuple of values those placeholders bind.
 * Executing a statement is the database's business and is not modelled.
 */
module DbQueryHelper {
  import opened Wrappers
  import opened JavaText
  import opened Json

  /** A prepared statement: placeholder `$i` binds `params[i - 1]`. */
  datatype Query = Query(sql: string, params: seq<Json>)

  const SEPARATOR := ", "

  /** What placeholder `$i` of `q` binds, `None` when the tuple has no i-th entry. */
  function Bound(q: Query, i: nat): Option<Json> {
    if 1 <= i <= |q.params| then Some(q.params[i - 1]) else None
  }

  /** The text `"$" + i`. */
  function Placeholder(i: nat): string {
    "$" + NatToDecimal(i)
  }

  /** The number after the `$` reads back as the position the placeholder was made for. */
  lemma PlaceholderNumber(i: nat)
    requires i <= INT_MAX
    ensures Placeholder(i)[0] == '$'
    ensures ParseInt(Placeholder(i)[1..]) == Some(i)
  {
    assert Placeholder(i)[1..] == NatToDecimal(i) == IntToDecimal(i);
    ParseIntOfDecimal(i);
  }

  /** Distinct positions get distinct placeholders. */
  lemma PlaceholderInjective(i: nat, j: nat)
    requires Placeholder(i) == Placeholder(j)
    ensures i == j
  {
    assert Placeholder(i)[1..] == IntToDecimal(i);
    assert Placeholder(j)[1..] == IntToDecimal(j);
    DecimalInjective(i, j);
  }

  /** `"$1", ..., "$n"`. */
  function Placeholders(n: nat): (r: seq<string>)
    ensures |r| == n
  {
    seq(n, i requires 0 <= i < n => Placeholder(i + 1))
  }

  /** `JsonObject.getValue(field)`: the stored value, JSON null for an absent key. */
  function FieldValue(data: Object, field: string): Json {
    Get(data, field).GetOr(JNull)
  }

  predicate IsNested(v: Json) {
    v.JArr? || v.JObj?
  }

  // ---------------------------------------------------------------------------
  // insert
  // ---------------------------------------------------------------------------

  function InsertSql(table: string, data: Object): string {
    "INSERT INTO " + table + " (" + JoinWith(Keys(data), SEPARATOR) + ") VALUES ("
      + JoinWith(Placeholders(|Keys(data)|), SEPARATOR) + ")"
  }

  /** An insert parameter: a nested array or object goes in as its JSON text. */
  function InsertValue(v: Json, nestedText: Json -> string): Json {
    if IsNested(v) then JStr(nestedText(v)) else v
  }

  function InsertParams(data: Object, nestedText: Json -> string): seq<Json> {
    var fields := Keys(data);
    seq(|fields|, i requires 0 <= i < |fields| => InsertValue(FieldValue(data, fields[i]), nestedText))
  }

  /** The statement `insert(table, data)` hands to the client. */
  function InsertQuery(table: string, data: Object, nestedText: Json -> string): Query {
    Query(InsertSql(table, data), InsertParams(data, nestedText))
  }

  /** `insert(table, data)`: builds the column list, the placeholders and the tuple field by field. */
  method Insert(table: string, data: Object, nestedText: Json -> string) returns (q: Query)
    ensures q == InsertQuery(table, data, nestedText)
  {
    var fieldNames := Keys(data);
    var columns := JoinWith(fieldNames, SEPARATOR);
    var placeholders := JoinWith(Placeholders(|fieldNames|), SEPARATOR);
    var query := "INSERT INTO " + table + " (" + columns + ") VALUES (" + placeholders + ")";
    var values: seq<Json> := [];
    for i := 0 to |fieldNames|
      invariant values == InsertParams(data, nestedText)[..i]
    {
      var value := FieldValue(data, fieldNames[i]);
      if value.JArr? || value.JObj? {
        values := values + [JStr(nestedText(value))];
      } else {
        values := values + [value];
      }
    }
    q := Query(query, values);
  }

  /**
   * The insert statement lines up: one column, one placeholder and one
   * parameter per field, and placeholder `$(i+1)` binds the value stored
   * under the i-th column's name, in text form when it is nested.
   */
  lemma InsertAlignment(table: string, data: Object, nestedText: Json -> string)
    requires DistinctKeys(data)
    ensures var q := InsertQuery(table, data, nestedText);
      && |q.params| == |Keys(data)| == |Placeholders(|Keys(data)|)|
      && (forall i :: 0 <= i < |data| ==> Bound(q, i + 1) == Some(InsertValue(data[i].value, nestedText)))
      && Bound(q, |data| + 1) == None
  {
    var q := InsertQuery(table, data, nestedText);
    forall i | 0 <= i < |data|
      ensures Bound(q, i + 1) == Some(InsertValue(data[i].value, nestedText))
    {
      KeysAt(data, i);
      GetByPosition(data, i);
    }
  }

  /** A parameter is in text form exactly when the field holds an array or an object. */
  lemma InsertStringifiesOnlyNested(data: Object, nestedText: Json -> string, i: nat)
    requires i < |data|
    ensures var v := FieldValue(data, Keys(data)[i]);
      InsertParams(data, nestedText)[i] == v <==> !IsNested(v)
  {
  }

  // ---------------------------------------------------------------------------
  // update
  // ---------------------------------------------------------------------------

  /** The SET items `"k_i = $i"`, for i from 1. */
  function SetItems(fields: seq<string>): (r: seq<string>)
    ensures |r| == |fields|
  {
    seq(|fields|, i requires 0 <= i < |fields| => fields[i] + " = " + Placeholder(i + 1))
  }

  function UpdateSql(table: string, idColumn: string, data: Object): string {
    "UPDATE " + table + " SET " + JoinWith(SetItems(Keys(data)), SEPARATOR)
      + " WHERE " + idColumn + " = " + Placeholder(|Keys(data)| + 1)
  }

  function UpdateParams(data: Object, idValue: Json): seq<Json> {
    var fields := Keys(data);
    seq(|fields|, i requires 0 <= i < |fields| => FieldValue(data, fields[i])) + [idValue]
  }

  /** The statement `update(table, idColumn, idValue, data)` hands to the client. */
  function UpdateQuery(table: string, idColumn: string, idValue: Json, data: Object): Query {
    Query(UpdateSql(table, idColumn, data), UpdateParams(data, idValue))
  }

  /** `update(table, idColumn, idValue, data)`: builds the SET clause and the tuple field by field. */
  method Update(table: string, idColumn: string, idValue: Json, data: Object) returns (q: Query)
    ensures q == UpdateQuery(table, idColumn, idValue, data)
  {
    var fieldNames := Keys(data);
    var setClause := JoinWith(SetItems(fieldNames), SEPARATOR);
    var query := "UPDATE " + table + " SET " + setClause + " WHERE " + idColumn + " = " + Placeholder(|fieldNames| + 1);
    var values: seq<Json> := [];
    for i := 0 to |fieldNames|
      invariant values == UpdateParams(data, idValue)[..i]
    {
      values := values + [FieldValue(data, fieldNames[i])];
    }
    values := values + [idValue];
    assert values == UpdateParams(data, idValue);
    q := Query(query, values);
  }

  /**
   * The update statement lines up: SET item i names the i-th field and its
   * placeholder binds that field's value unchanged; the WHERE placeholder is
   * `$(n+1)`, differs from every SET placeholder, and binds the id.
   */
  lemma UpdateAlignment(table: string, idColumn: string, idValue: Json, data: Object)
    requires DistinctKeys(data)
    ensures var q := UpdateQuery(table, idColumn, idValue, data);
      var n := |data|;
      && |q.params| == n + 1
      && (forall i :: 0 <= i < n ==>
            && SetItems(Keys(data))[i] == data[i].key + " = " + Placeholder(i + 1)
            && Bound(q, i + 1) == Some(data[i].value)
            && Placeholder(i + 1) != Placeholder(n + 1))
      && Bound(q, n + 1) == Some(idValue)
      && Bound(q, n + 2) == None
  {
    var q := UpdateQuery(table, idColumn, idValue, data);
    var n := |data|;
    forall i | 0 <= i < n
      ensures SetItems(Keys(data))[i] == data[i].key + " = " + Placeholder(i + 1)
      ensures Bound(q, i + 1) == Some(data[i].value)
      ensures Placeholder(i + 1) != Placeholder(n + 1)
    {
      KeysAt(data, i);
      GetByPosition(data, i);
      if Placeholder(i + 1) == Placeholder(n + 1) {
        PlaceholderInjective(i + 1, n + 1);
      }
    }
  }

  /** Insert and update bind the same value for a field unless it is nested, which only insert turns into text. */
  lemma InsertAndUpdateAgree(data: Object, idValue: Json, nestedText: Json -> string, i: nat)
    requires i < |data|
    ensures InsertParams(data, nestedText)[i] == UpdateParams(data, idValue)[i]
        <==> !IsNested(FieldValue(data, Keys(data)[i]))
  {
  }

  // ---------------------------------------------------------------------------
  // delete and fetchOne
  // ---------------------------------------------------------------------------

  /** `" WHERE c = $1"`, the condition shared by delete and fetchOne. */
  function WhereFirst(idColumn: string): string {
    " WHERE " + idColumn + " = " + Placeholder(1)
  }

  /** `delete(table, idColumn, idValue)`. */
  function Delete(table: string, idColumn: string, idValue: Json): (q: Query)
    ensures q.sql == "DELETE FROM " + table + " WHERE " + idColumn + " = $1"
    ensures |q.params| == 1 && Bound(q, 1) == Some(idValue)
  {
    Query("DELETE FROM " + table + WhereFirst(idColumn), [idValue])
  }

  /** `fetchOne(table, idColumn, idValue)`. */
  function FetchOne(table: string, idColumn: string, idValue: Json): (q: Query)
    ensures q.sql == "SELECT * FROM " + table + " WHERE " + idColumn + " = $1"
    ensures |q.params| == 1 && Bound(q, 1) == Some(idValue)
  {
    Query("SELECT * FROM " + table + WhereFirst(idColumn), [idValue])
  }

  /**
   * Delete and fetchOne select the same rows as an update that sets no field:
   * the same condition text and the same tuple.
   */
  lemma SameRowSelection(table: string, idColumn: string, idValue: Json)
    ensures var u := UpdateQuery(table, idColumn, idValue, []);
      && u.sql == "UPDATE " + table + " SET " + WhereFirst(idColumn)
      && Delete(table, idColumn, idValue).params == FetchOne(table, idColumn, idValue).params == u.params
  {
    assert UpdateParams([], idValue) == [idValue];
  }
}
