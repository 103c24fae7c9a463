/**
 * The `Update` builder: it records the SET pairs and the filters of one
 * statement, builds the UPDATE, INSERT and DELETE statements for its table
 * with one placeholder sequence per statement, and empties itself after
 * building an UPDATE or a filtered DELETE.
 */
module Updates {
  import opened Wrappers
  import opened Text
  import opened Values
  import opened Filters
  import opened Tables
  import opened Pq

  /** The builder's two lists. */
  datatype UpdateState = UpdateState(updated: seq<FieldValue>, filters: seq<Filter>)

  datatype SetError =
    | NoSuchField(field: string, table: string)
    | PrimaryKeyField(field: string)

  datatype DeleteError = KeyCountMismatch

  // ---------------------------------------------------------------- the SET list

  /** The position of the first pair for `field`; |updated| when there is none. */
  function FieldPos(updated: seq<FieldValue>, field: string): (r: nat)
    ensures r <= |updated|
    ensures forall j :: 0 <= j < r ==> updated[j].field != field
    ensures r < |updated| ==> updated[r].field == field
  {
    if |updated| == 0 then 0
    else if updated[0].field == field then 0
    else 1 + FieldPos(updated[1..], field)
  }

  /** The value recorded for `field`, if any. */
  function Lookup(updated: seq<FieldValue>, field: string): Option<Value>
  {
    var i := FieldPos(updated, field);
    if i < |updated| then Some(updated[i].value) else None
  }

  /** What `set` does to the list: replace the pair for `field` where it stands, else append one. */
  function Upsert(updated: seq<FieldValue>, field: string, value: Value): seq<FieldValue>
  {
    var i := FieldPos(updated, field);
    if i < |updated| then updated[i := FieldValue(field, value)] else updated + [FieldValue(field, value)]
  }

  predicate DistinctFields(updated: seq<FieldValue>)
  {
    forall i, j :: 0 <= i < j < |updated| ==> updated[i].field != updated[j].field
  }

  /** A field `Set` accepts: a table field that is not part of the primary key. */
  predicate Settable(t: Table, field: string)
  {
    field in t.fields && field !in t.primaryKey
  }

  /** What `Set` keeps true of the SET list: distinct names, each a settable field. */
  predicate ValidUpdated(t: Table, updated: seq<FieldValue>)
  {
    DistinctFields(updated) && forall i :: 0 <= i < |updated| ==> Settable(t, updated[i].field)
  }

  // ---------------------------------------------------------------- statements

  /** The statement `UpdateQuery` builds: SET from `$1`, the filters' WHERE numbered on from there. */
  function UpdateText(t: Table, s: UpdateState): string
    requires |s.updated| > 0
  {
    var setClause := UpdateSetFrom(s.updated, 1);
    "UPDATE " + t.name + setClause.text + FilterFrom(s.filters, setClause.next).text
  }

  /** The arguments of `UpdateQuery`: the SET values, then the filter values. */
  function UpdateArgs(s: UpdateState): seq<Value>
  {
    SetArgs(s.updated) + FilterArgs(s.filters)
  }

  /** The statement `UpdateByPKQuery` builds: SET from `$1`, the key equalities numbered on from there. */
  function UpdateByPKText(t: Table, s: UpdateState): string
    requires |s.updated| > 0 && |t.primaryKey| >= 1
  {
    var setClause := UpdateSetFrom(s.updated, 1);
    "UPDATE " + t.name + setClause.text + WhereFrom(t.primaryKey, setClause.next).text
  }

  function InsertText(t: Table): string
  {
    "INSERT INTO " + t.name + " (" + Join(t.fields, ",") + ") VALUES (" + MakePlaceholder(|t.fields|) + ")"
  }

  function DeleteByPKText(t: Table): string
    requires |t.primaryKey| >= 1
  {
    "DELETE FROM " + t.name + WhereFrom(t.primaryKey, 1).text
  }

  function DeleteText(t: Table, filters: seq<Filter>): string
  {
    "DELETE FROM " + t.name + FilterFrom(filters, 1).text
  }

  // ---------------------------------------------------------------- lookups

  /** `isFieldExist`: a linear scan of the table's fields. */
  method IsFieldExist(t: Table, field: string) returns (b: bool)
    ensures b <==> field in t.fields
  {
    b := FieldExist(t.fields, field);
  }

  /** `isPK`: a linear scan of the table's primary keys. */
  method IsPK(t: Table, field: string) returns (b: bool)
    ensures b <==> field in t.primaryKey
  {
    b := FieldExist(t.primaryKey, field);
  }

  // ---------------------------------------------------------------- the builder

  class Update {
    const t: Table
    var updated: seq<FieldValue>
    var filters: seq<Filter>

    function State(): UpdateState
      reads this
    {
      UpdateState(updated, filters)
    }

    /** `NewPQUpdate`: an empty builder bound to `t`. */
    constructor (t: Table)
      ensures this.t == t && State() == UpdateState([], [])
    {
      this.t := t;
      updated := [];
      filters := [];
    }

    /** `Set`: lower-cases the field; refuses an unknown field, then a primary-key field; else records the pair. */
    method Set(field: string, value: Value) returns (err: Option<SetError>)
      modifies this
      ensures Lower(field) !in t.fields ==>
        err == Some(NoSuchField(Lower(field), t.name)) && State() == old(State())
      ensures Lower(field) in t.fields && Lower(field) in t.primaryKey ==>
        err == Some(PrimaryKeyField(Lower(field))) && State() == old(State())
      ensures Settable(t, Lower(field)) ==>
        err.None? && State() == old(State()).(updated := Upsert(old(updated), Lower(field), value))
    {
      var f := Lower(field);
      var exists_ := IsFieldExist(t, f);
      if !exists_ {
        return Some(NoSuchField(f, t.name));
      }
      var pk := IsPK(t, f);
      if pk {
        return Some(PrimaryKeyField(f));
      }
      Put(f, value);
      return None;
    }

    /** `set`: overwrite the value of the first pair for `field` in place, or append a pair. */
    method Put(field: string, value: Value)
      modifies this
      ensures State() == old(State()).(updated := Upsert(old(updated), field, value))
    {
      var i := 0;
      while i < |updated|
        invariant i <= |updated| && updated == old(updated) && filters == old(filters)
        invariant forall j :: 0 <= j < i ==> updated[j].field != field
      {
        if updated[i].field == field {
          FieldPosAt(updated, field, i);
          var v := updated[i].(value := value);
          updated := updated[i := v];
          return;
        }
        i := i + 1;
      }
      FieldPosAt(updated, field, i);
      updated := updated + [FieldValue(field, value)];
    }

    /** `SetFilter`: appends one filter on the lower-cased field. */
    method SetFilter(field: string, op: string, value: Value)
      modifies this
      ensures State() == old(State()).(filters := old(filters) + [NewFilter(field, op, value)])
    {
      filters := filters + [NewFilter(field, op, value)];
    }

    /** `reset`: both lists truncated to length zero. */
    method Reset()
      modifies this
      ensures State() == UpdateState([], [])
    {
      updated := updated[..0];
      filters := filters[..0];
    }

    /** `UpdateQuery`: nothing (and no reset) without SET pairs; else the statement and its arguments, then a reset. */
    method UpdateQuery() returns (q: string, args: seq<Value>)
      modifies this
      ensures |old(updated)| == 0 ==> q == "" && args == [] && State() == old(State())
      ensures |old(updated)| > 0 ==>
        q == UpdateText(t, old(State())) && args == UpdateArgs(old(State())) && State() == UpdateState([], [])
    {
      if |updated| == 0 {
        return "", [];
      }
      var next := 1;
      var setClause := UpdateSetFrom(updated, next);
      q, args, next := setClause.text, setClause.args, setClause.next;
      var w := FilterFrom(filters, next);
      if |w.args| > 0 {
        args := args + w.args;
      }
      q := "UPDATE " + t.name + q + w.text;
      Reset();
    }

    /** `UpdateByPKQuery`: as `UpdateQuery`, with the primary-key WHERE; the arguments are the SET values only. */
    method UpdateByPKQuery() returns (q: string, args: seq<Value>)
      requires |updated| == 0 || |t.primaryKey| >= 1
      modifies this
      ensures |old(updated)| == 0 ==> q == "" && args == [] && State() == old(State())
      ensures |old(updated)| > 0 ==>
        q == UpdateByPKText(t, old(State())) && args == SetArgs(old(updated)) && State() == UpdateState([], [])
    {
      if |updated| == 0 {
        return "", [];
      }
      var next := 1;
      var setClause := UpdateSetFrom(updated, next);
      q, args, next := setClause.text, setClause.args, setClause.next;
      var w := WhereFrom(t.primaryKey, next);
      q := "UPDATE " + t.name + q + w.text;
      Reset();
    }

    /** `UpdateByPK` up to the execution: the statement and the SET values followed by the key values; resets as `UpdateByPKQuery` does. */
    method UpdateByPK(keys: seq<Value>) returns (q: string, args: seq<Value>)
      requires |updated| == 0 || |t.primaryKey| >= 1
      modifies this
      ensures |old(updated)| == 0 ==> q == "" && args == keys && State() == old(State())
      ensures |old(updated)| > 0 ==>
        q == UpdateByPKText(t, old(State())) && args == SetArgs(old(updated)) + keys && State() == UpdateState([], [])
    {
      q, args := UpdateByPKQuery();
      args := args + keys;
    }

    /** `InsertQuery`: every table field in order, with as many placeholders. */
    method InsertQuery() returns (q: string)
      ensures q == InsertText(t)
    {
      var n := |t.fields|;
      q := "INSERT INTO " + t.name + " (" + Join(t.fields, ",") + ") VALUES (" + MakePlaceholder(n) + ")";
    }

    /** `DeleteByPKQuery`: the primary-key WHERE from `$1`; the builder is not reset. */
    method DeleteByPKQuery() returns (q: string)
      requires |t.primaryKey| >= 1
      ensures q == DeleteByPKText(t)
    {
      var w := WhereFrom(t.primaryKey, 1);
      q := "DELETE FROM " + t.name + w.text;
    }

    /** `DeleteByPK` up to the execution: one key value per primary key, else an error. */
    method DeleteByPK(keys: seq<Value>) returns (r: Result<(string, seq<Value>), DeleteError>)
      requires |t.primaryKey| >= 1
      ensures r.Err? <==> |keys| != |t.primaryKey|
      ensures r.Ok? ==> r.value == (DeleteByPKText(t), keys)
    {
      if |keys| != |t.primaryKey| {
        return Err(KeyCountMismatch);
      }
      var q := DeleteByPKQuery();
      return Ok((q, keys));
    }

    /** `DeleteQuery`: the filters' WHERE from `$1` and their values; always resets. */
    method DeleteQuery() returns (q: string, args: seq<Value>)
      modifies this
      ensures q == DeleteText(t, old(filters)) && args == FilterArgs(old(filters))
      ensures State() == UpdateState([], [])
    {
      var w := FilterFrom(filters, 1);
      q := "DELETE FROM " + t.name + w.text;
      args := w.args;
      Reset();
    }
  }

  // ---------------------------------------------------------------- properties

  lemma FieldPosAt(updated: seq<FieldValue>, field: string, i: nat)
    requires i <= |updated|
    requires forall j :: 0 <= j < i ==> updated[j].field != field
    requires i < |updated| ==> updated[i].field == field
    ensures FieldPos(updated, field) == i
  {
  }

  /**
   * `set` records `value` for `field`, keeps every other field's value, keeps
   * every other pair where it stood, and grows the list only for a new field.
   */
  lemma UpsertSpec(updated: seq<FieldValue>, field: string, value: Value)
    ensures var r := Upsert(updated, field, value);
      Lookup(r, field) == Some(value) &&
      (forall g :: g != field ==> Lookup(r, g) == Lookup(updated, g)) &&
      |r| == |updated| + (if Lookup(updated, field).None? then 1 else 0) &&
      (forall j :: 0 <= j < |updated| && updated[j].field != field ==> r[j] == updated[j])
  {
    var r := Upsert(updated, field, value);
    var i := FieldPos(updated, field);
    if i < |updated| {
      FieldPosAt(r, field, i);
    } else {
      FieldPosAt(r, field, i);
    }
    forall g | g != field ensures Lookup(r, g) == Lookup(updated, g) {
      var k := FieldPos(updated, g);
      if k < |updated| {
        FieldPosAt(r, g, k);
      } else {
        FieldPosAt(r, g, |r|);
      }
    }
  }

  /** Recording a settable field keeps the SET list valid: names stay distinct and settable. */
  lemma UpsertKeepsValid(t: Table, updated: seq<FieldValue>, field: string, value: Value)
    requires ValidUpdated(t, updated) && Settable(t, field)
    ensures ValidUpdated(t, Upsert(updated, field, value))
  {
  }

  /** Setting the same value twice is the same as setting it once. */
  lemma UpsertIdempotent(updated: seq<FieldValue>, field: string, value: Value)
    ensures Upsert(Upsert(updated, field, value), field, value) == Upsert(updated, field, value)
  {
    var r := Upsert(updated, field, value);
    var i := FieldPos(updated, field);
    FieldPosAt(r, field, i);
  }

  /**
   * One placeholder sequence per UPDATE: the SET pairs take `$1`..`$m`, the
   * filters `$(m+1)`.., and placeholder `$k` is bound to the k-th argument.
   */
  lemma UpdateNumbering(t: Table, s: UpdateState)
    requires |s.updated| > 0
    ensures var m := |s.updated|; var args := UpdateArgs(s);
      UpdateText(t, s) ==
        "UPDATE " + t.name + " SET " + Join(Assignments(s.updated, 1), AndSep) +
        (if |s.filters| == 0 then "" else " WHERE " + Join(Comparisons(s.filters, m + 1), AndSep)) &&
      |args| == m + |s.filters| &&
      (forall i :: 0 <= i < m ==>
        Assignments(s.updated, 1)[i] == Comparison(s.updated[i].field, "=", i + 1) && args[i] == s.updated[i].value) &&
      (forall j :: 0 <= j < |s.filters| ==>
        Comparisons(s.filters, m + 1)[j] == Comparison(s.filters[j].field, s.filters[j].op, m + 1 + j) &&
        args[m + j] == s.filters[j].value)
  {
  }

  /** In `UpdateByPK` the keys follow the SET values: key `j` is bound to placeholder `$(m+1+j)`. */
  lemma UpdateByPKNumbering(t: Table, s: UpdateState, keys: seq<Value>)
    requires |s.updated| > 0 && |t.primaryKey| >= 1
    ensures var m := |s.updated|; var args := SetArgs(s.updated) + keys;
      UpdateByPKText(t, s) ==
        "UPDATE " + t.name + " SET " + Join(Assignments(s.updated, 1), AndSep) +
        " WHERE " + Join(Equalities(t.primaryKey, m + 1), AndSep) &&
      (forall j :: 0 <= j < |t.primaryKey| ==>
        Equalities(t.primaryKey, m + 1)[j] == Comparison(t.primaryKey[j], "=", m + 1 + j)) &&
      (forall j :: 0 <= j < |keys| ==> args[m + j] == keys[j])
  {
  }

  /** The VALUES list of an INSERT splits into exactly n placeholders, the i-th being `$(i+1)`. */
  lemma InsertPlaceholders(n: nat)
    requires n >= 1
    ensures var ps := seq(n, i requires 0 <= i < n => "$" + IntToString(i + 1));
      Split(MakePlaceholder(n), ',') == ps &&
      forall i :: 0 <= i < n ==> ps[i][0] == '$' && AllDigits(ps[i][1..]) && DigitsValue(ps[i][1..]) == i + 1
  {
    var ps := seq(n, i requires 0 <= i < n => "$" + IntToString(i + 1));
    forall i | 0 <= i < n
      ensures ps[i][0] == '$' && AllDigits(ps[i][1..]) && DigitsValue(ps[i][1..]) == i + 1
      ensures ',' !in ps[i]
    {
      PlaceholderNumbers(n, i);
      assert ps[i] == [ps[i][0]] + ps[i][1..];
      assert forall k :: 0 <= k < |ps[i][1..]| ==> IsDigit(ps[i][1..][k]);
    }
    SplitJoin(ps, ',');
  }

  /** The employee table of the update tests: key `id`, then `name` and `age`. */
  const Emp := Table("emp", ["id", "name", "age"], [0, 1, 2], ["id"])

  /** A number below 10 is one digit. */
  lemma OneDigit(n: nat)
    requires n < 10
    ensures IntToString(n) == [(48 + n) as char]
  {
  }

  /** One SET pair and one filter: `UPDATE emp SET name = $1 WHERE id = $2` with the value, then the key. */
  lemma UpdateEmp()
    ensures var s := UpdateState([FieldValue("name", VStr("al"))], [Filter("id", "=", VStr("i8"))]);
      UpdateText(Emp, s) == "UPDATE emp SET name = $1 WHERE id = $2" &&
      UpdateArgs(s) == [VStr("al"), VStr("i8")]
  {
    EmpSetClause();
    EmpWhereClause();
  }

  lemma EmpSetClause()
    ensures UpdateSetFrom([FieldValue("name", VStr("al"))], 1).text == " SET name = $1"
  {
    OneDigit(1);
    var u := [FieldValue("name", VStr("al"))];
    assert Comparison("name", "=", 1) == "name = $1";
    assert Assignments(u, 1) == ["name = $1"];
  }

  lemma EmpWhereClause()
    ensures FilterFrom([Filter("id", "=", VStr("i8"))], 2).text == " WHERE id = $2"
  {
    OneDigit(2);
    var f := [Filter("id", "=", VStr("i8"))];
    assert Comparison("id", "=", 2) == "id = $2";
    assert Comparisons(f, 2) == ["id = $2"];
  }

  /** `INSERT INTO emp (id,name,age) VALUES ($1,$2,$3)`. */
  lemma InsertEmp()
    ensures InsertText(Emp) == "INSERT INTO emp (id,name,age) VALUES ($1,$2,$3)"
  {
    ThreePlaceholders();
    EmpFields();
  }

  lemma EmpFields()
    ensures Join(Emp.fields, ",") == "id,name,age"
  {
    var fs := Emp.fields;
    assert Join(fs[2..], ",") == "age";
    assert Join(fs[1..], ",") == "name,age" by {
      assert fs[1..][1..] == fs[2..];
    }
  }

  lemma ThreePlaceholders()
    ensures MakePlaceholder(3) == "$1,$2,$3"
  {
    OneDigit(1);
    OneDigit(2);
    OneDigit(3);
    var ps := seq(3, i requires 0 <= i < 3 => "$" + IntToString(i + 1));
    assert ps[0] == "$1" && ps[1] == "$2" && ps[2] == "$3";
    assert Join(ps[2..], ",") == "$3";
    assert Join(ps[1..], ",") == "$2,$3" by {
      assert ps[1..][1..] == ps[2..];
    }
  }
}
