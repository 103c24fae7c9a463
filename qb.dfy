/**
 * The older `Builder`: the same selected fields, filters and order-by list
 * as `Select`, without limit, offset or cursors. It differs from `Select` in
 * two places: `orderByQuery` appends every primary key on every call, with
 * no duplicate check, and the statements put a single space between the
 * initial query and the clause that follows, using the generators that
 * number from `$1` and emit no leading space.
 */
module Qb {
  import opened Wrappers
  import opened Text
  import opened Values
  import opened Filters
  import opened Tables
  import opened Pq
  import S = Selects

  /** The builder's lists. */
  datatype BuilderState = BuilderState(fields: seq<string>, filters: seq<Filter>, orderBy: seq<string>)

  const Empty := BuilderState([], [], [])

  // ---------------------------------------------------------------- specification

  /** The WHERE clause `pqFilter` returns: "" without filters. */
  function FilterClause(filters: seq<Filter>): string
  {
    if |filters| == 0 then "" else "WHERE " + Join(Comparisons(filters, 1), AndSep)
  }

  /** The statement `SelectAll` builds from the state `s`: the keys are appended to the order-by list. */
  function SelectAllText(s: BuilderState, explicit: bool, t: Table): string
  {
    S.InitialText(s.fields, explicit, t) + " ORDER BY " + Join(s.orderBy + t.primaryKey, ",")
  }

  /** The statement `SelectByPK` builds from the state `s`. */
  function SelectByPKText(s: BuilderState, explicit: bool, t: Table): string
    requires |t.primaryKey| >= 1
  {
    S.InitialText(s.fields, explicit, t) + " " + "WHERE " + Join(Equalities(t.primaryKey, 1), AndSep)
  }

  /** The statement `Query` builds from the state `s`: the space is there even when no filter follows. */
  function QueryText(s: BuilderState, explicit: bool, t: Table): string
  {
    S.InitialText(s.fields, explicit, t) + " " + FilterClause(s.filters)
  }

  // ---------------------------------------------------------------- the builder

  class Builder {
    const explicit: bool
    const t: Table
    var fields: seq<string>
    var orderBy: seq<string>
    var filters: seq<Filter>

    function State(): BuilderState
      reads this
    {
      BuilderState(fields, filters, orderBy)
    }

    /** `NewPQ`: an empty builder bound to `t`. */
    constructor (t: Table, explicit: bool)
      ensures this.t == t && this.explicit == explicit
      ensures State() == Empty
    {
      this.t := t;
      this.explicit := explicit;
      fields := [];
      orderBy := [];
      filters := [];
    }

    /** `SetFields`: appends the lower-cased names, keeping the earlier ones. */
    method SetFields(names: seq<string>)
      modifies this
      ensures State() == old(State()).(fields := old(fields) + LowerAll(names))
    {
      var i := 0;
      while i < |names|
        invariant i <= |names|
        invariant State() == old(State()).(fields := old(fields) + LowerAll(names[..i]))
      {
        assert LowerAll(names[..i + 1]) == LowerAll(names[..i]) + [Lower(names[i])];
        fields := fields + [Lower(names[i])];
        i := i + 1;
      }
      assert names[..i] == names;
    }

    /** `SetFilter`: appends one filter on the lower-cased field. */
    method SetFilter(field: string, op: string, value: Value)
      modifies this
      ensures State() == old(State()).(filters := old(filters) + [NewFilter(field, op, value)])
    {
      filters := filters + [NewFilter(field, op, value)];
    }

    /** `SetRange`: a `>=` filter, then a `<=` filter, on the same field. */
    method SetRange(field: string, starting: Value, ending: Value)
      modifies this
      ensures State() == old(State()).(filters := old(filters) + [NewFilter(field, ">=", starting), NewFilter(field, "<=", ending)])
    {
      SetFilter(field, ">=", starting);
      SetFilter(field, "<=", ending);
    }

    /** `OrderBy`: replaces the order-by list, names as given. */
    method OrderBy(names: seq<string>)
      modifies this
      ensures State() == old(State()).(orderBy := names)
    {
      orderBy := names;
    }

    /** `Reset`: empties the three lists. */
    method Reset()
      modifies this
      ensures State() == Empty
    {
      fields := [];
      filters := [];
      orderBy := [];
    }

    /** `initialQuery`: as for `Select`, explicit mode fills in the table's fields. */
    method InitialQuery() returns (q: string)
      modifies this
      ensures State() == old(State()).(fields := S.InitialFields(old(fields), explicit, t))
      ensures q == S.InitialText(old(fields), explicit, t)
    {
      if |fields| == 0 {
        if !explicit {
          return "SELECT * FROM " + t.name;
        }
        fields := t.fields;
      }
      q := "SELECT " + Join(fields, ",") + " FROM " + t.name;
    }

    /** `orderByQuery`: appends all primary keys, present or not, and renders the list. */
    method OrderByQuery() returns (q: string)
      modifies this
      ensures State() == old(State()).(orderBy := old(orderBy) + t.primaryKey)
      ensures |orderBy| == |old(orderBy)| + |t.primaryKey|
      ensures q == "ORDER BY " + Join(orderBy, ",")
    {
      orderBy := orderBy + t.primaryKey;
      q := "ORDER BY " + Join(orderBy, ",");
    }

    /** `SelectAll`: the initial query, a space and the order-by clause. */
    method SelectAll() returns (q: string)
      modifies this
      ensures State() == BuilderState(S.InitialFields(old(fields), explicit, t), old(filters), old(orderBy) + t.primaryKey)
      ensures q == SelectAllText(old(State()), explicit, t)
    {
      var init := InitialQuery();
      var order := OrderByQuery();
      q := init + " " + order;
    }

    /** `SelectByPK`: the initial query, a space and `pqWhere` over the primary keys. */
    method SelectByPK() returns (q: string)
      requires |t.primaryKey| >= 1
      modifies this
      ensures State() == old(State()).(fields := S.InitialFields(old(fields), explicit, t))
      ensures q == SelectByPKText(old(State()), explicit, t)
    {
      var init := InitialQuery();
      var where := PqWhere(t.primaryKey);
      q := init + " " + where;
    }

    /** `Query`: the initial query, a space and `pqFilter`'s clause, with the filter values. */
    method Query() returns (q: string, args: seq<Value>)
      modifies this
      ensures State() == old(State()).(fields := S.InitialFields(old(fields), explicit, t))
      ensures q == QueryText(old(State()), explicit, t)
      ensures args == FilterArgs(old(filters))
    {
      var where;
      where, args := PqFilter(filters);
      var init := InitialQuery();
      q := init + " " + where;
    }

    /** `Error`: nil exactly when every name is a table field and every operator supported. */
    method Error() returns (e: Option<CheckError>)
      ensures e == CheckOf(fields, orderBy, filters, t.fields)
      ensures e.None? <==>
        (forall i :: 0 <= i < |fields| ==> fields[i] in t.fields) &&
        (forall i :: 0 <= i < |orderBy| ==> orderBy[i] in t.fields) &&
        (forall i :: 0 <= i < |filters| ==> filters[i].field in t.fields && IsValidOp(filters[i].op))
    {
      e := Check(fields, orderBy, filters, t.fields);
    }

    /** `QueryMust`: the error instead of the panic, else `Query`. */
    method QueryMust() returns (r: Result<(string, seq<Value>), CheckError>)
      modifies this
      ensures CheckOf(old(fields), old(orderBy), old(filters), t.fields).Some? ==>
        r == Err(CheckOf(old(fields), old(orderBy), old(filters), t.fields).value) && State() == old(State())
      ensures CheckOf(old(fields), old(orderBy), old(filters), t.fields).None? ==>
        r == Ok((QueryText(old(State()), explicit, t), FilterArgs(old(filters)))) &&
        State() == old(State()).(fields := S.InitialFields(old(fields), explicit, t))
    {
      var e := Error();
      if e.Some? {
        return Err(e.value);
      }
      var q, args := Query();
      return Ok((q, args));
    }
  }

  // ---------------------------------------------------------------- properties

  /**
   * The two builders agree on the primary-key statement: `Select` uses the
   * threaded generator from `$1`, which carries its own leading space.
   */
  lemma SelectByPKAgrees(s: BuilderState, explicit: bool, t: Table)
    requires |t.primaryKey| >= 1
    ensures SelectByPKText(s, explicit, t) == S.InitialText(s.fields, explicit, t) + WhereFrom(t.primaryKey, 1).text
  {
    var init := S.InitialText(s.fields, explicit, t);
    var w := Join(Equalities(t.primaryKey, 1), AndSep);
    assert init + " " + "WHERE " + w == init + (" WHERE " + w);
  }

  /**
   * With filters, `Query` is the `Select` statement's head: the same WHERE
   * clause and arguments, before any ORDER BY. Without filters it ends in a space.
   */
  lemma QueryAgrees(s: BuilderState, explicit: bool, t: Table)
    ensures |s.filters| > 0 ==>
      QueryText(s, explicit, t) == S.InitialText(s.fields, explicit, t) + FilterFrom(s.filters, 1).text
    ensures |s.filters| == 0 ==> QueryText(s, explicit, t) == S.InitialText(s.fields, explicit, t) + " "
  {
    if |s.filters| > 0 {
      var init := S.InitialText(s.fields, explicit, t);
      var w := Join(Comparisons(s.filters, 1), AndSep);
      assert init + " " + ("WHERE " + w) == init + (" WHERE " + w);
    }
  }

  /** The `simple` struct of the tests: `ID` tagged as the first key, then `Name`. */
  const Simple := StructType("simple", [StructField("ID", false, "1"), StructField("Name", false, "")])

  /** The `pk:"1"` tag makes `id` the only key. */
  lemma SimpleKeys()
    ensures KeysOf(Simple.fields) == Ok(["id"])
  {
    var fs := Simple.fields;
    assert fs[..2][..1] == fs[..1] && fs[..1][..0] == [];
    assert Lower("ID") == "id";
    assert ParseInt("1", 8) == Some(1);
    var m := map[1 := "id"];
    assert ScanTags(fs[..1]) == Ok(m);
    assert ScanTags(fs) == Ok(m);
    assert |m| == 1 && 1 in m;
    assert TagRanks(fs[..1]) == [1];
    assert TagRanks(fs) == [1];
    assert SortInts([1]) == [1];
    var rs := SortInts(TagRanks(fs));
    assert rs == [1];
    var keys := seq(|rs|, i requires 0 <= i < |rs| => if rs[i] in m then m[rs[i]] else "");
    assert |keys| == 1 && keys[0] == "id";
    assert keys == ["id"];
  }

  /** Both fields are stored, lower-cased, at positions 0 and 1. */
  lemma SimpleVisible()
    ensures VisibleFields(Simple.fields) == ["id", "name"] && VisibleIndices(Simple.fields) == [0, 1]
  {
    var fs := Simple.fields;
    assert fs[..2][..1] == fs[..1] && fs[..1][..0] == [];
    assert Lower("ID") == "id" && Lower("Name") == "name";
    assert VisibleFields(fs[..1]) == ["id"] && VisibleIndices(fs[..1]) == [0];
  }

  /** `NewTable("", simple{})`: the type name, the lower-cased fields and `id` as the only key. */
  lemma SimpleTable()
    ensures TableOf("", Simple) == Ok(Table("simple", ["id", "name"], [0, 1], ["id"]))
  {
    SimpleKeys();
    SimpleVisible();
    assert Lower("simple") == "simple";
  }

  /** The two statements over the `simple` descriptor. */
  lemma SimpleStatements()
    ensures var t := Table("simple", ["id", "name"], [0, 1], ["id"]);
      SelectAllText(Empty, false, t) == "SELECT * FROM simple ORDER BY id" &&
      SelectAllText(Empty, true, t) == "SELECT id,name FROM simple ORDER BY id"
  {
    var t := Table("simple", ["id", "name"], [0, 1], ["id"]);
    var fs: seq<string> := ["id", "name"];
    assert Join(fs, ",") == "id,name" by {
      assert fs[1..] == ["name"];
    }
    var order := Join([] + t.primaryKey, ",");
    assert order == "id" by {
      assert [] + t.primaryKey == ["id"];
    }
    assert S.InitialText([], false, t) == "SELECT * FROM simple";
    assert S.InitialText([], true, t) == "SELECT id,name FROM simple";
  }

  /** `SelectAll` on a fresh builder over the table `NewTable` derives for `simple`, in both modes. */
  lemma SelectAllSimple()
    ensures TableOf("", Simple).Ok?
    ensures SelectAllText(Empty, false, TableOf("", Simple).value) == "SELECT * FROM simple ORDER BY id"
    ensures SelectAllText(Empty, true, TableOf("", Simple).value) == "SELECT id,name FROM simple ORDER BY id"
  {
    SimpleTable();
    SimpleStatements();
  }
}
