/**
 * The `Select` builder and its paging engine. The builder holds the selected
 * fields, the filters, the order-by list, the limit and the offset; it
 * assembles SELECT statements with PostgreSQL placeholders, validates itself
 * against its table, saves its state to a cursor and restores it from one,
 * and moves the offset from page to page. The database results the paging
 * operations need (a row count, a row number) are passed in as parameters, and
 * the paging operations return the statement they would run.
 */
module Selects {
  import opened Wrappers
  import opened Text
  import opened Values
  import opened Filters
  import opened Tables
  import opened Pq
  import C = Cursors

  /** The errors of the paging operations: a cursor that does not decode, or no further page. */
  datatype PageError = CursorError(err: C.DecodeError) | ErrDone

  /** The cursor `setCursor` decodes into: `Cursor{}`. */
  const ZeroCursor := C.Cursor([], [], [], 0, 0)

  // ---------------------------------------------------------------- specification

  /** The order-by list after `orderByQuery`: all keys when it was empty, else the missing keys appended. */
  function OrderWithKeys(orderBy: seq<string>, pks: seq<string>): seq<string>
  {
    if |orderBy| == 0 then pks else AppendMissing(orderBy, pks)
  }

  /** Appends each key that is not yet present, in key order. */
  function AppendMissing(orderBy: seq<string>, pks: seq<string>): seq<string>
  {
    if |pks| == 0 then orderBy
    else
      var prev := AppendMissing(orderBy, pks[..|pks| - 1]);
      if pks[|pks| - 1] in prev then prev else prev + [pks[|pks| - 1]]
  }

  /** The keys of `pks` that `orderBy` lacks, in key order. */
  function Missing(orderBy: seq<string>, pks: seq<string>): seq<string>
  {
    if |pks| == 0 then []
    else Missing(orderBy, pks[..|pks| - 1]) + (if pks[|pks| - 1] in orderBy then [] else [pks[|pks| - 1]])
  }

  /** The field list after `initialQuery`: the table's fields when explicit and none were set. */
  function InitialFields(fields: seq<string>, explicit: bool, t: Table): seq<string>
  {
    if |fields| == 0 && explicit then t.fields else fields
  }

  /** The text `initialQuery` returns. */
  function InitialText(fields: seq<string>, explicit: bool, t: Table): string
  {
    if |fields| == 0 && !explicit then "SELECT * FROM " + t.name
    else "SELECT " + Join(InitialFields(fields, explicit, t), ",") + " FROM " + t.name
  }

  /** The builder state after `Query` (or `SelectAll`) starting from `s`. */
  function AfterQuery(s: C.Cursor, explicit: bool, t: Table): C.Cursor
  {
    s.(fields := InitialFields(s.fields, explicit, t), orderBy := OrderWithKeys(s.orderBy, t.primaryKey))
  }

  /** The statement `Query` builds from the state `s`. */
  function QueryText(s: C.Cursor, explicit: bool, t: Table): string
  {
    InitialText(s.fields, explicit, t) + FilterFrom(s.filters, 1).text +
    OrderText(OrderWithKeys(s.orderBy, t.primaryKey)) + LimitText(s.limit) + OffsetText(s.offset)
  }

  function OrderText(orderBy: seq<string>): string
  {
    " ORDER BY " + Join(orderBy, ",")
  }

  /** The LIMIT clause, present only for a positive limit. */
  function LimitText(limit: int): string
  {
    if limit > 0 then " LIMIT " + IntToString(limit) else ""
  }

  /** The OFFSET clause, present only for a positive offset. */
  function OffsetText(offset: int): string
  {
    if offset > 0 then " OFFSET " + IntToString(offset) else ""
  }

  /** `setCursor`'s effect: lists overwritten only when the cursor's are non-empty; limit and offset always. */
  function Restore(s: C.Cursor, c: C.Cursor): C.Cursor
  {
    C.Cursor(if |c.fields| != 0 then c.fields else s.fields,
             if |c.filters| != 0 then c.filters else s.filters,
             if |c.orderBy| != 0 then c.orderBy else s.orderBy,
             c.limit, c.offset)
  }

  /** The state the cursor token puts the builder in, or the decoding error. */
  function Restored(s: C.Cursor, token: string): Result<C.Cursor, C.DecodeError>
  {
    var d := C.Decode(ZeroCursor, token);
    if d.err.Some? then Err(d.err.value) else Ok(Restore(s, d.cursor))
  }

  /** Whether `Cursor()` has nothing to save. */
  predicate IsBlank(s: C.Cursor)
  {
    |s.fields| == 0 && |s.filters| == 0 && |s.orderBy| == 0 && s.limit <= 0 && s.offset == 0
  }

  // ---------------------------------------------------------------- the builder

  class Select {
    const explicit: bool
    const t: Table
    var fields: seq<string>
    var orderBy: seq<string>
    var filters: seq<Filter>
    var limit: Int64
    var offset: Int64

    /** The paging-relevant state, as a cursor value. */
    function Snapshot(): C.Cursor
      reads this
    {
      C.Cursor(fields, filters, orderBy, limit, offset)
    }

    /** `NewPQSelect`: an empty builder bound to `t`. */
    constructor (t: Table, explicit: bool)
      ensures this.t == t && this.explicit == explicit
      ensures Snapshot() == ZeroCursor
    {
      this.t := t;
      this.explicit := explicit;
      fields := [];
      orderBy := [];
      filters := [];
      limit := 0;
      offset := 0;
    }

    /** `SetFields`: appends the lower-cased names, keeping the earlier ones. */
    method SetFields(names: seq<string>)
      modifies this
      ensures Snapshot() == old(Snapshot()).(fields := old(fields) + LowerAll(names))
    {
      var i := 0;
      while i < |names|
        invariant i <= |names|
        invariant Snapshot() == old(Snapshot()).(fields := old(fields) + LowerAll(names[..i]))
      {
        assert LowerAll(names[..i + 1]) == LowerAll(names[..i]) + [Lower(names[i])];
        fields := fields + [Lower(names[i])];
        i := i + 1;
      }
      assert names[..i] == names;
    }

    /** `SetFilter`: appends one filter on the lower-cased field. */
    method SetFilter(field: string, op: string, value: Value)
      modifies this
      ensures Snapshot() == old(Snapshot()).(filters := old(filters) + [NewFilter(field, op, value)])
    {
      filters := filters + [NewFilter(field, op, value)];
    }

    /** `SetRange`: a `>=` filter, then a `<=` filter, on the same field. */
    method SetRange(field: string, starting: Value, ending: Value)
      modifies this
      ensures Snapshot() == old(Snapshot()).(filters := old(filters) + [NewFilter(field, ">=", starting), NewFilter(field, "<=", ending)])
    {
      SetFilter(field, ">=", starting);
      SetFilter(field, "<=", ending);
    }

    /** `OrderBy`: replaces the order-by list, names as given. */
    method OrderBy(names: seq<string>)
      modifies this
      ensures Snapshot() == old(Snapshot()).(orderBy := names)
    {
      orderBy := names;
    }

    method SetLimit(n: Int64)
      modifies this
      ensures Snapshot() == old(Snapshot()).(limit := n)
    {
      limit := n;
    }

    method SetOffset(n: Int64)
      modifies this
      ensures Snapshot() == old(Snapshot()).(offset := n)
    {
      offset := n;
    }

    /** `Reset`: empties the lists and zeroes limit and offset; the table and mode stay. */
    method Reset()
      modifies this
      ensures Snapshot() == ZeroCursor
    {
      fields := [];
      filters := [];
      orderBy := [];
      limit := 0;
      offset := 0;
    }

    /** `initialQuery`: SELECT * when nothing is selected and not explicit; explicit mode fills in the table's fields. */
    method InitialQuery() returns (q: string)
      modifies this
      ensures Snapshot() == old(Snapshot()).(fields := InitialFields(old(fields), explicit, t))
      ensures q == InitialText(old(fields), explicit, t)
    {
      if |fields| == 0 {
        if !explicit {
          return "SELECT * FROM " + t.name;
        }
        fields := t.fields;
      }
      q := "SELECT " + Join(fields, ",") + " FROM " + t.name;
    }

    /** `isOrderByExist`. */
    method IsOrderByExist(field: string) returns (b: bool)
      ensures b <==> field in orderBy
    {
      var i := 0;
      while i < |orderBy|
        invariant i <= |orderBy|
        invariant field !in orderBy[..i]
      {
        if field == orderBy[i] {
          return true;
        }
        assert orderBy[..i + 1] == orderBy[..i] + [orderBy[i]];
        i := i + 1;
      }
      assert orderBy[..i] == orderBy;
      return false;
    }

    /** `orderByQuery`: completes the order-by list with the primary keys and renders it. */
    method OrderByQuery() returns (q: string)
      modifies this
      ensures Snapshot() == old(Snapshot()).(orderBy := OrderWithKeys(old(orderBy), t.primaryKey))
      ensures q == OrderText(orderBy)
    {
      if |orderBy| == 0 {
        orderBy := orderBy + t.primaryKey;
      } else {
        var pks := t.primaryKey;
        var i := 0;
        while i < |pks|
          invariant i <= |pks|
          invariant Snapshot() == old(Snapshot()).(orderBy := AppendMissing(old(orderBy), pks[..i]))
        {
          assert pks[..i + 1][..i] == pks[..i];
          var present := IsOrderByExist(pks[i]);
          if !present {
            orderBy := orderBy + [pks[i]];
          }
          i := i + 1;
        }
        assert pks[..i] == pks;
      }
      q := " ORDER BY " + Join(orderBy, ",");
    }

    /** `SelectAll`: the initial query and the order-by clause. */
    method SelectAll() returns (q: string)
      modifies this
      ensures Snapshot() == AfterQuery(old(Snapshot()), explicit, t)
      ensures q == InitialText(old(fields), explicit, t) + OrderText(orderBy)
    {
      var init := InitialQuery();
      var order := OrderByQuery();
      q := init + order;
    }

    /** `SelectByPK`: the initial query and a WHERE over the primary keys from `$1`. */
    method SelectByPK() returns (q: string)
      requires |t.primaryKey| >= 1
      modifies this
      ensures Snapshot() == old(Snapshot()).(fields := InitialFields(old(fields), explicit, t))
      ensures q == InitialText(old(fields), explicit, t) + WhereFrom(t.primaryKey, 1).text
    {
      var where := WhereFrom(t.primaryKey, 1);
      var init := InitialQuery();
      q := init + where.text;
    }

    /** `Query`: filters from `$1`, the order-by clause, then LIMIT and OFFSET when positive; the arguments are the filter values. */
    method Query() returns (q: string, args: seq<Value>)
      modifies this
      ensures Snapshot() == AfterQuery(old(Snapshot()), explicit, t)
      ensures q == QueryText(old(Snapshot()), explicit, t)
      ensures args == FilterArgs(old(filters))
    {
      ghost var s := Snapshot();
      var clause := FilterFrom(filters, 1);
      args := clause.args;
      var init := InitialQuery();
      var order := OrderByQuery();
      q := init + clause.text + order;
      ghost var head := q;
      if limit > 0 {
        q := q + (" LIMIT " + IntToString(limit));
      }
      assert q == head + LimitText(s.limit);
      ghost var withLimit := q;
      if offset > 0 {
        q := q + (" OFFSET " + IntToString(offset));
      }
      assert q == withLimit + OffsetText(s.offset);
    }

    /** `Error`: nil exactly when every name is a table field and every operator supported. */
    method Error() returns (e: Option<CheckError>)
      ensures e == CheckOf(fields, orderBy, filters, t.fields)
      ensures e.None? <==>
        (forall i :: 0 <= i < |fields| ==> fields[i] in t.fields) &&
        (forall i :: 0 <= i < |orderBy| ==> orderBy[i] in t.fields) &&
        (forall i :: 0 <= i < |filters| ==> filters[i].field in t.fields && IsValidOp(filters[i].op))
    {
      e := Check(fields, orderBy, filters, t.fields);
    }

    /** `QueryMust`: the error instead of the panic, else `Query`. */
    method QueryMust() returns (r: Result<(string, seq<Value>), CheckError>)
      modifies this
      ensures CheckOf(old(fields), old(orderBy), old(filters), t.fields).Some? ==>
        r == Err(CheckOf(old(fields), old(orderBy), old(filters), t.fields).value) && Snapshot() == old(Snapshot())
      ensures CheckOf(old(fields), old(orderBy), old(filters), t.fields).None? ==>
        r == Ok((QueryText(old(Snapshot()), explicit, t), FilterArgs(old(filters)))) &&
        Snapshot() == AfterQuery(old(Snapshot()), explicit, t)
    {
      var e := Error();
      if e.Some? {
        return Err(e.value);
      }
      var q, args := Query();
      return Ok((q, args));
    }

    // ------------------------------------------------------------ cursors and paging

    /** `setCursor`: a token that does not decode leaves the builder as it was. */
    method SetCursor(token: string) returns (err: Option<C.DecodeError>)
      modifies this
      ensures Restored(old(Snapshot()), token).Err? ==>
        err == Some(Restored(old(Snapshot()), token).error) && Snapshot() == old(Snapshot())
      ensures Restored(old(Snapshot()), token).Ok? ==>
        err.None? && Snapshot() == Restored(old(Snapshot()), token).value
    {
      var d := C.Decode(ZeroCursor, token);
      if d.err.Some? {
        return d.err;
      }
      var c := d.cursor;
      if |c.fields| != 0 {
        fields := c.fields;
      }
      if |c.filters| != 0 {
        filters := c.filters;
      }
      if |c.orderBy| != 0 {
        orderBy := c.orderBy;
      }
      limit := c.limit;
      offset := c.offset;
      return None;
    }

    /** `Cursor`: "" exactly when there is nothing to save, else the encoded state. */
    method Cursor() returns (token: string)
      ensures token == "" <==> IsBlank(Snapshot())
      ensures token != "" ==> token == C.Encode(Snapshot())
    {
      if |fields| == 0 && |filters| == 0 && |orderBy| == 0 && limit <= 0 && offset == 0 {
        return "";
      }
      token := C.String(Snapshot());
    }

    /** The tail both page moves share: set the offset, then `Query`. */
    method QueryAt(newOffset: Int64) returns (q: string, args: seq<Value>)
      modifies this
      ensures Snapshot() == AfterQuery(old(Snapshot()).(offset := newOffset), explicit, t)
      ensures q == QueryText(old(Snapshot()).(offset := newOffset), explicit, t)
      ensures args == FilterArgs(old(filters))
    {
      offset := newOffset;
      q, args := Query();
    }

    /** The offset arithmetic of `GetNext`: restore the cursor, then offset += limit (64-bit). */
    method GetNext(token: string) returns (err: Option<PageError>, q: string, args: seq<Value>)
      modifies this
      ensures Restored(old(Snapshot()), token).Err? ==>
        err == Some(CursorError(Restored(old(Snapshot()), token).error)) && Snapshot() == old(Snapshot())
      ensures Restored(old(Snapshot()), token).Ok? ==>
        var s := Restored(old(Snapshot()), token).value;
        var moved := s.(offset := Wrap64(s.offset + s.limit));
        err.None? && Snapshot() == AfterQuery(moved, explicit, t) &&
        q == QueryText(moved, explicit, t) && args == FilterArgs(moved.filters)
    {
      var e := SetCursor(token);
      if e.Some? {
        return Some(CursorError(e.value)), "", [];
      }
      q, args := QueryAt(Wrap64(offset + limit));
      err := None;
    }

    /** The offset arithmetic of `GetPrevious`: restore the cursor, then offset -= limit, not clamped at zero. */
    method GetPrevious(token: string) returns (err: Option<PageError>, q: string, args: seq<Value>)
      modifies this
      ensures Restored(old(Snapshot()), token).Err? ==>
        err == Some(CursorError(Restored(old(Snapshot()), token).error)) && Snapshot() == old(Snapshot())
      ensures Restored(old(Snapshot()), token).Ok? ==>
        var s := Restored(old(Snapshot()), token).value;
        var moved := s.(offset := Wrap64(s.offset - s.limit));
        err.None? && Snapshot() == AfterQuery(moved, explicit, t) &&
        q == QueryText(moved, explicit, t) && args == FilterArgs(moved.filters)
    {
      var e := SetCursor(token);
      if e.Some? {
        return Some(CursorError(e.value)), "", [];
      }
      q, args := QueryAt(Wrap64(offset - limit));
      err := None;
    }

    /** `getLast` given the row count: `ErrDone` when count - limit <= offset, else offset = count - limit. */
    method GetLastOffset(token: string, count: Int64) returns (err: Option<PageError>)
      modifies this
      ensures Restored(old(Snapshot()), token).Err? ==>
        err == Some(CursorError(Restored(old(Snapshot()), token).error)) && Snapshot() == old(Snapshot())
      ensures Restored(old(Snapshot()), token).Ok? ==>
        var s := Restored(old(Snapshot()), token).value;
        if Wrap64(count - s.limit) <= s.offset then err == Some(ErrDone) && Snapshot() == s
        else err.None? && Snapshot() == s.(offset := Wrap64(count - s.limit))
    {
      var e := SetCursor(token);
      if e.Some? {
        return Some(CursorError(e.value));
      }
      if Wrap64(count - limit) <= offset {
        return Some(ErrDone);
      }
      offset := Wrap64(count - limit);
      return None;
    }

    /** `GetLast`: `getLast`, then the query of the last page. */
    method GetLast(token: string, count: Int64) returns (err: Option<PageError>, q: string, args: seq<Value>)
      modifies this
      ensures Restored(old(Snapshot()), token).Err? ==>
        err == Some(CursorError(Restored(old(Snapshot()), token).error)) && Snapshot() == old(Snapshot())
      ensures Restored(old(Snapshot()), token).Ok? ==>
        var s := Restored(old(Snapshot()), token).value;
        if Wrap64(count - s.limit) <= s.offset then err == Some(ErrDone) && Snapshot() == s
        else
          var last := s.(offset := Wrap64(count - s.limit));
          err.None? && Snapshot() == AfterQuery(last, explicit, t) && q == QueryText(last, explicit, t) &&
          args == FilterArgs(last.filters)
    {
      err := GetLastOffset(token, count);
      if err.Some? {
        return err, "", [];
      }
      q, args := Query();
    }

    /**
     * `byPKCursor` given the row number the window query found: a cursor with
     * the current fields and order-by (as they were before `orderByQuery`
     * completed it), no filters, limit 1 and offset row number - 1.
     */
    method ByPKCursor(rowNumber: Int64) returns (token: string)
      requires |t.primaryKey| >= 1
      modifies this
      ensures token == C.Encode(C.Cursor(old(fields), [], old(orderBy), 1, Wrap64(rowNumber - 1)))
      ensures Snapshot() == old(Snapshot()).(orderBy := OrderWithKeys(old(orderBy), t.primaryKey))
    {
      var c := C.Cursor(fields, [], orderBy, 1, 0);
      var order := OrderByQuery();
      var where := WhereFrom(t.primaryKey, 1);
      c := c.(offset := rowNumber);
      c := c.(offset := Wrap64(c.offset - 1));
      token := C.String(c);
    }
  }

  // ---------------------------------------------------------------- properties

  /** Appending missing keys keeps the list as a prefix, adds exactly the missing keys in key order. */
  lemma {:induction false} AppendMissingIsMissing(orderBy: seq<string>, pks: seq<string>)
    requires forall i, j :: 0 <= i < j < |pks| ==> pks[i] != pks[j]
    ensures AppendMissing(orderBy, pks) == orderBy + Missing(orderBy, pks)
  {
    if |pks| > 0 {
      var init := pks[..|pks| - 1];
      var k := pks[|pks| - 1];
      AppendMissingIsMissing(orderBy, init);
      MissingFrom(orderBy, init);
    }
  }

  /** The missing keys come from the key list. */
  lemma {:induction false} MissingFrom(orderBy: seq<string>, pks: seq<string>)
    ensures forall x :: x in Missing(orderBy, pks) ==> x in pks && x !in orderBy
  {
    if |pks| > 0 {
      MissingFrom(orderBy, pks[..|pks| - 1]);
    }
  }

  /** After `orderByQuery`: the old list is a prefix, every key is present, and nothing else was added. */
  lemma {:induction false} AppendMissingSpec(orderBy: seq<string>, pks: seq<string>)
    ensures var r := AppendMissing(orderBy, pks);
      orderBy <= r && (forall k :: k in pks ==> k in r) && (forall x :: x in r ==> x in orderBy || x in pks)
  {
    if |pks| > 0 {
      var init := pks[..|pks| - 1];
      AppendMissingSpec(orderBy, init);
      forall k | k in pks ensures k in AppendMissing(orderBy, pks) {
        if k != pks[|pks| - 1] {
          var j :| 0 <= j < |pks| && pks[j] == k;
          assert init[j] == k;
        }
      }
    }
  }

  /** `orderByQuery` is idempotent: a second call changes nothing. */
  lemma OrderWithKeysIdempotent(orderBy: seq<string>, pks: seq<string>)
    ensures OrderWithKeys(OrderWithKeys(orderBy, pks), pks) == OrderWithKeys(orderBy, pks)
  {
    var r := OrderWithKeys(orderBy, pks);
    if |orderBy| == 0 {
      if |pks| > 0 {
        AllPresent(pks, pks);
      }
    } else {
      AppendMissingSpec(orderBy, pks);
      AllPresent(r, pks);
    }
  }

  /** Appending keys that are all present already changes nothing. */
  lemma {:induction false} AllPresent(orderBy: seq<string>, pks: seq<string>)
    requires forall k :: k in pks ==> k in orderBy
    ensures AppendMissing(orderBy, pks) == orderBy
  {
    if |pks| > 0 {
      var init := pks[..|pks| - 1];
      forall k | k in init ensures k in orderBy {
        var j :| 0 <= j < |init| && init[j] == k;
        assert pks[j] == k;
      }
      AllPresent(orderBy, init);
      assert pks[|pks| - 1] in pks;
    }
  }

  /** After `orderByQuery` the list starts with its previous contents and holds every primary key. */
  lemma OrderWithKeysSpec(orderBy: seq<string>, pks: seq<string>)
    ensures var r := OrderWithKeys(orderBy, pks);
      orderBy <= r && (forall k :: k in pks ==> k in r) && (forall x :: x in r ==> x in orderBy || x in pks)
  {
    if |orderBy| != 0 {
      AppendMissingSpec(orderBy, pks);
    }
  }

  /** A saved state with non-empty lists comes back whole from its cursor, whatever the builder held before. */
  lemma CursorRoundTrip(before: C.Cursor, saved: C.Cursor)
    requires C.Encodable(saved) && !IsBlank(saved)
    requires |saved.fields| > 0 && |saved.filters| > 0 && |saved.orderBy| > 0
    ensures Restored(before, C.Encode(saved)) == Ok(saved)
  {
    C.DecodeString(ZeroCursor, saved);
  }

  /** Empty lists in a cursor keep the builder's lists: only limit and offset are always taken over. */
  lemma CursorKeepsLists(before: C.Cursor, saved: C.Cursor)
    requires C.Encodable(saved)
    ensures Restored(before, C.Encode(saved)).Ok?
    ensures var s := Restored(before, C.Encode(saved)).value;
      s.limit == saved.limit && s.offset == saved.offset &&
      s.fields == (if |saved.fields| == 0 then before.fields else saved.fields) &&
      s.filters == (if |saved.filters| == 0 then before.filters else saved.filters) &&
      s.orderBy == (if |saved.orderBy| == 0 then before.orderBy else saved.orderBy)
  {
    C.DecodeString(ZeroCursor, saved);
  }

  /** Going forward a page and back again from the next page's cursor returns to the starting offset. */
  lemma NextThenPrevious(before: C.Cursor, s: C.Cursor)
    requires C.Encodable(s)
    ensures var next := s.(offset := Wrap64(s.offset + s.limit));
      Restored(before, C.Encode(next)).Ok? &&
      var back := Restored(before, C.Encode(next)).value;
      Wrap64(back.offset - back.limit) == s.offset
  {
    var next := s.(offset := Wrap64(s.offset + s.limit));
    C.DecodeString(ZeroCursor, next);
    Wrap64AddSub(s.offset, s.limit);
  }

  /** When count - limit does not overflow, `getLast` lands on the page whose end is the last row, and only moves forward. */
  lemma LastPageOffset(s: C.Cursor, count: Int64)
    requires -0x8000_0000_0000_0000 <= count - s.limit < 0x8000_0000_0000_0000
    ensures Wrap64(count - s.limit) > s.offset ==> Wrap64(count - s.limit) + s.limit == count
    ensures Wrap64(count - s.limit) <= s.offset <==> count - s.limit <= s.offset
  {
  }

  /** The cursor `byPKCursor` returns reads back as limit 1 at offset row number - 1 with no filters. */
  lemma ByPKCursorDecodes(fields: seq<string>, orderBy: seq<string>, rowNumber: Int64)
    requires C.Encodable(C.Cursor(fields, [], orderBy, 1, Wrap64(rowNumber - 1)))
    ensures var d := C.Decode(ZeroCursor, C.Encode(C.Cursor(fields, [], orderBy, 1, Wrap64(rowNumber - 1))));
      d.err.None? && d.cursor.limit == 1 && d.cursor.filters == [] && d.cursor.fields == fields &&
      (rowNumber >= 1 ==> d.cursor.offset == rowNumber - 1 && d.cursor.offset >= 0)
  {
    C.DecodeString(ZeroCursor, C.Cursor(fields, [], orderBy, 1, Wrap64(rowNumber - 1)));
  }

  /** The filter values are the statement's arguments, and the i-th is bound to placeholder `$(i+1)`. */
  lemma QueryArgsMatchPlaceholders(s: C.Cursor)
    ensures var clause := FilterFrom(s.filters, 1);
      |clause.args| == |s.filters| && clause.next == |s.filters| + 1 &&
      (|s.filters| > 0 ==> clause.text == " WHERE " + Join(Comparisons(s.filters, 1), AndSep)) &&
      forall i :: 0 <= i < |s.filters| ==>
        clause.args[i] == s.filters[i].value &&
        Comparisons(s.filters, 1)[i] == Comparison(s.filters[i].field, s.filters[i].op, i + 1)
  {
  }
}
