/**
 * The `List` iterator of list.go: it sends the builder's statement, keeps the
 * row stream the database answers with, and hands the rows out one at a time
 * (`Next`) or all at once into a slice (`GetAll`).
 *
 * The database is a parameter: each method that sends a statement returns the
 * statement and its arguments and takes the database's answer, either a refusal
 * or the rows it delivers followed by an optional stream error. The stream
 * itself is modelled as `database/sql` keeps it: a position, a closed flag and
 * the error that ended the iteration.
 */
module ListIterator {
  import opened Wrappers
  import opened Text
  import opened Values
  import opened Filters
  import opened Pq
  import opened Lists
  import S = Selects

  // ---------------------------------------------------------------- the row stream

  /** What the database answers to a query. */
  datatype Response =
    | Refused(message: string)
    | Answered(data: seq<seq<Value>>, failure: Option<string>)

  /**
   * A `*sql.Rows`: the rows delivered, the error that follows them (if any),
   * how many rows were handed out, whether the stream is closed, and the
   * error `Rows.Err` reports.
   */
  datatype Rows = Rows(data: seq<seq<Value>>, failure: Option<string>, pos: nat, closed: bool, lastErr: Option<string>)

  /** A stream just returned by the database. */
  function Opened(data: seq<seq<Value>>, failure: Option<string>): Rows
  {
    Rows(data, failure, 0, false, None)
  }

  /** What one `Rows.Next` yields, and the stream after it. */
  datatype Pulled = Pulled(row: Option<seq<Value>>, rows: Rows)

  /**
   * `Rows.Next`: the next row while the stream is open and has one. Otherwise
   * the stream closes, keeping the error that ended it; a stream already
   * closed stays as it is.
   */
  function Advance(r: Rows): Pulled
  {
    if !r.closed && r.pos < |r.data| then Pulled(Some(r.data[r.pos]), r.(pos := r.pos + 1))
    else if r.closed then Pulled(None, r)
    else Pulled(None, r.(closed := true, lastErr := r.failure))
  }

  /** `k` calls of `Rows.Next`: the rows they yield, in order, and the stream after them. */
  function Pulls(r: Rows, k: nat): (seq<seq<Value>>, Rows)
    decreases k
  {
    if k == 0 then ([], r)
    else
      var before := Pulls(r, k - 1);
      var p := Advance(before.1);
      (if p.row.Some? then before.0 + [p.row.value] else before.0, p.rows)
  }

  /** An open stream yields its rows one by one, in the order the database delivered them. */
  lemma {:induction false} PullsOpened(data: seq<seq<Value>>, failure: Option<string>, k: nat)
    requires k <= |data|
    ensures Pulls(Opened(data, failure), k) == (data[..k], Opened(data, failure).(pos := k))
  {
    if k > 0 {
      PullsOpened(data, failure, k - 1);
      assert data[..k - 1] + [data[k - 1]] == data[..k];
    }
  }

  /**
   * After every row, the stream ends: the next pull yields nothing and
   * reports the stream's error (none when the data ended normally), and every
   * pull after that does the same.
   */
  lemma StreamEnds(data: seq<seq<Value>>, failure: Option<string>)
    ensures var last := Advance(Pulls(Opened(data, failure), |data|).1);
      last.row.None? && last.rows.closed && last.rows.lastErr == failure &&
      Advance(last.rows) == Pulled(None, last.rows)
  {
    PullsOpened(data, failure, |data|);
  }

  /** A closed stream never yields a row again, and pulling it changes nothing. */
  lemma ClosedIsFinal(r: Rows)
    requires r.closed
    ensures Advance(r) == Pulled(None, r)
  {
  }

  // ---------------------------------------------------------------- errors

  /** Every error a `List` method returns. */
  datatype ListError =
    | Invalid(check: CheckError)        // `Select.Error`
    | Paging(page: S.PageError)         // `setCursor` or `getLast`
    | Db(message: string)               // the query (or the count query) failed
    | Scan(scan: ScanError)             // `scanReflectValue`
    | RowsFailed(message: string)       // `Rows.Err` after the last row
    | Done                              // `ErrDone`: no more rows
    | NotSlicePointer                   // "dst must be pointer to slice"

  /** `Next`'s answer once the stream yields no row: the stream's error, else `ErrDone`. */
  function EndOf(r: Rows): (e: ListError)
    ensures e == Done <==> r.lastErr.None?
    ensures e.RowsFailed? <==> r.lastErr.Some?
  {
    if r.lastErr.Some? then RowsFailed(r.lastErr.value) else Done
  }

  // ---------------------------------------------------------------- slices

  /** The element type of a destination slice: a struct with these fields, or anything else. */
  datatype Element = StructOf(layout: seq<Slot>) | NotStruct

  /** The slice a `GetAll` destination points at. */
  class Slice {
    const element: Element
    var items: seq<seq<Slot>>

    constructor (element: Element, items: seq<seq<Slot>>)
      ensures this.element == element && this.items == items
    {
      this.element := element;
      this.items := items;
    }
  }

  /**
   * The copy of one scanned element: written in place (`dst.Index(i).Set`)
   * while the caller's slice has room, appended to the local slice
   * (`reflect.Append`) once it has not.
   */
  method Store(slice: Slice, ghost before: seq<seq<Slot>>, ghost items: seq<seq<Slot>>, i: nat, appended: seq<seq<Slot>>, x: seq<Slot>)
    returns (appended': seq<seq<Slot>>)
    requires i == |items| && slice.items == Overlay(before, items)
    requires appended == if |items| <= |before| then [] else items[|before|..]
    modifies slice
    ensures slice.items == Overlay(before, items + [x])
    ensures appended' == if |items| + 1 <= |before| then [] else (items + [x])[|before|..]
  {
    OverlaySnoc(before, items, x);
    appended' := appended;
    if i < |slice.items| {
      slice.items := slice.items[i := x];
    } else {
      SnocDrop(items, x, |before|);
      appended' := appended + [x];
    }
  }

  /** What `reflect.ValueOf(dstx)` is for `GetAll`: a pointer to a slice, or anything else. */
  datatype SliceTarget = NotSliceTarget | SlicePointer(slice: Slice)

  function SliceFrame(dst: SliceTarget): set<object>
  {
    if dst.SlicePointer? then {dst.slice} else {}
  }

  /** The zero value Go gives a field of kind `k`. */
  function ZeroOf(k: Kind): Value
  {
    match k
    case KString => VStr("")
    case KInt(_) => VInt(0)
    case KUint(_) => VUint(0)
    case KOther => VNil
  }

  /** `reflect.New(elem)`: the struct with every field at its zero value. */
  function Zeroed(layout: seq<Slot>): (r: seq<Slot>)
    ensures |r| == |layout|
  {
    seq(|layout|, i requires 0 <= i < |layout| => layout[i].(value := ZeroOf(layout[i].kind)))
  }

  /** How one row lands in the reused struct. */
  type Step = (seq<Slot>, seq<Value>) -> Scanned

  /** `scanReflectValue` into `GetAll`'s struct: a struct element scans, any other fails as a non-struct pointer. */
  function ScanOne(fields: seq<string>, isStruct: bool): Step
  {
    (current: seq<Slot>, row: seq<Value>) =>
      if isStruct then ScanStruct(fields, current, row) else Scanned(current, Some(NotStructPointer))
  }

  /** The struct `GetAll` starts from: the element type's zero value, or no struct at all. */
  function Start(element: Element): seq<Slot>
  {
    if element.StructOf? then Zeroed(element.layout) else []
  }

  /** The collected elements, the reused struct, and the error that stopped the loop. */
  datatype Gathered = Gathered(items: seq<seq<Slot>>, current: seq<Slot>, err: Option<ScanError>)

  /**
   * `GetAll`'s loop over `rows`: one struct, starting at `start`, is reused for
   * every row and copied out after each scan; the first failing row stops it.
   */
  function Gather(step: Step, start: seq<Slot>, rows: seq<seq<Value>>): (g: Gathered)
    ensures |g.items| <= |rows|
    ensures g.err.None? ==> |g.items| == |rows| && g.current == Previous(g, start, |g.items|)
    decreases |rows|
  {
    if |rows| == 0 then Gathered([], start, None)
    else
      var g := Gather(step, start, rows[..|rows| - 1]);
      if g.err.Some? then g
      else
        var sc := step(g.current, rows[|rows| - 1]);
        if sc.err.Some? then Gathered(g.items, sc.slots, sc.err)
        else Gathered(g.items + [sc.slots], sc.slots, None)
  }

  /** The struct before the scan of row `i`: the start, or the element copied out of the previous row. */
  function Previous(g: Gathered, start: seq<Slot>, i: nat): seq<Slot>
    requires i <= |g.items|
  {
    if i == 0 then start else g.items[i - 1]
  }

  /**
   * Element `i` is row `i` scanned over the previous element: fields no column
   * binds keep the values of the row before. Every such scan succeeded.
   */
  lemma {:induction false} GatherChain(step: Step, start: seq<Slot>, rows: seq<seq<Value>>, i: nat)
    requires i < |Gather(step, start, rows).items|
    ensures var g := Gather(step, start, rows);
      step(Previous(g, start, i), rows[i]).err.None? && g.items[i] == step(Previous(g, start, i), rows[i]).slots
    decreases |rows|
  {
    var k := |rows| - 1;
    var prefix := rows[..k];
    var h := Gather(step, start, prefix);
    var g := Gather(step, start, rows);
    if i < |h.items| {
      GatherChain(step, start, prefix, i);
      assert prefix[i] == rows[i];
      assert g.items[..|h.items|] == h.items;
      assert Previous(g, start, i) == Previous(h, start, i);
    } else {
      assert g.items == h.items + [g.current];
      assert i == |h.items| == k;
    }
  }

  /**
   * A failure names the row it happened on: the one after the last element
   * collected, scanned over that element.
   */
  lemma {:induction false} GatherStops(step: Step, start: seq<Slot>, rows: seq<seq<Value>>)
    ensures var g := Gather(step, start, rows);
      g.err.Some? ==>
        |g.items| < |rows| &&
        g.err == step(Previous(g, start, |g.items|), rows[|g.items|]).err
    decreases |rows|
  {
    if |rows| > 0 {
      var k := |rows| - 1;
      var prefix := rows[..k];
      var h := Gather(step, start, prefix);
      GatherStops(step, start, prefix);
      if h.err.Some? {
        assert prefix[|h.items|] == rows[|h.items|];
      }
    }
  }

  /** One more row: the loop's result extends by that row's scan over the reused struct. */
  lemma {:induction false} GatherSnoc(step: Step, start: seq<Slot>, data: seq<seq<Value>>, i: nat)
    requires i < |data|
    requires Gather(step, start, data[..i]).err.None?
    ensures var g := Gather(step, start, data[..i]);
      var sc := step(g.current, data[i]);
      Gather(step, start, data[..i + 1]) ==
        if sc.err.Some? then Gathered(g.items, sc.slots, sc.err) else Gathered(g.items + [sc.slots], sc.slots, None)
  {
    assert data[..i + 1][..i] == data[..i];
  }

  /** A row that fails stops the loop: the result over all the rows is the one over the rows read. */
  lemma {:induction false} GatherTail(step: Step, start: seq<Slot>, data: seq<seq<Value>>, i: nat)
    requires i < |data|
    requires Gather(step, start, data[..i + 1]).err.Some?
    ensures Gather(step, start, data) == Gather(step, start, data[..i + 1])
    decreases |data|
  {
    if i + 1 < |data| {
      var k := |data| - 1;
      assert data[..k][..i + 1] == data[..i + 1];
      GatherTail(step, start, data[..k], i);
    } else {
      assert data[..i + 1] == data;
    }
  }

  /** The caller's slice after the in-place writes of `items` over its first elements: its length stays. */
  function Overlay(before: seq<seq<Slot>>, items: seq<seq<Slot>>): (r: seq<seq<Slot>>)
    ensures |r| == |before|
  {
    seq(|before|, i requires 0 <= i < |before| => if i < |items| then items[i] else before[i])
  }

  /** The overwritten elements are the collected ones; the elements past them are the caller's. */
  lemma OverlaySpec(before: seq<seq<Slot>>, items: seq<seq<Slot>>)
    ensures var r := Overlay(before, items);
      (forall i :: 0 <= i < |before| && i < |items| ==> r[i] == items[i]) &&
      (forall i :: |items| <= i < |before| ==> r[i] == before[i])
  {
  }

  /** Cutting the overlaid slice to the collected length gives the collected elements, and so does extending it. */
  lemma OverlayCut(before: seq<seq<Slot>>, items: seq<seq<Slot>>)
    ensures |items| <= |before| ==> Overlay(before, items)[..|items|] == items
    ensures |items| > |before| ==> Overlay(before, items) + items[|before|..] == items
  {
    var r := Overlay(before, items);
    if |items| <= |before| {
      assert forall i :: 0 <= i < |items| ==> r[..|items|][i] == items[i];
    } else {
      assert forall i :: 0 <= i < |items| ==> (r + items[|before|..])[i] == items[i];
    }
  }

  /**
   * The stream after `GetAll`'s loop: a failing row stops it just after that
   * row; otherwise every row was read and the stream closed with its error.
   */
  function AfterReading(r: Rows, g: Gathered): Rows
  {
    if g.err.Some? then r.(pos := |g.items| + 1)
    else r.(pos := |r.data|, closed := true, lastErr := r.failure)
  }

  /** One more element written: in place while the caller's slice has room, otherwise nothing visible changes. */
  lemma OverlaySnoc(before: seq<seq<Slot>>, items: seq<seq<Slot>>, x: seq<Slot>)
    ensures |items| < |before| ==> Overlay(before, items + [x]) == Overlay(before, items)[|items| := x]
    ensures |items| >= |before| ==> Overlay(before, items + [x]) == Overlay(before, items)
  {
  }

  lemma SnocDrop(items: seq<seq<Slot>>, x: seq<Slot>, n: nat)
    requires n <= |items|
    ensures (items + [x])[n..] == items[n..] + [x]
  {
  }

  /** The slice and the error `GetAll` leaves once the rows are read: `g` is the loop's result. */
  function Collected(before: seq<seq<Slot>>, g: Gathered, failure: Option<string>): (seq<seq<Slot>>, Option<ListError>)
  {
    if g.err.Some? then (Overlay(before, g.items), Some(Scan(g.err.value)))
    else if failure.Some? then (Overlay(before, g.items), Some(RowsFailed(failure.value)))
    else (g.items, None)
  }

  /**
   * `GetAll` as written: once a row was appended, `dst` holds the value
   * `reflect.Append` returned, which is not addressable, and `dst.SetLen`
   * panics; otherwise the caller's slice is cut to the rows read.
   */
  function CollectedAsWritten(before: seq<seq<Slot>>, g: Gathered, failure: Option<string>): Outcome<(seq<seq<Slot>>, Option<ListError>)>
  {
    if g.err.Some? || failure.Some? then Returns(Collected(before, g, failure))
    else if |g.items| > |before| then Panics
    else Returns((Overlay(before, g.items)[..|g.items|], None))
  }

  /**
   * The code as written panics exactly when every row scanned, the stream
   * ended cleanly, and there were more rows than elements; otherwise it agrees
   * with `Collected`, which leaves exactly one element per row.
   */
  lemma CollectedAsWrittenSpec(before: seq<seq<Slot>>, g: Gathered, failure: Option<string>)
    ensures CollectedAsWritten(before, g, failure).Panics? <==>
      g.err.None? && failure.None? && |g.items| > |before|
    ensures CollectedAsWritten(before, g, failure).Returns? ==>
      CollectedAsWritten(before, g, failure).value == Collected(before, g, failure)
  {
    OverlayCut(before, g.items);
  }

  /** A clean read leaves one element per row, each row scanned over the element before it. */
  lemma CollectedAll(step: Step, start: seq<Slot>, before: seq<seq<Slot>>, data: seq<seq<Value>>)
    requires Gather(step, start, data).err.None?
    ensures var g := Gather(step, start, data);
      Collected(before, g, None) == (g.items, None) && |g.items| == |data| &&
      forall i :: 0 <= i < |data| ==> g.items[i] == step(Previous(g, start, i), data[i]).slots
  {
    var g := Gather(step, start, data);
    forall i | 0 <= i < |data|
      ensures g.items[i] == step(Previous(g, start, i), data[i]).slots
    {
      GatherChain(step, start, data, i);
    }
  }

  /** The one-field struct of the example below scans the row `["al"]`. */
  lemma {:induction false} NameScans()
    ensures var layout := [Slot("Name", KString, true, VStr(""))];
      ScanStruct(["name"], layout, [VStr("al")]) == Scanned([Slot("Name", KString, true, VStr("al"))], None)
  {
    var layout := [Slot("Name", KString, true, VStr(""))];
    assert Lower(layout[0].name) == "name";
    MatchesOne(layout, "name", 0);
    assert Lookups(["name"], layout) == [Some(0)];
  }

  /**
   * The input that shows the panic: an empty slice of a one-field struct and
   * one row. As written the call panics; the corrected call collects the row.
   */
  lemma {:induction false} AppendThenSetLenPanics()
    ensures var layout := [Slot("Name", KString, true, VStr(""))];
      var g := Gather(ScanOne(["name"], true), Zeroed(layout), [[VStr("al")]]);
      CollectedAsWritten([], g, None) == Panics &&
      Collected([], g, None) == ([[Slot("Name", KString, true, VStr("al"))]], None)
  {
    var layout := [Slot("Name", KString, true, VStr(""))];
    assert Zeroed(layout) == layout;
    var rows: seq<seq<Value>> := [[VStr("al")]];
    var step := ScanOne(["name"], true);
    assert rows[..0] == [];
    assert Gather(step, layout, rows[..0]) == Gathered([], layout, None);
    NameScans();
    var x := [Slot("Name", KString, true, VStr("al"))];
    assert step(layout, rows[0]) == Scanned(x, None);
    assert Gather(step, layout, rows) == Gathered([] + [x], x, None);
    assert Gather(step, layout, rows) == Gathered([x], x, None);
  }

  // ---------------------------------------------------------------- the iterator

  class List {
    const s: S.Select
    var rows: Option<Rows>

    /** `NewList`: an iterator over `s` with no rows yet. */
    constructor (s: S.Select)
      ensures this.s == s && rows == None
    {
      this.s := s;
      rows := None;
    }

    /** `Select.Error` on the builder's current lists. */
    function Check(): Option<CheckError>
      reads s
    {
      CheckOf(s.fields, s.orderBy, s.filters, s.t.fields)
    }

    /** The database's answer to the statement just sent: a refusal, or the new open stream. */
    method Receive(answer: Response) returns (err: Option<ListError>)
      modifies this
      ensures answer.Refused? ==> err == Some(Db(answer.message)) && rows == old(rows)
      ensures answer.Answered? ==> err.None? && rows == Some(Opened(answer.data, answer.failure))
    {
      if answer.Refused? {
        return Some(Db(answer.message));
      }
      rows := Some(Opened(answer.data, answer.failure));
      err := None;
    }

    /**
     * `Get`: a builder that fails `Error` sends nothing; otherwise `Query`
     * builds the statement, which is sent.
     */
    method Get(answer: Response) returns (err: Option<ListError>, q: string, args: seq<Value>)
      modifies this, s
      ensures old(Check()).Some? ==>
        err == Some(Invalid(old(Check()).value)) && s.Snapshot() == old(s.Snapshot()) && rows == old(rows)
      ensures old(Check()).None? ==>
        s.Snapshot() == S.AfterQuery(old(s.Snapshot()), s.explicit, s.t) &&
        q == S.QueryText(old(s.Snapshot()), s.explicit, s.t) && args == FilterArgs(old(s.filters)) &&
        (answer.Refused? ==> err == Some(Db(answer.message)) && rows == old(rows)) &&
        (answer.Answered? ==> err.None? && rows == Some(Opened(answer.data, answer.failure)))
    {
      var e := s.Error();
      if e.Some? {
        return Some(Invalid(e.value)), "", [];
      }
      q, args := s.Query();
      err := Receive(answer);
    }

    /** `GetNext`: restore the cursor, move the offset forward by the limit, send the query. */
    method GetNext(token: string, answer: Response) returns (err: Option<ListError>, q: string, args: seq<Value>)
      modifies this, s
      ensures S.Restored(old(s.Snapshot()), token).Err? ==>
        err == Some(Paging(S.CursorError(S.Restored(old(s.Snapshot()), token).error))) &&
        s.Snapshot() == old(s.Snapshot()) && rows == old(rows)
      ensures S.Restored(old(s.Snapshot()), token).Ok? ==>
        var c := S.Restored(old(s.Snapshot()), token).value;
        var moved := c.(offset := Wrap64(c.offset + c.limit));
        s.Snapshot() == S.AfterQuery(moved, s.explicit, s.t) &&
        q == S.QueryText(moved, s.explicit, s.t) && args == FilterArgs(moved.filters) &&
        (answer.Refused? ==> err == Some(Db(answer.message)) && rows == old(rows)) &&
        (answer.Answered? ==> err.None? && rows == Some(Opened(answer.data, answer.failure)))
    {
      var e;
      e, q, args := s.GetNext(token);
      if e.Some? {
        return Some(Paging(e.value)), q, args;
      }
      err := Receive(answer);
    }

    /**
     * `GetLast`: restore the cursor, then with the row count the database
     * reports, move to the last page (or stop with `ErrDone`) and send the query.
     */
    method GetLast(token: string, count: Result<Int64, string>, answer: Response) returns (err: Option<ListError>, q: string, args: seq<Value>)
      modifies this, s
      ensures S.Restored(old(s.Snapshot()), token).Err? ==>
        err == Some(Paging(S.CursorError(S.Restored(old(s.Snapshot()), token).error))) &&
        s.Snapshot() == old(s.Snapshot()) && rows == old(rows)
      ensures S.Restored(old(s.Snapshot()), token).Ok? && count.Err? ==>
        err == Some(Db(count.error)) && s.Snapshot() == S.Restored(old(s.Snapshot()), token).value && rows == old(rows)
      ensures S.Restored(old(s.Snapshot()), token).Ok? && count.Ok? ==>
        var c := S.Restored(old(s.Snapshot()), token).value;
        if Wrap64(count.value - c.limit) <= c.offset then
          err == Some(Paging(S.ErrDone)) && s.Snapshot() == c && rows == old(rows)
        else
          var last := c.(offset := Wrap64(count.value - c.limit));
          s.Snapshot() == S.AfterQuery(last, s.explicit, s.t) &&
          q == S.QueryText(last, s.explicit, s.t) && args == FilterArgs(last.filters) &&
          (answer.Refused? ==> err == Some(Db(answer.message)) && rows == old(rows)) &&
          (answer.Answered? ==> err.None? && rows == Some(Opened(answer.data, answer.failure)))
    {
      if count.Err? {
        var e := s.SetCursor(token);
        if e.Some? {
          return Some(Paging(S.CursorError(e.value))), "", [];
        }
        return Some(Db(count.error)), "", [];
      }
      var e;
      e, q, args := s.GetLast(token, count.value);
      if e.Some? {
        return Some(Paging(e.value)), q, args;
      }
      err := Receive(answer);
    }

    /** `rows.Next()`: the next row, if the stream yields one. */
    method Pull() returns (row: Option<seq<Value>>)
      requires rows.Some?
      modifies this
      ensures row == Advance(old(rows.value)).row && rows == Some(Advance(old(rows.value)).rows)
    {
      var r := rows.value;
      if !r.closed && r.pos < |r.data| {
        row := Some(r.data[r.pos]);
        rows := Some(r.(pos := r.pos + 1));
      } else if r.closed {
        row := None;
      } else {
        row := None;
        rows := Some(r.(closed := true, lastErr := r.failure));
      }
    }

    /**
     * `Next`: scans the next row into `dst`; a failed scan closes the stream.
     * Without a row it reports the stream's error, else `ErrDone`.
     */
    method Next(dst: Target) returns (err: Option<ListError>)
      requires rows.Some?
      modifies this, Frame(dst)
      ensures var p := Advance(old(rows.value));
        p.row.None? ==>
          err == Some(EndOf(p.rows)) && rows == Some(p.rows) &&
          (dst.StructPointer? ==> dst.record[..] == old(dst.record[..]))
      ensures var p := Advance(old(rows.value));
        p.row.Some? && !dst.StructPointer? ==>
          err == Some(Scan(NotStructPointer)) && rows == Some(p.rows.(closed := true))
      ensures var p := Advance(old(rows.value));
        p.row.Some? && dst.StructPointer? ==>
          var sc := ScanStruct(s.fields, old(dst.record[..]), p.row.value);
          dst.record[..] == sc.slots &&
          (sc.err.Some? ==> err == Some(Scan(sc.err.value)) && rows == Some(p.rows.(closed := true))) &&
          (sc.err.None? ==> err.None? && rows == Some(p.rows))
    {
      var row := Pull();
      if row.None? {
        return Some(EndOf(rows.value));
      }
      var e := ScanReflectValue(s.fields, dst, row.value);
      if e.Some? {
        Close();
        return Some(Scan(e.value));
      }
      err := None;
    }

    /** `Close`: closes the stream; closing it again changes nothing. */
    method Close()
      requires rows.Some?
      modifies this
      ensures rows == Some(old(rows.value).(closed := true))
    {
      rows := Some(rows.value.(closed := true));
    }

    /**
     * `GetAll` with the length fix: `Get`, then the destination check, then
     * every row read into the slice (`ReadAll`).
     */
    method GetAll(answer: Response, dst: SliceTarget) returns (err: Option<ListError>)
      modifies this, s, SliceFrame(dst)
      ensures old(Check()).Some? ==>
        err == Some(Invalid(old(Check()).value)) && s.Snapshot() == old(s.Snapshot()) && rows == old(rows)
      ensures old(Check()).None? ==> s.Snapshot() == S.AfterQuery(old(s.Snapshot()), s.explicit, s.t)
      ensures old(Check()).None? && answer.Refused? ==> err == Some(Db(answer.message)) && rows == old(rows)
      ensures old(Check()).None? && answer.Answered? && !dst.SlicePointer? ==>
        err == Some(NotSlicePointer) && rows == Some(Opened(answer.data, answer.failure))
      ensures old(Check()).None? && answer.Answered? && dst.SlicePointer? ==>
        var g := Gather(ScanOne(s.fields, dst.slice.element.StructOf?), Start(dst.slice.element), answer.data);
        (dst.slice.items, err) == Collected(old(dst.slice.items), g, answer.failure) &&
        rows == Some(AfterReading(Opened(answer.data, answer.failure), g))
      ensures dst.SlicePointer? && (old(Check()).Some? || answer.Refused?) ==> dst.slice.items == old(dst.slice.items)
    {
      var q, args;
      err, q, args := Get(answer);
      if err.Some? {
        return;
      }
      if !dst.SlicePointer? {
        return Some(NotSlicePointer);
      }
      err := ReadAll(dst.slice);
    }

    /**
     * The tail of `GetAll` over a stream just opened: the rows are read into
     * the slice (`ReadRows`); a failed row or a stream error is returned as
     * is, and otherwise the slice is cut, or extended, to the rows read.
     */
    method ReadAll(slice: Slice) returns (err: Option<ListError>)
      requires rows.Some? && rows.value == Opened(rows.value.data, rows.value.failure)
      modifies this, slice
      ensures var g := Gather(ScanOne(s.fields, slice.element.StructOf?), Start(slice.element), old(rows.value.data));
        (slice.items, err) == Collected(old(slice.items), g, old(rows.value.failure)) &&
        rows == Some(AfterReading(old(rows.value), g))
    {
      ghost var before := slice.items;
      var n := |slice.items|;
      var e, appended, count, items := ReadRows(slice, ScanOne(s.fields, slice.element.StructOf?));
      if e.Some? {
        return Some(Scan(e.value));
      }
      if rows.value.lastErr.Some? {
        return Some(RowsFailed(rows.value.lastErr.value));
      }
      OverlayCut(before, items);
      if count <= n {
        slice.items := slice.items[..count] + appended;
      } else {
        slice.items := slice.items[..n] + appended;
      }
      assert slice.items == items;
      err := None;
    }

    /**
     * The loop of `GetAll`: every row is scanned into one reused struct and
     * copied out, over the caller's elements first and into `appended` after
     * them. The first failing row stops it.
     */
    method ReadRows(slice: Slice, scan: Step) returns (e: Option<ScanError>, appended: seq<seq<Slot>>, count: nat, ghost items: seq<seq<Slot>>)
      requires rows.Some? && rows.value == Opened(rows.value.data, rows.value.failure)
      modifies this, slice
      ensures var g := Gather(scan, Start(slice.element), old(rows.value.data));
        g.items == items && g.err == e && count == |items| &&
        slice.items == Overlay(old(slice.items), items) &&
        appended == (if |items| <= |old(slice.items)| then [] else items[|old(slice.items)|..]) &&
        rows == Some(AfterReading(old(rows.value), g))
    {
      ghost var before := slice.items;
      ghost var data := rows.value.data;
      ghost var initial := rows.value;
      var n := |slice.items|;
      var start := Start(slice.element);
      var v := start;
      appended := [];
      items := [];
      count := 0;
      var i := 0;
      while true
        invariant i <= |data| && |items| == i == count
        invariant rows == Some(initial.(pos := i))
        invariant Gather(scan, start, data[..i]) == Gathered(items, v, None)
        invariant slice.items == Overlay(before, items)
        invariant appended == if i <= n then [] else items[n..]
        decreases |data| - i
      {
        var row := Pull();
        if row.None? {
          break;
        }
        var sc := scan(v, row.value);
        GatherSnoc(scan, start, data, i);
        v := sc.slots;
        e := sc.err;
        if e.Some? {
          GatherTail(scan, start, data, i);
          return;
        }
        appended := Store(slice, before, items, i, appended, v);
        items := items + [v];
        i := i + 1;
        count := i;
      }
      assert data[..i] == data;
      e := None;
    }
  }
}
