/**
 * Row materialisation: how a row of column values coming back from the
 * database lands in a destination struct. Each selected column binds to the
 * struct field whose lower-cased name equals it; the field's kind decides how
 * the column value is converted (`fieldScanner.Scan` over `asString`). The
 * `List` iterator walks a row stream and signals the end with `ErrDone`;
 * `GetAll` collects every row into a slice.
 *
 * A destination struct is a sequence of slots (name, kind, settable, value),
 * held in an array because the scan writes into it in place. A row stream is
 * the sequence of rows the driver delivers followed by an optional stream error.
 */
module Lists {
  import opened Wrappers
  import opened Text
  import opened Values
  import opened Filters
  import S = Selects

  // ---------------------------------------------------------------- destinations

  /** The kinds `fieldScanner.Scan` tells apart; floats, times and the rest are `KOther`. */
  datatype Kind = KString | KInt(bits: BitSize) | KUint(bits: BitSize) | KOther

  /** One field of the destination struct. A field is settable when it is exported. */
  datatype Slot = Slot(name: string, kind: Kind, settable: bool, value: Value)

  /** Why one field could not take a column value. */
  datatype FieldError =
    | NotSettable                            // "field is not settable"
    | ConvertFailed(text: string, kind: Kind) // "converting string %q to a %s"
    | Unsupported(kind: Kind)                // "unsupported driver -> Scan pair"

  /** Why a row could not be scanned into a struct. */
  datatype ScanError =
    | NotStructPointer                       // "dst must be pointer to struct"
    | FieldsNotEnough                        // "destination field not enough"
    | ColumnCount(columns: nat, args: nat)   // database/sql: wrong number of scan arguments
    | OnColumn(index: nat, cause: FieldError) // database/sql: the conversion of one column failed

  /** What `reflect.ValueOf(dst)` is: a non-pointer, a nil pointer, or a pointer to a struct. */
  datatype Target = NotPointer | NilPointer | StructPointer(record: array<Slot>)

  /** The objects a scan into `dst` may write. */
  function Frame(dst: Target): set<object>
  {
    if dst.StructPointer? then {dst.record} else {}
  }

  // ---------------------------------------------------------------- conversion

  /** `asString`: strings unchanged, bytes as characters, integers in decimal, bools as words, nil as `%v` prints it. */
  function AsString(src: Value): string
  {
    match src
    case VStr(s) => s
    case VBytes(b) => BytesToString(b)
    case VInt(i) => IntToString(i)
    case VUint(u) => NatToString(u)
    case VBool(b) => if b then "true" else "false"
    case VNil => "<nil>"
  }

  /** A value a field of kind `k` can hold. */
  predicate Fits(k: Kind, v: Value)
  {
    match k
    case KString => v.VStr?
    case KInt(bits) => v.VInt? && -SignedBound(bits) <= v.i < SignedBound(bits)
    case KUint(bits) => v.VUint? && v.u < 2 * SignedBound(bits)
    case KOther => false
  }

  /** The value `fieldScanner.Scan` stores for `src`, or its error. */
  function Convert(slot: Slot, src: Value): (r: Result<Value, FieldError>)
    ensures r.Ok? ==> slot.settable && Fits(slot.kind, r.value)
    ensures !slot.settable ==> r == Err(NotSettable)
    ensures slot.settable && slot.kind.KString? ==> r.Ok?
  {
    if !slot.settable then Err(NotSettable)
    else
      var text := AsString(src);
      match slot.kind
      case KString => Ok(VStr(text))
      case KInt(bits) =>
        (match ParseInt(text, bits)
         case None => Err(ConvertFailed(text, slot.kind))
         case Some(i) => Ok(VInt(i)))
      case KUint(bits) =>
        (match ParseUint(text, bits)
         case None => Err(ConvertFailed(text, slot.kind))
         case Some(u) => Ok(VUint(u)))
      case KOther => Err(Unsupported(slot.kind))
  }

  /** `fieldScanner.Scan`: writes the converted value into field `i`, or leaves the struct as it was. */
  method ScanField(record: array<Slot>, i: nat, src: Value) returns (err: Option<FieldError>)
    requires i < record.Length
    modifies record
    ensures Convert(old(record[i]), src).Ok? ==>
      err.None? && record[..] == old(record[..])[i := old(record[i]).(value := Convert(old(record[i]), src).value)]
    ensures Convert(old(record[i]), src).Err? ==>
      err == Some(Convert(old(record[i]), src).error) && record[..] == old(record[..])
  {
    var slot := record[i];
    if !slot.settable {
      return Some(NotSettable);
    }
    var text := AsString(src);
    match slot.kind {
      case KString =>
        record[i] := slot.(value := VStr(text));
      case KInt(bits) =>
        var p := ParseInt(text, bits);
        if p.None? {
          return Some(ConvertFailed(text, slot.kind));
        }
        record[i] := slot.(value := VInt(p.value));
      case KUint(bits) =>
        var p := ParseUint(text, bits);
        if p.None? {
          return Some(ConvertFailed(text, slot.kind));
        }
        record[i] := slot.(value := VUint(p.value));
      case KOther =>
        return Some(Unsupported(slot.kind));
    }
    err := None;
  }

  /** What `asString` writes reads back: integers parse to themselves, bytes re-encode to themselves. */
  lemma {:induction false} AsStringReadsBack(src: Value)
    ensures src.VInt? && -SignedBound(64) <= src.i < SignedBound(64) ==> ParseInt(AsString(src), 64) == Some(src.i)
    ensures src.VUint? && src.u < 2 * SignedBound(64) ==> ParseUint(AsString(src), 64) == Some(src.u)
    ensures src.VBytes? ==> StringToBytes(AsString(src)) == src.bytes
    ensures src.VStr? ==> AsString(src) == src.s
  {
    if src.VInt? && -SignedBound(64) <= src.i < SignedBound(64) {
      ParseFormat(src.i, 64);
    }
    if src.VUint? && src.u < 2 * SignedBound(64) {
      ParseFormatUint(src.u, 64);
    }
  }

  /** Scanning a value a settable field already fits stores that same value: the conversion is a fixed point. */
  lemma {:induction false} ConvertFits(slot: Slot, v: Value)
    requires slot.settable && Fits(slot.kind, v)
    ensures Convert(slot, v) == Ok(v)
  {
    match slot.kind {
      case KString =>
      case KInt(bits) => ParseFormat(v.i, bits);
      case KUint(bits) => ParseFormatUint(v.u, bits);
    }
  }

  /** A boolean or a NULL never converts into an integer field. */
  lemma {:induction false} NoIntFromBool(slot: Slot, src: Value)
    requires slot.kind.KInt? || slot.kind.KUint?
    requires src.VBool? || src.VNil?
    ensures Convert(slot, src).Err?
  {
    var text := AsString(src);
    assert !IsDigit(text[0]) && text[0] != '-' && text[0] != '+';
    assert !AllDigits(text);
  }

  /** The conversion depends on the field's kind and settability, never on the value it held. */
  lemma {:induction false} ConvertIgnoresValue(slot: Slot, other: Value, src: Value)
    ensures Convert(slot.(value := other), src) == Convert(slot, src)
  {
  }

  // ---------------------------------------------------------------- binding columns to fields

  /** The indices of the fields whose lower-cased name is `column`, in increasing order. */
  function Matches(slots: seq<Slot>, column: string): (r: seq<nat>)
    ensures forall j :: 0 <= j < |r| ==> r[j] < |slots|
    decreases |slots|
  {
    if |slots| == 0 then []
    else
      var rest := Matches(slots[..|slots| - 1], column);
      if Lower(slots[|slots| - 1].name) == column then rest + [|slots| - 1] else rest
  }

  /** `Matches` finds every field named `column`, only those, each once and in order. */
  lemma MatchesSpec(slots: seq<Slot>, column: string)
    ensures var r := Matches(slots, column);
      (forall j :: 0 <= j < |r| ==> Lower(slots[r[j]].name) == column) &&
      (forall i :: 0 <= i < |slots| && Lower(slots[i].name) == column ==> i in r) &&
      (forall j, k :: 0 <= j < k < |r| ==> r[j] < r[k])
  {
    MatchesOnly(slots, column);
    MatchesAll(slots, column);
    MatchesIncreasing(slots, column);
  }

  lemma {:induction false} MatchesOnly(slots: seq<Slot>, column: string)
    ensures forall j :: 0 <= j < |Matches(slots, column)| ==> Lower(slots[Matches(slots, column)[j]].name) == column
    decreases |slots|
  {
    if |slots| > 0 {
      var k := |slots| - 1;
      var rest := Matches(slots[..k], column);
      var r := Matches(slots, column);
      MatchesOnly(slots[..k], column);
      assert forall j :: 0 <= j < |rest| ==> Lower(slots[..k][rest[j]].name) == column;
      forall j | 0 <= j < |r|
        ensures Lower(slots[r[j]].name) == column
      {
        if j < |rest| {
          assert r[j] == rest[j];
          assert slots[..k][rest[j]] == slots[rest[j]];
        } else {
          assert r == rest + [k] && r[j] == k;
        }
      }
    }
  }

  lemma {:induction false} MatchesAll(slots: seq<Slot>, column: string)
    ensures forall i :: 0 <= i < |slots| && Lower(slots[i].name) == column ==> i in Matches(slots, column)
    decreases |slots|
  {
    if |slots| > 0 {
      var k := |slots| - 1;
      MatchesAll(slots[..k], column);
      assert forall i :: 0 <= i < k ==> slots[..k][i] == slots[i];
    }
  }

  lemma {:induction false} MatchesIncreasing(slots: seq<Slot>, column: string)
    ensures forall j, k :: 0 <= j < k < |Matches(slots, column)| ==> Matches(slots, column)[j] < Matches(slots, column)[k]
    decreases |slots|
  {
    if |slots| > 0 {
      var n := |slots| - 1;
      var rest := Matches(slots[..n], column);
      var r := Matches(slots, column);
      MatchesIncreasing(slots[..n], column);
      assert forall j, k :: 0 <= j < k < |rest| ==> rest[j] < rest[k];
      forall j, k | 0 <= j < k < |r|
        ensures r[j] < r[k]
      {
        assert rest[j] < n;
        if k == |rest| {
          assert r == rest + [n] && r[k] == n;
        }
      }
    }
  }

  /** `FieldByNameFunc` over the struct's own fields: the single match; several matches cancel out. */
  function FieldByName(slots: seq<Slot>, column: string): (r: Option<nat>)
    ensures r.Some? ==> r.value < |slots|
  {
    var m := Matches(slots, column);
    if |m| == 1 then Some(m[0]) else None
  }

  /** A column finds field `i` exactly when `i` is the one field whose lower-cased name is the column. */
  lemma {:induction false} FieldByNameSpec(slots: seq<Slot>, column: string, i: nat)
    ensures FieldByName(slots, column) == Some(i) <==>
      i < |slots| && Lower(slots[i].name) == column &&
      forall j :: 0 <= j < |slots| && j != i ==> Lower(slots[j].name) != column
  {
    var m := Matches(slots, column);
    MatchesSpec(slots, column);
    if |m| == 1 {
      assert forall x :: x in m ==> x == m[0];
    }
    if i < |slots| && Lower(slots[i].name) == column &&
      forall j :: 0 <= j < |slots| && j != i ==> Lower(slots[j].name) != column
    {
      MatchesOne(slots, column, i);
    }
  }

  lemma {:induction false} MatchesNone(slots: seq<Slot>, column: string)
    requires forall j :: 0 <= j < |slots| ==> Lower(slots[j].name) != column
    ensures Matches(slots, column) == []
    decreases |slots|
  {
    if |slots| > 0 {
      MatchesNone(slots[..|slots| - 1], column);
    }
  }

  lemma {:induction false} MatchesOne(slots: seq<Slot>, column: string, i: nat)
    requires i < |slots| && Lower(slots[i].name) == column
    requires forall j :: 0 <= j < |slots| && j != i ==> Lower(slots[j].name) != column
    ensures Matches(slots, column) == [i]
    decreases |slots|
  {
    var k := |slots| - 1;
    if i == k {
      MatchesNone(slots[..k], column);
    } else {
      MatchesOne(slots[..k], column, i);
    }
  }

  /** The field each column finds, if any. */
  function Lookups(fields: seq<string>, slots: seq<Slot>): (r: seq<Option<nat>>)
    ensures |r| == |fields|
  {
    seq(|fields|, j requires 0 <= j < |fields| => FieldByName(slots, fields[j]))
  }

  /** Every found field is below `n`. */
  predicate FoundBelow(found: seq<Option<nat>>, n: nat)
  {
    forall j :: 0 <= j < |found| && found[j].Some? ==> found[j].value < n
  }

  /** The found fields in column order; a column without a field contributes nothing. */
  function Present(found: seq<Option<nat>>, n: nat): (r: seq<nat>)
    requires FoundBelow(found, n)
    ensures |r| <= |found| && BoundArgs(r, n)
    decreases |found|
  {
    if |found| == 0 then []
    else
      var k := |found| - 1;
      var rest := Present(found[..k], n);
      if found[k].Some? then rest + [found[k].value] else rest
  }

  /** Nothing is dropped exactly when every column found its field, and then the `j`th binding is column `j`'s field. */
  lemma {:induction false} PresentComplete(found: seq<Option<nat>>, n: nat)
    requires FoundBelow(found, n)
    ensures |Present(found, n)| == |found| <==> forall j :: 0 <= j < |found| ==> found[j].Some?
    ensures |Present(found, n)| == |found| ==> forall j :: 0 <= j < |found| ==> found[j] == Some(Present(found, n)[j])
    decreases |found|
  {
    if |found| > 0 {
      var k := |found| - 1;
      PresentComplete(found[..k], n);
      assert forall j :: 0 <= j < k ==> found[..k][j] == found[j];
    }
  }

  /** The fields the columns bind to, in column order (`args` in `scanReflectValue`). */
  function Bindings(fields: seq<string>, slots: seq<Slot>): (r: seq<nat>)
    ensures |r| <= |fields| && BoundArgs(r, |slots|)
  {
    Present(Lookups(fields, slots), |slots|)
  }

  /** Every column finds its field. */
  predicate AllFound(slots: seq<Slot>, fields: seq<string>)
  {
    forall j :: 0 <= j < |fields| ==> FieldByName(slots, fields[j]).Some?
  }

  /** Every column is bound exactly when each one finds its field, and then column `j` binds to its own field. */
  lemma {:induction false} BindingsComplete(fields: seq<string>, slots: seq<Slot>)
    ensures |Bindings(fields, slots)| == |fields| <==> AllFound(slots, fields)
    ensures |Bindings(fields, slots)| == |fields| ==>
      forall j :: 0 <= j < |fields| ==> FieldByName(slots, fields[j]) == Some(Bindings(fields, slots)[j])
  {
    var found := Lookups(fields, slots);
    PresentComplete(found, |slots|);
    assert forall j :: 0 <= j < |fields| ==> found[j] == FieldByName(slots, fields[j]);
  }

  /** With every column bound, a field that no column finds is not among the bindings. */
  lemma {:induction false} BindingsOnly(fields: seq<string>, slots: seq<Slot>, i: nat)
    requires |Bindings(fields, slots)| == |fields|
    requires forall j :: 0 <= j < |fields| ==> FieldByName(slots, fields[j]) != Some(i)
    ensures i !in Bindings(fields, slots)
  {
    BindingsComplete(fields, slots);
  }

  /** Distinct columns bind to distinct fields. */
  lemma {:induction false} BindingsDistinct(fields: seq<string>, slots: seq<Slot>)
    requires |Bindings(fields, slots)| == |fields|
    requires forall j, k :: 0 <= j < k < |fields| ==> fields[j] != fields[k]
    ensures forall j, k :: 0 <= j < k < |fields| ==> Bindings(fields, slots)[j] != Bindings(fields, slots)[k]
  {
    var b := Bindings(fields, slots);
    BindingsComplete(fields, slots);
    forall j | 0 <= j < |fields|
      ensures Lower(slots[b[j]].name) == fields[j]
    {
      FieldByNameSpec(slots, fields[j], b[j]);
    }
  }

  /** The binding loop of `scanReflectValue`, checking that the field was found before using it. */
  method BindColumns(fields: seq<string>, record: array<Slot>) returns (args: seq<nat>)
    ensures args == Bindings(fields, record[..])
  {
    ghost var found := Lookups(fields, record[..]);
    args := [];
    var j := 0;
    assert found[..0] == [];
    while j < |fields|
      invariant j <= |fields|
      invariant args == Present(found[..j], record.Length)
    {
      assert found[..j + 1][..j] == found[..j];
      var m := FieldByName(record[..], fields[j]);
      if m.Some? {
        args := args + [m.value];
      }
      j := j + 1;
    }
    assert found[..j] == found;
  }

  // ---------------------------------------------------------------- scanning a row

  /** What a scan leaves behind: the struct's fields and the error, if any. */
  datatype Scanned = Scanned(slots: seq<Slot>, err: Option<ScanError>)

  predicate BoundArgs(args: seq<nat>, n: nat)
  {
    forall j :: 0 <= j < |args| ==> args[j] < n
  }

  /** The conversion of each column into the field it is bound to. */
  function Conversions(slots: seq<Slot>, args: seq<nat>, row: seq<Value>): (r: seq<Result<Value, FieldError>>)
    requires |args| == |row| && BoundArgs(args, |slots|)
    ensures |r| == |row|
  {
    seq(|row|, j requires 0 <= j < |row| => Convert(slots[args[j]], row[j]))
  }

  /** Two structs with the same fields, whatever the fields hold. */
  predicate SameShape(a: seq<Slot>, b: seq<Slot>)
  {
    |a| == |b| &&
    forall i :: 0 <= i < |a| ==> a[i].name == b[i].name && a[i].kind == b[i].kind && a[i].settable == b[i].settable
  }

  /** One column of the conversion loop; after a failure nothing more happens. */
  function Step(p: Scanned, a: nat, out: Result<Value, FieldError>, k: nat): (r: Scanned)
    requires a < |p.slots|
  {
    if p.err.Some? then p
    else
      match out
      case Ok(v) => Scanned(p.slots[a := p.slots[a].(value := v)], None)
      case Err(e) => Scanned(p.slots, Some(OnColumn(k, e)))
  }

  /**
   * The conversion loop of database/sql's `Rows.Scan` over the bound fields,
   * given each column's conversion: column by column, stopping at the first
   * failure; earlier columns stay written.
   */
  function Fill(slots: seq<Slot>, args: seq<nat>, outs: seq<Result<Value, FieldError>>): (r: Scanned)
    requires |args| == |outs| && BoundArgs(args, |slots|)
    ensures SameShape(r.slots, slots)
    decreases |outs|
  {
    if |outs| == 0 then Scanned(slots, None)
    else
      var k := |outs| - 1;
      Step(Fill(slots, args[..k], outs[..k]), args[k], outs[k], k)
  }

  lemma {:induction false} FillSnoc(slots: seq<Slot>, args: seq<nat>, outs: seq<Result<Value, FieldError>>, j: nat)
    requires |args| == |outs| && BoundArgs(args, |slots|) && j < |outs|
    ensures Fill(slots, args[..j + 1], outs[..j + 1]) == Step(Fill(slots, args[..j], outs[..j]), args[j], outs[j], j)
  {
    assert args[..j + 1][..j] == args[..j];
    assert outs[..j + 1][..j] == outs[..j];
  }

  /** Once a prefix of the row has failed, the rest of the row changes nothing. */
  lemma {:induction false} FillStops(slots: seq<Slot>, args: seq<nat>, outs: seq<Result<Value, FieldError>>, m: nat)
    requires |args| == |outs| && BoundArgs(args, |slots|) && m <= |outs|
    requires Fill(slots, args[..m], outs[..m]).err.Some?
    ensures Fill(slots, args, outs) == Fill(slots, args[..m], outs[..m])
    decreases |outs|
  {
    if m < |outs| {
      var k := |outs| - 1;
      assert args[..k][..m] == args[..m];
      assert outs[..k][..m] == outs[..m];
      FillStops(slots, args[..k], outs[..k], m);
    } else {
      assert args[..m] == args;
      assert outs[..m] == outs;
    }
  }

  /** The scan succeeds exactly when every column converts; a failure names the first column that does not. */
  lemma {:induction false} FillErrors(slots: seq<Slot>, args: seq<nat>, outs: seq<Result<Value, FieldError>>)
    requires |args| == |outs| && BoundArgs(args, |slots|)
    ensures Fill(slots, args, outs).err.None? <==> forall j :: 0 <= j < |outs| ==> outs[j].Ok?
    ensures Fill(slots, args, outs).err.Some? ==>
      var e := Fill(slots, args, outs).err.value;
      e.OnColumn? && e.index < |outs| && outs[e.index] == Err(e.cause) &&
      forall j :: 0 <= j < e.index ==> outs[j].Ok?
    decreases |outs|
  {
    if |outs| > 0 {
      var k := |outs| - 1;
      FillErrors(slots, args[..k], outs[..k]);
      assert forall j :: 0 <= j < k ==> outs[..k][j] == outs[j];
    }
  }

  /**
   * After a successful scan over distinct fields, field `args[j]` holds column
   * `j`'s value, and every field no column binds to is untouched.
   */
  lemma {:induction false} FillValues(slots: seq<Slot>, args: seq<nat>, outs: seq<Result<Value, FieldError>>)
    requires |args| == |outs| && BoundArgs(args, |slots|)
    requires forall j, k :: 0 <= j < k < |args| ==> args[j] != args[k]
    requires Fill(slots, args, outs).err.None?
    ensures forall j :: 0 <= j < |outs| ==>
      outs[j].Ok? && Fill(slots, args, outs).slots[args[j]] == slots[args[j]].(value := outs[j].value)
    ensures forall i :: 0 <= i < |slots| && i !in args ==> Fill(slots, args, outs).slots[i] == slots[i]
    decreases |outs|
  {
    if |outs| > 0 {
      var k := |outs| - 1;
      var a := args[k];
      var p := Fill(slots, args[..k], outs[..k]);
      FillValues(slots, args[..k], outs[..k]);
      assert a !in args[..k];
      assert p.slots[a] == slots[a];
      assert forall x :: x in args[..k] ==> x in args;
    }
  }

  /** A turn of the conversion loop whose column converts writes that one field. */
  lemma {:induction false} ScanRowWrites(start: seq<Slot>, args: seq<nat>, outs: seq<Result<Value, FieldError>>, j: nat, before: seq<Slot>)
    requires |args| == |outs| && BoundArgs(args, |start|) && j < |outs| && outs[j].Ok?
    requires Fill(start, args[..j], outs[..j]) == Scanned(before, None)
    ensures Fill(start, args[..j + 1], outs[..j + 1]) ==
      Scanned(before[args[j] := before[args[j]].(value := outs[j].value)], None)
  {
    FillSnoc(start, args, outs, j);
  }

  /** A turn of the conversion loop whose column fails ends the scan with that column's error. */
  lemma {:induction false} ScanRowFails(start: seq<Slot>, args: seq<nat>, outs: seq<Result<Value, FieldError>>, j: nat, before: seq<Slot>)
    requires |args| == |outs| && BoundArgs(args, |start|) && j < |outs| && outs[j].Err?
    requires Fill(start, args[..j], outs[..j]) == Scanned(before, None)
    ensures Fill(start, args, outs) == Scanned(before, Some(OnColumn(j, outs[j].error)))
  {
    FillSnoc(start, args, outs, j);
    FillStops(start, args, outs, j + 1);
  }

  /** The conversion loop as the scan runs it, one `fieldScanner.Scan` per column. */
  method ScanRow(record: array<Slot>, args: seq<nat>, row: seq<Value>) returns (err: Option<ScanError>)
    requires |args| == |row| && BoundArgs(args, record.Length)
    modifies record
    ensures var outs := Conversions(old(record[..]), args, row);
      record[..] == Fill(old(record[..]), args, outs).slots && err == Fill(old(record[..]), args, outs).err
  {
    ghost var start := record[..];
    ghost var outs := Conversions(start, args, row);
    var j := 0;
    assert args[..0] == [] && outs[..0] == [];
    while j < |row|
      invariant j <= |row|
      invariant Fill(start, args[..j], outs[..j]) == Scanned(record[..], None)
    {
      ghost var before := record[..];
      assert before[args[j]] == start[args[j]].(value := before[args[j]].value);
      ConvertIgnoresValue(start[args[j]], before[args[j]].value, row[j]);
      assert outs[j] == Convert(before[args[j]], row[j]);
      var e := ScanField(record, args[j], row[j]);
      if e.Some? {
        ScanRowFails(start, args, outs, j, before);
        return Some(OnColumn(j, e.value));
      }
      ScanRowWrites(start, args, outs, j, before);
      j := j + 1;
    }
    assert args[..j] == args && outs[..j] == outs;
    err := None;
  }

  /** `scanReflectValue` with its checks in order: pointer, field count, bindings, column count. */
  function ScanStruct(fields: seq<string>, slots: seq<Slot>, row: seq<Value>): (r: Scanned)
    ensures |r.slots| == |slots|
  {
    if |slots| == 0 || |slots| < |fields| then Scanned(slots, Some(FieldsNotEnough))
    else
      var args := Bindings(fields, slots);
      if |args| != |fields| then Scanned(slots, Some(FieldsNotEnough))
      else if |row| != |args| then Scanned(slots, Some(ColumnCount(|row|, |args|)))
      else Fill(slots, args, Conversions(slots, args, row))
  }

  /** `scanReflectValue`: binds the columns to the struct's fields and scans the row into them. */
  method ScanReflectValue(fields: seq<string>, dst: Target, row: seq<Value>) returns (err: Option<ScanError>)
    modifies Frame(dst)
    ensures !dst.StructPointer? ==> err == Some(NotStructPointer)
    ensures dst.StructPointer? ==>
      dst.record[..] == ScanStruct(fields, old(dst.record[..]), row).slots &&
      err == ScanStruct(fields, old(dst.record[..]), row).err
  {
    if !dst.StructPointer? {
      return Some(NotStructPointer);
    }
    var record := dst.record;
    var n := record.Length;
    if n <= 0 || n < |fields| {
      return Some(FieldsNotEnough);
    }
    var args := BindColumns(fields, record);
    if |args| != |fields| {
      return Some(FieldsNotEnough);
    }
    if |row| != |args| {
      return Some(ColumnCount(|row|, |args|));
    }
    err := ScanRow(record, args, row);
  }

  /**
   * A row scans into a struct exactly when the struct has fields, no fewer than
   * the columns, the row has one value per column, and every column finds its
   * field and converts into it. A failure found before the first column is
   * converted leaves the struct as it was.
   */
  lemma {:induction false} ScanStructSucceeds(fields: seq<string>, slots: seq<Slot>, row: seq<Value>)
    ensures ScanStruct(fields, slots, row).err.None? <==>
      0 < |slots| && |fields| <= |slots| && |row| == |fields| &&
      forall j :: 0 <= j < |fields| ==>
        FieldByName(slots, fields[j]).Some? && Convert(slots[FieldByName(slots, fields[j]).value], row[j]).Ok?
    ensures ScanStruct(fields, slots, row).err.Some? && !ScanStruct(fields, slots, row).err.value.OnColumn? ==>
      ScanStruct(fields, slots, row).slots == slots
  {
    var args := Bindings(fields, slots);
    BindingsComplete(fields, slots);
    if 0 < |slots| && |fields| <= |slots| && |args| == |fields| && |row| == |args| {
      var outs := Conversions(slots, args, row);
      FillErrors(slots, args, outs);
      assert forall j :: 0 <= j < |fields| ==> outs[j] == Convert(slots[args[j]], row[j]);
    }
  }

  /**
   * After a successful scan with distinct columns, the field of column `j`
   * holds column `j`'s value converted, and every other field keeps its value.
   */
  lemma {:induction false} ScanStructValues(fields: seq<string>, slots: seq<Slot>, row: seq<Value>)
    requires ScanStruct(fields, slots, row).err.None?
    requires forall j, k :: 0 <= j < k < |fields| ==> fields[j] != fields[k]
    ensures |row| == |fields|
    ensures forall j :: 0 <= j < |fields| ==>
      var f := FieldByName(slots, fields[j]);
      f.Some? && Convert(slots[f.value], row[j]).Ok? &&
      ScanStruct(fields, slots, row).slots[f.value] == slots[f.value].(value := Convert(slots[f.value], row[j]).value)
    ensures forall i :: 0 <= i < |slots| && (forall j :: 0 <= j < |fields| ==> FieldByName(slots, fields[j]) != Some(i)) ==>
      ScanStruct(fields, slots, row).slots[i] == slots[i]
  {
    var args := Bindings(fields, slots);
    BindingsComplete(fields, slots);
    BindingsDistinct(fields, slots);
    var outs := Conversions(slots, args, row);
    FillValues(slots, args, outs);
    forall i | 0 <= i < |slots| && (forall j :: 0 <= j < |fields| ==> FieldByName(slots, fields[j]) != Some(i))
      ensures i !in args
    {
      BindingsOnly(fields, slots, i);
    }
  }

  // ---------------------------------------------------------------- as written

  /** The outcome of code that may panic. */
  datatype Outcome<T> = Panics | Returns(value: T)

  /** A column whose field the binding loop can hand to the scanner as written: found and exported. */
  predicate Usable(slots: seq<Slot>, column: string)
  {
    var f := FieldByName(slots, column);
    f.Some? && slots[f.value].settable
  }

  /**
   * The binding loop of `scanReflectValue` as written, given each column's
   * lookup: it asks `dstF.Interface()` before `dstF.IsValid()`, and reflection
   * panics both on the zero value a column without a field yields and on an
   * unexported field.
   */
  function PresentAsWritten(found: seq<Option<nat>>, slots: seq<Slot>): (r: Outcome<seq<nat>>)
    requires FoundBelow(found, |slots|)
    decreases |found|
  {
    if |found| == 0 then Returns([])
    else
      var k := |found| - 1;
      match PresentAsWritten(found[..k], slots)
      case Panics => Panics
      case Returns(rest) =>
        if found[k].Some? && slots[found[k].value].settable then Returns(rest + [found[k].value]) else Panics
  }

  function BindingsAsWritten(fields: seq<string>, slots: seq<Slot>): Outcome<seq<nat>>
  {
    PresentAsWritten(Lookups(fields, slots), slots)
  }

  /** `scanReflectValue` as written: the checks of `ScanStruct`, with the panicking binding loop. */
  function ScanStructAsWritten(fields: seq<string>, slots: seq<Slot>, row: seq<Value>): Outcome<Scanned>
  {
    if |slots| == 0 || |slots| < |fields| then Returns(Scanned(slots, Some(FieldsNotEnough)))
    else
      match BindingsAsWritten(fields, slots)
      case Panics => Panics
      case Returns(args) =>
        if |args| != |fields| then Returns(Scanned(slots, Some(FieldsNotEnough)))
        else if |row| != |args| || !BoundArgs(args, |slots|) then Returns(Scanned(slots, Some(ColumnCount(|row|, |args|))))
        else Returns(Fill(slots, args, Conversions(slots, args, row)))
  }

  lemma {:induction false} PresentAsWrittenSpec(found: seq<Option<nat>>, slots: seq<Slot>)
    requires FoundBelow(found, |slots|)
    ensures PresentAsWritten(found, slots).Returns? <==>
      forall j :: 0 <= j < |found| ==> found[j].Some? && slots[found[j].value].settable
    ensures PresentAsWritten(found, slots).Returns? ==> PresentAsWritten(found, slots).value == Present(found, |slots|)
    decreases |found|
  {
    if |found| > 0 {
      var k := |found| - 1;
      PresentAsWrittenSpec(found[..k], slots);
      assert forall j :: 0 <= j < k ==> found[..k][j] == found[j];
    }
  }

  /** As written, the binding loop returns exactly when every column is usable, and then it binds as `Bindings` does. */
  lemma {:induction false} BindingsAsWrittenSpec(fields: seq<string>, slots: seq<Slot>)
    ensures BindingsAsWritten(fields, slots).Returns? <==> forall j :: 0 <= j < |fields| ==> Usable(slots, fields[j])
    ensures BindingsAsWritten(fields, slots).Returns? ==> BindingsAsWritten(fields, slots).value == Bindings(fields, slots)
  {
    var found := Lookups(fields, slots);
    PresentAsWrittenSpec(found, slots);
    assert forall j :: 0 <= j < |fields| ==> found[j] == FieldByName(slots, fields[j]);
  }

  /** Where no column is missing or unexported, the code as written and the corrected scan agree. */
  lemma {:induction false} ScanAsWrittenAgrees(fields: seq<string>, slots: seq<Slot>, row: seq<Value>)
    requires forall j :: 0 <= j < |fields| ==> Usable(slots, fields[j])
    ensures ScanStructAsWritten(fields, slots, row) == Returns(ScanStruct(fields, slots, row))
  {
    BindingsAsWrittenSpec(fields, slots);
  }

  /** A column with no field panics as written, where the corrected scan reports "destination field not enough". */
  lemma {:induction false} UnmatchedColumnPanics()
    ensures var slots := [Slot("Name", KString, true, VStr("")), Slot("ID", KInt(64), true, VInt(0))];
      ScanStructAsWritten(["age"], slots, [VInt(3)]) == Panics &&
      ScanStruct(["age"], slots, [VInt(3)]) == Scanned(slots, Some(FieldsNotEnough))
  {
    var slots := [Slot("Name", KString, true, VStr("")), Slot("ID", KInt(64), true, VInt(0))];
    assert Lower(slots[0].name) == "name";
    assert Lower(slots[1].name) == "id";
    MatchesNone(slots, "age");
  }

  /** An unexported field panics as written, where the corrected scan fails on that column as not settable. */
  lemma {:induction false} UnexportedFieldPanics()
    ensures var slots := [Slot("name", KString, false, VStr(""))];
      ScanStructAsWritten(["name"], slots, [VStr("x")]) == Panics &&
      ScanStruct(["name"], slots, [VStr("x")]) == Scanned(slots, Some(OnColumn(0, NotSettable)))
  {
    var slots := [Slot("name", KString, false, VStr(""))];
    assert Lower(slots[0].name) == "name";
    MatchesOne(slots, "name", 0);
    assert Lookups(["name"], slots) == [Some(0)];
  }
}
