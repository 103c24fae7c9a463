/**
 * The `filter` record and the validation both select builders share:
 * `fieldExist`, `isValidOp`, `fieldError`, `orderByError`, `filterError`
 * and `Error`, which runs the three checks in that order.
 */
module Filters {
  import opened Wrappers
  import opened Text
  import opened Values

  /** One condition `field op value` of a WHERE clause. */
  datatype Filter = Filter(field: string, op: string, value: Value)

  /** The filter `SetFilter` records: the field lower-cased, operator and value as given. */
  function NewFilter(field: string, op: string, value: Value): Filter
  {
    Filter(Lower(field), op, value)
  }

  /** The five supported comparison operators. */
  predicate IsValidOp(op: string)
  {
    op == "=" || op == "<" || op == ">" || op == ">=" || op == "<="
  }

  datatype CheckError =
    | UnknownField(name: string)
    | UnknownOrderBy(name: string)
    | UnsupportedOp(op: string)

  /** The position of the first name that is not a table field; |names| when there is none. */
  function FirstUnknown(names: seq<string>, known: seq<string>): (r: nat)
    ensures r <= |names|
    ensures forall j :: 0 <= j < r ==> names[j] in known
    ensures r < |names| ==> names[r] !in known
  {
    if |names| == 0 then 0
    else if names[0] !in known then 0
    else 1 + FirstUnknown(names[1..], known)
  }

  predicate GoodFilter(f: Filter, known: seq<string>)
  {
    f.field in known && IsValidOp(f.op)
  }

  /** The position of the first filter on an unknown field or with an unsupported operator. */
  function FirstBadFilter(filters: seq<Filter>, known: seq<string>): (r: nat)
    ensures r <= |filters|
    ensures forall j :: 0 <= j < r ==> GoodFilter(filters[j], known)
    ensures r < |filters| ==> !GoodFilter(filters[r], known)
  {
    if |filters| == 0 then 0
    else if !GoodFilter(filters[0], known) then 0
    else 1 + FirstBadFilter(filters[1..], known)
  }

  function FieldErrorOf(fields: seq<string>, known: seq<string>): Option<CheckError>
  {
    var i := FirstUnknown(fields, known);
    if i < |fields| then Some(UnknownField(fields[i])) else None
  }

  function OrderByErrorOf(orderBy: seq<string>, known: seq<string>): Option<CheckError>
  {
    var i := FirstUnknown(orderBy, known);
    if i < |orderBy| then Some(UnknownOrderBy(orderBy[i])) else None
  }

  function FilterErrorOf(filters: seq<Filter>, known: seq<string>): Option<CheckError>
  {
    var i := FirstBadFilter(filters, known);
    if i == |filters| then None
    else if filters[i].field !in known then Some(UnknownField(filters[i].field))
    else Some(UnsupportedOp(filters[i].op))
  }

  /** What `Error` reports: the first failing check of fields, then order-by, then filters. */
  function CheckOf(fields: seq<string>, orderBy: seq<string>, filters: seq<Filter>, known: seq<string>): Option<CheckError>
  {
    var e1 := FieldErrorOf(fields, known);
    if e1.Some? then e1
    else
      var e2 := OrderByErrorOf(orderBy, known);
      if e2.Some? then e2 else FilterErrorOf(filters, known)
  }

  /** The query is valid exactly when every name is a table field and every operator is supported. */
  lemma CheckNoneIff(fields: seq<string>, orderBy: seq<string>, filters: seq<Filter>, known: seq<string>)
    ensures CheckOf(fields, orderBy, filters, known).None? <==>
      (forall i :: 0 <= i < |fields| ==> fields[i] in known) &&
      (forall i :: 0 <= i < |orderBy| ==> orderBy[i] in known) &&
      (forall i :: 0 <= i < |filters| ==> filters[i].field in known && IsValidOp(filters[i].op))
  {
    var a := FirstUnknown(fields, known);
    var b := FirstUnknown(orderBy, known);
    var c := FirstBadFilter(filters, known);
    if a < |fields| { assert fields[a] !in known; }
    if b < |orderBy| { assert orderBy[b] !in known; }
    if c < |filters| { assert !GoodFilter(filters[c], known); }
  }

  /** An unknown selected field is reported before any order-by or filter problem. */
  lemma CheckOrder(fields: seq<string>, orderBy: seq<string>, filters: seq<Filter>, known: seq<string>, k: nat)
    requires k < |fields| && fields[k] !in known
    requires forall j :: 0 <= j < k ==> fields[j] in known
    ensures CheckOf(fields, orderBy, filters, known) == Some(UnknownField(fields[k]))
  {
  }

  /** `fieldExist`: a linear scan of the table's fields. */
  method FieldExist(known: seq<string>, field: string) returns (b: bool)
    ensures b <==> field in known
  {
    var i := 0;
    while i < |known|
      invariant 0 <= i <= |known|
      invariant forall j :: 0 <= j < i ==> known[j] != field
    {
      if known[i] == field {
        return true;
      }
      i := i + 1;
    }
    return false;
  }

  /** `fieldError` and `orderByError`: the first name that is not a table field. */
  method FirstUnknownName(names: seq<string>, known: seq<string>) returns (i: nat)
    ensures i == FirstUnknown(names, known)
  {
    i := 0;
    while i < |names|
      invariant i <= |names|
      invariant forall j :: 0 <= j < i ==> names[j] in known
    {
      var ok := FieldExist(known, names[i]);
      if !ok {
        FirstUnknownAt(names, known, i);
        return;
      }
      i := i + 1;
    }
    FirstUnknownAt(names, known, i);
  }

  lemma FirstUnknownAt(names: seq<string>, known: seq<string>, i: nat)
    requires i <= |names|
    requires forall j :: 0 <= j < i ==> names[j] in known
    requires i < |names| ==> names[i] !in known
    ensures FirstUnknown(names, known) == i
  {
  }

  lemma FirstBadFilterAt(filters: seq<Filter>, known: seq<string>, i: nat)
    requires i <= |filters|
    requires forall j :: 0 <= j < i ==> GoodFilter(filters[j], known)
    requires i < |filters| ==> !GoodFilter(filters[i], known)
    ensures FirstBadFilter(filters, known) == i
  {
  }

  /** `filterError`: per filter, the field is checked before the operator. */
  method FilterError(filters: seq<Filter>, known: seq<string>) returns (e: Option<CheckError>)
    ensures e == FilterErrorOf(filters, known)
  {
    var i := 0;
    while i < |filters|
      invariant i <= |filters|
      invariant forall j :: 0 <= j < i ==> GoodFilter(filters[j], known)
    {
      var ok := FieldExist(known, filters[i].field);
      if !ok {
        FirstBadFilterAt(filters, known, i);
        return Some(UnknownField(filters[i].field));
      }
      if !IsValidOp(filters[i].op) {
        FirstBadFilterAt(filters, known, i);
        return Some(UnsupportedOp(filters[i].op));
      }
      i := i + 1;
    }
    FirstBadFilterAt(filters, known, i);
    return None;
  }

  /** `Error`: fields, then order-by, then filters. */
  method Check(fields: seq<string>, orderBy: seq<string>, filters: seq<Filter>, known: seq<string>)
    returns (e: Option<CheckError>)
    ensures e == CheckOf(fields, orderBy, filters, known)
    ensures e.None? <==>
      (forall i :: 0 <= i < |fields| ==> fields[i] in known) &&
      (forall i :: 0 <= i < |orderBy| ==> orderBy[i] in known) &&
      (forall i :: 0 <= i < |filters| ==> filters[i].field in known && IsValidOp(filters[i].op))
  {
    CheckNoneIff(fields, orderBy, filters, known);
    var i := FirstUnknownName(fields, known);
    if i < |fields| {
      return Some(UnknownField(fields[i]));
    }
    var j := FirstUnknownName(orderBy, known);
    if j < |orderBy| {
      return Some(UnknownOrderBy(orderBy[j]));
    }
    e := FilterError(filters, known);
  }
}
