/**
 * The PostgreSQL fragment generators: WHERE clauses whose comparisons carry
 * the positional placeholders `$n`, the argument lists that go with them, the
 * SET list of an UPDATE and the VALUES placeholder list of an INSERT.
 *
 * Two forms exist side by side. `PqWhere` and `PqFilter` number from `$1` and
 * emit no leading space (the older Builder adds it). The threaded forms take
 * the first placeholder number, emit a leading space and return the next free
 * number, so that clauses of one statement share one placeholder sequence.
 */
module Pq {
  import opened Wrappers
  import opened Text
  import opened Values
  import opened Filters

  /** A recorded SET pair of the Update builder (`fieldValue`). */
  datatype FieldValue = FieldValue(field: string, value: Value)

  /** What a threaded generator returns: clause text, its arguments, the next free placeholder number. */
  datatype Clause = Clause(text: string, args: seq<Value>, next: int)

  /** One comparison `field op $n`. */
  function Comparison(field: string, op: string, n: int): string
  {
    field + " " + op + " $" + IntToString(n)
  }

  /** The equalities `fields[i] = $(start + i)`. */
  function Equalities(fields: seq<string>, start: int): (r: seq<string>)
    ensures |r| == |fields|
  {
    seq(|fields|, i requires 0 <= i < |fields| => Comparison(fields[i], "=", start + i))
  }

  /** The comparisons `filters[i].field filters[i].op $(start + i)`. */
  function Comparisons(filters: seq<Filter>, start: int): (r: seq<string>)
    ensures |r| == |filters|
  {
    seq(|filters|, i requires 0 <= i < |filters| => Comparison(filters[i].field, filters[i].op, start + i))
  }

  /** The assignments `updated[i].field = $(start + i)`. */
  function Assignments(updated: seq<FieldValue>, start: int): (r: seq<string>)
    ensures |r| == |updated|
  {
    seq(|updated|, i requires 0 <= i < |updated| => Comparison(updated[i].field, "=", start + i))
  }

  /** The filter values, in filter order. */
  function FilterArgs(filters: seq<Filter>): (r: seq<Value>)
    ensures |r| == |filters| && forall i :: 0 <= i < |filters| ==> r[i] == filters[i].value
  {
    seq(|filters|, i requires 0 <= i < |filters| => filters[i].value)
  }

  /** The SET pairs as the `=` comparisons their assignments are. */
  function AsEqualities(updated: seq<FieldValue>): (r: seq<Filter>)
    ensures |r| == |updated|
  {
    seq(|updated|, i requires 0 <= i < |updated| => Filter(updated[i].field, "=", updated[i].value))
  }

  /** The SET values, in recording order: the arguments of the assignments read as comparisons. */
  function SetArgs(updated: seq<FieldValue>): (r: seq<Value>)
    ensures |r| == |updated| && forall i :: 0 <= i < |updated| ==> r[i] == updated[i].value
  {
    FilterArgs(AsEqualities(updated))
  }

  const AndSep := " AND "

  // ---------------------------------------------------------------- from $1, no leading space

  /** `pqWhere`: one equality per field, numbered `$1`..`$k`; the list may not be empty. */
  method PqWhere(fields: seq<string>) returns (where: string)
    requires |fields| >= 1
    ensures where == "WHERE " + Join(Equalities(fields, 1), AndSep)
  {
    ghost var eqs := Equalities(fields, 1);
    where := "WHERE " + Comparison(fields[0], "=", 1);
    assert eqs[..1] == [eqs[0]];
    if |fields| == 1 {
      return;
    }
    var n := 2;
    var i := 1;
    while i < |fields|
      invariant 1 <= i <= |fields| && n == i + 1
      invariant where == "WHERE " + Join(eqs[..i], AndSep)
    {
      JoinStep("WHERE ", eqs, i, AndSep);
      where := where + (AndSep + Comparison(fields[i], "=", n));
      n := n + 1;
      i := i + 1;
    }
    assert eqs[..i] == eqs;
  }

  /** `pqFilter`: "" and no arguments for no filters, else one comparison per filter numbered `$1`..`$n`. */
  method PqFilter(filters: seq<Filter>) returns (where: string, args: seq<Value>)
    ensures |filters| == 0 ==> where == "" && args == []
    ensures |filters| > 0 ==> where == "WHERE " + Join(Comparisons(filters, 1), AndSep)
    ensures args == FilterArgs(filters)
  {
    if |filters| == 0 {
      return "", [];
    }
    ghost var cs := Comparisons(filters, 1);
    where := "WHERE " + Comparison(filters[0].field, filters[0].op, 1);
    args := [filters[0].value];
    assert cs[..1] == [cs[0]];
    var n := 2;
    var i := 1;
    while i < |filters|
      invariant 1 <= i <= |filters| && n == i + 1
      invariant where == "WHERE " + Join(cs[..i], AndSep)
      invariant args == FilterArgs(filters[..i])
    {
      JoinStep("WHERE ", cs, i, AndSep);
      assert filters[..i + 1] == filters[..i] + [filters[i]];
      where := where + (AndSep + Comparison(filters[i].field, filters[i].op, n));
      args := args + [filters[i].value];
      n := n + 1;
      i := i + 1;
    }
    assert cs[..i] == cs;
    assert filters[..i] == filters;
  }

  // ---------------------------------------------------------------- threaded

  /** The threaded `pqWhere(fields, starting)`: " WHERE k1 = $s AND ..." and the next number. */
  function WhereFrom(fields: seq<string>, starting: int): (r: Clause)
    requires |fields| >= 1
    ensures r.next == starting + |fields| && r.args == []
  {
    Clause(" WHERE " + Join(Equalities(fields, starting), AndSep), [], starting + |fields|)
  }

  /** The threaded `pqFilter(filters, starting)`: empty without filters, else " WHERE ...". */
  function FilterFrom(filters: seq<Filter>, starting: int): (r: Clause)
    ensures r.next == starting + |filters| && r.args == FilterArgs(filters)
    ensures r.text == "" <==> |filters| == 0
  {
    if |filters| == 0 then Clause("", [], starting)
    else Clause(" WHERE " + Join(Comparisons(filters, starting), AndSep), FilterArgs(filters), starting + |filters|)
  }

  /** `pqUpdateSet(updated, starting)`: " SET a = $s AND b = $s+1 ..." with the values in order. */
  function UpdateSetFrom(updated: seq<FieldValue>, starting: int): (r: Clause)
    requires |updated| >= 1
    ensures r.next == starting + |updated| && r.args == SetArgs(updated)
  {
    Clause(" SET " + Join(Assignments(updated, starting), AndSep), SetArgs(updated), starting + |updated|)
  }

  /** `pqMakePlaceholder(n)`: "$1,$2,...,$n". */
  function MakePlaceholder(n: nat): string
  {
    Join(seq(n, i requires 0 <= i < n => "$" + IntToString(i + 1)), ",")
  }

  // ---------------------------------------------------------------- properties

  /** The threaded form started at 1 is the older form with a leading space. */
  lemma ThreadedFromOne(fields: seq<string>, filters: seq<Filter>, where: string, fwhere: string)
    requires |fields| >= 1 && where == "WHERE " + Join(Equalities(fields, 1), AndSep)
    requires |filters| > 0 ==> fwhere == "WHERE " + Join(Comparisons(filters, 1), AndSep)
    requires |filters| == 0 ==> fwhere == ""
    ensures WhereFrom(fields, 1).text == " " + where
    ensures FilterFrom(filters, 1).text == (if |filters| == 0 then "" else " " + fwhere)
  {
  }

  /**
   * Numbering composes: the comparisons of two filter lists appended are those
   * of the first list followed by those of the second numbered from where the
   * first stopped, and the clause joins the two with one " AND ".
   */
  lemma ComparisonsAppend(a: seq<Filter>, b: seq<Filter>, start: int)
    ensures Comparisons(a + b, start) == Comparisons(a, start) + Comparisons(b, start + |a|)
    ensures FilterArgs(a + b) == FilterArgs(a) + FilterArgs(b)
    ensures |a| > 0 && |b| > 0 ==>
      Join(Comparisons(a + b, start), AndSep) ==
      Join(Comparisons(a, start), AndSep) + AndSep + Join(Comparisons(b, start + |a|), AndSep)
  {
    var ca, cb := Comparisons(a, start), Comparisons(b, start + |a|);
    ComparisonsConcat(a, b, start);
    FilterArgsConcat(a, b);
    if |a| > 0 && |b| > 0 {
      JoinAppend(ca, cb, AndSep);
    }
  }

  lemma FilterArgsConcat(a: seq<Filter>, b: seq<Filter>)
    ensures FilterArgs(a + b) == FilterArgs(a) + FilterArgs(b)
  {
    var ab, fa, fb := FilterArgs(a + b), FilterArgs(a), FilterArgs(b);
    forall i | 0 <= i < |ab| ensures ab[i] == (fa + fb)[i] {
      if i >= |a| {
        assert (a + b)[i] == b[i - |a|];
      }
    }
    assert ab == fa + fb;
  }

  lemma ComparisonsConcat(a: seq<Filter>, b: seq<Filter>, start: int)
    ensures Comparisons(a + b, start) == Comparisons(a, start) + Comparisons(b, start + |a|)
  {
    var ab, ca, cb := Comparisons(a + b, start), Comparisons(a, start), Comparisons(b, start + |a|);
    forall i | 0 <= i < |ab| ensures ab[i] == (ca + cb)[i] {
      if i < |a| {
        assert (a + b)[i] == a[i];
        assert ab[i] == Comparison(a[i].field, a[i].op, start + i) == ca[i];
      } else {
        var j := i - |a|;
        assert (a + b)[i] == b[j];
        assert ab[i] == Comparison(b[j].field, b[j].op, start + |a| + j) == cb[j];
      }
    }
    assert ab == ca + cb;
  }

  /** Every placeholder written by an n-placeholder list reads back as its position: `$1`..`$n`. */
  lemma PlaceholderNumbers(n: nat, i: nat)
    requires i < n
    ensures var ps := seq(n, j requires 0 <= j < n => "$" + IntToString(j + 1));
      ps[i][0] == '$' && AllDigits(ps[i][1..]) && DigitsValue(ps[i][1..]) == i + 1
  {
    var ps := seq(n, j requires 0 <= j < n => "$" + IntToString(j + 1));
    assert ps[i][1..] == NatToString(i + 1);
    DigitsOfNat(i + 1);
  }

  /** A comparison's placeholder number reads back from the text after its `$`. */
  lemma ComparisonNumber(field: string, op: string, n: nat)
    ensures var c := Comparison(field, op, n); var k := |field| + |op| + 3;
      c[..k] == field + " " + op + " $" && AllDigits(c[k..]) && DigitsValue(c[k..]) == n
  {
    var c := Comparison(field, op, n);
    var k := |field| + |op| + 3;
    assert c[k..] == NatToString(n);
    assert c[..k] == field + " " + op + " $";
    DigitsOfNat(n);
  }
}
