/**
 * The table descriptor (`Table`, the implementation of `Tabler`) derived from a
 * Go struct type: the lower-cased table name, the lower-cased names of the
 * non-embedded fields in declaration order with their positions, and the
 * primary keys ordered by the rank in their `pk` struct tag. The struct type is
 * described by a `GoType` value instead of reflection.
 */
module Tables {
  import opened Wrappers
  import opened Text

  /** One field of a struct type: its Go name, whether it is embedded, and its `pk` tag ("" when absent). */
  datatype StructField = StructField(name: string, anonymous: bool, pkTag: string)

  /** The dynamic type of the value handed to NewTable. */
  datatype GoType =
    | StructType(typeName: string, fields: seq<StructField>)
    | PointerType(elem: GoType)
    | OtherType(typeName: string)

  /** The descriptor every builder is bound to. */
  datatype Table = Table(name: string, fields: seq<string>, fieldsIndex: seq<nat>, primaryKey: seq<string>)
  {
    function TableName(): string { name }
    function Fields(): seq<string> { fields }
    function PrimaryKeys(): seq<string> { primaryKey }
  }

  datatype TableError =
    | UnsupportedType
    | NoName
    | NoFields
    | BadPkTag(tag: string)
    | PkConflict(first: string, second: string)
    | NoPrimaryKey

  // ---------------------------------------------------------------- specification

  /** Lower-cased names of the non-embedded fields, in declaration order. */
  function VisibleFields(fs: seq<StructField>): seq<string>
  {
    if |fs| == 0 then []
    else VisibleFields(fs[..|fs| - 1]) + (if fs[|fs| - 1].anonymous then [] else [Lower(fs[|fs| - 1].name)])
  }

  /** Positions of the non-embedded fields, in declaration order. */
  function VisibleIndices(fs: seq<StructField>): seq<nat>
  {
    if |fs| == 0 then []
    else VisibleIndices(fs[..|fs| - 1]) + (if fs[|fs| - 1].anonymous then [] else [|fs| - 1])
  }

  /** Each stored position names a non-embedded field whose lower-cased name is stored beside it, in increasing order. */
  lemma VisibleFieldsIndexed(fs: seq<StructField>)
    ensures |VisibleFields(fs)| == |VisibleIndices(fs)|
    ensures forall i :: 0 <= i < |VisibleIndices(fs)| ==>
      VisibleIndices(fs)[i] < |fs| && !fs[VisibleIndices(fs)[i]].anonymous &&
      VisibleFields(fs)[i] == Lower(fs[VisibleIndices(fs)[i]].name)
    ensures forall i, j :: 0 <= i < j < |VisibleIndices(fs)| ==> VisibleIndices(fs)[i] < VisibleIndices(fs)[j]
    ensures forall k :: 0 <= k < |fs| && !fs[k].anonymous ==> k in VisibleIndices(fs)
  {
    VisibleNames(fs);
    VisibleOrder(fs);
  }

  lemma {:induction false} VisibleNames(fs: seq<StructField>)
    ensures |VisibleFields(fs)| == |VisibleIndices(fs)|
    ensures forall i :: 0 <= i < |VisibleIndices(fs)| ==>
      VisibleIndices(fs)[i] < |fs| && !fs[VisibleIndices(fs)[i]].anonymous &&
      VisibleFields(fs)[i] == Lower(fs[VisibleIndices(fs)[i]].name)
  {
    if |fs| > 0 {
      var init := fs[..|fs| - 1];
      var last := fs[|fs| - 1];
      VisibleNames(init);
      var ix, vs := VisibleIndices(init), VisibleFields(init);
      forall i | 0 <= i < |ix| ensures fs[ix[i]] == init[ix[i]] {
      }
      if last.anonymous {
        assert VisibleIndices(fs) == ix && VisibleFields(fs) == vs;
      } else {
        assert VisibleIndices(fs) == ix + [|fs| - 1] && VisibleFields(fs) == vs + [Lower(last.name)];
      }
    }
  }

  lemma {:induction false} VisibleOrder(fs: seq<StructField>)
    ensures forall i :: 0 <= i < |VisibleIndices(fs)| ==> VisibleIndices(fs)[i] < |fs|
    ensures forall i, j :: 0 <= i < j < |VisibleIndices(fs)| ==> VisibleIndices(fs)[i] < VisibleIndices(fs)[j]
    ensures forall k :: 0 <= k < |fs| && !fs[k].anonymous ==> k in VisibleIndices(fs)
  {
    if |fs| > 0 {
      var init := fs[..|fs| - 1];
      VisibleOrder(init);
      var ix := VisibleIndices(init);
      forall k | 0 <= k < |init| && !fs[k].anonymous ensures k in ix {
        assert init[k] == fs[k];
      }
      if !fs[|fs| - 1].anonymous {
        assert VisibleIndices(fs) == ix + [|fs| - 1];
      }
    }
  }

  /** The rank in a field's `pk` tag: parsed as a signed 8-bit decimal integer. */
  function Rank(f: StructField): Option<int>
    requires f.pkTag != ""
  {
    ParseInt(f.pkTag, 8)
  }

  /** One step of the tag scan: record the field's rank, or fail on a bad tag or a rank taken already. */
  function TagStep(m: map<int, string>, f: StructField): Result<map<int, string>, TableError>
  {
    if f.pkTag == "" then Ok(m)
    else match Rank(f)
      case None => Err(BadPkTag(f.pkTag))
      case Some(n) => if n in m then Err(PkConflict(m[n], Lower(f.name))) else Ok(m[n := Lower(f.name)])
  }

  /** The rank-to-name map the fields' tags define, scanning in declaration order. */
  function ScanTags(fs: seq<StructField>): Result<map<int, string>, TableError>
  {
    if |fs| == 0 then Ok(map[])
    else match ScanTags(fs[..|fs| - 1])
      case Err(e) => Err(e)
      case Ok(m) => TagStep(m, fs[|fs| - 1])
  }

  /** The ranks of the tagged fields whose tags parse, in declaration order. */
  function TagRanks(fs: seq<StructField>): seq<int>
  {
    if |fs| == 0 then []
    else
      var f := fs[|fs| - 1];
      TagRanks(fs[..|fs| - 1]) + (if Tagged(f) && Rank(f).Some? then [Rank(f).value] else [])
  }

  /** `primaryKeys`: the tagged names ordered by ascending rank, or the first error. */
  function KeysOf(fs: seq<StructField>): Result<seq<string>, TableError>
  {
    match ScanTags(fs)
    case Err(e) => Err(e)
    case Ok(m) =>
      if |m| == 0 then Err(NoPrimaryKey)
      else
        var rs := SortInts(TagRanks(fs));
        Ok(seq(|rs|, i requires 0 <= i < |rs| => if rs[i] in m then m[rs[i]] else ""))
  }

  /** `NewTable`: what the descriptor of a value of type `s` is. */
  function TableOf(name: string, s: GoType): Result<Table, TableError>
  {
    if !s.StructType? then Err(UnsupportedType)
    else if name == "" && s.typeName == "" then Err(NoName)
    else if |s.fields| == 0 then Err(NoFields)
    else match KeysOf(s.fields)
      case Err(e) => Err(e)
      case Ok(pk) =>
        Ok(Table(Lower(if name == "" then s.typeName else name), VisibleFields(s.fields), VisibleIndices(s.fields), pk))
  }

  predicate Tagged(f: StructField)
  {
    f.pkTag != ""
  }

  /** Every tag parses as a signed 8-bit integer. */
  predicate TagsParse(fs: seq<StructField>)
  {
    forall i :: 0 <= i < |fs| && Tagged(fs[i]) ==> Rank(fs[i]).Some?
  }

  /** No two tags carry the same rank. */
  predicate RanksDistinct(fs: seq<StructField>)
  {
    forall i, j :: 0 <= i < j < |fs| && Tagged(fs[i]) && Tagged(fs[j]) ==> Rank(fs[i]) != Rank(fs[j])
  }

  /** The tag scan succeeds exactly when every tag parses and no two tags share a rank. */
  lemma {:induction false} ScanTagsOk(fs: seq<StructField>)
    ensures ScanTags(fs).Ok? <==> TagsParse(fs) && RanksDistinct(fs)
  {
    if |fs| > 0 {
      var init := fs[..|fs| - 1];
      var f := fs[|fs| - 1];
      assert fs == init + [f];
      ScanTagsOk(init);
      DropLast(fs);
      if ScanTags(init).Ok? {
        var m := ScanTags(init).value;
        ScanTagsMaps(init);
        if !Tagged(f) {
          ExtendOk(init, f);
        } else if Rank(f).None? {
          assert !TagsParse(fs) by {
            assert Tagged(fs[|fs| - 1]) && Rank(fs[|fs| - 1]).None?;
          }
        } else if Rank(f).value in m {
          var i :| 0 <= i < |init| && Tagged(init[i]) && Rank(init[i]) == Some(Rank(f).value);
          assert fs[i] == init[i];
          assert !RanksDistinct(fs) by {
            assert Tagged(fs[i]) && Tagged(fs[|fs| - 1]) && Rank(fs[i]) == Rank(fs[|fs| - 1]);
          }
        } else {
          forall i | 0 <= i < |init| && Tagged(init[i]) ensures Rank(init[i]) != Rank(f) {
          }
          ExtendOk(init, f);
        }
      }
    }
  }

  /** A field without a tag, or with a parsing tag whose rank is new, keeps both tag conditions. */
  lemma ExtendOk(init: seq<StructField>, f: StructField)
    requires TagsParse(init) && RanksDistinct(init)
    requires Tagged(f) ==> Rank(f).Some?
    requires Tagged(f) ==> forall i :: 0 <= i < |init| && Tagged(init[i]) ==> Rank(init[i]) != Rank(f)
    ensures TagsParse(init + [f]) && RanksDistinct(init + [f])
  {
    var fs := init + [f];
    assert forall i :: 0 <= i < |init| ==> fs[i] == init[i];
  }

  /** Both tag conditions carry over from a field list to the list without its last field. */
  lemma DropLast(fs: seq<StructField>)
    requires |fs| > 0
    ensures TagsParse(fs) ==> TagsParse(fs[..|fs| - 1])
    ensures RanksDistinct(fs) ==> RanksDistinct(fs[..|fs| - 1])
  {
    var init := fs[..|fs| - 1];
    assert forall i :: 0 <= i < |init| ==> init[i] == fs[i];
  }

  /** A successful scan maps exactly the tagged fields' ranks, each to its field's lower-cased name. */
  lemma {:induction false} ScanTagsMaps(fs: seq<StructField>)
    requires ScanTags(fs).Ok?
    ensures forall i :: 0 <= i < |fs| && Tagged(fs[i]) ==>
      Rank(fs[i]).Some? && Rank(fs[i]).value in ScanTags(fs).value && ScanTags(fs).value[Rank(fs[i]).value] == Lower(fs[i].name)
    ensures forall r :: r in ScanTags(fs).value ==> exists i :: 0 <= i < |fs| && Tagged(fs[i]) && Rank(fs[i]) == Some(r)
  {
    if |fs| > 0 {
      var init := fs[..|fs| - 1];
      var f := fs[|fs| - 1];
      ScanTagsMaps(init);
      assert forall i :: 0 <= i < |init| ==> init[i] == fs[i];
      var m := ScanTags(init).value;
      if Tagged(f) {
        var m' := m[Rank(f).value := Lower(f.name)];
        forall r | r in m' ensures exists i :: 0 <= i < |fs| && Tagged(fs[i]) && Rank(fs[i]) == Some(r) {
          if r != Rank(f).value {
            var i :| 0 <= i < |init| && Tagged(init[i]) && Rank(init[i]) == Some(r);
            assert fs[i] == init[i];
          } else {
            assert Tagged(fs[|fs| - 1]);
          }
        }
      }
    }
  }

  /** After a successful scan the collected ranks are distinct and are exactly the map's ranks. */
  lemma {:induction false} TagRanksKeys(fs: seq<StructField>)
    requires ScanTags(fs).Ok?
    ensures forall x :: x in TagRanks(fs) <==> x in ScanTags(fs).value
    ensures forall i, j :: 0 <= i < j < |TagRanks(fs)| ==> TagRanks(fs)[i] != TagRanks(fs)[j]
  {
    if |fs| > 0 {
      TagRanksKeys(fs[..|fs| - 1]);
    }
  }

  /** Ranks the scan records lie in the signed 8-bit range. */
  lemma {:induction false} ScanTagsRange(fs: seq<StructField>)
    ensures ScanTags(fs).Ok? ==> forall r :: r in ScanTags(fs).value ==> -128 <= r < 128
  {
    if |fs| > 0 {
      ScanTagsRange(fs[..|fs| - 1]);
    }
  }

  /** After a successful scan the sorted ranks increase strictly and are exactly the map's ranks. */
  lemma SortedRanks(fs: seq<StructField>)
    requires ScanTags(fs).Ok?
    ensures var m := ScanTags(fs).value; var rs := SortInts(TagRanks(fs));
      Increasing(rs) && (forall x :: x in rs <==> x in m)
  {
    TagRanksKeys(fs);
    SortDistinct(TagRanks(fs));
  }

  /** After a successful scan with at least one tag, the keys are the mapped names of the sorted ranks. */
  lemma KeysFromScan(fs: seq<StructField>)
    requires ScanTags(fs).Ok? && |ScanTags(fs).value| > 0
    ensures var m := ScanTags(fs).value; var rs := SortInts(TagRanks(fs));
      Increasing(rs) && (forall x :: x in rs <==> x in m) && (forall i :: 0 <= i < |rs| ==> rs[i] in m) &&
      KeysOf(fs) == Ok(seq(|rs|, i requires 0 <= i < |rs| => m[rs[i]]))
  {
    var m := ScanTags(fs).value;
    var rs := SortInts(TagRanks(fs));
    SortedRanks(fs);
    assert forall i :: 0 <= i < |rs| ==> rs[i] in m by {
      forall i | 0 <= i < |rs| ensures rs[i] in m {
        assert rs[i] in rs;
      }
    }
    MappedNames(m, rs);
  }

  /** Reading names off a rank list all of whose ranks are mapped needs no fallback. */
  lemma MappedNames(m: map<int, string>, rs: seq<int>)
    requires forall i :: 0 <= i < |rs| ==> rs[i] in m
    ensures seq(|rs|, i requires 0 <= i < |rs| => if rs[i] in m then m[rs[i]] else "") ==
      seq(|rs|, i requires 0 <= i < |rs| => m[rs[i]])
  {
  }

  /**
   * The primary keys are the names of the tagged fields ordered by strictly
   * increasing rank: one key per tagged field, and at least one.
   */
  lemma PrimaryKeysByRank(fs: seq<StructField>)
    requires KeysOf(fs).Ok?
    ensures ScanTags(fs).Ok? && |KeysOf(fs).value| > 0
    ensures var m := ScanTags(fs).value; var rs := SortInts(TagRanks(fs));
      |rs| == |KeysOf(fs).value| && Increasing(rs) &&
      (forall i :: 0 <= i < |rs| ==> rs[i] in m && KeysOf(fs).value[i] == m[rs[i]])
    ensures forall i :: 0 <= i < |fs| && Tagged(fs[i]) ==> Lower(fs[i].name) in KeysOf(fs).value
  {
    var m := ScanTags(fs).value;
    KeysFromScan(fs);
    KeysNonEmpty(fs, m);
    ScanTagsMaps(fs);
    forall i | 0 <= i < |fs| && Tagged(fs[i]) ensures Lower(fs[i].name) in KeysOf(fs).value {
      KeyOfRank(fs, m, Rank(fs[i]).value);
    }
  }

  lemma KeysNonEmpty(fs: seq<StructField>, m: map<int, string>)
    requires ScanTags(fs) == Ok(m) && |m| > 0
    ensures |SortInts(TagRanks(fs))| > 0
  {
    ScanSize(fs);
    SortIntsSpec(TagRanks(fs));
    assert |multiset(SortInts(TagRanks(fs)))| == |multiset(TagRanks(fs))|;
  }

  /** A successful scan records one rank per collected tag. */
  lemma {:induction false} ScanSize(fs: seq<StructField>)
    requires ScanTags(fs).Ok?
    ensures |ScanTags(fs).value| == |TagRanks(fs)|
  {
    if |fs| > 0 {
      ScanSize(fs[..|fs| - 1]);
    }
  }

  lemma KeyOfRank(fs: seq<StructField>, m: map<int, string>, r: int)
    requires ScanTags(fs) == Ok(m) && |m| > 0 && r in m
    ensures KeysOf(fs).Ok? && m[r] in KeysOf(fs).value
  {
    KeysFromScan(fs);
    var rs := SortInts(TagRanks(fs));
    assert r in rs;
    var k :| 0 <= k < |rs| && rs[k] == r;
    assert KeysOf(fs).value[k] == m[r];
  }

  // ---------------------------------------------------------------- sorting

  predicate Sorted(s: seq<int>)
  {
    forall i, j :: 0 <= i < j < |s| ==> s[i] <= s[j]
  }

  predicate Increasing(s: seq<int>)
  {
    forall i, j :: 0 <= i < j < |s| ==> s[i] < s[j]
  }

  /** Inserts `x` before the first element not smaller than it. */
  function Insert(x: int, s: seq<int>): seq<int>
  {
    if |s| == 0 then [x]
    else if x <= s[0] then [x] + s
    else [s[0]] + Insert(x, s[1..])
  }

  /** `sort.Ints`, as an insertion sort. */
  function SortInts(s: seq<int>): seq<int>
  {
    if |s| == 0 then [] else Insert(s[0], SortInts(s[1..]))
  }

  /** Insertion adds one occurrence of the inserted number. */
  lemma {:induction false} InsertPerm(x: int, s: seq<int>)
    ensures multiset(Insert(x, s)) == multiset(s) + multiset{x}
  {
    if |s| > 0 && x > s[0] {
      InsertPerm(x, s[1..]);
      assert s == [s[0]] + s[1..];
    }
  }

  /** Insertion adds exactly the inserted number to the elements. */
  lemma InsertMembers(x: int, s: seq<int>)
    ensures forall y :: y in Insert(x, s) <==> y == x || y in s
  {
    var r := Insert(x, s);
    InsertPerm(x, s);
    forall y ensures y in r <==> y == x || y in s {
      assert y in r <==> y in multiset(r);
      assert y in s <==> y in multiset(s);
    }
  }

  /** Insertion into a sorted sequence keeps it sorted. */
  lemma {:induction false} InsertSorted(x: int, s: seq<int>)
    requires Sorted(s)
    ensures Sorted(Insert(x, s))
  {
    if |s| > 0 && x > s[0] {
      var t := Insert(x, s[1..]);
      InsertSorted(x, s[1..]);
      InsertMembers(x, s[1..]);
      forall y | y in t ensures s[0] <= y {
        if y != x {
          var k :| 0 <= k < |s[1..]| && s[1..][k] == y;
          assert y == s[k + 1];
        }
      }
      var r := Insert(x, s);
      assert r == [s[0]] + t;
      forall i, j | 0 <= i < j < |r| ensures r[i] <= r[j] {
        if i == 0 {
          assert r[j] == t[j - 1];
          assert t[j - 1] in t;
        } else {
          assert r[i] == t[i - 1] && r[j] == t[j - 1];
        }
      }
    }
  }

  /** `sort.Ints` gives an ascending permutation of its input. */
  lemma {:induction false} SortIntsSpec(s: seq<int>)
    ensures Sorted(SortInts(s)) && multiset(SortInts(s)) == multiset(s)
  {
    if |s| > 0 {
      SortIntsSpec(s[1..]);
      InsertSorted(s[0], SortInts(s[1..]));
      InsertPerm(s[0], SortInts(s[1..]));
      assert s == [s[0]] + s[1..];
    }
  }

  /** Inserting a new number into a strictly increasing sequence keeps it strictly increasing. */
  lemma {:induction false} InsertIncreasing(x: int, s: seq<int>)
    requires Increasing(s) && x !in s
    ensures Increasing(Insert(x, s))
  {
    if |s| > 0 && x > s[0] {
      var t := Insert(x, s[1..]);
      InsertIncreasing(x, s[1..]);
      InsertMembers(x, s[1..]);
      forall y | y in t ensures s[0] < y {
        if y != x {
          var k :| 0 <= k < |s[1..]| && s[1..][k] == y;
          assert y == s[k + 1];
        }
      }
      var r := Insert(x, s);
      assert r == [s[0]] + t;
      forall i, j | 0 <= i < j < |r| ensures r[i] < r[j] {
        if i == 0 {
          assert r[j] == t[j - 1];
          assert t[j - 1] in t;
        } else {
          assert r[i] == t[i - 1] && r[j] == t[j - 1];
        }
      }
    }
  }

  /** Sorting distinct numbers gives a strictly increasing sequence of the same numbers. */
  lemma {:induction false} SortDistinct(s: seq<int>)
    requires forall i, j :: 0 <= i < j < |s| ==> s[i] != s[j]
    ensures Increasing(SortInts(s))
    ensures forall x :: x in SortInts(s) <==> x in s
  {
    if |s| > 0 {
      SortDistinct(s[1..]);
      assert s == [s[0]] + s[1..];
      InsertIncreasing(s[0], SortInts(s[1..]));
      InsertMembers(s[0], SortInts(s[1..]));
    }
  }

  // ---------------------------------------------------------------- operations

  lemma ScanTagsPrefix(fs: seq<StructField>, i: nat)
    requires i < |fs|
    ensures ScanTags(fs[..i + 1]) == match ScanTags(fs[..i]) case Err(e) => Err(e) case Ok(m) => TagStep(m, fs[i])
    ensures TagRanks(fs[..i + 1]) == TagRanks(fs[..i]) + (if Tagged(fs[i]) && Rank(fs[i]).Some? then [Rank(fs[i]).value] else [])
  {
    assert fs[..i + 1][..i] == fs[..i];
  }

  /** Once the scan of a prefix fails, the scan of the whole fails the same way. */
  lemma {:induction false} ScanTagsSticky(fs: seq<StructField>, i: nat)
    requires i <= |fs| && ScanTags(fs[..i]).Err?
    ensures ScanTags(fs) == ScanTags(fs[..i])
    decreases |fs| - i
  {
    if i < |fs| {
      ScanTagsPrefix(fs, i);
      ScanTagsSticky(fs, i + 1);
    } else {
      assert fs[..i] == fs;
    }
  }

  /** The first loop of `primaryKeys`: collects each tagged field's rank into a map and a slice. */
  method CollectRanks(fs: seq<StructField>) returns (r: Result<(map<int, string>, seq<int>), TableError>)
    ensures ScanTags(fs).Err? ==> r == Err(ScanTags(fs).error)
    ensures ScanTags(fs).Ok? ==> r == Ok((ScanTags(fs).value, TagRanks(fs)))
  {
    var pk: map<int, string> := map[];
    var pkNum: seq<int> := [];
    var i := 0;
    while i < |fs|
      invariant i <= |fs|
      invariant ScanTags(fs[..i]) == Ok(pk)
      invariant pkNum == TagRanks(fs[..i])
    {
      ScanTagsPrefix(fs, i);
      var field := fs[i];
      var pkTag := field.pkTag;
      if pkTag != "" {
        var num := ParseInt(pkTag, 8);
        if num.None? {
          ScanTagsSticky(fs, i + 1);
          return Err(BadPkTag(pkTag));
        }
        var fieldName := Lower(field.name);
        var n := num.value;
        if n in pk {
          ScanTagsSticky(fs, i + 1);
          return Err(PkConflict(pk[n], fieldName));
        }
        pk := pk[n := fieldName];
        pkNum := pkNum + [n];
      }
      i := i + 1;
    }
    assert fs[..|fs|] == fs;
    return Ok((pk, pkNum));
  }

  /** The last loop of `primaryKeys`: a slice of `len(pk)` names read off in sorted rank order. */
  method NamesByRank(pk: map<int, string>, sorted: seq<int>) returns (names: seq<string>)
    requires forall j :: 0 <= j < |sorted| ==> sorted[j] in pk
    ensures |names| == |sorted|
    ensures forall j :: 0 <= j < |sorted| ==> names[j] == pk[sorted[j]]
  {
    var result := new string[|sorted|];
    var k := 0;
    while k < |sorted|
      invariant k <= |sorted|
      invariant forall j :: 0 <= j < k ==> result[j] == pk[sorted[j]]
    {
      result[k] := pk[sorted[k]];
      k := k + 1;
    }
    return result[..];
  }

  /** `primaryKeys`: collects ranks into a map and a slice, sorts the slice and reads the names off. */
  method PrimaryKeys(fs: seq<StructField>) returns (r: Result<seq<string>, TableError>)
    ensures r == KeysOf(fs)
  {
    var collected := CollectRanks(fs);
    if collected.Err? {
      return Err(collected.error);
    }
    var (pk, pkNum) := collected.value;
    if |pk| == 0 {
      return Err(NoPrimaryKey);
    }
    var sorted := SortInts(pkNum);
    KeysFromScan(fs);
    var names := NamesByRank(pk, sorted);
    assert names == seq(|sorted|, j requires 0 <= j < |sorted| => pk[sorted[j]]);
    return Ok(names);
  }

  /** `fromStruct`: name, then field count, then the fields, then the primary keys. */
  method FromStruct(name: string, s: GoType) returns (r: Result<Table, TableError>)
    requires s.StructType?
    ensures r == TableOf(name, s)
  {
    var tname := name;
    if tname == "" {
      if s.typeName == "" {
        return Err(NoName);
      }
      tname := s.typeName;
    }
    var n := |s.fields|;
    if n <= 0 {
      return Err(NoFields);
    }
    var fields: seq<string> := [];
    var fieldsIndex: seq<nat> := [];
    var i := 0;
    while i < n
      invariant i <= n
      invariant fields == VisibleFields(s.fields[..i])
      invariant fieldsIndex == VisibleIndices(s.fields[..i])
    {
      assert s.fields[..i + 1][..i] == s.fields[..i];
      if !s.fields[i].anonymous {
        fields := fields + [Lower(s.fields[i].name)];
        fieldsIndex := fieldsIndex + [i];
      }
      i := i + 1;
    }
    assert s.fields[..n] == s.fields;
    var pk := PrimaryKeys(s.fields);
    match pk
    case Err(e) => return Err(e);
    case Ok(keys) => return Ok(Table(Lower(tname), fields, fieldsIndex, keys));
  }

  /** `NewTable`: only a struct value is accepted; a pointer to a struct is not. */
  method NewTable(name: string, s: GoType) returns (r: Result<Table, TableError>)
    ensures r == TableOf(name, s)
    ensures !s.StructType? ==> r == Err(UnsupportedType)
  {
    if s.StructType? {
      r := FromStruct(name, s);
    } else {
      r := Err(UnsupportedType);
    }
  }

  /** A descriptor NewTable accepts has a name, at least one primary key, and one stored position per field. */
  lemma TableOfShape(name: string, s: GoType)
    requires TableOf(name, s).Ok?
    ensures var t := TableOf(name, s).value;
      s.StructType? && |s.fields| > 0 &&
      t.name == Lower(if name == "" then s.typeName else name) && t.name != "" &&
      |t.primaryKey| > 0 && |t.fields| == |t.fieldsIndex|
  {
    PrimaryKeysByRank(s.fields);
    VisibleFieldsIndexed(s.fields);
  }
}
