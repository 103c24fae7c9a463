/**
 * The paging cursor: the fields, filters, order-by list, limit and offset of
 * a select, written as five newline-terminated records and carried as
 * standard base64 text (section 4 of RFC 4648).
 *
 * Record layout: the fields joined by ","; each filter as `field,op,value;`;
 * the order-by list joined by ","; the limit in decimal; the offset in decimal.
 */
module Cursors {
  import opened Wrappers
  import opened Text
  import opened Values
  import opened Filters
  import Base64

  datatype Cursor = Cursor(fields: seq<string>, filters: seq<Filter>, orderBy: seq<string>, limit: Int64, offset: Int64)

  /** `fmt`'s `%v` for the values a filter can hold. */
  function FormatValue(v: Value): string
  {
    match v
    case VNil => "<nil>"
    case VStr(s) => s
    case VBytes(b) => "[" + Join(seq(|b|, i requires 0 <= i < |b| => NatToString(b[i])), " ") + "]"
    case VInt(i) => IntToString(i)
    case VUint(u) => NatToString(u)
    case VBool(b) => if b then "true" else "false"
  }

  /** One filter record before its ";" terminator. */
  function FilterBody(f: Filter): string
  {
    f.field + "," + f.op + "," + FormatValue(f.value)
  }

  function FilterBodies(filters: seq<Filter>): (r: seq<string>)
    ensures |r| == |filters|
  {
    seq(|filters|, i requires 0 <= i < |filters| => FilterBody(filters[i]))
  }

  /** The five records, before the newline terminators. */
  function Records(c: Cursor): seq<string>
  {
    [Join(c.fields, ","), Terminated(FilterBodies(c.filters), ';'), Join(c.orderBy, ","), IntToString(c.limit), IntToString(c.offset)]
  }

  /** The bytes that `String` encodes. */
  function Payload(c: Cursor): string
  {
    Terminated(Records(c), '\n')
  }

  /** `Cursor.String`: base64 of the payload; never empty. */
  function Encode(c: Cursor): (token: string)
    ensures |token| > 0 && |token| % 4 == 0
  {
    Base64.Encode(StringToBytes(Payload(c)))
  }

  /** `String`, writing into a buffer step by step. */
  method String(c: Cursor) returns (token: string)
    ensures token == Encode(c)
  {
    ghost var rs := Records(c);
    var buf: string := "";
    if |c.fields| != 0 {
      buf := buf + Join(c.fields, ",");
    }
    assert buf == rs[0];
    buf := buf + "\n";
    TerminatedPrefix(rs, 0, '\n');
    assert Terminated(rs[..0], '\n') == "";
    ghost var head := buf;
    assert head == Terminated(rs[..1], '\n');
    var bodies := FilterBodies(c.filters);
    var i := 0;
    while i < |c.filters|
      invariant i <= |c.filters|
      invariant buf == head + Terminated(bodies[..i], ';')
    {
      TerminatedPrefix(bodies, i, ';');
      var filter := c.filters[i];
      FilterWrite(buf, filter);
      Associate(head, Terminated(bodies[..i], ';'), bodies[i], [';']);
      buf := buf + filter.field + "," + filter.op + "," + FormatValue(filter.value) + ";";
      i := i + 1;
    }
    assert bodies[..i] == bodies;
    PayloadTail(c, head);
    buf := buf + "\n";
    buf := buf + Join(c.orderBy, ",");
    buf := buf + "\n";
    buf := buf + IntToString(c.limit);
    buf := buf + "\n";
    buf := buf + IntToString(c.offset);
    buf := buf + "\n";
    token := Base64.Encode(StringToBytes(buf));
  }

  /** After the first record, the filter record and the last three records with their terminators complete the payload. */
  lemma PayloadTail(c: Cursor, head: string)
    requires head == Terminated(Records(c)[..1], '\n')
    ensures head + Terminated(FilterBodies(c.filters), ';') + "\n" + Join(c.orderBy, ",") + "\n" +
      IntToString(c.limit) + "\n" + IntToString(c.offset) + "\n" == Payload(c)
  {
    var rs := Records(c);
    TerminatedPrefix(rs, 1, '\n');
    TerminatedPrefix(rs, 2, '\n');
    TerminatedPrefix(rs, 3, '\n');
    TerminatedPrefix(rs, 4, '\n');
    assert rs[..5] == rs;
  }

  /** `fmt.Fprintf(buf, "%s,%s,%v;", ...)` appends one filter body and its terminator. */
  lemma FilterWrite(buf: string, f: Filter)
    ensures buf + f.field + "," + f.op + "," + FormatValue(f.value) + ";" == buf + FilterBody(f) + [';']
  {
  }

  lemma Associate(a: string, x: string, b: string, t: string)
    ensures a + (x + b + t) == a + x + b + t
  {
  }

  /** Writing record `k` and its terminator extends the text of the records before it. */
  lemma TerminatedPrefix(rs: seq<string>, k: nat, sep: char)
    requires k < |rs|
    ensures Terminated(rs[..k + 1], sep) == Terminated(rs[..k], sep) + rs[k] + [sep]
  {
    assert rs[..k + 1] == rs[..k] + [rs[k]];
    TerminatedSnoc(rs[..k], rs[k], sep);
  }

  // ---------------------------------------------------------------- decoding

  datatype DecodeError = BadBase64 | MissingRecords | MalformedFilter | BadLimit | BadOffset

  /** What `Decode` returns: the cursor and the error, if any. */
  datatype Decoded = Decoded(cursor: Cursor, err: Option<DecodeError>)

  /** `decodeToSS`: no names for an empty record, else the comma-separated pieces. */
  function DecodeToSS(data: string): (r: seq<string>)
    ensures data == "" <==> r == []
    ensures Join(r, ",") == data
    ensures forall i :: 0 <= i < |r| ==> ',' !in r[i]
  {
    if |data| == 0 then []
    else
      JoinSplit(data, ',');
      SplitPiecesFree(data, ',');
      Split(data, ',')
  }

  /** One `field,op,value` chunk; Go indexes parts 0 to 2 without a check, so fewer parts are an error here. */
  function ParseChunk(chunk: string): (r: Option<Filter>)
    ensures r.None? <==> |Split(chunk, ',')| < 3
    ensures r.Some? ==> var vs := Split(chunk, ',');
      r.value == Filter(vs[0], vs[1], VStr(vs[2]))
    ensures r.Some? ==> r.value.value.VStr? && ',' !in r.value.field && ',' !in r.value.op && ',' !in r.value.value.s
  {
    var vs := Split(chunk, ',');
    SplitPiecesFree(chunk, ',');
    if |vs| < 3 then None else Some(Filter(vs[0], vs[1], VStr(vs[2])))
  }

  /** One filter per non-empty chunk, in order; any chunk with fewer than three parts fails. */
  function ChunkFilters(chunks: seq<string>): (r: Option<seq<Filter>>)
    ensures r.Some? ==> |r.value| <= |chunks| && forall i :: 0 <= i < |r.value| ==> r.value[i].value.VStr?
  {
    if |chunks| == 0 then Some([])
    else if |chunks[0]| == 0 then ChunkFilters(chunks[1..])
    else match ParseChunk(chunks[0])
      case None => None
      case Some(f) =>
        match ChunkFilters(chunks[1..])
        case None => None
        case Some(fs) => Some([f] + fs)
  }

  /** The non-empty chunks, in order. */
  function NonEmpty(chunks: seq<string>): (r: seq<string>)
    ensures |r| <= |chunks|
    ensures forall k :: 0 <= k < |r| ==> |r[k]| > 0
  {
    if |chunks| == 0 then []
    else if |chunks[0]| == 0 then NonEmpty(chunks[1..])
    else [chunks[0]] + NonEmpty(chunks[1..])
  }

  /**
   * `ChunkFilters` succeeds exactly when every non-empty chunk has at least
   * three parts, and then holds one filter per non-empty chunk, in order.
   */
  lemma {:induction false} ChunkFiltersSpec(chunks: seq<string>)
    ensures ChunkFilters(chunks).Some? <==>
      forall k :: 0 <= k < |chunks| && |chunks[k]| > 0 ==> |Split(chunks[k], ',')| >= 3
    ensures ChunkFilters(chunks).Some? ==>
      |ChunkFilters(chunks).value| == |NonEmpty(chunks)| &&
      forall k :: 0 <= k < |NonEmpty(chunks)| ==> Some(ChunkFilters(chunks).value[k]) == ParseChunk(NonEmpty(chunks)[k])
  {
    if |chunks| > 0 {
      var rest := chunks[1..];
      ChunkFiltersSpec(rest);
      assert forall k :: 0 < k < |chunks| ==> chunks[k] == rest[k - 1];
      if |chunks[0]| > 0 && ChunkFilters(chunks).Some? {
        var fs := ChunkFilters(rest).value;
        assert ChunkFilters(chunks).value == [ParseChunk(chunks[0]).value] + fs;
        assert NonEmpty(chunks) == [chunks[0]] + NonEmpty(rest);
      }
    }
  }

  /** `decodeFilters` as a function of the record. */
  function DecodeFiltersOf(data: string): Option<seq<Filter>>
  {
    if |data| == 0 then Some([]) else ChunkFilters(Split(data, ';'))
  }

  function Prepend(acc: seq<Filter>, rest: Option<seq<Filter>>): Option<seq<Filter>>
  {
    match rest
    case None => None
    case Some(fs) => Some(acc + fs)
  }

  /** `decodeFilters`: splits the record on ";" and parses each non-empty chunk. */
  method DecodeFilters(data: string) returns (r: Option<seq<Filter>>)
    ensures r == DecodeFiltersOf(data)
  {
    if |data| == 0 {
      return Some([]);
    }
    var ds := Split(data, ';');
    var filters: seq<Filter> := [];
    var i := 0;
    assert ds[0..] == ds;
    if ChunkFilters(ds).Some? {
      assert [] + ChunkFilters(ds).value == ChunkFilters(ds).value;
    }
    while i < |ds|
      invariant i <= |ds|
      invariant ChunkFilters(ds) == Prepend(filters, ChunkFilters(ds[i..]))
    {
      assert ds[i..][1..] == ds[i + 1..];
      var v := ds[i];
      if |v| != 0 {
        var vs := Split(v, ',');
        if |vs| < 3 {
          return None;
        }
        var f := Filter(vs[0], vs[1], VStr(vs[2]));
        if ChunkFilters(ds[i + 1..]).Some? {
          var fs := ChunkFilters(ds[i + 1..]).value;
          assert filters + ([f] + fs) == (filters + [f]) + fs;
        }
        filters := filters + [f];
      }
      i := i + 1;
    }
    assert ChunkFilters(ds[i..]) == Some([]);
    assert filters + [] == filters;
    return Some(filters);
  }

  /**
   * `Cursor.Decode` on the receiver `recv`: a token that is not base64 gives
   * `recv` back unchanged; a bad limit or offset gives the cursor decoded so far.
   * Where Go would index a missing record or a missing filter part and panic,
   * the model stops at the same point with `MissingRecords` or `MalformedFilter`.
   */
  function Decode(recv: Cursor, token: string): (r: Decoded)
    ensures Base64.Decode(token).None? ==> r == Decoded(recv, Some(BadBase64))
    ensures Base64.Decode(token).Some? ==>
      var ds := Split(BytesToString(Base64.Decode(token).value), '\n');
      (|ds| < 2 ==> r.err == Some(MissingRecords)) &&
      (|ds| >= 2 && DecodeFiltersOf(ds[1]).None? ==> r.err == Some(MalformedFilter)) &&
      (2 <= |ds| < 4 && DecodeFiltersOf(ds[1]).Some? ==> r.err == Some(MissingRecords)) &&
      (|ds| >= 4 && DecodeFiltersOf(ds[1]).Some? ==>
        r.cursor.fields == DecodeToSS(ds[0]) && r.cursor.filters == DecodeFiltersOf(ds[1]).value &&
        r.cursor.orderBy == DecodeToSS(ds[2]) &&
        (Atoi(ds[3]).None? ==> r.err == Some(BadLimit) && r.cursor.limit == recv.limit) &&
        (Atoi(ds[3]).Some? && |ds| == 4 ==> r.err == Some(MissingRecords)) &&
        (Atoi(ds[3]).Some? && |ds| >= 5 ==> r.cursor.limit == Atoi(ds[3]).value) &&
        (Atoi(ds[3]).Some? && |ds| >= 5 && Atoi(ds[4]).None? ==> r.err == Some(BadOffset) && r.cursor.offset == recv.offset))
    ensures r.err.None? ==> Base64.Decode(token).Some?
    ensures r.err.None? ==>
      var ds := Split(BytesToString(Base64.Decode(token).value), '\n');
      |ds| >= 5 && DecodeFiltersOf(ds[1]).Some? && Atoi(ds[3]).Some? && Atoi(ds[4]).Some? &&
      r.cursor == Cursor(DecodeToSS(ds[0]), DecodeFiltersOf(ds[1]).value, DecodeToSS(ds[2]), Atoi(ds[3]).value, Atoi(ds[4]).value)
  {
    match Base64.Decode(token)
    case None => Decoded(recv, Some(BadBase64))
    case Some(data) =>
      var ds := Split(BytesToString(data), '\n');
      if |ds| < 2 then Decoded(recv, Some(MissingRecords))
      else match DecodeFiltersOf(ds[1])
        case None => Decoded(recv, Some(MalformedFilter))
        case Some(filters) =>
          if |ds| < 4 then Decoded(recv, Some(MissingRecords))
          else
            var c := recv.(fields := DecodeToSS(ds[0]), filters := filters, orderBy := DecodeToSS(ds[2]));
            match Atoi(ds[3])
            case None => Decoded(c, Some(BadLimit))
            case Some(limit) =>
              if |ds| < 5 then Decoded(c, Some(MissingRecords))
              else match Atoi(ds[4])
                case None => Decoded(c.(limit := limit), Some(BadOffset))
                case Some(offset) => Decoded(c.(limit := limit, offset := offset), None)
  }

  /** A token that decodes completely yields filters whose values are all strings: the cursor keeps only their text. */
  lemma DecodedValuesAreText(recv: Cursor, token: string)
    ensures Decode(recv, token).err.None? ==>
      forall i :: 0 <= i < |Decode(recv, token).cursor.filters| ==> Decode(recv, token).cursor.filters[i].value.VStr?
  {
  }

  // ---------------------------------------------------------------- round trip

  /** A name that survives the record and list separators. */
  predicate CleanText(s: string)
  {
    ',' !in s && ';' !in s && '\n' !in s && IsByteString(s)
  }

  /** A list that decodes back to itself: clean names, and not the single empty name (which reads back as no names). */
  predicate EncodableList(names: seq<string>)
  {
    (forall i :: 0 <= i < |names| ==> CleanText(names[i])) && names != [""]
  }

  predicate EncodableFilter(f: Filter)
  {
    CleanText(f.field) && CleanText(f.op) && f.value.VStr? && CleanText(f.value.s)
  }

  predicate Encodable(c: Cursor)
  {
    EncodableList(c.fields) && EncodableList(c.orderBy) &&
    forall i :: 0 <= i < |c.filters| ==> EncodableFilter(c.filters[i])
  }

  lemma ByteConcat(a: string, b: string)
    requires IsByteString(a) && IsByteString(b)
    ensures IsByteString(a + b)
  {
  }

  lemma {:induction false} ByteJoin(names: seq<string>, sep: string)
    requires IsByteString(sep) && forall i :: 0 <= i < |names| ==> IsByteString(names[i])
    ensures IsByteString(Join(names, sep))
  {
    if |names| > 1 {
      ByteJoin(names[1..], sep);
    }
  }

  lemma {:induction false} ByteTerminated(parts: seq<string>, sep: char)
    requires sep as int < 256 && forall i :: 0 <= i < |parts| ==> IsByteString(parts[i])
    ensures IsByteString(Terminated(parts, sep))
  {
    if |parts| > 0 {
      ByteTerminated(parts[1..], sep);
    }
  }

  lemma ByteDigits(n: int)
    ensures IsByteString(IntToString(n))
  {
    var s := NatToString(if n < 0 then -n else n);
    assert forall i :: 0 <= i < |s| ==> IsDigit(s[i]);
  }

  /** The payload of an encodable cursor is made of single bytes. */
  lemma PayloadBytes(c: Cursor)
    requires Encodable(c)
    ensures IsByteString(Payload(c))
  {
    ByteJoin(c.fields, ",");
    ByteJoin(c.orderBy, ",");
    var bodies := FilterBodies(c.filters);
    forall i | 0 <= i < |bodies| ensures IsByteString(bodies[i]) {
      var f := c.filters[i];
      assert bodies[i] == f.field + "," + f.op + "," + f.value.s;
    }
    ByteTerminated(bodies, ';');
    ByteDigits(c.limit);
    ByteDigits(c.offset);
    ByteTerminated(Records(c), '\n');
  }

  lemma {:induction false} JoinFree(names: seq<string>, sep: string, x: char)
    requires x !in sep && forall i :: 0 <= i < |names| ==> x !in names[i]
    ensures x !in Join(names, sep)
  {
    if |names| > 1 {
      JoinFree(names[1..], sep, x);
    }
  }

  lemma {:induction false} TerminatedFree(parts: seq<string>, sep: char, x: char)
    requires x != sep && forall i :: 0 <= i < |parts| ==> x !in parts[i]
    ensures x !in Terminated(parts, sep)
  {
    if |parts| > 0 {
      TerminatedFree(parts[1..], sep, x);
    }
  }

  lemma DigitsFree(n: int, x: char)
    requires !IsDigit(x) && x != '-'
    ensures x !in IntToString(n)
  {
    var s := NatToString(if n < 0 then -n else n);
    assert forall i :: 0 <= i < |s| ==> IsDigit(s[i]);
  }

  /** `String` writes exactly five newline-terminated records, in order. */
  lemma PayloadRecords(c: Cursor)
    requires Encodable(c)
    ensures Split(Payload(c), '\n') == Records(c) + [""]
  {
    JoinFree(c.fields, ",", '\n');
    JoinFree(c.orderBy, ",", '\n');
    var bodies := FilterBodies(c.filters);
    forall i | 0 <= i < |bodies| ensures '\n' !in bodies[i] && ';' !in bodies[i] {
      var f := c.filters[i];
      assert bodies[i] == f.field + "," + f.op + "," + f.value.s;
    }
    TerminatedFree(bodies, ';', '\n');
    DigitsFree(c.limit, '\n');
    DigitsFree(c.offset, '\n');
    SplitTerminated(Records(c), '\n');
  }

  /** A clean list reads back as itself. */
  lemma ListRoundTrip(names: seq<string>)
    requires EncodableList(names)
    ensures DecodeToSS(Join(names, ",")) == names
  {
    if |names| > 0 {
      if |names| > 1 {
        assert Join(names, ",")[|names[0]|] == ',';
      }
      SplitJoin(names, ',');
    }
  }

  /** A clean filter body parses back as its filter. */
  lemma ChunkRoundTrip(f: Filter)
    requires EncodableFilter(f)
    ensures ParseChunk(FilterBody(f)) == Some(f)
  {
    var v := f.value.s;
    SplitNoSep(v, ',');
    SplitCons(f.op, v, ',');
    assert f.op + "," + v == f.op + [','] + v;
    SplitCons(f.field, f.op + "," + v, ',');
    assert FilterBody(f) == f.field + [','] + (f.op + "," + v);
  }

  /** Clean filters, written as terminated records, read back as themselves. */
  lemma {:induction false} FiltersRoundTrip(filters: seq<Filter>)
    requires forall i :: 0 <= i < |filters| ==> EncodableFilter(filters[i])
    ensures ChunkFilters(FilterBodies(filters) + [""]) == Some(filters)
  {
    if |filters| == 0 {
      assert ChunkFilters([""][1..]) == Some([]);
    } else {
      var chunks := FilterBodies(filters) + [""];
      assert chunks[1..] == FilterBodies(filters[1..]) + [""];
      assert chunks[0] == FilterBody(filters[0]);
      ChunkRoundTrip(filters[0]);
      FiltersRoundTrip(filters[1..]);
      assert [filters[0]] + filters[1..] == filters;
    }
  }

  /** Decoding the token of an encodable cursor gives that cursor back, whatever the receiver held. */
  lemma DecodeString(recv: Cursor, c: Cursor)
    requires Encodable(c)
    ensures Decode(recv, Encode(c)) == Decoded(c, None)
  {
    var p := Payload(c);
    Base64.DecodeEncode(StringToBytes(p));
    PayloadBytes(c);
    BytesRoundTrip(p);
    PayloadRecords(c);
    var ds := Split(p, '\n');
    ListRoundTrip(c.fields);
    ListRoundTrip(c.orderBy);
    var bodies := FilterBodies(c.filters);
    forall i | 0 <= i < |bodies| ensures ';' !in bodies[i] {
      var f := c.filters[i];
      assert bodies[i] == f.field + "," + f.op + "," + f.value.s;
    }
    SplitTerminated(bodies, ';');
    FiltersRoundTrip(c.filters);
    if |c.filters| == 0 {
      assert DecodeFiltersOf(ds[1]) == Some([]);
    } else {
      assert |ds[1]| > 0 by {
        assert |bodies[0]| > 0;
      }
    }
    AtoiItoa(c.limit);
    AtoiItoa(c.offset);
  }
}
