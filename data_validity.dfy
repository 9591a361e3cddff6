/** The data-validity table of one sheet ([MS-XLS] sections 2.4.88 DVal and
    2.4.87 Dv): a DVAL header followed by the sheet's DV records. */
module DataValidity {
  import opened Wrappers

  /** The records the table deals with. Only the DVAL field the table
      updates (the DV record count) is modelled; DV records are opaque. */
  datatype Record =
    | Dval(dvRecNo: int)
    | Dv(tag: int)
    | Other(sid: int)

  /** Why reading a table from a record stream fails. */
  datatype StreamFault =
    | EndOfStream   // getNext past the last record
    | NotDval       // the cast of the first record to DVALRecord fails

  /** The length of the longest prefix of `s` made of DV records: how many
      records the reading loop takes. */
  function DvRun(s: seq<Record>): (n: nat)
    ensures n <= |s|
    ensures forall k :: 0 <= k < n ==> s[k].Dv?
    ensures n < |s| ==> !s[n].Dv?
  {
    if s == [] || !s[0].Dv? then 0 else 1 + DvRun(s[1..])
  }

  /** The `DataValidityTable(RecordStream)` constructor on the records not
      yet read: the header, the DV records that follow it, and what is left. */
  function ParseTable(s: seq<Record>): (r: Result<(Record, seq<Record>, seq<Record>), StreamFault>)
    ensures r.Success? <==> |s| > 0 && s[0].Dval?
    ensures r.Success? ==> r.value.0 == s[0] && [s[0]] + r.value.1 + r.value.2 == s
    ensures r.Success? ==> forall v :: v in r.value.1 ==> v.Dv?
    ensures r.Success? && r.value.2 != [] ==> !r.value.2[0].Dv?
  {
    if s == [] then Failure(EndOfStream)
    else if !s[0].Dval? then Failure(NotDval)
    else
      var n := DvRun(s[1..]);
      assert s == [s[0]] + s[1..][..n] + s[1..][n..];
      Success((s[0], s[1..][..n], s[1..][n..]))
  }

  /** What `visitContainedRecords` hands to the visitor: nothing for an
      empty table, otherwise the header followed by every DV record. */
  function Emitted(header: Record, validations: seq<Record>): (r: seq<Record>)
    ensures validations == [] <==> r == []
    ensures validations != [] ==> r[0] == header && r[1..] == validations
  {
    if validations == [] then [] else [header] + validations
  }

  lemma {:induction false} DvRunOfDvs(vs: seq<Record>, tail: seq<Record>)
    requires forall v :: v in vs ==> v.Dv?
    requires tail == [] || !tail[0].Dv?
    ensures DvRun(vs + tail) == |vs|
    decreases |vs|
  {
    if vs == [] {
      assert vs + tail == tail;
    } else {
      assert (vs + tail)[1..] == vs[1..] + tail;
      DvRunOfDvs(vs[1..], tail);
    }
  }

  /** Writing a non-empty table and reading it back gives the same header
      and DV records, provided the next record is not itself a DV record. */
  lemma ParseEmitted(header: Record, vs: seq<Record>, tail: seq<Record>)
    requires header.Dval? && vs != []
    requires forall v :: v in vs ==> v.Dv?
    requires tail == [] || !tail[0].Dv?
    ensures ParseTable(Emitted(header, vs) + tail) == Success((header, vs, tail))
  {
    var s := Emitted(header, vs) + tail;
    assert s[1..] == vs + tail;
    DvRunOfDvs(vs, tail);
    assert s[1..][..|vs|] == vs;
    assert s[1..][|vs|..] == tail;
  }

  /** The table read from `s` is its first record, the DV records `temp`
      that follow it and the `rest` that starts with something else. */
  lemma ParseTableOf(s: seq<Record>, temp: seq<Record>, rest: seq<Record>)
    requires s != [] && s[0].Dval? && s[1..] == temp + rest
    requires forall v :: v in temp ==> v.Dv?
    requires rest == [] || !rest[0].Dv?
    ensures ParseTable(s) == Success((s[0], temp, rest))
  {
    DvRunOfDvs(temp, rest);
    assert s[1..][..|temp|] == temp;
    assert s[1..][|temp|..] == rest;
  }

  /** A `RecordStream`: a list of records and the index of the next one. */
  class RecordStream {
    const records: seq<Record>
    var pos: nat

    ghost predicate Valid()
      reads this
    {
      pos <= |records|
    }

    function Rest(): seq<Record>
      reads this
      requires Valid()
    {
      records[pos..]
    }

    constructor (records: seq<Record>)
      ensures Valid() && this.records == records && Rest() == records
    {
      this.records := records;
      pos := 0;
    }

    /** `getNext`; reading past the end is an error. */
    method GetNext() returns (r: Result<Record, StreamFault>)
      requires Valid()
      modifies this
      ensures Valid()
      ensures old(Rest()) == [] ==> r == Failure(EndOfStream) && Rest() == []
      ensures old(Rest()) != [] ==> r == Success(old(Rest())[0]) && Rest() == old(Rest())[1..]
    {
      if pos == |records| {
        return Failure(EndOfStream);
      }
      r := Success(records[pos]);
      pos := pos + 1;
    }

    /** `peekNextClass() == DVRecord.class`. */
    function PeekIsDv(): (b: bool)
      reads this
      requires Valid()
      ensures b <==> Rest() != [] && Rest()[0].Dv?
    {
      pos < |records| && records[pos].Dv?
    }
  }

  /** The aggregate: the DVAL header and the list of DV records. */
  class DataValidityTable {
    var header: Record
    var validations: seq<Record>

    /** What the Java field types guarantee: the header is a DVAL record
        and every list element a DV record. */
    ghost predicate Valid()
      reads this
    {
      header.Dval? && forall v :: v in validations ==> v.Dv?
    }

    /** `DataValidityTable()`: a fresh DVAL header (count 0) and no DV
        records. */
    constructor ()
      ensures Valid()
      ensures header == Dval(0) && validations == []
    {
      header := Dval(0);
      validations := [];
    }

    constructor FromParts(header: Record, validations: seq<Record>)
      requires header.Dval? && forall v :: v in validations ==> v.Dv?
      ensures Valid()
      ensures this.header == header && this.validations == validations
    {
      this.header := header;
      this.validations := validations;
    }

    /** `DataValidityTable(RecordStream)`: takes the DVAL record, then every
        DV record that follows it. */
    static method Read(rs: RecordStream) returns (r: Result<DataValidityTable, StreamFault>)
      requires rs.Valid()
      modifies rs
      ensures rs.Valid()
      ensures r.Success? ==> r.value.Valid()
      ensures match ParseTable(old(rs.Rest()))
              case Success(p) => r.Success? && fresh(r.value)
                                 && r.value.header == p.0 && r.value.validations == p.1 && rs.Rest() == p.2
              case Failure(e) => r == Failure(e)
    {
      var first := rs.GetNext();
      if first.Failure? {
        return Failure(first.error);
      }
      if !first.value.Dval? {
        return Failure(NotDval);
      }
      ghost var s := old(rs.Rest());
      ghost var after := rs.Rest();
      var temp: seq<Record> := [];
      while rs.PeekIsDv()
        invariant rs.Valid()
        invariant after == temp + rs.Rest()
        invariant forall v :: v in temp ==> v.Dv?
        decreases |rs.Rest()|
      {
        ghost var before := rs.Rest();
        var next := rs.GetNext();
        assert next.value == before[0] && rs.Rest() == before[1..];
        temp := temp + [next.value];
      }
      ParseTableOf(s, temp, rs.Rest());
      var t := new DataValidityTable.FromParts(first.value, temp);
      r := Success(t);
    }

    /** `visitContainedRecords`: the records handed to the visitor, in
        order. For a non-empty table they read back, followed by any record
        that is not a DV, as the same header and list. */
    method VisitContainedRecords() returns (emitted: seq<Record>)
      requires Valid()
      ensures emitted == Emitted(header, validations)
      ensures validations != [] ==>
                forall tail: seq<Record> :: tail == [] || !tail[0].Dv? ==>
                  ParseTable(emitted + tail) == Success((header, validations, tail))
    {
      if validations == [] {
        return [];
      }
      emitted := [header];
      var i := 0;
      while i < |validations|
        invariant 0 <= i <= |validations|
        invariant emitted == [header] + validations[..i]
      {
        emitted := emitted + [validations[i]];
        i := i + 1;
      }
      assert validations[..i] == validations;
      forall tail: seq<Record> | tail == [] || !tail[0].Dv?
        ensures ParseTable(emitted + tail) == Success((header, validations, tail))
      {
        ParseEmitted(header, validations, tail);
      }
    }

    /** `addDataValidation`: appends the DV record and sets the header's
        count to the new number of DV records. */
    method AddDataValidation(dvRecord: Record)
      requires Valid() && dvRecord.Dv?
      modifies this
      ensures Valid()
      ensures validations == old(validations) + [dvRecord]
      ensures header == Dval(|validations|)
    {
      validations := validations + [dvRecord];
      header := header.(dvRecNo := |validations|);
    }
  }
}
