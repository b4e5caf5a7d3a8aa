/** What a dump and a load promise together: reading back what `generate` wrote restores
    every document under its name, with the same reference table and the objects the dump
    carried, and a stream that was tampered with is refused. */
module SerializerFacts {
  import opened Wrappers
  import Bytes
  import Base64
  import opened Objects
  import opened Store
  import opened Serializer

  /** The objects of a list, as a set. */
  function Members(os: seq<Oid>): set<Oid>
  {
    set o | o in os
  }

  /** The documents a dump into a fresh line stream can be read back from: a name that the
      header pattern gives back unchanged, and HEAD pointing at master as in a fresh
      repository. */
  predicate Dumpable(d: Image)
  {
    && WellFormed(d.snapshot)
    && d.snapshot.refs[0] == Ref(HeadName, Symbolic(MasterRef))
    && |d.name| > 0 && !IsSpace(d.name[0])
  }

  /** The document a load restores from `d`'s dump: the same name and references, and the
      objects the dump carried. */
  function Restore(d: Image): Image
  {
    var objs := DocObjects(d.snapshot);
    Image(d.name, Snapshot(if objs.Ok? then Members(objs.value) else {}, d.snapshot.refs))
  }

  function RestoreAll(ds: seq<Image>): (rs: seq<Image>)
    ensures |rs| == |ds|
  {
    if |ds| == 0 then [] else [Restore(ds[0])] + RestoreAll(ds[1..])
  }

  /** The documents a reader holds once a new document starts. */
  function Flush(rd: Reader): seq<Image>
  {
    if rd.doc.Some? then rd.done + [rd.doc.value] else rd.done
  }

  /** The references a sequence of reference records leaves, applied in order. */
  function AssignAll(refs: seq<Ref>, rs: seq<Ref>): seq<Ref>
    decreases |rs|
  {
    if |rs| == 0 then refs else AssignAll(Assign(refs, rs[0].name, rs[0].target), rs[1..])
  }

  // ---------------------------------------------------------------------------------------
  // the header line

  lemma {:induction false} LeadingSpacesSkip(w: string, name: string)
    requires forall k :: 0 <= k < |w| ==> IsSpace(w[k])
    requires |name| > 0 && !IsSpace(name[0])
    ensures LeadingSpaces(w + name) == |w|
  {
    if |w| > 0 {
      assert (w + name)[0] == w[0] && (w + name)[1..] == w[1..] + name;
      LeadingSpacesSkip(w[1..], name);
    } else {
      assert w + name == name;
    }
  }

  /** `/^document:\s*(.+)$/` gives back a name that does not start with white space,
      however much white space separates it from the tag. */
  lemma HeaderNameOf(w: string, name: string)
    requires forall k :: 0 <= k < |w| ==> IsSpace(w[k])
    requires |name| > 0 && !IsSpace(name[0])
    ensures HeaderName(DocumentTag + w + name) == Some(name)
  {
    var t := DocumentTag + w + name;
    assert t[..|DocumentTag|] == DocumentTag;
    assert t[|DocumentTag|..] == w + name;
    LeadingSpacesSkip(w, name);
    assert (w + name)[|w|..] == name;
  }

  /** The capture is never empty, so `load`'s "Malformed document header" check never fires. */
  lemma HeaderNonEmpty(t: string)
    ensures HeaderName(t).Some? ==> |HeaderName(t).value| > 0
    ensures HeaderName(t).Some? ==> |t| > |DocumentTag|
  {
  }

  /** No section marker is a header. */
  lemma MarkersAreNotHeaders()
    ensures Classify(Text(ObjectsMarker)) == Objects
    ensures Classify(Text(ReferencesMarker)) == References
  {
    assert ReferencesMarker[..|DocumentTag|][0] != DocumentTag[0];
  }

  // ---------------------------------------------------------------------------------------
  // records

  /** `read_object` of the record `write_object` made stores that very object. */
  lemma RecordReadsBack(s: Snapshot, o: Oid)
    ensures ReadObjectSpec(Some(s), RecordOf(o)) == Ok(Snapshot(s.odb + {o}, s.refs))
  {
    Base64.DecodeEncode(o.data);
  }

  /** A record whose declared length disagrees with its payload, or whose payload does not
      hash to its declared name, is refused; nothing else about a well-encoded record is
      checked. */
  lemma RecordIntegrity(s: Snapshot, rec: ObjectRecord, data: seq<Bytes.byte>)
    requires Base64.Decode(rec.data) == Some(data)
    ensures |data| != rec.len ==> ReadObjectSpec(Some(s), rec) == Err(LengthMismatch(rec.len, |data|))
    ensures |data| == rec.len && Hash(rec.kind, data) != rec.oid ==>
      ReadObjectSpec(Some(s), rec) == Err(OidMismatch(rec.oid, Hash(rec.kind, data)))
    ensures |data| == rec.len && Hash(rec.kind, data) == rec.oid ==>
      ReadObjectSpec(Some(s), rec) == Ok(Snapshot(s.odb + {rec.oid}, s.refs))
  {
  }

  /** `read_reference` sets the record's name to its target, whether it was there or not,
      and leaves every other name as it was. */
  lemma ReadReferenceFinds(s: Snapshot, rec: RefRecord, other: string)
    ensures Find(ReadReferenceSpec(s, rec).refs, other) == if other == rec.name then Some(rec.target) else Find(s.refs, other)
    ensures ReadReferenceSpec(s, rec).odb == s.odb
  {
    FindAssign(s.refs, rec.name, rec.target, other);
  }

  // ---------------------------------------------------------------------------------------
  // runs over streams

  lemma {:induction false} RunAppend(rd: Reader, a: seq<Line>, b: seq<Line>)
    ensures Run(rd, a).Err? ==> Run(rd, a + b) == Run(rd, a)
    ensures Run(rd, a).Ok? ==> Run(rd, a + b) == Run(Run(rd, a).value, b)
    decreases |a|
  {
    if |a| == 0 {
      assert a + b == b;
    } else {
      assert (a + b)[0] == a[0] && (a + b)[1..] == a[1..] + b;
      RunCons(rd, a + b);
      RunCons(rd, a);
      if StepLine(rd, a[0]).Ok? {
        RunAppend(StepLine(rd, a[0]).value, a[1..], b);
      }
    }
  }

  /** Once a line is refused the rest of the stream is never read: the load fails with that
      line's error. */
  lemma LoadStopsAt(a: seq<Line>, l: Line, b: seq<Line>, rd: Reader)
    requires Run(Start, a) == Ok(rd)
    requires StepLine(rd, l).Err?
    ensures LoadSpec(a + [l] + b) == Err(StepLine(rd, l).error)
  {
    RunAppend(Start, a + [l], b);
    RunAppend(Start, a, [l]);
    RunCons(rd, [l]);
  }

  /** A tampered object record anywhere in an objects section makes the whole load fail:
      with a length mismatch when its length was altered, with an oid mismatch when its
      payload was. */
  lemma LoadRefusesTampering(a: seq<Line>, rec: ObjectRecord, b: seq<Line>, rd: Reader, data: seq<Bytes.byte>)
    requires Run(Start, a) == Ok(rd) && rd.section == AtObjects && rd.doc.Some?
    requires Base64.Decode(rec.data) == Some(data)
    ensures |data| != rec.len ==>
      LoadSpec(a + [ObjLine(rec)] + b) == Err(LengthMismatch(rec.len, |data|))
    ensures |data| == rec.len && Hash(rec.kind, data) != rec.oid ==>
      LoadSpec(a + [ObjLine(rec)] + b) == Err(OidMismatch(rec.oid, Hash(rec.kind, data)))
  {
    RecordIntegrity(rd.doc.value.snapshot, rec, data);
    if |data| != rec.len || Hash(rec.kind, data) != rec.oid {
      LoadStopsAt(a, ObjLine(rec), b, rd);
    }
  }

  /** The sections come in the order header, objects, references: a marker out of place
      makes the load fail. */
  lemma LoadRefusesMisplacedMarkers(a: seq<Line>, b: seq<Line>, rd: Reader)
    requires Run(Start, a) == Ok(rd)
    ensures rd.section != AtObjects ==> LoadSpec(a + [Text(ReferencesMarker)] + b) == Err(UnexpectedReferences)
    ensures rd.section != AtHeader ==> LoadSpec(a + [Text(ObjectsMarker)] + b) == Err(UnexpectedObjects)
  {
    MarkersAreNotHeaders();
    if rd.section != AtObjects {
      LoadStopsAt(a, Text(ReferencesMarker), b, rd);
    }
    if rd.section != AtHeader {
      LoadStopsAt(a, Text(ObjectsMarker), b, rd);
    }
  }

  // ---------------------------------------------------------------------------------------
  // the round trip

  lemma {:induction false} RunObjects(rd: Reader, name: string, s: Snapshot, os: seq<Oid>)
    requires rd.section == AtObjects && rd.doc == Some(Image(name, s))
    ensures Run(rd, ObjLines(os)) == Ok(rd.(doc := Some(Image(name, Snapshot(s.odb + Members(os), s.refs)))))
    decreases |os|
  {
    if |os| == 0 {
      assert s.odb + Members(os) == s.odb;
    } else {
      var ls := ObjLines(os);
      assert ls[0] == ObjLine(RecordOf(os[0])) && ls[1..] == ObjLines(os[1..]);
      RunCons(rd, ls);
      RecordReadsBack(s, os[0]);
      var s1 := Snapshot(s.odb + {os[0]}, s.refs);
      RunObjects(rd.(doc := Some(Image(name, s1))), name, s1, os[1..]);
      assert s1.odb + Members(os[1..]) == s.odb + Members(os);
    }
  }

  lemma {:induction false} RunRefs(rd: Reader, name: string, s: Snapshot, rs: seq<Ref>)
    requires rd.section == AtReferences && rd.doc == Some(Image(name, s))
    ensures Run(rd, RefLines(rs)) == Ok(rd.(doc := Some(Image(name, Snapshot(s.odb, AssignAll(s.refs, rs))))))
    decreases |rs|
  {
    if |rs| > 0 {
      var ls := RefLines(rs);
      assert ls[0] == RefLine(RefRecord(rs[0].name, "oid", rs[0].target)) && ls[1..] == RefLines(rs[1..]);
      RunCons(rd, ls);
      var s1 := ReadReferenceSpec(s, ls[0].ref);
      RunRefs(rd.(doc := Some(Image(name, s1))), name, s1, rs[1..]);
    }
  }

  /** Records of names not yet present are appended in order. */
  lemma {:induction false} AssignAllAppends(refs: seq<Ref>, rs: seq<Ref>)
    requires UniqueNames(refs + rs)
    ensures AssignAll(refs, rs) == refs + rs
    decreases |rs|
  {
    if |rs| == 0 {
      assert refs + rs == refs;
    } else {
      assert (refs + rs)[|refs|] == rs[0];
      assert forall i :: 0 <= i < |refs| ==> (refs + rs)[i] == refs[i];
      AssignAppends(refs, rs[0].name, rs[0].target);
      assert (refs + [rs[0]]) + rs[1..] == refs + rs;
      AssignAllAppends(refs + [rs[0]], rs[1..]);
    }
  }

  /** The table a dump's reference records rebuild on a fresh repository is the dumped one. */
  lemma RefsRebuilt(refs: seq<Ref>)
    requires WellFormed(Snapshot({}, refs)) && refs[0] == Ref(HeadName, Symbolic(MasterRef))
    ensures AssignAll(Assign(Fresh.refs, HeadName, Symbolic(MasterRef)), Listed(refs)) == refs
  {
    assert Assign(Fresh.refs, HeadName, Symbolic(MasterRef)) == [refs[0]];
    assert [refs[0]] + refs[1..] == refs;
    AssignAllAppends([refs[0]], refs[1..]);
  }

  /** The header and the objects marker open a fresh repository, finalizing the document
      before them. */
  lemma RunOpen(rd: Reader, name: string)
    requires |name| > 0 && !IsSpace(name[0])
    ensures Run(rd, [HeaderLine(name), Text(ObjectsMarker)])
      == Ok(Reader(AtObjects, Some(Image(name, Fresh)), Flush(rd)))
  {
    var a := [HeaderLine(name), Text(ObjectsMarker)];
    HeaderNameOf(" ", name);
    MarkersAreNotHeaders();
    var r0 := Reader(AtHeader, Some(Image(name, Fresh)), Flush(rd));
    RunCons(rd, a);
    assert a[1..] == [Text(ObjectsMarker)];
    RunCons(r0, a[1..]);
    assert a[1..][1..] == [];
  }

  /** The references section rebuilds the dumped table on the fresh table. */
  lemma RunRefSection(rd: Reader, name: string, odb: set<Oid>, refs: seq<Ref>)
    requires rd.section == AtObjects && rd.doc == Some(Image(name, Snapshot(odb, Fresh.refs)))
    requires WellFormed(Snapshot(odb, refs)) && refs[0] == Ref(HeadName, Symbolic(MasterRef))
    ensures Run(rd, RefSection(refs)) == Ok(Reader(AtReferences, Some(Image(name, Snapshot(odb, refs))), rd.done))
  {
    var c := [Text(ReferencesMarker), RefLine(HeadRecord)];
    var e := RefLines(Listed(refs));
    MarkersAreNotHeaders();
    var s3 := ReadReferenceSpec(Snapshot(odb, Fresh.refs), HeadRecord);
    var r3 := Reader(AtReferences, Some(Image(name, s3)), rd.done);
    assert Run(rd, c) == Ok(r3) by {
      RunCons(rd, c);
      assert c[1..] == [RefLine(HeadRecord)];
      RunCons(rd.(section := AtReferences), c[1..]);
      assert c[1..][1..] == [];
    }
    RunAppend(rd, c, e);
    RunRefs(r3, name, s3, Listed(refs));
    RefsRebuilt(refs);
  }

  /** Reading one document's dump: it opens a fresh repository (finalizing the document
      before it) and leaves the restored document open in its references section. */
  lemma RunDoc(rd: Reader, d: Image)
    requires Dumpable(d) && DumpDoc(d).Ok?
    ensures Run(rd, DumpDoc(d).value) == Ok(Reader(AtReferences, Some(Restore(d)), Flush(rd)))
  {
    var objs := DocObjects(d.snapshot).value;
    var a := [HeaderLine(d.name), Text(ObjectsMarker)];
    var b := ObjLines(objs);
    var c := RefSection(d.snapshot.refs);
    RunOpen(rd, d.name);
    var r1 := Reader(AtObjects, Some(Image(d.name, Fresh)), Flush(rd));
    RunAppend(rd, a, b);
    RunObjects(r1, d.name, Fresh, objs);
    assert Fresh.odb + Members(objs) == Members(objs);
    var r2 := r1.(doc := Some(Image(d.name, Snapshot(Members(objs), Fresh.refs))));
    RunAppend(rd, a + b, c);
    RunRefSection(r2, d.name, Members(objs), d.snapshot.refs);
  }

  /** Reading the dump of several documents leaves every one of them restored, in order,
      once the stream ends. */
  lemma {:induction false} RunAll(rd: Reader, ds: seq<Image>)
    requires |ds| > 0 && DumpAll(ds).Ok?
    requires forall i :: 0 <= i < |ds| ==> Dumpable(ds[i])
    ensures Run(rd, DumpAll(ds).value).Ok?
    ensures Run(rd, DumpAll(ds).value).value.section == AtReferences
    ensures Finish(Run(rd, DumpAll(ds).value).value) == Ok(Flush(rd) + RestoreAll(ds))
    decreases |ds|
  {
    DumpAllCons(ds);
    var first := DumpDoc(ds[0]).value;
    RunDoc(rd, ds[0]);
    var r1 := Reader(AtReferences, Some(Restore(ds[0])), Flush(rd));
    assert RestoreAll(ds) == [Restore(ds[0])] + RestoreAll(ds[1..]);
    if |ds| == 1 {
      assert DumpAll(ds[1..]) == Ok([]);
      assert DumpAll(ds).value == first + [] == first;
      FlushLast(rd, Restore(ds[0]), RestoreAll(ds[1..]));
    } else {
      var rest := DumpAll(ds[1..]).value;
      assert DumpAll(ds).value == first + rest;
      RunAppend(rd, first, rest);
      forall i | 0 <= i < |ds[1..]|
        ensures Dumpable(ds[1..][i])
      {
        assert ds[1..][i] == ds[i + 1];
      }
      RunAll(r1, ds[1..]);
      FlushShift(rd, Restore(ds[0]), RestoreAll(ds[1..]));
    }
  }

  /** Finalizing one more document extends what the reader holds by it. */
  lemma FlushShift(rd: Reader, x: Image, tail: seq<Image>)
    ensures Flush(Reader(AtReferences, Some(x), Flush(rd))) + tail == Flush(rd) + ([x] + tail)
  {
  }

  lemma FlushLast(rd: Reader, x: Image, tail: seq<Image>)
    requires tail == []
    ensures Finish(Reader(AtReferences, Some(x), Flush(rd))) == Ok(Flush(rd) + ([x] + tail))
  {
    assert [x] + tail == [x];
  }

  /** `load(generate(documents))`: every dumped document comes back, in order, under its
      name, with its reference table unchanged and the objects the dump carried. */
  lemma RoundTrip(ds: seq<Image>)
    requires forall i :: 0 <= i < |ds| ==> Dumpable(ds[i])
    requires DumpAll(ds).Ok?
    ensures |ds| == 0 ==> LoadSpec(DumpAll(ds).value) == Err(EndOfStream)
    ensures |ds| > 0 ==> LoadSpec(DumpAll(ds).value) == Ok(RestoreAll(ds))
  {
    if |ds| == 0 {
      assert DumpAll(ds) == Ok([]);
    } else {
      DumpStarts(ds);
      LoadDump(ds);
    }
  }

  /** A dump of documents starts with the first one's header. */
  lemma DumpStarts(ds: seq<Image>)
    requires |ds| > 0 && DumpAll(ds).Ok?
    ensures |DumpAll(ds).value| > 0 && DumpAll(ds).value[0] == HeaderLine(ds[0].name)
  {
    DumpAllCons(ds);
    var objs := DocObjects(ds[0].snapshot).value;
    var v := [HeaderLine(ds[0].name), Text(ObjectsMarker)] + ObjLines(objs) + RefSection(ds[0].snapshot.refs);
    assert DumpDoc(ds[0]) == Ok(v);
    assert v[0] == HeaderLine(ds[0].name);
  }

  lemma LoadDump(ds: seq<Image>)
    requires forall i :: 0 <= i < |ds| ==> Dumpable(ds[i])
    requires |ds| > 0 && DumpAll(ds).Ok? && |DumpAll(ds).value| > 0
    ensures LoadSpec(DumpAll(ds).value) == Ok(RestoreAll(ds))
  {
    RunAll(Start, ds);
    assert Flush(Start) == [];
    assert [] + RestoreAll(ds) == RestoreAll(ds);
  }

  /** What a restored document holds: its reference table, and objects of the original
      repository only. */
  lemma RestoreFaithful(d: Image)
    requires DocObjects(d.snapshot).Ok?
    ensures Restore(d).name == d.name && Restore(d).snapshot.refs == d.snapshot.refs
    ensures Restore(d).snapshot.odb <= d.snapshot.odb
    ensures forall o :: o in DocObjects(d.snapshot).value ==> o in Restore(d).snapshot.odb
  {
  }
}
