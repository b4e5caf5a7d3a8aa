/** lib/colonel/serializer.rb: dumping documents with their full history to a line stream
    (`generate`) and restoring them from it (`load`).

    A stream is a sequence of lines, each without its terminator. A line is either plain
    text (a `document:` header, a section marker, or anything else) or one of the two JSON
    records the serializer writes; the JSON text itself is not modelled, a record is its
    fields. Loading a document ends with `finalize_document`, which here appends the
    document's name and repository to the list of restored documents. The `load!` it calls
    first is not part of this model, so finalizing never fails here; in the source it
    raises for a document without `refs/heads/master`. */
module Serializer {
  import opened Wrappers
  import opened Bytes
  import Base64
  import opened Objects
  import opened Store
  import opened Lineage
  import opened Documents

  /** `{oid:, type:, data:, len:}`: an object with its payload in strict Base64. */
  datatype ObjectRecord = ObjectRecord(oid: Oid, kind: Kind, data: string, len: int)

  /** `{name:, type:, target:}`: a reference. `type` is written but never read back. */
  datatype RefRecord = RefRecord(name: string, kind: string, target: Target)

  datatype Line = Text(text: string) | ObjLine(obj: ObjectRecord) | RefLine(ref: RefRecord)

  /** A document as the serializer sees it: its name and the contents of its repository. */
  datatype Image = Image(name: string, snapshot: Snapshot)

  const DocumentTag := "document:"
  const ObjectsMarker := "objects:"
  const ReferencesMarker := "references:"

  /** The line `generate` writes to start a document. */
  function HeaderLine(name: string): Line
  {
    Text(DocumentTag + " " + name)
  }

  /** The symbolic HEAD record every dump carries. */
  const HeadRecord := RefRecord(HeadName, "symbolic", Symbolic(MasterRef))

  // ---------------------------------------------------------------------------------------
  // generate

  /** `write_object`: the record of an object read raw from the repository. */
  function RecordOf(o: Oid): ObjectRecord
  {
    ObjectRecord(o, o.kind, Base64.Encode(o.data), |o.data|)
  }

  function ObjLines(os: seq<Oid>): (ls: seq<Line>)
    ensures |ls| == |os|
  {
    if |os| == 0 then [] else [ObjLine(RecordOf(os[0]))] + ObjLines(os[1..])
  }

  /** The reference records `generate` writes after HEAD's. */
  function RefLines(rs: seq<Ref>): (ls: seq<Line>)
    ensures |ls| == |rs|
  {
    if |rs| == 0 then [] else [RefLine(RefRecord(rs[0].name, "oid", rs[0].target))] + RefLines(rs[1..])
  }

  /** `write_commit`: the objects written for a commit, namely the commit, its tree, and the
      object the tree's first entry names. Every one of them is in the repository. */
  function CommitObjects(g: set<Oid>, oid: Oid): (r: Result<seq<Oid>, Error>)
    ensures r.Ok? ==> IsCommit(g, oid) && |r.value| == 3 && r.value[0] == oid
    ensures r.Ok? ==> forall o :: o in r.value ==> o in g
  {
    var c :- LookupCommit(g, oid);
    var es :- LookupTree(g, c.tree);
    if |es| == 0 then Err(EmptyTree(c.tree))
    else if es[0].oid !in g then Err(ObjectMissing(es[0].oid))
    else Ok([oid, c.tree, es[0].oid])
  }

  /** The objects written for one reference: `write_commit` for each commit from `oid` down
      first parents, stopping before the root and after a parentless commit. */
  function ChainObjects(g: set<Oid>, root: Oid, oid: Oid): (r: Result<seq<Oid>, Error>)
    ensures r.Ok? ==> forall o :: o in r.value ==> o in g
    decreases |oid.data|
  {
    if oid == root then Ok([])
    else
      var c :- LookupCommit(g, oid);
      var objs :- CommitObjects(g, oid);
      if |c.parents| == 0 then Ok(objs)
      else
        var rest :- ChainObjects(g, root, c.parents[0]);
        Ok(objs + rest)
  }

  /** The start of a reference's chain: `ref.target_id`, which names no object for a
      symbolic reference. */
  function ChainStart(r: Ref): Result<Oid, Error>
  {
    match r.target
    case Direct(o) => Ok(o)
    case Symbolic(_) => Err(NotDirect(r.name))
  }

  /** The objects written for the references `rs`, in order. */
  function RefsObjects(g: set<Oid>, root: Oid, rs: seq<Ref>): (r: Result<seq<Oid>, Error>)
    ensures r.Ok? ==> forall o :: o in r.value ==> o in g
  {
    if |rs| == 0 then Ok([])
    else
      var start :- ChainStart(rs[0]);
      var first :- ChainObjects(g, root, start);
      var rest :- RefsObjects(g, root, rs[1..]);
      Ok(first + rest)
  }

  /** The references `references.each` enumerates: every one but HEAD. */
  function Listed(refs: seq<Ref>): seq<Ref>
  {
    if |refs| == 0 then [] else refs[1..]
  }

  /** Every object `generate` writes for a repository: the root revision's, then each
      reference's chain. */
  function DocObjects(s: Snapshot): (r: Result<seq<Oid>, Error>)
    ensures r.Ok? ==> forall o :: o in r.value ==> o in s.odb
  {
    var root :- RootCommitOid(s.refs);
    var first :- CommitObjects(s.odb, root);
    var rest :- RefsObjects(s.odb, root, Listed(s.refs));
    Ok(first + rest)
  }

  /** The lines `generate` writes for one document. */
  function DumpDoc(d: Image): Result<seq<Line>, Error>
  {
    var objs :- DocObjects(d.snapshot);
    Ok([HeaderLine(d.name), Text(ObjectsMarker)] + ObjLines(objs) + RefSection(d.snapshot.refs))
  }

  /** The references section: its marker, HEAD's record, then every other reference's. */
  function RefSection(refs: seq<Ref>): seq<Line>
  {
    [Text(ReferencesMarker), RefLine(HeadRecord)] + RefLines(Listed(refs))
  }

  /** The lines `generate` writes for a sequence of documents; the first failure ends it. */
  function DumpAll(ds: seq<Image>): Result<seq<Line>, Error>
  {
    if |ds| == 0 then Ok([])
    else
      var first :- DumpDoc(ds[0]);
      var rest :- DumpAll(ds[1..]);
      Ok(first + rest)
  }

  /** The documents `generate` is handed, as images. */
  ghost function Images(docs: seq<Document>): (ds: seq<Image>)
    reads set i | 0 <= i < |docs| :: docs[i].repo
    ensures |ds| == |docs|
    ensures forall i :: 0 <= i < |docs| ==> ds[i] == Image(docs[i].id, docs[i].repo.Contents())
  {
    if |docs| == 0 then [] else [Image(docs[0].id, docs[0].repo.Contents())] + Images(docs[1..])
  }

  /** The object lines for a list of objects, or its error. */
  function LinesOf(r: Result<seq<Oid>, Error>): Result<seq<Line>, Error>
  {
    if r.Ok? then Ok(ObjLines(r.value)) else Err(r.error)
  }

  /** The inner loop of `generate`: one reference's chain, down first parents. */
  method WriteChain(g: set<Oid>, root: Oid, start: Oid) returns (r: Result<seq<Line>, Error>)
    ensures r == LinesOf(ChainObjects(g, root, start))
  {
    var out: seq<Line> := [];
    ghost var chain: seq<Oid> := [];
    var oid := start;
    PrependNothing(ChainObjects(g, root, start));
    while oid != root
      invariant out == ObjLines(chain)
      invariant ChainObjects(g, root, start) == Prepend(chain, ChainObjects(g, root, oid))
      decreases |oid.data|
    {
      var c :- LookupCommit(g, oid);
      var cobjs :- CommitObjects(g, oid);
      ObjLinesAppend(chain, cobjs);
      out := out + ObjLines(cobjs);
      if |c.parents| == 0 {
        chain := chain + cobjs;
        return Ok(out);
      }
      PrependTwice(chain, cobjs, ChainObjects(g, root, c.parents[0]));
      chain := chain + cobjs;
      oid := c.parents[0];
    }
    assert chain + [] == chain;
    return Ok(out);
  }

  /** The loop over `repo.references` in the objects section. */
  method WriteChains(g: set<Oid>, root: Oid, rs: seq<Ref>) returns (r: Result<seq<Line>, Error>)
    ensures r == LinesOf(RefsObjects(g, root, rs))
  {
    var out: seq<Line> := [];
    ghost var done: seq<Oid> := [];
    PrependNothing(RefsObjects(g, root, rs));
    var i := 0;
    while i < |rs|
      invariant 0 <= i <= |rs|
      invariant out == ObjLines(done)
      invariant RefsObjects(g, root, rs) == Prepend(done, RefsObjects(g, root, rs[i..]))
    {
      RefsObjectsCons(g, root, rs, i);
      var start :- ChainStart(rs[i]);
      var lines :- WriteChain(g, root, start);
      ghost var objs := ChainObjects(g, root, start).value;
      ObjLinesAppend(done, objs);
      PrependTwice(done, objs, RefsObjects(g, root, rs[i + 1..]));
      out := out + lines;
      done := done + objs;
      i := i + 1;
    }
    assert done + [] == done;
    return Ok(out);
  }

  /** The objects written for `rs[i..]`: those of `rs[i]`'s chain, then the rest's. */
  lemma RefsObjectsCons(g: set<Oid>, root: Oid, rs: seq<Ref>, i: int)
    requires 0 <= i < |rs|
    ensures ChainStart(rs[i]).Err? ==> RefsObjects(g, root, rs[i..]) == Err(ChainStart(rs[i]).error)
    ensures ChainStart(rs[i]).Ok? && ChainObjects(g, root, ChainStart(rs[i]).value).Err? ==>
      RefsObjects(g, root, rs[i..]) == Err(ChainObjects(g, root, ChainStart(rs[i]).value).error)
    ensures ChainStart(rs[i]).Ok? && ChainObjects(g, root, ChainStart(rs[i]).value).Ok? ==>
      RefsObjects(g, root, rs[i..]) == Prepend(ChainObjects(g, root, ChainStart(rs[i]).value).value, RefsObjects(g, root, rs[i + 1..]))
  {
    assert rs[i..][0] == rs[i] && rs[i..][1..] == rs[i + 1..];
  }

  /** The loop over `repo.references` in the references section. */
  method WriteRefs(rs: seq<Ref>) returns (out: seq<Line>)
    ensures out == RefLines(rs)
  {
    out := [];
    var j := 0;
    while j < |rs|
      invariant 0 <= j <= |rs|
      invariant out == RefLines(rs[..j])
    {
      RefLinesSnoc(rs[..j], rs[j]);
      assert rs[..j + 1] == rs[..j] + [rs[j]];
      out := out + [RefLine(RefRecord(rs[j].name, "oid", rs[j].target))];
      j := j + 1;
    }
    assert rs[..j] == rs;
  }

  /** `generate` for one document. */
  method GenerateDocument(name: string, repo: Repository) returns (r: Result<seq<Line>, Error>)
    requires repo.Valid()
    ensures r == DumpDoc(Image(name, repo.Contents()))
  {
    var g := repo.odb;
    var refs := repo.refs;
    var root :- RootCommitOid(refs);
    var objs :- CommitObjects(g, root);
    var chains :- WriteChains(g, root, refs[1..]);
    ObjLinesAppend(objs, RefsObjects(g, root, Listed(refs)).value);
    var refLines := WriteRefs(refs[1..]);
    var head := [HeaderLine(name), Text(ObjectsMarker)];
    assert head + ObjLines(objs) + chains == head + ObjLines(objs + RefsObjects(g, root, Listed(refs)).value);
    return Ok(head + ObjLines(objs) + chains + ([Text(ReferencesMarker), RefLine(HeadRecord)] + refLines));
  }

  lemma {:induction false} ObjLinesAppend(a: seq<Oid>, b: seq<Oid>)
    ensures ObjLines(a + b) == ObjLines(a) + ObjLines(b)
  {
    if |a| == 0 {
      assert a + b == b;
    } else {
      assert (a + b)[0] == a[0] && (a + b)[1..] == a[1..] + b;
      ObjLinesAppend(a[1..], b);
    }
  }

  lemma {:induction false} RefLinesSnoc(rs: seq<Ref>, r: Ref)
    ensures RefLines(rs + [r]) == RefLines(rs) + [RefLine(RefRecord(r.name, "oid", r.target))]
  {
    if |rs| == 0 {
      assert rs + [r] == [r];
    } else {
      assert (rs + [r])[0] == rs[0] && (rs + [r])[1..] == rs[1..] + [r];
      RefLinesSnoc(rs[1..], r);
    }
  }

  /** `generate(documents, ostream)`. */
  method Generate(docs: seq<Document>) returns (r: Result<seq<Line>, Error>)
    requires forall i :: 0 <= i < |docs| ==> docs[i].Valid()
    ensures r == DumpAll(Images(docs))
  {
    ghost var ds := Images(docs);
    var out: seq<Line> := [];
    PrependNothing(DumpAll(ds));
    var k := 0;
    while k < |docs|
      invariant 0 <= k <= |docs|
      invariant DumpAll(ds) == Prepend(out, DumpAll(ds[k..]))
    {
      assert ds[k..][0] == ds[k] == Image(docs[k].id, docs[k].repo.Contents());
      assert ds[k..][1..] == ds[k + 1..];
      DumpAllCons(ds[k..]);
      var lines :- GenerateDocument(docs[k].id, docs[k].repo);
      PrependTwice(out, lines, DumpAll(ds[k + 1..]));
      out := out + lines;
      k := k + 1;
    }
    assert ds[k..] == [];
    assert out + [] == out;
    return Ok(out);
  }

  lemma DumpAllCons(ds: seq<Image>)
    requires |ds| > 0
    ensures DumpDoc(ds[0]).Err? ==> DumpAll(ds) == Err(DumpDoc(ds[0]).error)
    ensures DumpDoc(ds[0]).Ok? ==> DumpAll(ds) == Prepend(DumpDoc(ds[0]).value, DumpAll(ds[1..]))
  {
  }

  // ---------------------------------------------------------------------------------------
  // load

  /** `\s`. */
  predicate IsSpace(c: char)
  {
    c == ' ' || c == '\t' || c == '\n' || c == '\U{B}' || c == '\U{C}' || c == '\r'
  }

  /** The length of the run of white space `s` starts with. */
  function LeadingSpaces(s: string): (n: nat)
    ensures n <= |s|
    ensures forall k :: 0 <= k < n ==> IsSpace(s[k])
    ensures n < |s| ==> !IsSpace(s[n])
  {
    if |s| == 0 || !IsSpace(s[0]) then 0 else 1 + LeadingSpaces(s[1..])
  }

  /** The capture of `/^document:\s*(.+)$/` on a line, if it matches: the text after the
      tag and its white space; on a line that has only white space after the tag, the
      greedy `\s*` gives back its last character to `.+`. */
  function HeaderName(t: string): Option<string>
  {
    if |t| < |DocumentTag| || t[..|DocumentTag|] != DocumentTag then None
    else
      var rest := t[|DocumentTag|..];
      var n := LeadingSpaces(rest);
      if n < |rest| then Some(rest[n..])
      else if |rest| > 0 then Some(rest[|rest| - 1..])
      else None
  }

  /** Which branch of `load`'s `case` a line takes. */
  datatype LineKind = Header(name: string) | References | Objects | Data

  function Classify(l: Line): LineKind
  {
    if l.Text? && HeaderName(l.text).Some? then Header(HeaderName(l.text).value)
    else if l == Text(ReferencesMarker) then References
    else if l == Text(ObjectsMarker) then Objects
    else Data
  }

  /** `reading`. */
  datatype Section = AtHeader | AtObjects | AtReferences

  /** What `load` holds between lines: the section, the document being read (with its
      repository), and the documents finalized so far. */
  datatype Reader = Reader(section: Section, doc: Option<Image>, done: seq<Image>)

  const Start := Reader(AtHeader, None, [])

  /** `read_object` on the repository `s` (None: no document yet). The record is decoded
      and its length checked before anything is written; the object is written before its
      name is checked. */
  function ReadObjectSpec(s: Option<Snapshot>, rec: ObjectRecord): (r: Result<Snapshot, Error>)
    ensures r.Ok? <==> s.Some? && Base64.Decode(rec.data).Some?
                       && |Base64.Decode(rec.data).value| == rec.len
                       && Hash(rec.kind, Base64.Decode(rec.data).value) == rec.oid
    ensures r.Ok? ==> r.value == Snapshot(s.value.odb + {rec.oid}, s.value.refs)
  {
    match Base64.Decode(rec.data)
    case None => Err(InvalidBase64)
    case Some(data) =>
      if |data| != rec.len then Err(LengthMismatch(rec.len, |data|))
      else if s.None? then Err(NoDocument)
      else
        var oid := Hash(rec.kind, data);
        if oid != rec.oid then Err(OidMismatch(rec.oid, oid))
        else Ok(Snapshot(s.value.odb + {oid}, s.value.refs))
  }

  /** `read_reference`: update the reference when present, create it otherwise. */
  function ReadReferenceSpec(s: Snapshot, rec: RefRecord): Snapshot
  {
    Snapshot(s.odb, Assign(s.refs, rec.name, rec.target))
  }

  /** `load`'s handling of one line. */
  function StepLine(rd: Reader, l: Line): Result<Reader, Error>
  {
    match Classify(l)
    case Header(name) =>
      var done := if rd.doc.Some? then rd.done + [rd.doc.value] else rd.done;
      if |name| == 0 then Err(MalformedHeader)
      else Ok(Reader(AtHeader, Some(Image(name, Fresh)), done))
    case References =>
      if rd.section != AtObjects then Err(UnexpectedReferences) else Ok(rd.(section := AtReferences))
    case Objects =>
      if rd.section != AtHeader then Err(UnexpectedObjects) else Ok(rd.(section := AtObjects))
    case Data =>
      match rd.section
      case AtHeader => Err(ExpectedHeader)
      case AtObjects =>
        if !l.ObjLine? then Err(ExpectedObject)
        else
          var s :- ReadObjectSpec(if rd.doc.Some? then Some(rd.doc.value.snapshot) else None, l.obj);
          Ok(rd.(doc := Some(rd.doc.value.(snapshot := s))))
      case AtReferences =>
        if !l.RefLine? then Err(ExpectedReference)
        else if rd.doc.None? then Err(NoDocument)
        else Ok(rd.(doc := Some(rd.doc.value.(snapshot := ReadReferenceSpec(rd.doc.value.snapshot, l.ref)))))
  }

  /** `load`'s loop over lines; the first failure ends it. */
  function Run(rd: Reader, ls: seq<Line>): Result<Reader, Error>
    decreases |ls|
  {
    if |ls| == 0 then Ok(rd)
    else
      var next :- StepLine(rd, ls[0]);
      Run(next, ls[1..])
  }

  lemma RunCons(rd: Reader, ls: seq<Line>)
    requires |ls| > 0
    ensures StepLine(rd, ls[0]).Err? ==> Run(rd, ls) == Err(StepLine(rd, ls[0]).error)
    ensures StepLine(rd, ls[0]).Ok? ==> Run(rd, ls) == Run(StepLine(rd, ls[0]).value, ls[1..])
  {
  }

  /** What happens at the end of the stream: the document being read is finalized only when
      its references section has begun. */
  function Finish(rd: Reader): Result<seq<Image>, Error>
  {
    if rd.section != AtReferences then Ok(rd.done)
    else if rd.doc.None? then Err(NoDocument)
    else Ok(rd.done + [rd.doc.value])
  }

  /** `load(stream)`: the documents it finalizes, in order. An empty stream fails at its
      first `readline`. */
  function LoadSpec(ls: seq<Line>): Result<seq<Image>, Error>
  {
    if |ls| == 0 then Err(EndOfStream)
    else
      var rd :- Run(Start, ls);
      Finish(rd)
  }

  /** `read_object(repo, obj)`; `repo` is null before the first `document:` line. */
  method ReadObject(repo: Repository?, rec: ObjectRecord) returns (err: Option<Error>)
    requires repo != null ==> repo.Valid()
    modifies repo
    ensures repo != null ==> repo.Valid()
    ensures var spec := ReadObjectSpec(if repo == null then None else Some(old(repo.Contents())), rec);
      && (err.None? <==> spec.Ok?)
      && (spec.Ok? ==> repo.Contents() == spec.value)
      && (spec.Err? ==> err == Some(spec.error))
  {
    var data := Base64.Decode(rec.data);
    if data.None? {
      return Some(InvalidBase64);
    }
    if |data.value| != rec.len {
      return Some(LengthMismatch(rec.len, |data.value|));
    }
    if repo == null {
      return Some(NoDocument);
    }
    var oid := repo.Write(rec.kind, data.value);
    if oid != rec.oid {
      return Some(OidMismatch(rec.oid, oid));
    }
    return None;
  }

  /** `read_reference(repo, ref)`; `repo` is null before the first `document:` line. */
  method ReadReference(repo: Repository?, rec: RefRecord) returns (err: Option<Error>)
    requires repo != null ==> repo.Valid()
    modifies repo
    ensures err.None? <==> repo != null
    ensures err.Some? ==> err.value == NoDocument
    ensures repo != null ==> repo.Valid() && repo.Contents() == ReadReferenceSpec(old(repo.Contents()), rec)
  {
    if repo == null {
      return Some(NoDocument);
    }
    if Find(repo.refs, rec.name).Some? {
      var e := repo.Update(rec.name, rec.target);
    } else {
      var e := repo.Create(rec.name, rec.target);
      AssignAppends(old(repo.refs), rec.name, rec.target);
    }
    return None;
  }

  /** One pass of `load`'s loop body: the `case` on one line, given the repository and name
      of the document being read (`repo` is null before the first header), the section and
      the documents finalized so far. */
  method ReadLine(repo: Repository?, name: string, section: Section, done: seq<Image>, line: Line)
    returns (err: Option<Error>, newRepo: Repository?, newName: string, newSection: Section, newDone: seq<Image>)
    requires repo != null ==> repo.Valid()
    modifies repo
    ensures newRepo != null ==> newRepo.Valid() && (newRepo == repo || fresh(newRepo))
    ensures var spec := StepLine(Reader(section, if repo == null then None else Some(Image(name, old(repo.Contents()))), done), line);
      && (err.None? <==> spec.Ok?)
      && (spec.Err? ==> err == Some(spec.error))
      && (spec.Ok? ==> spec.value == Reader(newSection, if newRepo == null then None else Some(Image(newName, newRepo.Contents())), newDone))
  {
    err, newRepo, newName, newSection, newDone := None, repo, name, section, done;
    match Classify(line) {
      case Header(n) =>
        if repo != null {
          newDone := done + [Image(name, repo.Contents())];
        }
        if |n| == 0 {
          err := Some(MalformedHeader);
          return;
        }
        newSection, newName := AtHeader, n;
        newRepo := new Repository();
      case References =>
        if section != AtObjects {
          err := Some(UnexpectedReferences);
          return;
        }
        newSection := AtReferences;
      case Objects =>
        if section != AtHeader {
          err := Some(UnexpectedObjects);
          return;
        }
        newSection := AtObjects;
      case Data =>
        match section {
          case AtHeader =>
            err := Some(ExpectedHeader);
          case AtObjects =>
            if !line.ObjLine? {
              err := Some(ExpectedObject);
              return;
            }
            err := ReadObject(repo, line.obj);
          case AtReferences =>
            if !line.RefLine? {
              err := Some(ExpectedReference);
              return;
            }
            err := ReadReference(repo, line.ref);
        }
    }
  }

  /** `load(stream)`: reads the lines in order, one fresh repository per document. */
  method Load(lines: seq<Line>) returns (r: Result<seq<Image>, Error>)
    ensures r == LoadSpec(lines)
  {
    if |lines| == 0 {
      return Err(EndOfStream);
    }
    var repo: Repository? := null;
    var name := "";
    var section := AtHeader;
    var done: seq<Image> := [];
    var i := 0;
    while i < |lines|
      invariant 0 <= i <= |lines|
      invariant repo != null ==> fresh(repo) && repo.Valid()
      invariant Run(Start, lines) ==
        Run(Reader(section, if repo == null then None else Some(Image(name, repo.Contents())), done), lines[i..])
      decreases |lines| - i
    {
      assert lines[i..][0] == lines[i] && lines[i..][1..] == lines[i + 1..];
      RunCons(Reader(section, if repo == null then None else Some(Image(name, repo.Contents())), done), lines[i..]);
      var err;
      err, repo, name, section, done := ReadLine(repo, name, section, done, lines[i]);
      if err.Some? {
        return Err(err.value);
      }
      i := i + 1;
    }
    // the end-of-stream check after the last line
    if section == AtReferences {
      if repo == null {
        return Err(NoDocument);
      }
      done := done + [Image(name, repo.Contents())];
    }
    return Ok(done);
  }
}
