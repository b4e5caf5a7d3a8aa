/** The repository substrate: an append-only object database of raw objects, named by
    their `Objects.Hash`, and a reference table mapping names to targets. It stands in for
    the Rugged repository every document and the serializer work on. */
module Store {
  import opened Wrappers
  import opened Bytes
  import opened Objects

  /** What the operations of the model report instead of raising. */
  datatype Error =
    | ObjectMissing(oid: Oid)        // lookup of a name the object database does not hold
    | NotACommit(oid: Oid)           // the object is not a (well-formed) commit
    | NotATree(oid: Oid)             // the object is not a (well-formed) tree
    | EmptyTree(oid: Oid)            // `tree.first` is nil
    | NoRootTag                      // `references["refs/tags/root"]` is nil
    | NotDirect(name: string)        // `target_id` of a symbolic reference used as an object name
    | NoSuchState(state: string)     // `promote!` from a state with no reference
    | RefExists(name: string)        // `references.create` of a name already present
    | RefMissing(name: string)       // `references.update` of a name not present
    | EndOfStream                    // `readline` on an exhausted stream
    | MalformedHeader                // empty document name
    | UnexpectedReferences           // `references:` outside the objects section
    | UnexpectedObjects              // `objects:` outside the header section
    | ExpectedHeader                 // a data line before any section marker
    | ExpectedObject                 // an object line that is not an object record
    | ExpectedReference              // a reference line that is not a reference record
    | NoDocument                     // a record arrives before any `document:` line
    | InvalidBase64                  // `Base64.strict_decode64` raised
    | LengthMismatch(recordedLen: int, actualLen: int)
    | OidMismatch(recordedOid: Oid, writtenOid: Oid)

  /** A reference points either straight at an object or at another reference by name. */
  datatype Target = Direct(oid: Oid) | Symbolic(name: string)

  datatype Ref = Ref(name: string, target: Target)

  const HeadName := "HEAD"
  const MasterRef := "refs/heads/master"

  predicate UniqueNames(refs: seq<Ref>)
  {
    forall i, j :: 0 <= i < j < |refs| ==> refs[i].name != refs[j].name
  }

  /** `references[name]`: the target of the reference called `name`, if there is one. */
  function Find(refs: seq<Ref>, name: string): (r: Option<Target>)
    ensures r.None? <==> forall i :: 0 <= i < |refs| ==> refs[i].name != name
    ensures r.Some? ==> exists i :: 0 <= i < |refs| && refs[i] == Ref(name, r.value)
  {
    if |refs| == 0 then None
    else if refs[0].name == name then Some(refs[0].target)
    else
      var r := Find(refs[1..], name);
      assert forall i :: 1 <= i < |refs| ==> refs[i] == refs[1..][i - 1];
      r
  }

  /** Create-or-update: a reference already present is moved in place, a new one is added
      at the end of the table. */
  function Assign(refs: seq<Ref>, name: string, t: Target): (r: seq<Ref>)
  {
    if |refs| == 0 then [Ref(name, t)]
    else if refs[0].name == name then [Ref(name, t)] + refs[1..]
    else [refs[0]] + Assign(refs[1..], name, t)
  }

  /** After an assignment the name resolves to the new target and every other name to what
      it resolved to before. */
  lemma {:induction false} FindAssign(refs: seq<Ref>, name: string, t: Target, other: string)
    ensures Find(Assign(refs, name, t), other) == if other == name then Some(t) else Find(refs, other)
  {
    if |refs| > 0 && refs[0].name != name {
      FindAssign(refs[1..], name, t, other);
    }
  }

  /** The shape of an assignment: a new name is appended, a present one keeps its place. */
  lemma AssignShape(refs: seq<Ref>, name: string, t: Target)
    ensures Find(refs, name).None? ==> Assign(refs, name, t) == refs + [Ref(name, t)]
    ensures Find(refs, name).Some? ==> |Assign(refs, name, t)| == |refs|
    ensures |refs| > 0 ==> Assign(refs, name, t)[0] == if refs[0].name == name then Ref(name, t) else refs[0]
    ensures forall i :: 0 <= i < |Assign(refs, name, t)| ==>
      Assign(refs, name, t)[i].name == name || (i < |refs| && Assign(refs, name, t)[i] == refs[i])
  {
    AssignLength(refs, name, t);
    AssignElements(refs, name, t);
    if Find(refs, name).None? {
      AssignAppends(refs, name, t);
    }
  }

  lemma {:induction false} AssignAppends(refs: seq<Ref>, name: string, t: Target)
    requires Find(refs, name).None?
    ensures Assign(refs, name, t) == refs + [Ref(name, t)]
  {
    if |refs| > 0 {
      AssignAppends(refs[1..], name, t);
      assert refs == [refs[0]] + refs[1..];
    }
  }

  lemma {:induction false} AssignLength(refs: seq<Ref>, name: string, t: Target)
    ensures |Assign(refs, name, t)| == if Find(refs, name).None? then |refs| + 1 else |refs|
  {
    if |refs| > 0 && refs[0].name != name {
      AssignLength(refs[1..], name, t);
    }
  }

  lemma {:induction false} AssignElements(refs: seq<Ref>, name: string, t: Target)
    ensures forall i :: 0 <= i < |Assign(refs, name, t)| ==>
      Assign(refs, name, t)[i].name == name || (i < |refs| && Assign(refs, name, t)[i] == refs[i])
  {
    if |refs| > 0 && refs[0].name != name {
      AssignElements(refs[1..], name, t);
    }
  }

  /** With unique names, looking a reference's name up finds that reference. */
  lemma FindUnique(refs: seq<Ref>, i: int)
    requires UniqueNames(refs) && 0 <= i < |refs|
    ensures Find(refs, refs[i].name) == Some(refs[i].target)
  {
    var j :| 0 <= j < |refs| && refs[j] == Ref(refs[i].name, Find(refs, refs[i].name).value);
    assert i == j;
  }

  lemma AssignUnique(refs: seq<Ref>, name: string, t: Target)
    requires UniqueNames(refs)
    ensures UniqueNames(Assign(refs, name, t))
  {
    var r := Assign(refs, name, t);
    AssignShape(refs, name, t);
    forall i, j | 0 <= i < j < |r| ensures r[i].name != r[j].name {
      if r[i].name == r[j].name {
        if r[i].name == name {
          FindAssign(refs, name, t, name);
          AssignNameOnce(refs, name, t, i, j);
        }
      }
    }
  }

  lemma {:induction false} AssignNameOnce(refs: seq<Ref>, name: string, t: Target, i: int, j: int)
    requires UniqueNames(refs)
    requires 0 <= i < j < |Assign(refs, name, t)|
    ensures !(Assign(refs, name, t)[i].name == name && Assign(refs, name, t)[j].name == name)
  {
    if |refs| > 0 && refs[0].name != name {
      if i == 0 {
      } else {
        AssignNameOnce(refs[1..], name, t, i - 1, j - 1);
      }
    } else if |refs| > 0 {
      assert forall k :: 1 <= k < |refs| ==> refs[k].name != name;
    }
  }

  /** The value of a repository at one moment: its object database and its reference table. */
  datatype Snapshot = Snapshot(odb: set<Oid>, refs: seq<Ref>)

  /** What every repository satisfies: HEAD comes first and no name is used twice. */
  predicate WellFormed(s: Snapshot)
  {
    |s.refs| >= 1 && s.refs[0].name == HeadName && UniqueNames(s.refs)
  }

  /** A freshly initialised bare repository. */
  const Fresh := Snapshot({}, [Ref(HeadName, Symbolic(MasterRef))])

  /** A repository: the object database and the reference table. `refs[0]` is HEAD; the rest
      are the references `references.each` enumerates, in table order. */
  class Repository {
    var odb: set<Oid>
    var refs: seq<Ref>

    ghost predicate Valid()
      reads this
    {
      WellFormed(Contents())
    }

    function Contents(): Snapshot
      reads this
    {
      Snapshot(odb, refs)
    }

    /** `Rugged::Repository.init_at(path, :bare)`: no objects, HEAD on the unborn master. */
    constructor ()
      ensures Valid()
      ensures Contents() == Fresh
    {
      odb := {};
      refs := [Ref(HeadName, Symbolic(MasterRef))];
    }

    /** `references.each`: every reference but HEAD. */
    function References(): seq<Ref>
      reads this
      requires Valid()
    {
      refs[1..]
    }

    /** `repository.empty?`: nothing but the unborn HEAD. */
    predicate IsEmpty()
      reads this
    {
      |refs| <= 1
    }

    /** `repo.write(data, type)`: stores the raw object and returns its name. */
    method Write(kind: Kind, data: seq<byte>) returns (oid: Oid)
      modifies this
      ensures oid == Hash(kind, data)
      ensures odb == old(odb) + {oid} && refs == old(refs)
    {
      oid := Hash(kind, data);
      odb := odb + {oid};
    }

    /** `references.create(name, target)`: refuses a name already present. */
    method Create(name: string, t: Target) returns (r: Option<Error>)
      requires Valid()
      modifies this
      ensures Valid() && odb == old(odb)
      ensures r.None? <==> Find(old(refs), name).None?
      ensures r.None? ==> refs == old(refs) + [Ref(name, t)]
      ensures r.Some? ==> refs == old(refs) && r.value == RefExists(name)
    {
      if Find(refs, name).Some? {
        return Some(RefExists(name));
      }
      AssignShape(refs, name, t);
      AssignUnique(refs, name, t);
      refs := Assign(refs, name, t);
      return None;
    }

    /** `references.update(name, target)`: moves a reference that is present. */
    method Update(name: string, t: Target) returns (r: Option<Error>)
      requires Valid()
      modifies this
      ensures Valid() && odb == old(odb)
      ensures r.None? <==> Find(old(refs), name).Some?
      ensures r.None? ==> refs == Assign(old(refs), name, t)
      ensures r.Some? ==> refs == old(refs) && r.value == RefMissing(name)
    {
      if Find(refs, name).None? {
        return Some(RefMissing(name));
      }
      AssignShape(refs, name, t);
      AssignUnique(refs, name, t);
      refs := Assign(refs, name, t);
      return None;
    }

    /** Moves `name` to `t`, creating it when absent. */
    method Move(name: string, t: Target)
      requires Valid()
      modifies this
      ensures Valid() && odb == old(odb)
      ensures refs == Assign(old(refs), name, t)
    {
      AssignShape(refs, name, t);
      AssignUnique(refs, name, t);
      refs := Assign(refs, name, t);
    }
  }
}
