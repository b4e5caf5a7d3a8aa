/** Why `generate` may walk down first parents only ("walk down only"): in a repository
    built by the document operations, every parent of a commit the dump carries is carried
    too, so a restored document yields the same history and the same content for every
    state as the original. */
module DumpHistory {
  import opened Wrappers
  import opened Bytes
  import opened Objects
  import opened Store
  import opened Lineage
  import opened LineageFacts
  import opened Documents
  import opened DocumentFacts
  import opened Serializer
  import opened SerializerFacts

  /** The commits `generate`'s inner loop visits from `t`: down first parents, stopping
      before the root and after a parentless commit. */
  ghost function Spine(g: set<Oid>, root: Oid, t: Oid): (r: set<Oid>)
    ensures forall x :: x in r ==> IsCommit(g, x) && x != root
    decreases |t.data|
  {
    if t == root || !IsCommit(g, t) then {}
    else
      var ps := LookupCommit(g, t).value.parents;
      if |ps| == 0 then {t} else {t} + Spine(g, root, ps[0])
  }

  /** `name` is a reference other than HEAD pointing straight at a commit whose spine holds
      `x`. */
  ghost predicate OnSpineOf(s: Snapshot, root: Oid, name: string, x: Oid)
  {
    && name != HeadName && Find(s.refs, name).Some? && Find(s.refs, name).value.Direct?
    && x in Spine(s.odb, root, Find(s.refs, name).value.oid)
  }

  /** The commits a dump of `s` carries: the root revision and every reference's spine. */
  ghost predicate InDump(s: Snapshot, x: Oid)
  {
    && RootCommitOid(s.refs).Ok?
    && (x == RootCommitOid(s.refs).value || exists name :: OnSpineOf(s, RootCommitOid(s.refs).value, name, x))
  }

  /** The root revision has no parents, and every parent of a commit the dump carries is
      carried too. */
  ghost predicate Covered(s: Snapshot)
  {
    && (RootCommitOid(s.refs).Ok? ==> CommitParents(RootCommitOid(s.refs).value) == [])
    && (forall x, i {:trigger CommitParents(x)[i], InDump(s, x)} ::
          InDump(s, x) && 0 <= i < |CommitParents(x)| ==> InDump(s, CommitParents(x)[i]))
  }

  // ---------------------------------------------------------------------------------------
  // spines

  /** Adding objects to a closed database leaves the spine of each of its commits alone. */
  lemma {:induction false} SpineGrows(g: set<Oid>, g2: set<Oid>, root: Oid, t: Oid)
    requires Closed(g) && g <= g2 && (t == root || IsCommit(g, t))
    ensures Spine(g2, root, t) == Spine(g, root, t)
    decreases |t.data|
  {
    if t != root {
      var ps := LookupCommit(g, t).value.parents;
      assert LookupCommit(g2, t) == LookupCommit(g, t);
      if |ps| > 0 {
        assert ps == CommitParents(t);
        assert IsCommit(g, CommitParents(t)[0]);
        SpineGrows(g, g2, root, ps[0]);
      }
    }
  }

  lemma SpineStep(g: set<Oid>, root: Oid, t: Oid)
    requires IsCommit(g, t) && t != root && |CommitParents(t)| > 0
    ensures Spine(g, root, t) == {t} + Spine(g, root, CommitParents(t)[0])
  {
    assert LookupCommit(g, t).value.parents == CommitParents(t);
  }

  /** The commits of a spine have their objects in the chain `generate` writes for it. */
  lemma {:induction false} ChainCarries(g: set<Oid>, root: Oid, t: Oid, x: Oid)
    requires ChainObjects(g, root, t).Ok? && x in Spine(g, root, t)
    ensures CommitObjects(g, x).Ok? && Members(CommitObjects(g, x).value) <= Members(ChainObjects(g, root, t).value)
    decreases |t.data|
  {
    var c := LookupCommit(g, t).value;
    var objs := CommitObjects(g, t).value;
    if |c.parents| > 0 && x != t {
      var rest := ChainObjects(g, root, c.parents[0]).value;
      ChainCarries(g, root, c.parents[0], x);
      MembersAppend(objs, rest);
    }
  }

  lemma MembersAppend(a: seq<Oid>, b: seq<Oid>)
    ensures Members(a + b) == Members(a) + Members(b)
  {
    assert forall o :: o in a + b <==> o in a || o in b;
  }

  /** Each reference's chain is part of what `generate` writes for the reference table. */
  lemma {:induction false} RefsCarry(g: set<Oid>, root: Oid, rs: seq<Ref>, j: int)
    requires RefsObjects(g, root, rs).Ok? && 0 <= j < |rs|
    ensures ChainStart(rs[j]).Ok? && ChainObjects(g, root, ChainStart(rs[j]).value).Ok?
    ensures Members(ChainObjects(g, root, ChainStart(rs[j]).value).value) <= Members(RefsObjects(g, root, rs).value)
    decreases |rs|
  {
    RefsObjectsOk(g, root, rs);
    var first := ChainObjects(g, root, ChainStart(rs[0]).value).value;
    var rest := RefsObjects(g, root, rs[1..]).value;
    MembersAppend(first, rest);
    if j == 0 {
      assert Members(first) <= Members(first + rest);
    } else {
      assert rs[1..][j - 1] == rs[j];
      RefsCarry(g, root, rs[1..], j - 1);
      assert Members(rest) <= Members(first + rest);
    }
  }

  lemma RefsObjectsOk(g: set<Oid>, root: Oid, rs: seq<Ref>)
    requires RefsObjects(g, root, rs).Ok? && |rs| > 0
    ensures ChainStart(rs[0]).Ok? && ChainObjects(g, root, ChainStart(rs[0]).value).Ok?
    ensures RefsObjects(g, root, rs[1..]).Ok?
    ensures RefsObjects(g, root, rs).value ==
      ChainObjects(g, root, ChainStart(rs[0]).value).value + RefsObjects(g, root, rs[1..]).value
  {
  }

  /** Every commit the dump carries is written with its tree and content. */
  lemma DumpCarries(s: Snapshot, x: Oid)
    requires WellFormed(s) && DocObjects(s).Ok? && InDump(s, x)
    ensures CommitObjects(s.odb, x).Ok? && Members(CommitObjects(s.odb, x).value) <= Members(DocObjects(s).value)
  {
    var root := RootCommitOid(s.refs).value;
    var first := CommitObjects(s.odb, root).value;
    var rest := RefsObjects(s.odb, root, Listed(s.refs)).value;
    MembersAppend(first, rest);
    if x != root {
      var name :| OnSpineOf(s, root, name, x);
      SpineCarried(s, root, name, x);
    }
  }

  lemma SpineCarried(s: Snapshot, root: Oid, name: string, x: Oid)
    requires WellFormed(s) && RefsObjects(s.odb, root, Listed(s.refs)).Ok? && OnSpineOf(s, root, name, x)
    ensures CommitObjects(s.odb, x).Ok?
    ensures Members(CommitObjects(s.odb, x).value) <= Members(RefsObjects(s.odb, root, Listed(s.refs)).value)
  {
    var t := Find(s.refs, name).value;
    ListedHas(s.refs, name);
    var j :| 0 <= j < |Listed(s.refs)| && Listed(s.refs)[j] == Ref(name, t);
    RefsCarry(s.odb, root, Listed(s.refs), j);
    ChainCarries(s.odb, root, t.oid, x);
  }

  /** A reference other than HEAD is one of those `references.each` enumerates. */
  lemma ListedHas(refs: seq<Ref>, name: string)
    requires |refs| >= 1 && refs[0].name == HeadName && name != HeadName && Find(refs, name).Some?
    ensures exists j :: 0 <= j < |Listed(refs)| && Listed(refs)[j] == Ref(name, Find(refs, name).value)
  {
    var i :| 0 <= i < |refs| && refs[i] == Ref(name, Find(refs, name).value);
    assert Listed(refs)[i - 1] == refs[i];
  }

  lemma InDumpIsCommit(s: Snapshot, x: Oid)
    requires Consistent(s) && InDump(s, x)
    ensures IsCommit(s.odb, x)
  {
    StateRefNames("", "");
    if x == RootCommitOid(s.refs).value {
      RefTarget(s, RootRef);
    }
  }

  // ---------------------------------------------------------------------------------------
  // what a restored document reads

  /** The history from a commit the dump carries is the same on any database that holds
      everything the dump carries. */
  lemma {:induction false} HistoryKept(s: Snapshot, g2: set<Oid>, x: Oid)
    requires Consistent(s) && Covered(s) && InDump(s, x)
    requires forall y :: InDump(s, y) ==> y in g2
    ensures HistoryFrom(g2, RootCommitOid(s.refs).value, x) == HistoryFrom(s.odb, RootCommitOid(s.refs).value, x)
    decreases |x.data|
  {
    var root := RootCommitOid(s.refs).value;
    InDumpIsCommit(s, x);
    var c := LookupCommit(s.odb, x).value;
    assert LookupCommit(g2, x) == LookupCommit(s.odb, x);
    assert c.parents == CommitParents(x);
    forall i | 0 <= i < |c.parents|
      ensures IsCommit(g2, c.parents[i]) && IsCommit(s.odb, c.parents[i])
    {
      assert InDump(s, CommitParents(x)[i]);
      InDumpIsCommit(s, CommitParents(x)[i]);
    }
    assert LoadParents(g2, c) == LoadParents(s.odb, c);
    if !(IsFirstCommit(c.parents, root) || |c.parents| == 0) {
      assert InDump(s, CommitParents(x)[0]);
      HistoryKept(s, g2, c.parents[0]);
    }
  }

  /** The tip of every state is carried by the dump. */
  lemma TipInDump(s: Snapshot, state: string)
    requires Consistent(s) && StateTip(s.refs, state).Ok? && StateTip(s.refs, state).value.Some?
    ensures InDump(s, StateTip(s.refs, state).value.value)
  {
    StateRefNames(state, state);
    RefTarget(s, StateRef(state));
    RefTarget(s, RootRef);
    var root := RootCommitOid(s.refs).value;
    var t := StateTip(s.refs, state).value.value;
    if t != root {
      if |CommitParents(t)| > 0 {
        SpineStep(s.odb, root, t);
      } else {
        assert LookupCommit(s.odb, t).value.parents == CommitParents(t);
      }
      assert OnSpineOf(s, root, StateRef(state), t);
    }
  }

  lemma RestoredHolds(d: Image, y: Oid)
    requires WellFormed(d.snapshot) && DocObjects(d.snapshot).Ok? && InDump(d.snapshot, y)
    ensures y in Restore(d).snapshot.odb
  {
    DumpCarries(d.snapshot, y);
    assert y in CommitObjects(d.snapshot.odb, y).value;
  }

  /** Reloading a dump preserves `history(state)` for every state, and the content of every
      state's tip, which `load!` reads. */
  lemma ReloadKeepsHistory(d: Image, state: string, revision: Option<Oid>)
    requires Consistent(d.snapshot) && Covered(d.snapshot) && DocObjects(d.snapshot).Ok?
    ensures HistorySpec(Restore(d).snapshot, Some(state), revision) == HistorySpec(d.snapshot, Some(state), revision)
    ensures StateTip(d.snapshot.refs, state).Ok? && StateTip(d.snapshot.refs, state).value.Some? ==>
      var t := StateTip(d.snapshot.refs, state).value.value;
      ReadContent(Restore(d).snapshot.odb, t) == ReadContent(d.snapshot.odb, t) && ReadContent(d.snapshot.odb, t).Ok?
  {
    var s := d.snapshot;
    var r := Restore(d).snapshot;
    var tip := StateTip(s.refs, state);
    if tip.Ok? && tip.value.Some? {
      var t := tip.value.value;
      TipInDump(s, state);
      forall y | InDump(s, y) ensures y in r.odb {
        RestoredHolds(d, y);
      }
      HistoryKept(s, r.odb, t);
      InDumpIsCommit(s, t);
      forall i | 0 <= i < |CommitParents(t)|
        ensures IsCommit(r.odb, CommitParents(t)[i]) && IsCommit(s.odb, CommitParents(t)[i])
      {
        assert InDump(s, CommitParents(t)[i]);
        InDumpIsCommit(s, CommitParents(t)[i]);
      }
      HistoryOfStart(s, t);
      HistoryOfStart(r, t);
      ContentKept(d, t);
    }
  }

  lemma ContentKept(d: Image, x: Oid)
    requires WellFormed(d.snapshot) && DocObjects(d.snapshot).Ok? && InDump(d.snapshot, x)
    ensures ReadContent(d.snapshot.odb, x).Ok?
    ensures ReadContent(Restore(d).snapshot.odb, x) == ReadContent(d.snapshot.odb, x)
  {
    DumpCarries(d.snapshot, x);
    var objs := CommitObjects(d.snapshot.odb, x).value;
    assert objs[1] in Members(objs) && objs[2] in Members(objs);
    assert Restore(d).snapshot.odb <= d.snapshot.odb;
  }

  // ---------------------------------------------------------------------------------------
  // the document operations keep every parent of a dumped commit in the dump

  lemma FreshCovered()
    ensures Covered(Fresh)
  {
    StateRefNames("", "");
  }

  /** `init_repository` leaves a dump that carries the root revision alone. */
  lemma InitCovered(s: Snapshot, time: nat)
    requires Consistent(s) && Covered(s)
    ensures Covered(InitSpec(s, time))
  {
    if |s.refs| <= 1 {
      InitFacts(s, time, time);
      InitDumpsRoot(s, time);
    }
  }

  /** Initialising an empty repository leaves the root revision as all its dump carries. */
  lemma InitDumpsRoot(s: Snapshot, time: nat)
    requires WellFormed(s) && |s.refs| <= 1
    ensures forall x :: InDump(InitSpec(s, time), x) ==> x == CommitOid(RootCommit(time))
  {
    var s1 := InitSpec(s, time);
    var root := CommitOid(RootCommit(time));
    InitEmpty(s, time);
    assert forall name :: name != HeadName && Find(s1.refs, name).Some? ==> Find(s1.refs, name) == Some(Direct(root));
    assert Spine(s1.odb, root, root) == {};
  }

  /** A reference moved to a new commit `n` that sits on the reference's previous target
      (or on the root revision when the reference is new), every parent of `n` being
      carried: the other references and the object database otherwise as before. */
  ghost predicate MoveOf(s: Snapshot, s2: Snapshot, n: Oid, refName: string)
  {
    && Consistent(s) && Covered(s) && RootCommitOid(s.refs).Ok?
    && refName != HeadName && refName != RootRef
    && s.odb <= s2.odb && IsCommit(s2.odb, n) && |CommitParents(n)| > 0
    && (forall i :: 0 <= i < |CommitParents(n)| ==> InDump(s, CommitParents(n)[i]))
    && (|| Find(s.refs, refName) == Some(Direct(CommitParents(n)[0]))
        || (Find(s.refs, refName).None? && RootCommitOid(s.refs) == Ok(CommitParents(n)[0])))
    && Find(s2.refs, refName) == Some(Direct(n))
    && (forall name :: name != refName ==> Find(s2.refs, name) == Find(s.refs, name))
  }

  /** The spine of the moved reference is its old spine with `n` in front. */
  lemma MoveSpine(s: Snapshot, s2: Snapshot, n: Oid, refName: string)
    requires MoveOf(s, s2, n, refName)
    ensures RootCommitOid(s2.refs) == RootCommitOid(s.refs)
    ensures var root := RootCommitOid(s.refs).value; var p := CommitParents(n)[0];
      && n != root
      && Spine(s2.odb, root, n) == {n} + Spine(s.odb, root, p)
      && (Find(s.refs, refName).None? ==> Spine(s.odb, root, p) == {})
  {
    assert Find(s2.refs, RootRef) == Find(s.refs, RootRef);
    var root := RootCommitOid(s.refs).value;
    var p := CommitParents(n)[0];
    InDumpIsCommit(s, p);
    SpineStep(s2.odb, root, n);
    SpineGrows(s.odb, s2.odb, root, p);
  }

  lemma MoveForward(s: Snapshot, s2: Snapshot, n: Oid, refName: string, x: Oid)
    requires MoveOf(s, s2, n, refName) && InDump(s2, x)
    ensures InDump(s, x) || x == n
  {
    MoveSpine(s, s2, n, refName);
    var root := RootCommitOid(s.refs).value;
    if x != root && x != n {
      var name :| OnSpineOf(s2, root, name, x);
      if name == refName {
        assert OnSpineOf(s, root, refName, x);
      } else {
        RefTarget(s, name);
        SpineGrows(s.odb, s2.odb, root, Find(s.refs, name).value.oid);
        assert OnSpineOf(s, root, name, x);
      }
    }
  }

  lemma MoveBackward(s: Snapshot, s2: Snapshot, n: Oid, refName: string, x: Oid)
    requires MoveOf(s, s2, n, refName) && (InDump(s, x) || x == n)
    ensures InDump(s2, x)
  {
    MoveSpine(s, s2, n, refName);
    var root := RootCommitOid(s.refs).value;
    if x == n {
      assert OnSpineOf(s2, root, refName, n);
    } else if x != root {
      var name :| OnSpineOf(s, root, name, x);
      if name == refName {
        assert OnSpineOf(s2, root, refName, x);
      } else {
        RefTarget(s, name);
        SpineGrows(s.odb, s2.odb, root, Find(s.refs, name).value.oid);
        assert OnSpineOf(s2, root, name, x);
      }
    }
  }

  /** Moving a reference onto a new commit adds that commit to the dump, and keeps every
      parent of a dumped commit in the dump. */
  lemma MoveCovered(s: Snapshot, s2: Snapshot, n: Oid, refName: string)
    requires MoveOf(s, s2, n, refName)
    ensures Covered(s2)
    ensures forall x :: InDump(s2, x) <==> InDump(s, x) || x == n
  {
    MoveSpine(s, s2, n, refName);
    forall x ensures InDump(s2, x) <==> InDump(s, x) || x == n {
      if InDump(s2, x) {
        MoveForward(s, s2, n, refName, x);
      }
      if InDump(s, x) || x == n {
        MoveBackward(s, s2, n, refName, x);
      }
    }
    forall x, i | InDump(s2, x) && 0 <= i < |CommitParents(x)|
      ensures InDump(s2, CommitParents(x)[i])
    {
      assert InDump(s, CommitParents(x)[i]);
    }
  }

  /** Writing a revision onto a reference keeps every parent of a dumped commit in the dump,
      when the revision's first parent is the reference's previous target (or the root
      revision for a new reference) and all its parents are carried. */
  lemma WriteCovered(s: Snapshot, content: seq<byte>, parents: seq<Oid>, refName: string,
                     author: Signature, message: seq<byte>, time: nat)
    requires Consistent(s) && Covered(s) && RootCommitOid(s.refs).Ok?
    requires refName != HeadName && refName != RootRef && |parents| > 0
    requires forall i :: 0 <= i < |parents| ==> InDump(s, parents[i])
    requires || Find(s.refs, refName) == Some(Direct(parents[0]))
             || (Find(s.refs, refName).None? && RootCommitOid(s.refs) == Ok(parents[0]))
    ensures Covered(WriteSpec(s, content, parents, refName, author, message, time).1)
  {
    WriteFacts(s, content, parents, refName, author, message, time);
    var (n, s2) := WriteSpec(s, content, parents, refName, author, message, time);
    InDumpIsCommit(s, parents[0]);
    assert MoveOf(s, s2, n, refName);
    MoveCovered(s, s2, n, refName);
  }

  /** The parent of a save on `state` is carried by the dump, and the state's reference, if
      any, points at it. */
  lemma SaveParentInDump(s: Snapshot, state: string)
    requires Consistent(s) && |s.refs| > 1
    ensures SaveParent(s.refs, state).Ok? && InDump(s, SaveParent(s.refs, state).value)
    ensures var p := SaveParent(s.refs, state).value;
      || Find(s.refs, StateRef(state)) == Some(Direct(p))
      || (Find(s.refs, StateRef(state)).None? && RootCommitOid(s.refs) == Ok(p))
  {
    SaveParentFacts(s, state);
    StateRefNames(state, state);
    if StateTip(s.refs, state).value.Some? {
      TipInDump(s, state);
    }
  }

  /** `save_in!` keeps every parent of a dumped commit in the dump. */
  lemma SaveCovered(s: Snapshot, state: string, content: seq<byte>, author: Signature, message: seq<byte>, time: nat)
    requires Consistent(s) && Covered(s)
    ensures Covered(SaveSpec(s, state, content, author, message, time).1)
  {
    var s1 := InitSpec(s, time);
    InitConsistent(s, time);
    InitCovered(s, time);
    SaveParentInDump(s1, state);
    StateRefNames(state, state);
    var p := SaveParent(s1.refs, state).value;
    WriteCovered(s1, content, [p], StateRef(state), author, message, time);
  }

  /** `promote!` keeps every parent of a dumped commit in the dump: its second parent is the
      source state's tip. */
  lemma PromoteCovered(s: Snapshot, from: string, to: string, author: Signature, message: seq<byte>, time: nat)
    requires Consistent(s) && Covered(s) && PromoteSpec(s, from, to, author, message, time).Ok?
    ensures Covered(PromoteSpec(s, from, to, author, message, time).value.1)
  {
    PromoteParents(s, from, to, author, message, time);
    var src := PromoteSource(s.refs, from).value;
    var base := PromoteBase(s.refs, to).value;
    PromoteParentsInDump(s, from, to);
    StateRefNames(to, to);
    WriteCovered(s, ReadContent(s.odb, src).value, [base, src], StateRef(to), author, message, time);
  }

  lemma PromoteParentsInDump(s: Snapshot, from: string, to: string)
    requires Consistent(s) && |s.refs| > 1 && PromoteSource(s.refs, from).Ok?
    ensures PromoteBase(s.refs, to).Ok? && InDump(s, PromoteBase(s.refs, to).value)
    ensures InDump(s, PromoteSource(s.refs, from).value)
    ensures var base := PromoteBase(s.refs, to).value;
      || Find(s.refs, StateRef(to)) == Some(Direct(base))
      || (Find(s.refs, StateRef(to)).None? && RootCommitOid(s.refs) == Ok(base))
  {
    SaveParentInDump(s, to);
    assert StateTip(s.refs, from) == Ok(Some(PromoteSource(s.refs, from).value));
    TipInDump(s, from);
  }

  // ---------------------------------------------------------------------------------------
  // HEAD

  /** The document operations never touch HEAD, which stays on master as in a fresh
      repository; with this, every repository they build can be dumped. */
  lemma SaveKeepsHead(s: Snapshot, state: string, content: seq<byte>, author: Signature, message: seq<byte>, time: nat)
    requires WellFormed(s) && s.refs[0] == Ref(HeadName, Symbolic(MasterRef))
    ensures var s2 := SaveSpec(s, state, content, author, message, time).1;
      WellFormed(s2) && s2.refs[0] == s.refs[0]
  {
    var s1 := InitSpec(s, time);
    InitFacts(s, time, time);
    StateRefNames(state, state);
    if SaveParent(s1.refs, state).Ok? {
      var p := SaveParent(s1.refs, state).value;
      AssignShape(s1.refs, StateRef(state), Direct(WriteSpec(s1, content, [p], StateRef(state), author, message, time).0));
      AssignUnique(s1.refs, StateRef(state), Direct(WriteSpec(s1, content, [p], StateRef(state), author, message, time).0));
    }
  }

  lemma PromoteKeepsHead(s: Snapshot, from: string, to: string, author: Signature, message: seq<byte>, time: nat)
    requires WellFormed(s) && s.refs[0] == Ref(HeadName, Symbolic(MasterRef))
    requires PromoteSpec(s, from, to, author, message, time).Ok?
    ensures var s2 := PromoteSpec(s, from, to, author, message, time).value.1;
      WellFormed(s2) && s2.refs[0] == s.refs[0]
  {
    StateRefNames(to, to);
    var n := PromoteSpec(s, from, to, author, message, time).value.0;
    AssignShape(s.refs, StateRef(to), Direct(n));
    AssignUnique(s.refs, StateRef(to), Direct(n));
  }
}
