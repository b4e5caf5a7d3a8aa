/** What the operations of a document promise (lib/colonel/document.rb and its tests), proved
    about the snapshot functions of Documents: the shape of each new commit, which
    references move, that histories grow by exactly one entry, that promotions are
    recorded and stay recorded, and the invariant every operation keeps. */
module DocumentFacts {
  import opened Wrappers
  import opened Bytes
  import opened Objects
  import opened Store
  import opened Lineage
  import opened LineageFacts
  import opened Documents

  /** The repository invariant the document operations keep: every commit's parents are
      commits, every reference but HEAD points straight at a commit, and a repository that
      is not empty has its root tag. */
  ghost predicate Consistent(s: Snapshot)
  {
    && WellFormed(s)
    && Closed(s.odb)
    && (forall i :: 1 <= i < |s.refs| ==> s.refs[i].target.Direct? && IsCommit(s.odb, s.refs[i].target.oid))
    && (|s.refs| > 1 ==> Find(s.refs, RootRef).Some?)
  }

  lemma StateRefNames(a: string, b: string)
    ensures RootRef != HeadName
    ensures StateRef(a) != RootRef && StateRef(a) != HeadName
    ensures SaveInPrefix + a != StateRef(b) && SaveInPrefix + a != RootRef && SaveInPrefix + a != HeadName
    ensures StateRef(a) == StateRef(b) <==> a == b
  {
    assert StateRef(a)[5] == 'h' && RootRef[5] == 't';
    assert StateRef(a)[0] == 'r' && HeadName[0] == 'H';
    assert (SaveInPrefix + a)[9] == '/' && StateRef(b)[9] == 's';
    assert (SaveInPrefix + a)[5] == 'h';
    assert (SaveInPrefix + a)[0] == 'r';
    if StateRef(a) == StateRef(b) {
      assert a == StateRef(a)[|StatePrefix|..] && b == StateRef(b)[|StatePrefix|..];
    }
  }

  /** On a consistent repository every reference other than HEAD names a commit. */
  lemma RefTarget(s: Snapshot, name: string)
    requires Consistent(s) && name != HeadName && Find(s.refs, name).Some?
    ensures |s.refs| > 1
    ensures Find(s.refs, name).value.Direct? && IsCommit(s.odb, Find(s.refs, name).value.oid)
  {
    var i :| 0 <= i < |s.refs| && s.refs[i] == Ref(name, Find(s.refs, name).value);
  }

  /** A commit written by a revision parses back to itself. */
  lemma CommitOidParses(c: Commit)
    ensures CommitOid(c).kind == CommitKind && ParseCommit(CommitOid(c).data) == Some(c)
    ensures CommitParents(CommitOid(c)) == c.parents
  {
    ParseEncodeCommit(c);
  }

  /** The content a revision wrote is the content read back from its commit. */
  lemma ReadWritten(g: set<Oid>, content: seq<byte>, c: Commit)
    requires c.tree == TreeOf(content) && RevisionObjects(content, c) <= g
    ensures ReadContent(g, CommitOid(c)) == Ok(content)
  {
    CommitOidParses(c);
    ParseEncodeTree([Entry(ContentFile, BlobOf(content))]);
  }

  /** What `Revision.commit!` does to a repository: the commit it returns parses to exactly
      the revision asked for, its content reads back, exactly three objects are added, the
      reference names the commit and every other reference is as it was. */
  lemma WriteFacts(s: Snapshot, content: seq<byte>, parents: seq<Oid>, refName: string,
                   author: Signature, message: seq<byte>, time: nat)
    ensures var (oid, s2) := WriteSpec(s, content, parents, refName, author, message, time);
      && ParseCommit(oid.data) == Some(Commit(TreeOf(content), parents, author, message, time))
      && oid.kind == CommitKind && CommitParents(oid) == parents
      && ReadContent(s2.odb, oid) == Ok(content)
      && s2.odb == s.odb + {BlobOf(content), TreeOf(content), oid}
      && Find(s2.refs, refName) == Some(Direct(oid))
      && (forall n :: n != refName ==> Find(s2.refs, n) == Find(s.refs, n))
  {
    var c := RevisionCommit(content, parents, author, message, time);
    CommitOidParses(c);
    var (oid, s2) := WriteSpec(s, content, parents, refName, author, message, time);
    ReadWritten(s2.odb, content, c);
    forall n
      ensures Find(s2.refs, n) == if n == refName then Some(Direct(oid)) else Find(s.refs, n)
    {
      FindAssign(s.refs, refName, Direct(oid), n);
    }
  }

  /** Adding a revision whose parents are commits keeps the database closed. */
  lemma ClosedAddRevision(g: set<Oid>, content: seq<byte>, c: Commit)
    requires Closed(g) && c.tree == TreeOf(content)
    requires forall p :: p in c.parents ==> IsCommit(g, p)
    ensures Closed(g + RevisionObjects(content, c))
  {
    forall o, i | IsCommit(g + RevisionObjects(content, c), o) && 0 <= i < |CommitParents(o)|
      ensures IsCommit(g + RevisionObjects(content, c), CommitParents(o)[i])
    {
      ParentStaysCommit(g, content, c, o, i);
    }
  }

  lemma ParentStaysCommit(g: set<Oid>, content: seq<byte>, c: Commit, o: Oid, i: int)
    requires Closed(g) && c.tree == TreeOf(content)
    requires forall p :: p in c.parents ==> IsCommit(g, p)
    requires IsCommit(g + RevisionObjects(content, c), o) && 0 <= i < |CommitParents(o)|
    ensures IsCommit(g + RevisionObjects(content, c), CommitParents(o)[i])
  {
    if o == CommitOid(c) {
      CommitOidParses(c);
      assert CommitParents(o)[i] in c.parents;
    } else {
      assert o in g;
      assert IsCommit(g, o);
    }
  }

  /** Moving a reference other than HEAD to a commit keeps every reference but HEAD on a
      commit, and keeps the root tag. */
  lemma RefsAssign(s: Snapshot, g2: set<Oid>, refName: string, oid: Oid)
    requires Consistent(s) && s.odb <= g2 && refName != HeadName && |s.refs| > 1
    requires IsCommit(g2, oid)
    ensures var s2 := Snapshot(g2, Assign(s.refs, refName, Direct(oid)));
      && WellFormed(s2)
      && (forall i :: 1 <= i < |s2.refs| ==> s2.refs[i].target.Direct? && IsCommit(s2.odb, s2.refs[i].target.oid))
      && Find(s2.refs, RootRef).Some?
  {
    var refs2 := Assign(s.refs, refName, Direct(oid));
    AssignShape(s.refs, refName, Direct(oid));
    AssignUnique(s.refs, refName, Direct(oid));
    FindAssign(s.refs, refName, Direct(oid), RootRef);
    forall i | 1 <= i < |refs2|
      ensures refs2[i].target.Direct? && IsCommit(g2, refs2[i].target.oid)
    {
      if refs2[i].name != refName {
        assert refs2[i] == s.refs[i];
        assert IsCommit(s.odb, s.refs[i].target.oid);
      } else {
        FindAssign(s.refs, refName, Direct(oid), refName);
        FindUnique(refs2, i);
      }
    }
  }

  /** Writing a revision whose parents are commits of a consistent repository, and moving a
      reference other than HEAD to it, keeps the repository consistent. */
  lemma WriteConsistent(s: Snapshot, content: seq<byte>, parents: seq<Oid>, refName: string,
                        author: Signature, message: seq<byte>, time: nat)
    requires Consistent(s) && refName != HeadName && |s.refs| > 1
    requires forall p :: p in parents ==> IsCommit(s.odb, p)
    ensures Consistent(WriteSpec(s, content, parents, refName, author, message, time).1)
  {
    var c := RevisionCommit(content, parents, author, message, time);
    var g2 := s.odb + RevisionObjects(content, c);
    ClosedAddRevision(s.odb, content, c);
    CommitOidParses(c);
    assert IsCommit(g2, CommitOid(c));
    RefsAssign(s, g2, refName, CommitOid(c));
  }

  /** `init_repository` on an empty repository writes a parentless root revision with empty
      content and tags it; on any other it changes nothing, so a second call changes
      nothing. */
  lemma InitFacts(s: Snapshot, time: nat, time': nat)
    requires WellFormed(s)
    ensures var s1 := InitSpec(s, time); var root := CommitOid(RootCommit(time));
      && WellFormed(s1) && |s1.refs| > 1
      && InitSpec(s1, time') == s1
      && (|s.refs| > 1 ==> s1 == s)
      && (|s.refs| <= 1 ==>
            && s1.refs == s.refs + [Ref(RootRef, Direct(root))]
            && s1.odb == s.odb + RevisionObjects([], RootCommit(time))
            && RootCommitOid(s1.refs) == Ok(root)
            && CommitParents(root) == []
            && ReadContent(s1.odb, root) == Ok([]))
  {
    if |s.refs| <= 1 {
      InitEmpty(s, time);
    }
  }

  lemma InitEmpty(s: Snapshot, time: nat)
    requires WellFormed(s) && |s.refs| <= 1
    ensures var s1 := InitSpec(s, time); var root := CommitOid(RootCommit(time));
      && s1.refs == [s.refs[0], Ref(RootRef, Direct(root))]
      && WellFormed(s1)
      && Find(s1.refs, RootRef) == Some(Direct(root))
      && RootCommitOid(s1.refs) == Ok(root)
      && CommitParents(root) == []
      && ReadContent(s1.odb, root) == Ok([])
  {
    var c := RootCommit(time);
    var s1 := InitSpec(s, time);
    CommitOidParses(c);
    ReadWritten(s1.odb, [], c);
    assert s.refs == [s.refs[0]];
    StateRefNames("", "");
  }

  /** `init_repository` keeps the repository consistent. */
  lemma InitConsistent(s: Snapshot, time: nat)
    requires Consistent(s)
    ensures Consistent(InitSpec(s, time)) && |InitSpec(s, time).refs| > 1
  {
    if |s.refs| <= 1 {
      var c := RootCommit(time);
      var s1 := InitSpec(s, time);
      ClosedAddRevision(s.odb, [], c);
      InitEmpty(s, time);
      CommitOidParses(c);
      assert IsCommit(s1.odb, CommitOid(c));
    }
  }

  /** On a consistent, initialised repository the parent of a save is a commit: the state's
      tip when it has one, the root revision otherwise. */
  lemma SaveParentFacts(s: Snapshot, state: string)
    requires Consistent(s) && |s.refs| > 1
    ensures RootCommitOid(s.refs).Ok? && StateTip(s.refs, state).Ok? && SaveParent(s.refs, state).Ok?
    ensures IsCommit(s.odb, RootCommitOid(s.refs).value) && IsCommit(s.odb, SaveParent(s.refs, state).value)
    ensures SaveParent(s.refs, state).value ==
      if StateTip(s.refs, state).value.Some? then StateTip(s.refs, state).value.value else RootCommitOid(s.refs).value
  {
    StateRefNames(state, state);
    RefTarget(s, RootRef);
    if Find(s.refs, StateRef(state)).Some? {
      RefTarget(s, StateRef(state));
    }
  }

  /** `history` from a commit whose parents are all commits, on a repository with a root
      tag. */
  lemma HistoryOfStart(s: Snapshot, start: Oid)
    requires IsCommit(s.odb, start) && RootCommitOid(s.refs).Ok?
    requires forall i :: 0 <= i < |CommitParents(start)| ==> IsCommit(s.odb, CommitParents(start)[i])
    ensures HistoryOf(s, Some(start)) == HistoryFrom(s.odb, RootCommitOid(s.refs).value, start)
  {
    var c := LookupCommit(s.odb, start).value;
    assert c.parents == CommitParents(start);
    assert LoadParents(s.odb, c) == Ok(c.parents);
  }

  /** On a consistent repository with a root tag, the history from any commit can be
      computed. */
  lemma HistoryOfCommit(s: Snapshot, start: Oid)
    requires Consistent(s) && |s.refs| > 1 && IsCommit(s.odb, start)
    ensures RootCommitOid(s.refs).Ok?
    ensures HistoryOf(s, Some(start)) == HistoryFrom(s.odb, RootCommitOid(s.refs).value, start)
    ensures HistoryOf(s, Some(start)).Ok?
  {
    StateRefNames("", "");
    RefTarget(s, RootRef);
    ClosedHistory(s.odb, RootCommitOid(s.refs).value, start);
    HistoryOfStart(s, start);
  }

  /** A history that can be computed is unchanged by adding objects and moving references
      other than the root tag. */
  lemma HistoryOfGrows(s: Snapshot, s2: Snapshot, start: Option<Oid>)
    requires s.odb <= s2.odb && RootCommitOid(s2.refs) == RootCommitOid(s.refs)
    requires HistoryOf(s, start).Ok?
    ensures HistoryOf(s2, start) == HistoryOf(s, start)
  {
    if start.Some? {
      var c := LookupCommit(s.odb, start.value).value;
      assert LoadParents(s2.odb, c) == LoadParents(s.odb, c);
      HistoryGrows(s.odb, s2.odb, RootCommitOid(s.refs).value, start.value);
    }
  }

  /** Commits stay commits as the database grows. */
  lemma CommitsGrow(g: set<Oid>, g': set<Oid>, ps: seq<Oid>)
    requires g <= g' && forall p :: p in ps ==> IsCommit(g, p)
    ensures forall i :: 0 <= i < |ps| ==> IsCommit(g', ps[i])
  {
    forall i | 0 <= i < |ps|
      ensures IsCommit(g', ps[i])
    {
      assert ps[i] in ps;
    }
  }

  /** Moving a reference other than the root tag leaves the root revision as it was. */
  lemma RootStays(refs: seq<Ref>, refName: string, t: Target)
    requires refName != RootRef
    ensures RootCommitOid(Assign(refs, refName, t)) == RootCommitOid(refs)
  {
    FindAssign(refs, refName, t, RootRef);
  }

  /** The history from a commit whose parents are all commits, on a repository with a root
      tag: its own entry, then, unless it sits on the root, the history from its first
      parent. */
  lemma HistoryOfNew(s: Snapshot, oid: Oid, c: Commit, root: Oid)
    requires IsCommit(s.odb, oid) && ParseCommit(oid.data) == Some(c) && RootCommitOid(s.refs) == Ok(root)
    requires forall i :: 0 <= i < |c.parents| ==> IsCommit(s.odb, c.parents[i])
    requires |c.parents| >= 1 && HistoryFrom(s.odb, root, c.parents[0]).Ok?
    ensures root in c.parents ==> HistoryOf(s, Some(oid)) == Ok([EntryOf(oid, c, root)])
    ensures root !in c.parents ==>
      HistoryOf(s, Some(oid)) == Ok([EntryOf(oid, c, root)] + HistoryFrom(s.odb, root, c.parents[0]).value)
  {
    assert CommitParents(oid) == c.parents;
    HistoryOfStart(s, oid);
    HistoryUnfold(s.odb, root, oid);
  }

  /** The history from a newly written revision is its own entry followed, unless it sits on
      the root, by the history from its first parent; the root tag does not move. */
  lemma WriteHistory(s: Snapshot, content: seq<byte>, parents: seq<Oid>, refName: string,
                     author: Signature, message: seq<byte>, time: nat)
    requires Consistent(s) && |s.refs| > 1 && refName != RootRef
    requires |parents| >= 1 && forall p :: p in parents ==> IsCommit(s.odb, p)
    ensures RootCommitOid(s.refs).Ok? && HistoryOf(s, Some(parents[0])).Ok?
    ensures var root := RootCommitOid(s.refs).value;
      var c := RevisionCommit(content, parents, author, message, time);
      var (oid, s2) := WriteSpec(s, content, parents, refName, author, message, time);
      && RootCommitOid(s2.refs) == Ok(root)
      && (root in parents ==> HistoryOf(s2, Some(oid)) == Ok([EntryOf(oid, c, root)]))
      && (root !in parents ==>
            HistoryOf(s2, Some(oid)) == Ok([EntryOf(oid, c, root)] + HistoryOf(s, Some(parents[0])).value))
  {
    var c := RevisionCommit(content, parents, author, message, time);
    var oid := CommitOid(c);
    var g2 := s.odb + RevisionObjects(content, c);
    var s2 := Snapshot(g2, Assign(s.refs, refName, Direct(oid)));
    HistoryOfCommit(s, parents[0]);
    var root := RootCommitOid(s.refs).value;
    CommitOidParses(c);
    assert IsCommit(g2, oid);
    CommitsGrow(s.odb, g2, parents);
    RootStays(s.refs, refName, Direct(oid));
    HistoryGrows(s.odb, g2, root, parents[0]);
    HistoryOfNew(s2, oid, c, root);
  }

  /** `save_in!` (as documented) fails exactly when the parent cannot be found, and then
      leaves only the initialisation behind. Otherwise the new revision's commit has the
      state's previous tip (or the root) as its only parent and carries the saved content,
      it becomes the state's tip, exactly its three objects are added, and no other
      reference moves. */
  lemma SaveFacts(s: Snapshot, state: string, content: seq<byte>, author: Signature, message: seq<byte>, time: nat)
    ensures var s1 := InitSpec(s, time); var (r, s2) := SaveSpec(s, state, content, author, message, time);
      && (r.Err? <==> SaveParent(s1.refs, state).Err?)
      && (r.Err? ==> s2 == s1 && r.error == SaveParent(s1.refs, state).error)
      && (r.Ok? ==>
            && ParseCommit(r.value.data) == Some(Commit(TreeOf(content), [SaveParent(s1.refs, state).value], author, message, time))
            && ReadContent(s2.odb, r.value) == Ok(content)
            && StateTip(s2.refs, state) == Ok(Some(r.value))
            && s2.odb == s1.odb + {BlobOf(content), TreeOf(content), r.value}
            && (forall n :: n != StateRef(state) ==> Find(s2.refs, n) == Find(s1.refs, n)))
  {
    var s1 := InitSpec(s, time);
    if SaveParent(s1.refs, state).Ok? {
      WriteFacts(s1, content, [SaveParent(s1.refs, state).value], StateRef(state), author, message, time);
    }
  }

  /** On a consistent repository a save always succeeds and keeps the repository
      consistent. */
  lemma SaveConsistent(s: Snapshot, state: string, content: seq<byte>, author: Signature, message: seq<byte>, time: nat)
    requires Consistent(s)
    ensures SaveSpec(s, state, content, author, message, time).0.Ok?
    ensures Consistent(SaveSpec(s, state, content, author, message, time).1)
  {
    var s1 := InitSpec(s, time);
    InitConsistent(s, time);
    SaveParentFacts(s1, state);
    StateRefNames(state, state);
    WriteConsistent(s1, content, [SaveParent(s1.refs, state).value], StateRef(state), author, message, time);
  }

  /** After a save, the state's history is the new revision's entry followed by the
      state's history from before; a state saved for the first time has a one-entry
      history, as its new revision sits on the root. */
  lemma SaveHistory(s: Snapshot, state: string, content: seq<byte>, author: Signature, message: seq<byte>, time: nat)
    requires Consistent(s)
    ensures var s1 := InitSpec(s, time); var (r, s2) := SaveSpec(s, state, content, author, message, time);
      && r.Ok? && RootCommitOid(s1.refs).Ok? && SaveParent(s1.refs, state).Ok?
      && HistorySpec(s1, Some(state), None).Ok?
      && var p := SaveParent(s1.refs, state).value; var root := RootCommitOid(s1.refs).value;
      && var e := EntryOf(r.value, RevisionCommit(content, [p], author, message, time), root);
      && (StateTip(s1.refs, state) == Ok(None) ==> p == root && HistorySpec(s1, Some(state), None) == Ok([]))
      && (p == root ==> HistorySpec(s2, Some(state), None) == Ok([e]))
      && (p != root ==> HistorySpec(s2, Some(state), None) == Ok([e] + HistorySpec(s1, Some(state), None).value))
  {
    var s1 := InitSpec(s, time);
    InitConsistent(s, time);
    SaveParentFacts(s1, state);
    StateRefNames(state, state);
    var p := SaveParent(s1.refs, state).value;
    var c := RevisionCommit(content, [p], author, message, time);
    FindAssign(s1.refs, StateRef(state), Direct(CommitOid(c)), StateRef(state));
    WriteHistory(s1, content, [p], StateRef(state), author, message, time);
  }

  /** Writing a revision and moving a reference other than a state's leaves that state's
      history as it was. */
  lemma WriteKeepsHistory(s: Snapshot, content: seq<byte>, parents: seq<Oid>, refName: string,
                          author: Signature, message: seq<byte>, time: nat, other: string)
    requires Consistent(s) && |s.refs| > 1 && refName != RootRef && refName != StateRef(other)
    ensures HistorySpec(s, Some(other), None).Ok?
    ensures HistorySpec(WriteSpec(s, content, parents, refName, author, message, time).1, Some(other), None)
            == HistorySpec(s, Some(other), None)
  {
    var oid := CommitOid(RevisionCommit(content, parents, author, message, time));
    var s2 := WriteSpec(s, content, parents, refName, author, message, time).1;
    SaveParentFacts(s, other);
    FindAssign(s.refs, refName, Direct(oid), StateRef(other));
    RootStays(s.refs, refName, Direct(oid));
    var tip := StateTip(s.refs, other).value;
    if tip.Some? {
      StateRefNames(other, other);
      RefTarget(s, StateRef(other));
      HistoryOfCommit(s, tip.value);
      HistoryOfGrows(s, s2, tip);
    }
  }

  /** A save on one state leaves the history of every other state as it was. */
  lemma SaveKeepsOtherHistories(s: Snapshot, state: string, other: string, content: seq<byte>,
                                author: Signature, message: seq<byte>, time: nat)
    requires Consistent(s) && other != state
    ensures var s1 := InitSpec(s, time); var s2 := SaveSpec(s, state, content, author, message, time).1;
      && HistorySpec(s1, Some(other), None).Ok?
      && HistorySpec(s2, Some(other), None) == HistorySpec(s1, Some(other), None)
  {
    var s1 := InitSpec(s, time);
    InitConsistent(s, time);
    SaveParentFacts(s1, state);
    StateRefNames(state, other);
    var p := SaveParent(s1.refs, state).value;
    WriteKeepsHistory(s1, content, [p], StateRef(state), author, message, time, other);
  }

  /** `promote!` (as documented) fails with `NoSuchState` when the source state has no
      reference, and otherwise exactly when the source tip, the destination's parent or the
      source content cannot be found. On success the new commit's parents are the
      destination's previous tip (or the root) and the source tip, it carries the source
      revision's content, it becomes the destination's tip, exactly its three objects are
      added, and no other reference moves (the source state stays where it was). */
  lemma PromoteFacts(s: Snapshot, from: string, to: string, author: Signature, message: seq<byte>, time: nat)
    ensures var spec := PromoteSpec(s, from, to, author, message, time);
      && (Find(s.refs, StateRef(from)).None? ==> spec == Err(NoSuchState(from)))
      && (spec.Ok? <==> PromoteSource(s.refs, from).Ok? && PromoteBase(s.refs, to).Ok?
                        && ReadContent(s.odb, PromoteSource(s.refs, from).value).Ok?)
      && (spec.Ok? ==>
            var src := PromoteSource(s.refs, from).value;
            var content := ReadContent(s.odb, src).value;
            var (oid, s2) := spec.value;
            && ParseCommit(oid.data) == Some(Commit(TreeOf(content), [PromoteBase(s.refs, to).value, src], author, message, time))
            && ReadContent(s2.odb, oid) == Ok(content)
            && StateTip(s2.refs, to) == Ok(Some(oid))
            && s2.odb == s.odb + {BlobOf(content), TreeOf(content), oid}
            && (forall n :: n != StateRef(to) ==> Find(s2.refs, n) == Find(s.refs, n)))
  {
    var spec := PromoteSpec(s, from, to, author, message, time);
    if spec.Ok? {
      var src := PromoteSource(s.refs, from).value;
      var content := ReadContent(s.odb, src).value;
      WriteFacts(s, content, [PromoteBase(s.refs, to).value, src], StateRef(to), author, message, time);
    }
  }

  /** The source tip and the destination's parent of a promotion are commits, and the
      repository has its root tag. */
  lemma PromoteParents(s: Snapshot, from: string, to: string, author: Signature, message: seq<byte>, time: nat)
    requires Consistent(s) && PromoteSpec(s, from, to, author, message, time).Ok?
    ensures |s.refs| > 1 && PromoteSource(s.refs, from).Ok? && PromoteBase(s.refs, to).Ok?
    ensures IsCommit(s.odb, PromoteSource(s.refs, from).value) && IsCommit(s.odb, PromoteBase(s.refs, to).value)
    ensures PromoteBase(s.refs, to).value ==
      if StateTip(s.refs, to).value.Some? then StateTip(s.refs, to).value.value else RootCommitOid(s.refs).value
  {
    StateRefNames(from, to);
    RefTarget(s, StateRef(from));
    SaveParentFacts(s, to);
  }

  /** On a consistent repository a successful promotion keeps it consistent. */
  lemma PromoteConsistent(s: Snapshot, from: string, to: string, author: Signature, message: seq<byte>, time: nat)
    requires Consistent(s) && PromoteSpec(s, from, to, author, message, time).Ok?
    ensures Consistent(PromoteSpec(s, from, to, author, message, time).value.1)
  {
    PromoteParents(s, from, to, author, message, time);
    StateRefNames(to, from);
    var src := PromoteSource(s.refs, from).value;
    var base := PromoteBase(s.refs, to).value;
    WriteConsistent(s, ReadContent(s.odb, src).value, [base, src], StateRef(to), author, message, time);
  }

  /** After a promotion, the destination's history is the new `promotion` entry followed by
      its history from before; a destination promoted to for the first time has a one-entry
      history, as the new revision sits on the root. */
  lemma PromoteHistory(s: Snapshot, from: string, to: string, author: Signature, message: seq<byte>, time: nat)
    requires Consistent(s) && PromoteSpec(s, from, to, author, message, time).Ok?
    ensures RootCommitOid(s.refs).Ok? && PromoteBase(s.refs, to).Ok? && PromoteSource(s.refs, from).Ok?
    ensures HistorySpec(s, Some(to), None).Ok?
    ensures var (oid, s2) := PromoteSpec(s, from, to, author, message, time).value;
      var root := RootCommitOid(s.refs).value;
      var src := PromoteSource(s.refs, from).value;
      var base := PromoteBase(s.refs, to).value;
      var c := RevisionCommit(ReadContent(s.odb, src).value, [base, src], author, message, time);
      var e := EntryOf(oid, c, root);
      && e.entryType == Some(Promotion)
      && (root in [base, src] ==> HistorySpec(s2, Some(to), None) == Ok([e]))
      && (root !in [base, src] ==> HistorySpec(s2, Some(to), None) == Ok([e] + HistorySpec(s, Some(to), None).value))
  {
    PromoteParents(s, from, to, author, message, time);
    StateRefNames(to, to);
    var src := PromoteSource(s.refs, from).value;
    var base := PromoteBase(s.refs, to).value;
    var content := ReadContent(s.odb, src).value;
    var c := RevisionCommit(content, [base, src], author, message, time);
    FindAssign(s.refs, StateRef(to), Direct(CommitOid(c)), StateRef(to));
    WriteHistory(s, content, [base, src], StateRef(to), author, message, time);
  }

  /** A promotion to one state leaves the history of every other state as it was. */
  lemma PromoteKeepsOtherHistories(s: Snapshot, from: string, to: string, other: string,
                                   author: Signature, message: seq<byte>, time: nat)
    requires Consistent(s) && other != to && PromoteSpec(s, from, to, author, message, time).Ok?
    ensures HistorySpec(s, Some(other), None).Ok?
    ensures HistorySpec(PromoteSpec(s, from, to, author, message, time).value.1, Some(other), None)
            == HistorySpec(s, Some(other), None)
  {
    PromoteParents(s, from, to, author, message, time);
    StateRefNames(to, other);
    var src := PromoteSource(s.refs, from).value;
    var base := PromoteBase(s.refs, to).value;
    WriteKeepsHistory(s, ReadContent(s.odb, src).value, [base, src], StateRef(to), author, message, time, other);
  }

  /** After promoting `from` to `to`, `has_been_promoted?(to, r)` holds of the revision `r`
      that was `from`'s tip. */
  lemma PromoteRecorded(s: Snapshot, from: string, to: string, author: Signature, message: seq<byte>, time: nat)
    requires Consistent(s) && PromoteSpec(s, from, to, author, message, time).Ok?
    ensures PromoteSource(s.refs, from).Ok?
    ensures PromotedOf(PromoteSpec(s, from, to, author, message, time).value.1, to, Some(PromoteSource(s.refs, from).value))
            == Ok(true)
  {
    PromoteParents(s, from, to, author, message, time);
    PromoteConsistent(s, from, to, author, message, time);
    var src := PromoteSource(s.refs, from).value;
    var base := PromoteBase(s.refs, to).value;
    var c := RevisionCommit(ReadContent(s.odb, src).value, [base, src], author, message, time);
    var s2 := PromoteSpec(s, from, to, author, message, time).value.1;
    CommitOidParses(c);
    FindAssign(s.refs, StateRef(to), Direct(CommitOid(c)), StateRef(to));
    assert IsCommit(s2.odb, CommitOid(c));
    PromotedAtTip(s2.odb, CommitOid(c), src);
  }

  /** A recorded promotion stays recorded when a revision is written on top of the
      destination's tip, or anywhere else. */
  lemma PromotedStaysAfterWrite(s: Snapshot, content: seq<byte>, parents: seq<Oid>, refName: string,
                                author: Signature, message: seq<byte>, time: nat, to: string, rev: Option<Oid>)
    requires Consistent(s) && |s.refs| > 1 && refName != HeadName
    requires forall p :: p in parents ==> IsCommit(s.odb, p)
    requires PromotedOf(s, to, rev) == Ok(true)
    requires refName == StateRef(to) ==> |parents| >= 1 && StateTip(s.refs, to) == Ok(Some(parents[0]))
    ensures PromotedOf(WriteSpec(s, content, parents, refName, author, message, time).1, to, rev) == Ok(true)
  {
    var c := RevisionCommit(content, parents, author, message, time);
    var oid := CommitOid(c);
    var s2 := WriteSpec(s, content, parents, refName, author, message, time).1;
    var tip := Find(s.refs, StateRef(to)).value.oid;
    WriteConsistent(s, content, parents, refName, author, message, time);
    PromotedGrows(s.odb, s2.odb, tip, rev);
    FindAssign(s.refs, refName, Direct(oid), StateRef(to));
    if refName == StateRef(to) {
      CommitOidParses(c);
      assert IsCommit(s2.odb, oid);
      PromotedExtends(s2.odb, oid, rev);
    }
  }

  /** A recorded promotion stays recorded after any later save. */
  lemma PromotedStaysAfterSave(s: Snapshot, state: string, content: seq<byte>, author: Signature,
                               message: seq<byte>, time: nat, to: string, rev: Option<Oid>)
    requires Consistent(s) && PromotedOf(s, to, rev) == Ok(true)
    ensures PromotedOf(SaveSpec(s, state, content, author, message, time).1, to, rev) == Ok(true)
  {
    StateRefNames(to, state);
    StateRefNames(state, to);
    RefTarget(s, StateRef(to));
    SaveParentFacts(s, state);
    var p := SaveParent(s.refs, state).value;
    PromotedStaysAfterWrite(s, content, [p], StateRef(state), author, message, time, to, rev);
  }

  /** A recorded promotion stays recorded after any later promotion. */
  lemma PromotedStaysAfterPromote(s: Snapshot, from: string, to': string, author: Signature,
                                  message: seq<byte>, time: nat, to: string, rev: Option<Oid>)
    requires Consistent(s) && PromotedOf(s, to, rev) == Ok(true)
    requires PromoteSpec(s, from, to', author, message, time).Ok?
    ensures PromotedOf(PromoteSpec(s, from, to', author, message, time).value.1, to, rev) == Ok(true)
  {
    PromoteParents(s, from, to', author, message, time);
    StateRefNames(to, to');
    StateRefNames(to', to);
    var src := PromoteSource(s.refs, from).value;
    var base := PromoteBase(s.refs, to').value;
    PromotedStaysAfterWrite(s, ReadContent(s.odb, src).value, [base, src], StateRef(to'), author, message, time, to, rev);
  }

  /** `save_in!` as written moves no state: every state's tip and the root tag are as
      initialisation left them, and the result is the revision the document had before. */
  lemma SaveAsWrittenLeavesStates(s: Snapshot, revision: Option<Oid>, state: string, content: seq<byte>,
                                  author: Signature, message: seq<byte>, time: nat)
    ensures var s1 := InitSpec(s, time); var (r, s2) := SaveAsWrittenSpec(s, revision, state, content, author, message, time);
      && (r.Ok? <==> SaveParent(s1.refs, state).Ok?)
      && (r.Ok? ==> r.value == revision)
      && RootCommitOid(s2.refs) == RootCommitOid(s1.refs)
      && (forall st :: StateTip(s2.refs, st) == StateTip(s1.refs, st))
  {
    var s1 := InitSpec(s, time);
    if SaveParent(s1.refs, state).Ok? {
      var p := SaveParent(s1.refs, state).value;
      var oid := CommitOid(RevisionCommit(content, [p], author, message, time));
      StateRefNames(state, state);
      RootStays(s1.refs, SaveInPrefix + state, Direct(oid));
      forall st
        ensures Find(Assign(s1.refs, SaveInPrefix + state, Direct(oid)), StateRef(st)) == Find(s1.refs, StateRef(st))
      {
        StateRefNames(state, st);
        FindAssign(s1.refs, SaveInPrefix + state, Direct(oid), StateRef(st));
      }
    }
  }

  /** Hence `save_in!` as written leaves every state's history, the saved state's included,
      as it was after initialisation. */
  lemma SaveAsWrittenKeepsHistories(s: Snapshot, revision: Option<Oid>, state: string, other: string,
                                    content: seq<byte>, author: Signature, message: seq<byte>, time: nat)
    requires Consistent(s)
    ensures var s1 := InitSpec(s, time); var s2 := SaveAsWrittenSpec(s, revision, state, content, author, message, time).1;
      && HistorySpec(s1, Some(other), None).Ok?
      && HistorySpec(s2, Some(other), None) == HistorySpec(s1, Some(other), None)
  {
    var s1 := InitSpec(s, time);
    InitConsistent(s, time);
    SaveParentFacts(s1, state);
    StateRefNames(state, other);
    var p := SaveParent(s1.refs, state).value;
    WriteKeepsHistory(s1, content, [p], SaveInPrefix + state, author, message, time, other);
  }

  /** The initial repository is consistent. */
  lemma FreshConsistent()
    ensures Consistent(Fresh)
  {
    assert Fresh.refs == [Ref(HeadName, Symbolic(MasterRef))];
  }

  /** The first save of a new document, as written and as documented: as written it
      answers `nil` and leaves `master` without history; as documented it answers the new
      revision, which is `master`'s tip and its one-entry history. */
  lemma FirstSave(content: seq<byte>, author: Signature, message: seq<byte>, time: nat)
    ensures var (r, s2) := SaveAsWrittenSpec(Fresh, None, "master", content, author, message, time);
      r == Ok(None) && HistorySpec(s2, Some("master"), None) == Ok([])
    ensures var (r, s2) := SaveSpec(Fresh, "master", content, author, message, time);
      && r.Ok? && StateTip(s2.refs, "master") == Ok(Some(r.value))
      && HistorySpec(s2, Some("master"), None).Ok? && |HistorySpec(s2, Some("master"), None).value| == 1
  {
    FreshConsistent();
    var s1 := InitSpec(Fresh, time);
    InitEmpty(Fresh, time);
    StateRefNames("master", "master");
    assert Find(s1.refs, StateRef("master")) == None;
    SaveAsWrittenLeavesStates(Fresh, None, "master", content, author, message, time);
    SaveAsWrittenKeepsHistories(Fresh, None, "master", "master", content, author, message, time);
    SaveFacts(Fresh, "master", content, author, message, time);
    SaveHistory(Fresh, "master", content, author, message, time);
  }

  /** `promote!` as written commits the text `null` whatever the source holds, so the
      promoted revision's content differs from the source revision's whenever that is not
      `null`; as documented it is the source revision's content. */
  lemma PromoteAsWrittenContent(s: Snapshot, from: string, to: string, author: Signature, message: seq<byte>, time: nat)
    requires PromoteSpec(s, from, to, author, message, time).Ok?
    ensures PromoteAsWrittenSpec(s, from, to, author, message, time).Ok?
    ensures var (oid, s2) := PromoteAsWrittenSpec(s, from, to, author, message, time).value;
      ReadContent(s2.odb, oid) == Ok(Ascii("null"))
    ensures var (oid, s2) := PromoteSpec(s, from, to, author, message, time).value;
      ReadContent(s2.odb, oid) == ReadContent(s.odb, PromoteSource(s.refs, from).value)
  {
    var src := PromoteSource(s.refs, from).value;
    var base := PromoteBase(s.refs, to).value;
    WriteFacts(s, Ascii("null"), [base, src], StateRef(to), author, message, time);
    PromoteFacts(s, from, to, author, message, time);
  }
}
