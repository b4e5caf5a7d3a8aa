/** A versioned document (lib/colonel/document.rb): one repository per document, one
    reference per state (`refs/heads/<state>`), every save a one-parent commit on top of its
    state, every promotion a two-parent commit on the destination state, and all histories
    hanging off one zero-parent root commit tagged `refs/tags/root`.

    The state changes are first stated as functions on repository snapshots (`InitSpec`,
    `SaveSpec`, `PromoteSpec`); the methods of `Document` are proved to carry them out, and
    the properties that lib/colonel/document.rb's documentation and tests promise are proved
    about the functions in DocumentFacts. */
module Documents {
  import opened Wrappers
  import opened Bytes
  import opened Objects
  import opened Store
  import opened Lineage

  /** The bytes of an ASCII text. */
  function Ascii(s: string): seq<byte>
  {
    seq(|s|, i requires 0 <= i < |s| => (s[i] as int % 256) as byte)
  }

  /** The one file of a revision's tree: it holds the serialized content. */
  const ContentFile := Ascii("content")

  /** Author and message of the root revision: a choice of this model, as `Revision` is not
      part of it. */
  const Colonel := Signature(Ascii("The Colonel"), Ascii("colonel@example.com"))
  const FirstCommitMessage := Ascii("First Commit")

  /** The three objects a revision writes: the content blob, a one-entry tree naming it, and
      the commit. */
  function BlobOf(content: seq<byte>): Oid
  {
    Hash(BlobKind, content)
  }

  function TreeOf(content: seq<byte>): Oid
  {
    Hash(TreeKind, EncodeTree([Entry(ContentFile, BlobOf(content))]))
  }

  function RevisionCommit(content: seq<byte>, parents: seq<Oid>, author: Signature, message: seq<byte>, time: nat): Commit
  {
    Commit(TreeOf(content), parents, author, message, time)
  }

  function CommitOid(c: Commit): Oid
  {
    Hash(CommitKind, EncodeCommit(c))
  }

  function RevisionObjects(content: seq<byte>, c: Commit): set<Oid>
  {
    {BlobOf(content), TreeOf(content), CommitOid(c)}
  }

  /** The root revision `init_repository` writes: empty content, no parents. */
  function RootCommit(time: nat): Commit
  {
    RevisionCommit([], [], Colonel, FirstCommitMessage, time)
  }

  /** `Revision.commit!` / `Revision#write!`: write the revision's objects, then point the
      reference at the new commit (creating it if needed). */
  function WriteSpec(s: Snapshot, content: seq<byte>, parents: seq<Oid>, refName: string,
                     author: Signature, message: seq<byte>, time: nat): (Oid, Snapshot)
  {
    var c := RevisionCommit(content, parents, author, message, time);
    (CommitOid(c), Snapshot(s.odb + RevisionObjects(content, c), Assign(s.refs, refName, Direct(CommitOid(c)))))
  }

  /** `init_repository`: on an empty repository, write the root revision and tag it; on any
      other, nothing. */
  function InitSpec(s: Snapshot, time: nat): Snapshot
  {
    if |s.refs| > 1 then s
    else
      var c := RootCommit(time);
      Snapshot(s.odb + RevisionObjects([], c), s.refs + [Ref(RootRef, Direct(CommitOid(c)))])
  }

  /** The parent of a new save on `state`: the state's tip, or the root revision when the
      state has never been used. */
  function SaveParent(refs: seq<Ref>, state: string): Result<Oid, Error>
  {
    var tip :- StateTip(refs, state);
    if tip.Some? then Ok(tip.value) else RootCommitOid(refs)
  }

  /** `save_in!` as its documentation describes it: initialise the repository if needed,
      then commit the content on top of the state and move the state's reference. The
      result is the new revision; the snapshot is the repository afterwards (initialised
      even when the save itself fails). */
  function SaveSpec(s: Snapshot, state: string, content: seq<byte>, author: Signature, message: seq<byte>, time: nat)
    : (Result<Oid, Error>, Snapshot)
  {
    var s1 := InitSpec(s, time);
    match SaveParent(s1.refs, state)
    case Err(e) => (Err(e), s1)
    case Ok(p) =>
      var w := WriteSpec(s1, content, [p], StateRef(state), author, message, time);
      (Ok(w.0), w.1)
  }

  /** The misspelt reference prefix `save_in!` writes to. */
  const SaveInPrefix := "refs/head/"

  /** `save_in!` as written: the new commit goes to `refs/head/<state>`, which no reader
      looks at, and the result is the document's revision from before the save. */
  function SaveAsWrittenSpec(s: Snapshot, revision: Option<Oid>, state: string, content: seq<byte>,
                             author: Signature, message: seq<byte>, time: nat): (Result<Option<Oid>, Error>, Snapshot)
  {
    var s1 := InitSpec(s, time);
    match SaveParent(s1.refs, state)
    case Err(e) => (Err(e), s1)
    case Ok(p) =>
      var w := WriteSpec(s1, content, [p], SaveInPrefix + state, author, message, time);
      (Ok(revision), w.1)
  }

  /** The tip of the state a promotion starts from: `from_ref.target_id`, which fails when
      the state has no reference. */
  function PromoteSource(refs: seq<Ref>, from: string): Result<Oid, Error>
  {
    match Find(refs, StateRef(from))
    case None => Err(NoSuchState(from))
    case Some(Symbolic(n)) => Err(NotDirect(StateRef(from)))
    case Some(Direct(o)) => Ok(o)
  }

  /** The first parent of a promotion: the destination's tip, or the root revision when the
      destination has never been used. */
  function PromoteBase(refs: seq<Ref>, to: string): Result<Oid, Error>
  {
    SaveParent(refs, to)
  }

  /** `promote!` as its documentation and tests describe it: a commit on `to` whose parents
      are the destination's previous tip (or the root) and the source's tip, carrying the
      content of the source revision. */
  function PromoteSpec(s: Snapshot, from: string, to: string, author: Signature, message: seq<byte>, time: nat)
    : Result<(Oid, Snapshot), Error>
  {
    var src :- PromoteSource(s.refs, from);
    var base :- PromoteBase(s.refs, to);
    var content :- ReadContent(s.odb, src);
    Ok(WriteSpec(s, content, [base, src], StateRef(to), author, message, time))
  }

  /** `promote!` as written: the content committed is `@content.to_json` of an instance
      variable nothing assigns, i.e. the JSON text `null`. */
  function PromoteAsWrittenSpec(s: Snapshot, from: string, to: string, author: Signature, message: seq<byte>, time: nat)
    : Result<(Oid, Snapshot), Error>
  {
    var src :- PromoteSource(s.refs, from);
    var base :- PromoteBase(s.refs, to);
    Ok(WriteSpec(s, Ascii("null"), [base, src], StateRef(to), author, message, time))
  }

  /** Where `history` starts: the tip of `state`, or the document's revision when no state is
      given. */
  function HistoryStart(refs: seq<Ref>, state: Option<string>, revision: Option<Oid>): Result<Option<Oid>, Error>
  {
    if state.Some? then StateTip(refs, state.value) else Ok(revision)
  }

  /** `history` from `start`: empty when there is nothing to start from. */
  function HistoryOf(s: Snapshot, start: Option<Oid>): Result<seq<HistoryEntry>, Error>
  {
    if start.None? then Ok([])
    else
      var c :- LookupCommit(s.odb, start.value);
      var ps :- LoadParents(s.odb, c);
      var root :- RootCommitOid(s.refs);
      HistoryFrom(s.odb, root, start.value)
  }

  /** `history(state)` on a document whose revision is `revision`. */
  function HistorySpec(s: Snapshot, state: Option<string>, revision: Option<Oid>): Result<seq<HistoryEntry>, Error>
  {
    var start :- HistoryStart(s.refs, state, revision);
    HistoryOf(s, start)
  }

  /** `has_been_promoted?(to, rev)`: false when `to` has no reference. */
  function PromotedOf(s: Snapshot, to: string, rev: Option<Oid>): Result<bool, Error>
  {
    match Find(s.refs, StateRef(to))
    case None => Ok(false)
    case Some(Symbolic(n)) => Err(NotDirect(StateRef(to)))
    case Some(Direct(tip)) => Promoted(s.odb, tip, rev)
  }

  /** A result with `prefix` in front of a computed tail, or the tail's error. */
  function Prepend<T>(prefix: seq<T>, r: Result<seq<T>, Error>): Result<seq<T>, Error>
  {
    if r.Ok? then Ok(prefix + r.value) else r
  }

  lemma PrependNothing<T>(r: Result<seq<T>, Error>)
    ensures Prepend([], r) == r
  {
    if r.Ok? {
      assert [] + r.value == r.value;
    }
  }

  lemma PrependTwice<T>(a: seq<T>, b: seq<T>, r: Result<seq<T>, Error>)
    ensures Prepend(a, Prepend(b, r)) == Prepend(a + b, r)
  {
    if r.Ok? {
      assert a + (b + r.value) == (a + b) + r.value;
    }
  }

  class Document {
    const id: string
    /** The content the next save commits (`@latest_revision`'s content). */
    var content: seq<byte>
    /** `@revision`: the revision the document was last saved or loaded at. */
    var revision: Option<Oid>
    const repo: Repository

    ghost predicate Valid()
      reads this, repo
    {
      repo.Valid()
    }

    /** `Document.new(content, id: id)` on a repository of its own. */
    constructor (id: string, content: seq<byte>)
      ensures Valid() && fresh(repo)
      ensures this.id == id && this.content == content && revision == None
      ensures repo.Contents() == Fresh
    {
      this.id := id;
      this.content := content;
      revision := None;
      repo := new Repository();
    }

    /** Writes the three objects of a revision. */
    method WriteObjects(content: seq<byte>, c: Commit) returns (oid: Oid)
      requires Valid()
      modifies repo
      ensures Valid() && oid == CommitOid(c)
      ensures repo.Contents() == Snapshot(old(repo.odb) + RevisionObjects(content, c), old(repo.refs))
    {
      var blob := repo.Write(BlobKind, content);
      var tree := repo.Write(TreeKind, EncodeTree([Entry(ContentFile, blob)]));
      oid := repo.Write(CommitKind, EncodeCommit(c));
    }

    /** `Revision.commit!(repository, content, parents, ref, author, message, timestamp)`. */
    method CommitRevision(content: seq<byte>, parents: seq<Oid>, refName: string,
                          author: Signature, message: seq<byte>, time: nat) returns (oid: Oid)
      requires Valid()
      modifies repo
      ensures Valid()
      ensures (oid, repo.Contents()) == WriteSpec(old(repo.Contents()), content, parents, refName, author, message, time)
    {
      var c := RevisionCommit(content, parents, author, message, time);
      oid := WriteObjects(content, c);
      repo.Move(refName, Direct(oid));
    }

    /** `init_repository(repository, timestamp)`. */
    method InitRepository(time: nat)
      requires Valid()
      modifies repo
      ensures Valid()
      ensures repo.Contents() == InitSpec(old(repo.Contents()), time)
    {
      if !repo.IsEmpty() {
        return;
      }
      var c := RootCommit(time);
      var oid := WriteObjects([], c);
      var e := repo.Create(RootRef, Direct(oid));
      assert e.None?;
    }

    /** `save_in!(state, author, message, timestamp)` as documented: the new revision becomes
        the document's revision and is returned. */
    method SaveIn(state: string, author: Signature, message: seq<byte>, time: nat) returns (r: Result<Oid, Error>)
      requires Valid()
      modifies this, repo
      ensures Valid() && content == old(content)
      ensures (r, repo.Contents()) == SaveSpec(old(repo.Contents()), state, content, author, message, time)
      ensures revision == if r.Ok? then Some(r.value) else old(revision)
    {
      InitRepository(time);
      var p := SaveParent(repo.refs, state);
      if p.Err? {
        return Err(p.error);
      }
      var oid := CommitRevision(content, [p.value], StateRef(state), author, message, time);
      revision := Some(oid);
      return Ok(oid);
    }

    /** `save!(author, message, timestamp)`: a save on `master`. */
    method Save(author: Signature, message: seq<byte>, time: nat) returns (r: Result<Oid, Error>)
      requires Valid()
      modifies this, repo
      ensures Valid() && content == old(content)
      ensures (r, repo.Contents()) == SaveSpec(old(repo.Contents()), "master", content, author, message, time)
      ensures revision == if r.Ok? then Some(r.value) else old(revision)
    {
      r := SaveIn("master", author, message, time);
    }

    /** `save_in!` as written (see `SaveAsWrittenSpec`). */
    method SaveInAsWritten(state: string, author: Signature, message: seq<byte>, time: nat)
      returns (r: Result<Option<Oid>, Error>)
      requires Valid()
      modifies repo
      ensures Valid()
      ensures (r, repo.Contents()) == SaveAsWrittenSpec(old(repo.Contents()), revision, state, content, author, message, time)
    {
      InitRepository(time);
      var p := SaveParent(repo.refs, state);
      if p.Err? {
        return Err(p.error);
      }
      var oid := CommitRevision(content, [p.value], SaveInPrefix + state, author, message, time);
      return Ok(revision);
    }

    /** `promote!(from, to, author, message, timestamp)` committing the source revision's
        content. */
    method Promote(from: string, to: string, author: Signature, message: seq<byte>, time: nat)
      returns (r: Result<Oid, Error>)
      requires Valid()
      modifies repo
      ensures Valid()
      ensures var spec := PromoteSpec(old(repo.Contents()), from, to, author, message, time);
        if spec.Ok? then r == Ok(spec.value.0) && repo.Contents() == spec.value.1
        else r == Err(spec.error) && repo.Contents() == old(repo.Contents())
    {
      var src := PromoteSource(repo.refs, from);
      if src.Err? {
        return Err(src.error);
      }
      var base := PromoteBase(repo.refs, to);
      if base.Err? {
        return Err(base.error);
      }
      var fromContent := ReadContent(repo.odb, src.value);
      if fromContent.Err? {
        return Err(fromContent.error);
      }
      var oid := CommitRevision(fromContent.value, [base.value, src.value], StateRef(to), author, message, time);
      return Ok(oid);
    }

    /** `promote!` as written (see `PromoteAsWrittenSpec`). */
    method PromoteAsWritten(from: string, to: string, author: Signature, message: seq<byte>, time: nat)
      returns (r: Result<Oid, Error>)
      requires Valid()
      modifies repo
      ensures Valid()
      ensures var spec := PromoteAsWrittenSpec(old(repo.Contents()), from, to, author, message, time);
        if spec.Ok? then r == Ok(spec.value.0) && repo.Contents() == spec.value.1
        else r == Err(spec.error) && repo.Contents() == old(repo.Contents())
    {
      var src := PromoteSource(repo.refs, from);
      if src.Err? {
        return Err(src.error);
      }
      var base := PromoteBase(repo.refs, to);
      if base.Err? {
        return Err(base.error);
      }
      var oid := CommitRevision(Ascii("null"), [base.value, src.value], StateRef(to), author, message, time);
      return Ok(oid);
    }

    /** `history(state)`: the entries of the first-parent walk from the start, newest first. */
    method History(state: Option<string>) returns (r: Result<seq<HistoryEntry>, Error>)
      ensures r == HistorySpec(repo.Contents(), state, revision)
    {
      var g := repo.odb;
      var start := HistoryStart(repo.refs, state, revision);
      if start.Err? {
        return Err(start.error);
      }
      if start.value.None? {
        return Ok([]);
      }
      var first := start.value.value;
      var commit := LookupCommit(g, first);
      if commit.Err? {
        return Err(commit.error);
      }
      var ps := LoadParents(g, commit.value);
      if ps.Err? {
        return Err(ps.error);
      }
      var root := RootCommitOid(repo.refs);
      if root.Err? {
        return Err(root.error);
      }
      var results: seq<HistoryEntry> := [];
      var cur := first;
      var c := commit.value;
      PrependNothing(HistoryFrom(g, root.value, first));
      while true
        invariant LookupCommit(g, cur) == Ok(c)
        invariant HistoryFrom(g, root.value, first) == Prepend(results, HistoryFrom(g, root.value, cur))
        decreases |cur.data|
      {
        var parents := LoadParents(g, c);
        if parents.Err? {
          return Err(parents.error);
        }
        var entry := EntryOf(cur, c, root.value);
        if IsFirstCommit(parents.value, root.value) || |parents.value| == 0 {
          return Ok(results + [entry]);
        }
        var next := parents.value[0];
        assert HistoryFrom(g, root.value, cur) == Prepend([entry], HistoryFrom(g, root.value, next));
        PrependTwice(results, [entry], HistoryFrom(g, root.value, next));
        results := results + [entry];
        cur := next;
        c := LookupCommit(g, cur).value;
      }
    }

    /** `has_ancestor?(start, dir) { |c| test }`. */
    method HasAncestor(start: Option<Oid>, dir: Direction, test: Oid -> Result<bool, Error>) returns (r: Result<bool, Error>)
      ensures r == AncestorWalk(repo.odb, start, dir, test)
    {
      var g := repo.odb;
      var cur := start;
      while cur.Some?
        invariant AncestorWalk(g, start, dir, test) == AncestorWalk(g, cur, dir, test)
        decreases if cur.Some? then |cur.value.data| + 1 else 0
      {
        var c := LookupCommit(g, cur.value);
        if c.Err? {
          return Err(c.error);
        }
        var passed := test(cur.value);
        if passed.Err? {
          return Err(passed.error);
        }
        if passed.value {
          return Ok(true);
        }
        var ps := LoadParents(g, c.value);
        if ps.Err? {
          return Err(ps.error);
        }
        if dir == Last && OnMaster(ps.value) {
          break;
        }
        if |ps.value| == 0 {
          break;
        }
        cur := Some(Step(ps.value, dir));
      }
      return Ok(false);
    }

    /** `has_been_promoted?(to, rev)`: `rev` defaults to the document's revision. The outer
        first-parent walk is written out; each of its commits runs the inner last-parent walk
        through `HasAncestor`. */
    method HasBeenPromoted(to: string, rev: Option<Oid>) returns (r: Result<bool, Error>)
      ensures r == PromotedOf(repo.Contents(), to, if rev.Some? then rev else revision)
    {
      var g := repo.odb;
      var wanted := if rev.Some? then rev else revision;
      var eq := RevisionTest(wanted);
      var tipRef := Find(repo.refs, StateRef(to));
      if tipRef.None? {
        return Ok(false);
      }
      if tipRef.value.Symbolic? {
        return Err(NotDirect(StateRef(to)));
      }
      var tip := tipRef.value.oid;
      var test := SourceTest(g, wanted);
      var cur := tip;
      while true
        invariant AncestorWalk(g, Some(tip), First, test) == AncestorWalk(g, Some(cur), First, test)
        decreases |cur.data|
      {
        var c := LookupCommit(g, cur);
        if c.Err? {
          return Err(c.error);
        }
        var bcParents := LoadParents(g, c.value);
        if bcParents.Err? {
          return Err(bcParents.error);
        }
        var found := HasAncestor(LastParent(bcParents.value), Last, eq);
        if found.Err? {
          return Err(found.error);
        }
        if found.value {
          return Ok(true);
        }
        if |bcParents.value| == 0 {
          return Ok(false);
        }
        cur := bcParents.value[0];
      }
    }
  }
}
