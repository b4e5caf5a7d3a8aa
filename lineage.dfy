/** The read side of a document's commit graph (lib/colonel/document.rb): how a state's
    reference resolves, how a commit's parents are loaded, the entries `history` yields, and
    the two-level walk behind `has_been_promoted?`. All of it is stated over a snapshot of
    the object database (`g`) and of the reference table. */
module Lineage {
  import opened Wrappers
  import opened Bytes
  import opened Objects
  import opened Store

  const RootRef := "refs/tags/root"
  const StatePrefix := "refs/heads/"

  /** The reference that holds the tip of a state. */
  function StateRef(state: string): string
  {
    StatePrefix + state
  }

  /** The object database holds `oid` and it is a well-formed commit. */
  predicate IsCommit(g: set<Oid>, oid: Oid)
  {
    oid in g && oid.kind == CommitKind && ParseCommit(oid.data).Some?
  }

  /** `repository.lookup(oid)` of an object that must be a commit. Every parent of a commit
      found this way has a shorter name than the commit. */
  function LookupCommit(g: set<Oid>, oid: Oid): (r: Result<Commit, Error>)
    ensures r.Ok? <==> IsCommit(g, oid)
    ensures r.Ok? ==> ParseCommit(oid.data) == Some(r.value)
    ensures r.Ok? ==> forall p :: p in r.value.parents ==> |p.data| < |oid.data|
  {
    if oid !in g then Err(ObjectMissing(oid))
    else if oid.kind != CommitKind then Err(NotACommit(oid))
    else match ParseCommit(oid.data)
      case None => Err(NotACommit(oid))
      case Some(c) => Ok(c)
  }

  /** The first parent that cannot be looked up as a commit, if any. */
  function FirstBadParent(g: set<Oid>, ps: seq<Oid>): (r: Option<Error>)
    ensures r.None? <==> forall i :: 0 <= i < |ps| ==> IsCommit(g, ps[i])
  {
    if |ps| == 0 then None
    else if !IsCommit(g, ps[0]) then Some(LookupCommit(g, ps[0]).error)
    else
      CommitsSplit(g, ps);
      FirstBadParent(g, ps[1..])
  }

  lemma CommitsSplit(g: set<Oid>, ps: seq<Oid>)
    requires |ps| > 0 && IsCommit(g, ps[0])
    ensures (forall i :: 0 <= i < |ps| ==> IsCommit(g, ps[i])) <==>
      (forall i :: 0 <= i < |ps[1..]| ==> IsCommit(g, ps[1..][i]))
  {
    assert forall i :: 1 <= i < |ps| ==> ps[i] == ps[1..][i - 1];
  }

  /** `commit.parents`: Rugged looks every parent up as a commit. */
  function LoadParents(g: set<Oid>, c: Commit): (r: Result<seq<Oid>, Error>)
    ensures r.Ok? <==> forall i :: 0 <= i < |c.parents| ==> IsCommit(g, c.parents[i])
    ensures r.Ok? ==> r.value == c.parents
  {
    match FirstBadParent(g, c.parents)
    case Some(e) => Err(e)
    case None => Ok(c.parents)
  }

  /** `repository.lookup(oid)` of an object used as a tree: its entries. */
  function LookupTree(g: set<Oid>, oid: Oid): (r: Result<seq<Entry>, Error>)
    ensures r.Ok? <==> oid in g && oid.kind == TreeKind && ParseTree(oid.data).Some?
    ensures r.Ok? ==> ParseTree(oid.data) == Some(r.value)
  {
    if oid !in g then Err(ObjectMissing(oid))
    else if oid.kind != TreeKind then Err(NotATree(oid))
    else match ParseTree(oid.data)
      case None => Err(NotATree(oid))
      case Some(es) => Ok(es)
  }

  /** The content file of a revision: `commit.tree`, then `repository.lookup(tree.first[:oid])`,
      whose raw data is the stored content. */
  function ReadContent(g: set<Oid>, rev: Oid): (r: Result<seq<byte>, Error>)
    ensures r.Ok? ==> IsCommit(g, rev)
  {
    var c :- LookupCommit(g, rev);
    var es :- LookupTree(g, c.tree);
    if |es| == 0 then Err(EmptyTree(c.tree))
    else if es[0].oid !in g then Err(ObjectMissing(es[0].oid))
    else Ok(es[0].oid.data)
  }

  /** `root_commit_oid`: the target of the root tag. */
  function RootCommitOid(refs: seq<Ref>): Result<Oid, Error>
  {
    match Find(refs, RootRef)
    case None => Err(NoRootTag)
    case Some(Symbolic(n)) => Err(NotDirect(RootRef))
    case Some(Direct(o)) => Ok(o)
  }

  /** The tip of `state`: None when the state has no reference yet. */
  function StateTip(refs: seq<Ref>, state: string): Result<Option<Oid>, Error>
  {
    match Find(refs, StateRef(state))
    case None => Ok(None)
    case Some(Symbolic(n)) => Err(NotDirect(StateRef(state)))
    case Some(Direct(o)) => Ok(Some(o))
  }

  datatype RevisionType = Orphan | Save | Promotion

  /** `[:orphan, :save, :promotion][commit.parents.count]`: nil beyond two parents. */
  function EntryType(parentCount: nat): Option<RevisionType>
  {
    if parentCount == 0 then Some(Orphan)
    else if parentCount == 1 then Some(Save)
    else if parentCount == 2 then Some(Promotion)
    else None
  }

  /** The hash `parents_hash` returns: which of the keys `previous` and `source` it has, and
      their values (`previous` may map to nil). */
  datatype ParentsSummary =
    | PreviousAndSource(previous: Oid, source: Oid)
    | SourceOnly(source: Oid)
    | PreviousOnly(previousOrNil: Option<Oid>)
    | NoKeys

  predicate HasPrevious(s: ParentsSummary)
  {
    s.PreviousAndSource? || s.PreviousOnly?
  }

  predicate HasSource(s: ParentsSummary)
  {
    s.PreviousAndSource? || s.SourceOnly?
  }

  /** `parents_hash`: summarises the first two parents of a commit against the root.
      `source` is there exactly when a second parent is, and names it; `previous` is there
      exactly when the first parent is not the root (a parentless commit included, whose
      `previous` is nil), and names the first parent. */
  function ParentsHash(parents: seq<Oid>, root: Oid): (s: ParentsSummary)
    ensures HasSource(s) <==> |parents| >= 2
    ensures HasSource(s) ==> s.source == parents[1]
    ensures HasPrevious(s) <==> (|parents| == 0 || parents[0] != root)
    ensures s.PreviousAndSource? ==> s.previous == parents[0]
    ensures s.PreviousOnly? ==> s.previousOrNil == if |parents| == 0 then None else Some(parents[0])
  {
    var first := if |parents| >= 1 then Some(parents[0]) else None;
    var second := if |parents| >= 2 then Some(parents[1]) else None;
    if second.Some? && first != Some(root) then PreviousAndSource(parents[0], second.value)
    else if second.Some? && first == Some(root) then SourceOnly(second.value)
    else if second.None? && first != Some(root) then PreviousOnly(first)
    else NoKeys
  }

  /** `first_commit?`: the commit sits directly on the root. */
  predicate IsFirstCommit(parents: seq<Oid>, root: Oid)
  {
    root in parents
  }

  /** `on_master?`: a commit that is not a promotion. */
  predicate OnMaster(parents: seq<Oid>)
  {
    |parents| < 2
  }

  datatype HistoryEntry = HistoryEntry(
    rev: Oid, message: seq<byte>, author: Signature, time: nat,
    entryType: Option<RevisionType>, parents: ParentsSummary)

  function EntryOf(oid: Oid, c: Commit, root: Oid): HistoryEntry
  {
    HistoryEntry(oid, c.message, c.author, c.time, EntryType(|c.parents|), ParentsHash(c.parents, root))
  }

  /** What `history` returns when its walk starts at `start`: one entry per commit along
      first parents, newest first, ending with the first commit that sits on the root, or
      with a parentless commit. */
  function HistoryFrom(g: set<Oid>, root: Oid, start: Oid): Result<seq<HistoryEntry>, Error>
    decreases |start.data|
  {
    var c :- LookupCommit(g, start);
    var ps :- LoadParents(g, c);
    var entry := EntryOf(start, c, root);
    if IsFirstCommit(ps, root) || |ps| == 0 then Ok([entry])
    else
      var rest :- HistoryFrom(g, root, ps[0]);
      Ok([entry] + rest)
  }

  /** The message `has_ancestor?` sends to `commit.parents` to step. */
  datatype Direction = First | Last

  /** `has_ancestor?(start, update) { test }`: true as soon as a visited commit passes the
      test; a `Last` walk stops after testing a commit with fewer than two parents; both
      stop when there is no parent to step to. */
  function AncestorWalk(g: set<Oid>, start: Option<Oid>, dir: Direction, test: Oid -> Result<bool, Error>)
    : Result<bool, Error>
    decreases if start.Some? then |start.value.data| + 1 else 0
  {
    if start.None? then Ok(false)
    else
      var c :- LookupCommit(g, start.value);
      var passed :- test(start.value);
      if passed then Ok(true)
      else
        var ps :- LoadParents(g, c);
        if dir == Last && OnMaster(ps) then Ok(false)
        else if |ps| == 0 then Ok(false)
        else AncestorWalk(g, Some(Step(ps, dir)), dir, test)
  }

  /** The parent a walk steps to from a commit with parents `ps`. */
  function Step(ps: seq<Oid>, dir: Direction): (p: Oid)
    requires |ps| > 0
    ensures p in ps
  {
    if dir == First then ps[0] else ps[|ps| - 1]
  }

  /** `commit.parents.last`. */
  function LastParent(ps: seq<Oid>): Option<Oid>
  {
    if |ps| == 0 then None else Some(ps[|ps| - 1])
  }

  /** The block of the inner walk of `has_been_promoted?`: is the commit `rev`? */
  function RevisionTest(rev: Option<Oid>): Oid -> Result<bool, Error>
  {
    (ac: Oid) => Ok(Some(ac) == rev)
  }

  /** The block `has_been_promoted?` hands the outer walk: walk `bc`'s last parents looking
      for `rev`. */
  function SourceReaches(g: set<Oid>, rev: Option<Oid>, bc: Oid): Result<bool, Error>
  {
    var c :- LookupCommit(g, bc);
    var ps :- LoadParents(g, c);
    AncestorWalk(g, LastParent(ps), Last, RevisionTest(rev))
  }

  /** That block as a function value. */
  function SourceTest(g: set<Oid>, rev: Option<Oid>): Oid -> Result<bool, Error>
  {
    (bc: Oid) => SourceReaches(g, rev, bc)
  }

  /** The outer walk of `has_been_promoted?` from the tip of the destination state. */
  function Promoted(g: set<Oid>, tip: Oid, rev: Option<Oid>): Result<bool, Error>
  {
    AncestorWalk(g, Some(tip), First, SourceTest(g, rev))
  }
}
