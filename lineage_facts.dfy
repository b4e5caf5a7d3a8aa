/** What the walks of lib/colonel/document.rb compute, stated without the walks: the
    sequence of commits each walk visits, the `has_been_promoted?` characterisation, the
    shape of a history, and how results carry over when the object database grows. */
module LineageFacts {
  import opened Wrappers
  import opened Objects
  import opened Store
  import opened Lineage

  /** The parents a commit payload names (none for a payload that is not a commit). */
  function CommitParents(oid: Oid): seq<Oid>
  {
    match ParseCommit(oid.data)
    case Some(c) => c.parents
    case None => []
  }

  /** Every well-formed commit in the database has all its parents there as well-formed
      commits: the object database a document's own operations build. */
  ghost predicate Closed(g: set<Oid>)
  {
    forall o, i {:trigger CommitParents(o)[i]} :: IsCommit(g, o) && 0 <= i < |CommitParents(o)| ==> IsCommit(g, CommitParents(o)[i])
  }

  /** In a closed database, the parents of a commit are commits. */
  lemma ClosedParents(g: set<Oid>, o: Oid)
    requires Closed(g) && IsCommit(g, o)
    ensures forall i :: 0 <= i < |CommitParents(o)| ==> IsCommit(g, CommitParents(o)[i])
  {
  }

  /** The commits `has_ancestor?` tests, in order, when no test passes. */
  function Trail(g: set<Oid>, start: Option<Oid>, dir: Direction): Result<seq<Oid>, Error>
    decreases if start.Some? then |start.value.data| + 1 else 0
  {
    if start.None? then Ok([])
    else
      var c :- LookupCommit(g, start.value);
      var ps :- LoadParents(g, c);
      if Stops(ps, dir) then Ok([start.value])
      else
        var rest :- Trail(g, Some(Step(ps, dir)), dir);
        Ok([start.value] + rest)
  }

  /** Whether a walk that has just tested a commit with parents `ps` stops there. */
  predicate Stops(ps: seq<Oid>, dir: Direction)
  {
    (dir == Last && OnMaster(ps)) || |ps| == 0
  }

  /** One step of a trail. */
  lemma TrailUnfold(g: set<Oid>, s: Oid, dir: Direction)
    requires Trail(g, Some(s), dir).Ok?
    ensures IsCommit(g, s)
    ensures forall i :: 0 <= i < |CommitParents(s)| ==> IsCommit(g, CommitParents(s)[i])
    ensures Stops(CommitParents(s), dir) ==> Trail(g, Some(s), dir) == Ok([s])
    ensures !Stops(CommitParents(s), dir) ==>
      && Trail(g, Some(Step(CommitParents(s), dir)), dir).Ok?
      && Trail(g, Some(s), dir).value == [s] + Trail(g, Some(Step(CommitParents(s), dir)), dir).value
  {
    var c := LookupCommit(g, s).value;
    assert c.parents == CommitParents(s);
    assert LoadParents(g, c) == Ok(c.parents);
  }

  /** One step of a walk over commits whose parents can all be loaded. */
  lemma WalkUnfold(g: set<Oid>, s: Oid, dir: Direction, test: Oid -> Result<bool, Error>)
    requires IsCommit(g, s)
    requires forall i :: 0 <= i < |CommitParents(s)| ==> IsCommit(g, CommitParents(s)[i])
    requires test(s).Ok?
    ensures test(s) == Ok(true) ==> AncestorWalk(g, Some(s), dir, test) == Ok(true)
    ensures test(s) == Ok(false) && Stops(CommitParents(s), dir) ==> AncestorWalk(g, Some(s), dir, test) == Ok(false)
    ensures test(s) == Ok(false) && !Stops(CommitParents(s), dir) ==>
      AncestorWalk(g, Some(s), dir, test) == AncestorWalk(g, Some(Step(CommitParents(s), dir)), dir, test)
  {
    var c := LookupCommit(g, s).value;
    assert c.parents == CommitParents(s);
    assert LoadParents(g, c) == Ok(c.parents);
  }

  /** A trail starts at the start, steps to the first (or last) parent each time, and never
      steps from a `Last` walk's commit with fewer than two parents. */
  lemma {:induction false} TrailSteps(g: set<Oid>, start: Option<Oid>, dir: Direction)
    requires Trail(g, start, dir).Ok?
    ensures var t := Trail(g, start, dir).value;
      && (start.None? <==> |t| == 0)
      && (start.Some? ==> t[0] == start.value)
      && (forall i :: 0 <= i < |t| - 1 ==> !Stops(CommitParents(t[i]), dir) && t[i + 1] == Step(CommitParents(t[i]), dir))
    decreases if start.Some? then |start.value.data| + 1 else 0
  {
    if start.Some? {
      var s := start.value;
      TrailUnfold(g, s, dir);
      var ps := CommitParents(s);
      if !Stops(ps, dir) {
        var next := Step(ps, dir);
        TrailSteps(g, Some(next), dir);
        var t := Trail(g, start, dir).value;
        var u := Trail(g, Some(next), dir).value;
        assert t == [s] + u;
        StepsCons(s, u, dir);
      }
    }
  }

  lemma StepsCons(s: Oid, u: seq<Oid>, dir: Direction)
    requires !Stops(CommitParents(s), dir) && |u| > 0 && u[0] == Step(CommitParents(s), dir)
    requires forall i :: 0 <= i < |u| - 1 ==> !Stops(CommitParents(u[i]), dir) && u[i + 1] == Step(CommitParents(u[i]), dir)
    ensures var t := [s] + u;
      forall i :: 0 <= i < |t| - 1 ==> !Stops(CommitParents(t[i]), dir) && t[i + 1] == Step(CommitParents(t[i]), dir)
  {
    assert forall i :: 0 < i < |[s] + u| ==> ([s] + u)[i] == u[i - 1];
  }

  /** Every commit on a trail is a commit of the database. */
  lemma {:induction false} TrailCommits(g: set<Oid>, start: Option<Oid>, dir: Direction)
    requires Trail(g, start, dir).Ok?
    ensures forall i :: 0 <= i < |Trail(g, start, dir).value| ==> IsCommit(g, Trail(g, start, dir).value[i])
    decreases if start.Some? then |start.value.data| + 1 else 0
  {
    if start.Some? {
      var s := start.value;
      TrailUnfold(g, s, dir);
      var ps := CommitParents(s);
      if !Stops(ps, dir) {
        var next := Step(ps, dir);
        TrailCommits(g, Some(next), dir);
        CommitsCons(g, s, Trail(g, Some(next), dir).value);
      }
    }
  }

  lemma CommitsCons(g: set<Oid>, s: Oid, u: seq<Oid>)
    requires IsCommit(g, s) && forall i :: 0 <= i < |u| ==> IsCommit(g, u[i])
    ensures forall i :: 0 <= i < |[s] + u| ==> IsCommit(g, ([s] + u)[i])
  {
    assert forall i :: 0 < i < |[s] + u| ==> ([s] + u)[i] == u[i - 1];
  }

  /** A trail ends at a commit with no parent or, for `Last`, fewer than two. */
  lemma {:induction false} TrailEnds(g: set<Oid>, start: Option<Oid>, dir: Direction)
    requires Trail(g, start, dir).Ok?
    ensures var t := Trail(g, start, dir).value;
      |t| > 0 ==> Stops(CommitParents(t[|t| - 1]), dir)
    decreases if start.Some? then |start.value.data| + 1 else 0
  {
    if start.Some? {
      var s := start.value;
      TrailUnfold(g, s, dir);
      var ps := CommitParents(s);
      if !Stops(ps, dir) {
        var next := Step(ps, dir);
        TrailEnds(g, Some(next), dir);
        var t := Trail(g, start, dir).value;
        var u := Trail(g, Some(next), dir).value;
        assert t == [s] + u;
        TrailSteps(g, Some(next), dir);
        assert t[|t| - 1] == u[|u| - 1];
      }
    }
  }

  /** Some commit of `t` passes the test. */
  predicate AnyPasses(t: seq<Oid>, test: Oid -> Result<bool, Error>)
  {
    exists x :: x in t && test(x) == Ok(true)
  }

  /** `has_ancestor?` is a search of its trail: true exactly when some commit on it passes
      the test (provided every test on it can be evaluated). */
  lemma {:induction false} WalkSearchesTrail(g: set<Oid>, start: Option<Oid>, dir: Direction, test: Oid -> Result<bool, Error>, t: seq<Oid>)
    requires Trail(g, start, dir) == Ok(t)
    requires forall x :: x in t ==> test(x).Ok?
    ensures AncestorWalk(g, start, dir, test) == Ok(AnyPasses(t, test))
    decreases if start.Some? then |start.value.data| + 1 else 0
  {
    if start.Some? {
      var s := start.value;
      TrailUnfold(g, s, dir);
      assert s in t;
      WalkUnfold(g, s, dir, test);
      var ps := CommitParents(s);
      if !Stops(ps, dir) {
        var next := Step(ps, dir);
        var rest := Trail(g, Some(next), dir).value;
        assert t == [s] + rest;
        assert forall x :: x in t <==> x == s || x in rest;
        WalkSearchesTrail(g, Some(next), dir, test, rest);
      }
    }
  }

  /** In a closed database every walk from a commit can be carried out to its end. */
  lemma {:induction false} ClosedTrail(g: set<Oid>, start: Oid, dir: Direction)
    requires Closed(g) && IsCommit(g, start)
    ensures Trail(g, Some(start), dir).Ok?
    ensures forall i :: 0 <= i < |Trail(g, Some(start), dir).value| ==> IsCommit(g, Trail(g, Some(start), dir).value[i])
    decreases |start.data|
  {
    var c := LookupCommit(g, start).value;
    assert c.parents == CommitParents(start);
    assert LoadParents(g, c).Ok?;
    var ps := c.parents;
    if !Stops(ps, dir) {
      ClosedTrail(g, Step(ps, dir), dir);
    }
    TrailCommits(g, Some(start), dir);
  }

  /** The commits the inner walk of `has_been_promoted?` visits from commit `bc`: its last
      parent, then last parents on, up to and including the first commit with fewer than
      two parents. */
  function SourceTrail(g: set<Oid>, bc: Oid): Result<seq<Oid>, Error>
  {
    Trail(g, LastParent(CommitParents(bc)), Last)
  }

  /** `has_been_promoted?` on a closed database: it never fails, and it says true exactly
      when `rev` is on the source trail of some commit on the destination's first-parent
      trail. */
  lemma PromotedIff(g: set<Oid>, tip: Oid, rev: Option<Oid>)
    requires Closed(g) && IsCommit(g, tip)
    ensures Trail(g, Some(tip), First).Ok?
    ensures forall bc :: bc in Trail(g, Some(tip), First).value ==> SourceTrail(g, bc).Ok?
    ensures Promoted(g, tip, rev) ==
      Ok(exists bc :: bc in Trail(g, Some(tip), First).value && rev.Some? && rev.value in SourceTrail(g, bc).value)
  {
    ClosedTrail(g, tip, First);
    var outer := Trail(g, Some(tip), First).value;
    var test := SourceTest(g, rev);
    var eq := RevisionTest(rev);
    forall bc | bc in outer
      ensures SourceTrail(g, bc).Ok?
      ensures test(bc) == Ok(rev.Some? && rev.value in SourceTrail(g, bc).value)
    {
      var c := LookupCommit(g, bc).value;
      assert c.parents == CommitParents(bc);
      assert LoadParents(g, c) == Ok(c.parents);
      var lp := LastParent(c.parents);
      if lp.Some? {
        assert IsCommit(g, c.parents[|c.parents| - 1]);
        ClosedTrail(g, lp.value, Last);
      }
      var inner := Trail(g, lp, Last).value;
      WalkSearchesTrail(g, lp, Last, eq, inner);
      assert AnyPasses(inner, eq) <==> (rev.Some? && rev.value in inner);
    }
    WalkSearchesTrail(g, Some(tip), First, test, outer);
    assert AnyPasses(outer, test) <==>
      (exists bc :: bc in outer && rev.Some? && rev.value in SourceTrail(g, bc).value);
  }

  /** Adding objects to the database never changes a history that could be computed. */
  lemma {:induction false} HistoryGrows(g: set<Oid>, g': set<Oid>, root: Oid, start: Oid)
    requires g <= g' && HistoryFrom(g, root, start).Ok?
    ensures HistoryFrom(g', root, start) == HistoryFrom(g, root, start)
    decreases |start.data|
  {
    var c := LookupCommit(g, start).value;
    assert LoadParents(g', c) == LoadParents(g, c);
    if !(IsFirstCommit(c.parents, root) || |c.parents| == 0) {
      HistoryGrows(g, g', root, c.parents[0]);
    }
  }

  /** Adding objects never changes the outcome of a walk that could be carried out, when
      the test does not change its verdict on the commits it could already judge. */
  lemma {:induction false} WalkGrows(g: set<Oid>, g': set<Oid>, start: Option<Oid>, dir: Direction,
                                     test: Oid -> Result<bool, Error>, test': Oid -> Result<bool, Error>)
    requires g <= g' && AncestorWalk(g, start, dir, test).Ok?
    requires forall o :: IsCommit(g, o) && test(o).Ok? ==> test'(o) == test(o)
    ensures AncestorWalk(g', start, dir, test') == AncestorWalk(g, start, dir, test)
    decreases if start.Some? then |start.value.data| + 1 else 0
  {
    if start.Some? {
      var c := LookupCommit(g, start.value).value;
      if test(start.value) == Ok(false) {
        assert LoadParents(g', c) == LoadParents(g, c);
        var ps := c.parents;
        if !Stops(ps, dir) {
          WalkGrows(g, g', Some(Step(ps, dir)), dir, test, test');
        }
      }
    }
  }

  /** `has_been_promoted?` keeps its answer when the database grows. */
  lemma PromotedGrows(g: set<Oid>, g': set<Oid>, tip: Oid, rev: Option<Oid>)
    requires g <= g' && Promoted(g, tip, rev).Ok?
    ensures Promoted(g', tip, rev) == Promoted(g, tip, rev)
  {
    var eq := RevisionTest(rev);
    forall o | IsCommit(g, o) && SourceReaches(g, rev, o).Ok?
      ensures SourceReaches(g', rev, o) == SourceReaches(g, rev, o)
    {
      var c := LookupCommit(g, o).value;
      assert LoadParents(g', c) == LoadParents(g, c);
      WalkGrows(g, g', LastParent(c.parents), Last, eq, eq);
    }
    WalkGrows(g, g', Some(tip), First, SourceTest(g, rev), SourceTest(g', rev));
  }

  /** In a closed database the history from any commit can be computed. */
  lemma {:induction false} ClosedHistory(g: set<Oid>, root: Oid, start: Oid)
    requires Closed(g) && IsCommit(g, start)
    ensures HistoryFrom(g, root, start).Ok?
    decreases |start.data|
  {
    var c := LookupCommit(g, start).value;
    assert c.parents == CommitParents(start);
    assert LoadParents(g, c).Ok?;
    if !(IsFirstCommit(c.parents, root) || |c.parents| == 0) {
      ClosedHistory(g, root, c.parents[0]);
    }
  }

  /** In a closed database the inner walk of `has_been_promoted?` never fails. */
  lemma ClosedSourceReaches(g: set<Oid>, rev: Option<Oid>, bc: Oid)
    requires Closed(g) && IsCommit(g, bc)
    ensures SourceReaches(g, rev, bc).Ok? && SourceTrail(g, bc).Ok?
    ensures SourceReaches(g, rev, bc) == Ok(rev.Some? && rev.value in SourceTrail(g, bc).value)
  {
    var c := LookupCommit(g, bc).value;
    assert c.parents == CommitParents(bc);
    assert LoadParents(g, c) == Ok(c.parents);
    var lp := LastParent(c.parents);
    if lp.Some? {
      assert IsCommit(g, c.parents[|c.parents| - 1]);
      ClosedTrail(g, lp.value, Last);
    }
    WalkSearchesTrail(g, lp, Last, RevisionTest(rev), Trail(g, lp, Last).value);
  }

  /** A commit whose first parent has been promoted has been promoted too: the outer walk
      reaches that parent if it finds nothing before. */
  lemma PromotedExtends(g: set<Oid>, n: Oid, rev: Option<Oid>)
    requires Closed(g) && IsCommit(g, n) && |CommitParents(n)| >= 1
    requires Promoted(g, CommitParents(n)[0], rev) == Ok(true)
    ensures Promoted(g, n, rev) == Ok(true)
  {
    ClosedSourceReaches(g, rev, n);
    WalkUnfold(g, n, First, SourceTest(g, rev));
  }

  /** The content of a revision does not change as the database grows. */
  lemma ReadContentGrows(g: set<Oid>, g': set<Oid>, rev: Oid)
    requires g <= g' && ReadContent(g, rev).Ok?
    ensures ReadContent(g', rev) == ReadContent(g, rev)
  {
    assert LookupCommit(g', rev) == LookupCommit(g, rev);
    var c := LookupCommit(g, rev).value;
    assert LookupTree(g', c.tree) == LookupTree(g, c.tree);
  }

  /** One step of a history whose commit's parents are all commits. */
  lemma HistoryUnfold(g: set<Oid>, root: Oid, start: Oid)
    requires IsCommit(g, start)
    requires forall i :: 0 <= i < |CommitParents(start)| ==> IsCommit(g, CommitParents(start)[i])
    ensures var ps := CommitParents(start); var e := EntryOf(start, ParseCommit(start.data).value, root);
      && (root in ps || |ps| == 0 ==> HistoryFrom(g, root, start) == Ok([e]))
      && (!(root in ps || |ps| == 0) && HistoryFrom(g, root, ps[0]).Ok? ==>
            HistoryFrom(g, root, start) == Ok([e] + HistoryFrom(g, root, ps[0]).value))
  {
    var c := LookupCommit(g, start).value;
    assert c.parents == CommitParents(start);
    assert LoadParents(g, c) == Ok(c.parents);
  }

  /** A walk whose first commit passes the test returns true without loading its parents. */
  lemma WalkPassesAtStart(g: set<Oid>, s: Oid, dir: Direction, test: Oid -> Result<bool, Error>)
    requires IsCommit(g, s) && test(s) == Ok(true)
    ensures AncestorWalk(g, Some(s), dir, test) == Ok(true)
  {
    assert LookupCommit(g, s).Ok?;
  }

  /** The inner walk from a commit whose last parent is `rev` finds `rev` at once. */
  lemma SourceReachesLastParent(g: set<Oid>, n: Oid, rev: Oid)
    requires IsCommit(g, n) && |CommitParents(n)| >= 1
    requires forall i :: 0 <= i < |CommitParents(n)| ==> IsCommit(g, CommitParents(n)[i])
    requires CommitParents(n)[|CommitParents(n)| - 1] == rev
    ensures SourceReaches(g, Some(rev), n) == Ok(true)
  {
    var c := LookupCommit(g, n).value;
    assert c.parents == CommitParents(n);
    assert LoadParents(g, c) == Ok(c.parents);
    assert LastParent(c.parents) == Some(rev);
    WalkPassesAtStart(g, rev, Last, RevisionTest(Some(rev)));
  }

  /** A commit whose last parent is `rev` records the promotion of `rev`: the outer walk
      tests it first and the inner walk starts at `rev`. */
  lemma PromotedAtTip(g: set<Oid>, n: Oid, rev: Oid)
    requires Closed(g) && IsCommit(g, n) && |CommitParents(n)| >= 1
    requires CommitParents(n)[|CommitParents(n)| - 1] == rev
    ensures Promoted(g, n, Some(rev)) == Ok(true)
  {
    ClosedParents(g, n);
    SourceReachesLastParent(g, n, rev);
    WalkPassesAtStart(g, n, First, SourceTest(g, Some(rev)));
  }
}
