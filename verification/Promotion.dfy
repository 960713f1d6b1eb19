/** Fast-forward promotion of a verified commit to a remote branch that others keep moving.

  The commit graph holds every commit any party has or will have; a commit's parents precede it.
*/
module Promotion {
  import opened Options
  import opened Certification

  type Refs = map<string, Sha>

  // ---------------------------------------------------------------------------
  // The commit graph

  predicate WellFounded(g: Graph) {
    forall c, i :: 0 <= c < |g| && 0 <= i < |g[c].parents| ==> g[c].parents[i] < c
  }

  predicate Ancestor(g: Graph, a: Sha, b: Sha)
    requires WellFounded(g) && b < |g|
    decreases b
  {
    a == b || exists i :: 0 <= i < |g[b].parents| && Ancestor(g, a, g[b].parents[i])
  }

  lemma {:induction false} AncestorTransitive(g: Graph, a: Sha, b: Sha, c: Sha)
    requires WellFounded(g) && b < |g| && c < |g|
    requires Ancestor(g, a, b) && Ancestor(g, b, c)
    ensures Ancestor(g, a, c)
    decreases c
  {
    if b != c {
      var i :| 0 <= i < |g[c].parents| && Ancestor(g, b, g[c].parents[i]);
      AncestorTransitive(g, a, b, g[c].parents[i]);
    }
  }

  lemma {:induction false} AncestorPrecedes(g: Graph, a: Sha, b: Sha)
    requires WellFounded(g) && b < |g| && Ancestor(g, a, b)
    ensures a <= b
    decreases b
  {
    if a != b {
      var i :| 0 <= i < |g[b].parents| && Ancestor(g, a, g[b].parents[i]);
      AncestorPrecedes(g, a, g[b].parents[i]);
    }
  }

  /** rev-list target..source. */
  predicate InRange(g: Graph, target: Sha, source: Sha, c: Sha)
    requires WellFounded(g) && target < |g| && source < |g|
  {
    Ancestor(g, c, source) && !Ancestor(g, c, target)
  }

  predicate NoMerges(g: Graph, target: Sha, source: Sha)
    requires WellFounded(g) && target < |g| && source < |g|
  {
    forall c: Sha :: c < |g| && InRange(g, target, source, c) ==> |g[c].parents| <= 1
  }

  lemma NoMergesBelow(g: Graph, target: Sha, source: Sha, p: Sha)
    requires WellFounded(g) && target < |g| && source < |g| && p < |g|
    requires NoMerges(g, target, source) && Ancestor(g, p, source)
    ensures NoMerges(g, target, p)
  {
    forall c: Sha | c < |g| && InRange(g, target, p, c) ensures |g[c].parents| <= 1 {
      AncestorTransitive(g, c, p, source);
      assert InRange(g, target, source, c);
    }
  }

  lemma OnlyParent(g: Graph, source: Sha, a: Sha)
    requires WellFounded(g) && source < |g| && |g[source].parents| <= 1 && Ancestor(g, a, source) && a != source
    ensures |g[source].parents| == 1 && Ancestor(g, a, g[source].parents[0]) && g[source].parents[0] < source
  {
    var i :| 0 <= i < |g[source].parents| && Ancestor(g, a, g[source].parents[i]);
  }

  /** One step down a range without merges. */
  lemma StepDown(g: Graph, target: Sha, source: Sha, a: Sha) returns (p: Sha)
    requires WellFounded(g) && target < |g| && source < |g| && a != source
    requires Ancestor(g, target, source) && NoMerges(g, target, source) && InRange(g, target, source, a)
    ensures p < source && g[source].parents == [p]
    ensures Ancestor(g, target, p) && NoMerges(g, target, p) && InRange(g, target, p, a)
  {
    if Ancestor(g, source, target) { AncestorTransitive(g, a, source, target); }
    assert InRange(g, target, source, source);
    OnlyParent(g, source, a);
    p := g[source].parents[0];
    assert target != source;
    OnlyParent(g, source, target);
    assert Ancestor(g, p, p);
    NoMergesBelow(g, target, source, p);
  }

  /** A range without merges is a line of commits, all of them on top of the target. */
  lemma {:induction false} RangeIsALine(g: Graph, target: Sha, source: Sha, a: Sha, b: Sha)
    requires WellFounded(g) && target < |g| && source < |g|
    requires Ancestor(g, target, source) && NoMerges(g, target, source)
    requires InRange(g, target, source, a) && InRange(g, target, source, b)
    ensures a < |g| && b < |g| && (Ancestor(g, a, b) || Ancestor(g, b, a))
    ensures Ancestor(g, target, a)
    decreases source
  {
    AncestorPrecedes(g, a, source);
    AncestorPrecedes(g, b, source);
    if a != source {
      var p := StepDown(g, target, source, a);
      if b != source {
        var q := StepDown(g, target, source, b);
        RangeIsALine(g, target, p, a, b);
      } else {
        RangeIsALine(g, target, p, a, a);
      }
    }
  }

  /** A path down a history in which every commit but the last has one parent, the next. */
  ghost predicate Walk(g: Graph, path: seq<Sha>, from: Sha, to: Sha) {
    && path != [] && path[0] == from && path[|path| - 1] == to
    && forall i :: 0 <= i < |path| - 1 ==> path[i] < |g| && g[path[i]].parents == [path[i + 1]]
  }

  lemma {:induction false} WalkDown(g: Graph, target: Sha, source: Sha) returns (path: seq<Sha>)
    requires WellFounded(g) && target < |g| && source < |g|
    requires Ancestor(g, target, source) && NoMerges(g, target, source)
    ensures Walk(g, path, source, target)
    decreases source
  {
    path := [source];
    if source != target {
      if Ancestor(g, source, target) {
        AncestorPrecedes(g, source, target);
        AncestorPrecedes(g, target, source);
      }
      assert InRange(g, target, source, source);
      OnlyParent(g, source, target);
      var p := g[source].parents[0];
      assert Ancestor(g, p, p);
      NoMergesBelow(g, target, source, p);
      var rest := WalkDown(g, target, p);
      path := path + rest;
    }
  }

  lemma {:induction false} OnTheWalk(g: Graph, target: Sha, source: Sha, path: seq<Sha>, c: Sha)
    requires WellFounded(g) && target < |g| && source < |g| && c < |g|
    requires Walk(g, path, source, target) && InRange(g, target, source, c)
    ensures |g[c].parents| == 1
    decreases |path|
  {
    assert |path| > 1 && g[path[0]].parents == [path[1]];
    if c != source {
      OnlyParent(g, source, c);
      OnTheWalk(g, target, path[1], path[1..], c);
    }
  }

  /** On top of an ancestor, a range has no merge if and only if single parents lead from its end down to it. */
  lemma NoMergesIsAWalk(g: Graph, target: Sha, source: Sha)
    requires WellFounded(g) && target < |g| && source < |g| && Ancestor(g, target, source)
    ensures NoMerges(g, target, source) <==> exists path :: Walk(g, path, source, target)
  {
    if NoMerges(g, target, source) {
      var path := WalkDown(g, target, source);
    } else if exists path :: Walk(g, path, source, target) {
      var path :| Walk(g, path, source, target);
      var c: Sha :| c < |g| && InRange(g, target, source, c) && |g[c].parents| > 1;
      OnTheWalk(g, target, source, path, c);
    }
  }

  // ---------------------------------------------------------------------------
  // Refs

  predicate Known(g: Graph, refs: Refs) { forall b :: b in refs ==> refs[b] < |g| }

  function At(refs: Refs, branch: string): Option<Sha> { if branch in refs then Some(refs[branch]) else None }

  /** What stands at a remote branch, if anything, is contained in the commit. */
  predicate Contained(g: Graph, refs: Refs, branch: string, commit: Sha)
    requires WellFounded(g) && commit < |g|
  {
    branch in refs ==> Ancestor(g, refs[branch], commit)
  }

  /** merge --ff-only: forward, already up to date, or refused. */
  function FastForward(g: Graph, current: Sha, other: Sha): (r: Option<Sha>)
    requires WellFounded(g) && current < |g| && other < |g|
    ensures r.Some? ==> r.value in {current, other} && Ancestor(g, current, r.value) && Ancestor(g, other, r.value)
    ensures r.None? ==> !Ancestor(g, current, other) && !Ancestor(g, other, current)
  {
    if Ancestor(g, current, other) then Some(other)
    else if Ancestor(g, other, current) then Some(current)
    else None
  }

  /** What a push did to a remote branch. */
  datatype Write = Write(branch: string, before: Option<Sha>, after: Sha)

  class Remote {
    var branches: Refs
    ghost var written: seq<Write>

    constructor (branches: Refs)
      ensures this.branches == branches && written == []
    {
      this.branches := branches;
      written := [];
    }

    /** Other parties move any branches any way. */
    method Others(moved: Refs)
      modifies this
      ensures branches == moved && written == old(written)
    {
      branches := moved;
    }

    /** Refused unless the branch is absent or an ancestor of the pushed commit. */
    method Receive(g: Graph, branch: string, pushed: Sha) returns (ok: bool)
      requires WellFounded(g) && Known(g, branches) && pushed < |g|
      modifies this
      ensures ok <==> Contained(g, old(branches), branch, pushed)
      ensures branches == if ok then old(branches)[branch := pushed] else old(branches)
      ensures written == if ok then old(written) + [Write(branch, At(old(branches), branch), pushed)] else old(written)
    {
      ok := Contained(g, branches, branch, pushed);
      if ok {
        written := written + [Write(branch, At(branches, branch), pushed)];
        branches := branches[branch := pushed];
      }
    }
  }

  // ---------------------------------------------------------------------------
  // The clone and its commands

  datatype PromotionPlan = PromotionPlan(
    sourceBranch: string, source: Sha, verified: Sha, target: string, targetBefore: Sha, certifiedSource: Sha)

  datatype State = State(head: string, branches: Refs, tracking: Refs, dirty: bool)

  class Clone {
    const g: Graph
    const origin: Remote
    var head: string
    var branches: Refs
    var tracking: Refs
    var dirty: bool

    constructor (g: Graph, origin: Remote, state: State)
      ensures this.g == g && this.origin == origin && Here() == state
    {
      this.g, this.origin := g, origin;
      head, branches, tracking, dirty := state.head, state.branches, state.tracking, state.dirty;
    }

    ghost function Here(): State
      reads this
    {
      State(head, branches, tracking, dirty)
    }

    ghost predicate Valid()
      reads this
    {
      WellFounded(g) && Known(g, branches) && Known(g, tracking)
    }

    method Switch(branch: string) returns (ok: bool)
      requires Valid()
      modifies this
      ensures Valid() && ok == (branch in old(branches) || branch in old(tracking))
      ensures Here() == if ok then Switched(old(Here()), branch) else old(Here())
    {
      if branch in branches {
        head := branch;
        return true;
      }
      if branch in tracking {
        branches := branches[branch := tracking[branch]];
        head := branch;
        return true;
      }
      return false;
    }

    method Merge(other: Sha) returns (ok: bool)
      requires Valid() && head in branches && other < |g|
      modifies this
      ensures Valid() && ok == FastForward(g, old(branches)[old(head)], other).Some?
      ensures Here() ==
              if ok then
                old(Here()).(
                  branches := old(branches)[old(head) := FastForward(g, old(branches)[old(head)], other).value])
              else old(Here())
    {
      var merged := FastForward(g, branches[head], other);
      if merged.None? { return false; }
      branches := branches[head := merged.value];
      return true;
    }

    /** Fetch one branch, then fast-forward to it. */
    method Pull(branch: string) returns (ok: bool)
      requires Valid() && head in branches && Known(g, origin.branches)
      modifies this
      ensures Valid()
      ensures ok == (branch in origin.branches &&
                     FastForward(g, old(branches)[old(head)], origin.branches[branch]).Some?)
      ensures Here() == old(Here()).(
                tracking :=
                  if branch in origin.branches then old(tracking)[branch := origin.branches[branch]] else old(tracking),
                branches :=
                  if ok then
                    old(branches)[
                      old(head) := FastForward(g, old(branches)[old(head)], origin.branches[branch]).value]
                  else old(branches))
    {
      if branch !in origin.branches { return false; }
      tracking := tracking[branch := origin.branches[branch]];
      ok := Merge(origin.branches[branch]);
    }

    method Fetch()
      requires Valid() && Known(g, origin.branches)
      modifies this
      ensures Valid() && Here() == old(Here()).(tracking := origin.branches)
    {
      tracking := origin.branches;
    }

    /** Plan a promotion: the checks before anything is changed. Every error of the code is a refusal here. */
    method BuildPlan(
      ghost similar: (Blob, Blob) -> bool, verified: Sha, sourceBranch: Option<string>, target: string, manifest: Path,
      root: Digest, diffNames: (Sha, Sha) -> bool, moved: Refs)
      returns (plan: Option<PromotionPlan>)
      requires Valid() && Known(g, moved) && head in branches
      requires forall s: Sha, e: Sha :: s < |g| && e < |g| ==>
                 (diffNames(s, e) <==> DiffNamesOnly(similar, g[s].tree, g[e].tree, manifest))
      modifies this, origin
      ensures Valid() && origin.written == old(origin.written)
      ensures head == old(head) && branches == old(branches) && dirty == old(dirty)
      ensures plan.Some? ==>
                && PlanIsSound(similar, g, old(Here()), verified, target, manifest, root, moved, plan.value)
                && origin.branches == moved && tracking == moved
      ensures plan.None? ==> forall p: PromotionPlan ::
                (sourceBranch.Some? ==> p.sourceBranch == sourceBranch.value) ==>
                  !PlanIsSound(similar, g, old(Here()), verified, target, manifest, root, moved, p)
    {
      hide Ancestor, Verifies, InRange, DiffNamesOnly;
      if target != "main" || dirty { return None; }
      var source := if sourceBranch.Some? then sourceBranch.value else head;
      if head != source || !("codex/" <= source) { return None; }
      var sha := branches[head];
      if sha != verified { return None; }
      var certificate := VerifyManifest(
        similar, g, g[sha].tree, sha, manifest, sha, root, diffNames);
      if certificate.None? { return None; }
      origin.Others(moved);
      Fetch();
      if target !in tracking { return None; }
      var before := tracking[target];
      if sha == before || !Ancestor(g, before, sha) { return None; }
      if exists c: Sha :: c < |g| && InRange(g, before, sha, c) && |g[c].parents| > 1 { return None; }
      var accepted := PromotionPlan(source, sha, verified, target, before, certificate.value.source);
      assert Certifies(similar, g, manifest, accepted, root, certificate.value);
      return Some(accepted);
    }

    /** Recheck the preflight facts, then bring local main to the remote commit seen when planning. */
    method Synchronize(plan: PromotionPlan, first: Refs, second: Refs) returns (ok: bool)
      requires Valid() && head in branches && Known(g, first) && Known(g, second)
      modifies this, origin
      ensures Valid() && origin.written == old(origin.written)
      ensures ok <==> Synchronizes(g, plan, old(Here()), first, second)
      ensures ok ==> head == plan.target && At(branches, head) == Some(plan.targetBefore)
      ensures OnlyForward(g, plan.target, old(branches), branches)
    {
      hide Ancestor, FastForward;
      StaysPut(g, plan.target, branches);
      if dirty || head != plan.sourceBranch || branches[head] != plan.source || plan.verified != plan.source {
        return false;
      }
      origin.Others(first);
      if At(origin.branches, plan.target) != Some(plan.targetBefore) { return false; }
      var switched := Switch(plan.target);
      if !switched { return false; }
      origin.Others(second);
      var pulled := Pull(plan.target);
      ForwardStep(g, plan.target, old(branches), branches);
      return pulled && branches[head] == plan.targetBefore;
    }

    /** Then fast-forward local main to the planned commit. */
    method AdvanceLocal(plan: PromotionPlan, moves: seq<Refs>, dirtied: bool) returns (ok: bool)
      requires Valid() && head in branches
      requires |moves| == 5 && (forall k :: 0 <= k < 5 ==> Known(g, moves[k]))
      requires plan.source < |g| && plan.targetBefore < |g|
      modifies this, origin
      ensures Valid() && origin.written == old(origin.written)
      ensures ok <==> Advances(g, plan, old(Here()), moves, dirtied)
      ensures ok ==> head == plan.target && At(branches, head) == Some(plan.source)
      ensures OnlyForward(g, plan.target, old(branches), branches)
    {
      hide Ancestor, FastForward, Synchronizes;
      var synchronized := Synchronize(plan, moves[0], moves[1]);
      if !synchronized { return false; }
      ghost var middle := branches;
      var merged := Merge(plan.source);
      ForwardAgain(g, plan.target, old(branches), middle, branches);
      if !merged || branches[head] != plan.source { return false; }
      dirty := dirtied;
      return !dirty;
    }

    /** The promotion itself. `moves` is what others have made of the remote by each of the five commands that reach it;
        `dirtied` is what the worktree has become by the last status check. */
    method Promote(plan: PromotionPlan, moves: seq<Refs>, dirtied: bool) returns (ok: bool)
      requires Valid() && head in branches
      requires |moves| == 5 && (forall k :: 0 <= k < 5 ==> Known(g, moves[k]))
      requires plan.source < |g| && plan.targetBefore < |g|
      modifies this, origin
      ensures Valid()
      ensures ok <==> Clears(g, plan, old(Here()), moves, dirtied)
      ensures ok ==> head == plan.target && At(branches, plan.target) == At(tracking, plan.target) == Some(plan.source)
      ensures ok ==> At(origin.branches, plan.target) == Some(plan.source)
      ensures origin.written == old(origin.written) ||
              FastForwardWrite(g, plan, moves, old(origin.written), origin.written)
      ensures OnlyForward(g, plan.target, old(branches), branches)
    {
      var advanced := AdvanceLocal(plan, moves, dirtied);
      if !advanced { return false; }
      origin.Others(moves[2]);
      var pushed := origin.Receive(g, plan.target, branches[plan.target]);
      if !pushed { return false; }
      origin.Others(moves[3]);
      Fetch();
      origin.Others(moves[4]);
      return At(branches, plan.target) == At(tracking, plan.target) ==
             At(origin.branches, plan.target) == Some(plan.source);
    }
  }

  /** Local branches other than the target stay; the target only moves forward. */
  ghost predicate OnlyForward(g: Graph, target: string, before: Refs, after: Refs)
    requires WellFounded(g) && Known(g, after)
  {
    && (forall b :: b in before ==> b in after && Ancestor(g, before[b], after[b]))
    && (forall b :: b in after && b != target ==> b in before && after[b] == before[b])
  }

  /** No local history is lost, and no local branch but the target moves, comes or goes. */
  lemma LocalHistoryKept(g: Graph, target: string, before: Refs, after: Refs, b: string, c: Sha)
    requires WellFounded(g) && Known(g, before) && Known(g, after) && OnlyForward(g, target, before, after)
    ensures b in before && Ancestor(g, c, before[b]) ==> b in after && Ancestor(g, c, after[b])
    ensures b != target ==> (b in before <==> b in after) && (b in before ==> before[b] == after[b])
  {
    if b in before && Ancestor(g, c, before[b]) { AncestorTransitive(g, c, before[b], after[b]); }
  }

  lemma StaysPut(g: Graph, target: string, refs: Refs)
    requires WellFounded(g) && Known(g, refs)
    ensures OnlyForward(g, target, refs, refs)
  {
  }

  lemma ForwardStep(g: Graph, target: string, before: Refs, after: Refs)
    requires WellFounded(g) && Known(g, after)
    requires after.Keys == before.Keys + {target} && forall b :: b in before && b != target ==> after[b] == before[b]
    requires target in before ==> Ancestor(g, before[target], after[target])
    ensures OnlyForward(g, target, before, after)
  {
  }

  lemma ForwardAgain(g: Graph, target: string, first: Refs, second: Refs, third: Refs)
    requires WellFounded(g) && Known(g, second) && Known(g, third) && OnlyForward(g, target, first, second)
    requires third.Keys == second.Keys && target in second
    requires forall b :: b in second && b != target ==> third[b] == second[b]
    requires Ancestor(g, second[target], third[target])
    ensures OnlyForward(g, target, first, third)
  {
    forall b | b in first ensures b in third && Ancestor(g, first[b], third[b]) {
      if b == target { AncestorTransitive(g, first[b], second[b], third[b]); }
    }
  }

  function Switched(s: State, branch: string): State
    requires branch in s.branches || branch in s.tracking
  {
    s.(head := branch, branches := s.branches[branch :=
      if branch in s.branches then s.branches[branch] else s.tracking[branch]])
  }

  // ---------------------------------------------------------------------------
  // What planning accepts

  ghost predicate PlanIsSound(
    similar: (Blob, Blob) -> bool, g: Graph, s: State, verified: Sha, target: string, manifest: Path, root: Digest,
    moved: Refs, p: PromotionPlan)
    requires WellFounded(g) && Known(g, s.branches) && Known(g, moved)
  {
    && target == p.target == "main" && !s.dirty
    && s.head == p.sourceBranch && "codex/" <= s.head
    && At(s.branches, s.head) == Some(p.source) && p.source == p.verified == verified
    && (exists c :: Certifies(similar, g, manifest, p, root, c))
    && At(moved, target) == Some(p.targetBefore)
    && p.source != p.targetBefore && Ancestor(g, p.targetBefore, p.source)
    && NoMerges(g, p.targetBefore, p.source)
  }

  ghost predicate Certifies(
    similar: (Blob, Blob) -> bool, g: Graph, manifest: Path, p: PromotionPlan, root: Digest, c: Payload)
    requires p.source < |g|
  {
    Verifies(similar, g, g[p.source].tree, p.source, manifest, p.source, root, c) && p.certifiedSource == c.source
  }

  /** An accepted plan promotes an envelope whose only parent is the certified source, itself on top of the remote
      branch; every bound artifact has the same bytes in both; and if no file was removed, nothing else differs. */
  lemma PlannedCommit(
    similar: (Blob, Blob) -> bool, g: Graph, s: State, verified: Sha, target: string, manifest: Path, root: Digest,
    moved: Refs, p: PromotionPlan)
    requires WellFounded(g) && Known(g, s.branches) && Known(g, moved)
    requires PlanIsSound(similar, g, s, verified, target, manifest, root, moved, p)
    ensures p.certifiedSource < |g| && g[p.source].parents == [p.certifiedSource]
    ensures Ancestor(g, p.targetBefore, p.certifiedSource)
    ensures AgreeExcept(g[p.certifiedSource].tree, g[p.source].tree, manifest) <==>
            NothingRemoved(g[p.certifiedSource].tree, g[p.source].tree, manifest)
    ensures exists c :: Certifies(similar, g, manifest, p, root, c) &&
              SameArtifacts(g[p.certifiedSource].tree, g[p.source].tree, c.entries)
  {
    hide Ancestor, NoMerges, Verifies, AgreeExcept, NothingRemoved;
    var c :| Certifies(similar, g, manifest, p, root, c);
    CertifiedEnvelope(similar, g, manifest, p, root, c);
    OnlyTheManifestChanged(similar, g, manifest, p.source, c.source);
    ParentIsOnTop(g, p.targetBefore, p.source);
    CertifiedArtifacts(similar, g, manifest, p, root, c);
  }

  /** What an accepted plan promotes is a line of commits on top of the remote branch, from the certified envelope down:
      any two commits of the range are one behind the other, and none is a merge. */
  lemma PlannedRange(
    similar: (Blob, Blob) -> bool, g: Graph, s: State, verified: Sha, target: string, manifest: Path, root: Digest,
    moved: Refs, p: PromotionPlan, a: Sha, b: Sha)
    requires WellFounded(g) && Known(g, s.branches) && Known(g, moved)
    requires PlanIsSound(similar, g, s, verified, target, manifest, root, moved, p)
    ensures InRange(g, p.targetBefore, p.source, p.source)
    ensures InRange(g, p.targetBefore, p.source, a) && InRange(g, p.targetBefore, p.source, b) ==>
              a < |g| && b < |g| && (Ancestor(g, a, b) || Ancestor(g, b, a)) && |g[a].parents| == 1
    ensures exists path :: Walk(g, path, p.source, p.targetBefore)
  {
    NoMergesIsAWalk(g, p.targetBefore, p.source);
    if Ancestor(g, p.source, p.targetBefore) {
      AncestorPrecedes(g, p.source, p.targetBefore);
      AncestorPrecedes(g, p.targetBefore, p.source);
    }
    if InRange(g, p.targetBefore, p.source, a) && InRange(g, p.targetBefore, p.source, b) {
      RangeIsALine(g, p.targetBefore, p.source, a, b);
      var path :| Walk(g, path, p.source, p.targetBefore);
      OnTheWalk(g, p.targetBefore, p.source, path, a);
    }
  }

  lemma {:induction false} WalkIsUp(g: Graph, path: seq<Sha>, from: Sha, to: Sha)
    requires WellFounded(g) && from < |g| && Walk(g, path, from, to)
    ensures to <= from && Ancestor(g, to, from) && (|path| > 1 <==> from != to)
    decreases |path|
  {
    if |path| > 1 {
      assert g[path[0]].parents == [path[1]];
      assert g[from].parents[0] == path[1] && path[1] < from;
      assert Walk(g, path[1..], path[1], to);
      WalkIsUp(g, path[1..], path[1], to);
    }
  }

  /** A plan is accepted if and only if the worktree is clean and on a branch under codex/ whose commit is the verified
      one, that commit is a certification envelope without defects, and at least one step down single parents leads from
      it to where the remote main stands. */
  lemma PlanExactly(
    similar: (Blob, Blob) -> bool, g: Graph, s: State, verified: Sha, target: string, manifest: Path, root: Digest,
    moved: Refs, p: PromotionPlan)
    requires WellFounded(g) && Known(g, s.branches) && Known(g, moved)
    ensures PlanIsSound(similar, g, s, verified, target, manifest, root, moved, p) <==>
            && target == "main" && p.target == "main" && !s.dirty
            && p.sourceBranch == s.head && |s.head| >= 6 && s.head[..6] == "codex/"
            && s.head in s.branches && s.branches[s.head] == verified && p.source == verified && p.verified == verified
            && "main" in moved && moved["main"] == p.targetBefore
            && (exists c ::
                  && !Defective(similar, g, g[verified].tree, verified, manifest, verified, root, c)
                  && c.source == p.certifiedSource)
            && (exists path :: |path| >= 2 && Walk(g, path, verified, p.targetBefore))
  {
    hide Verifies, Defective, Ancestor, NoMerges;
    if verified < |g| && p.source == verified {
      forall c ensures Certifies(similar, g, manifest, p, root, c) <==>
        && !Defective(similar, g, g[verified].tree, verified, manifest, verified, root, c)
        && c.source == p.certifiedSource
      {
        AcceptedExactly(similar, g, g[verified].tree, verified, manifest, verified, root, c);
      }
    }
    if verified < |g| && p.targetBefore < |g| { OnALine(g, p.targetBefore, verified); }
    assert "codex/" <= s.head <==> |s.head| >= 6 && s.head[..6] == "codex/";
  }

  lemma OnALine(g: Graph, target: Sha, source: Sha)
    requires WellFounded(g) && target < |g| && source < |g|
    ensures (source != target && Ancestor(g, target, source) && NoMerges(g, target, source)) <==>
            exists path :: |path| >= 2 && Walk(g, path, source, target)
  {
    if exists path :: |path| >= 2 && Walk(g, path, source, target) {
      var path :| |path| >= 2 && Walk(g, path, source, target);
      WalkIsUp(g, path, source, target);
      NoMergesIsAWalk(g, target, source);
    }
    if source != target && Ancestor(g, target, source) && NoMerges(g, target, source) {
      var path := WalkDown(g, target, source);
    }
  }

  lemma ParentIsOnTop(g: Graph, target: Sha, source: Sha)
    requires WellFounded(g) && source < |g| && |g[source].parents| == 1 && Ancestor(g, target, source)
    requires target != source
    ensures Ancestor(g, target, g[source].parents[0])
  {
    OnlyParent(g, source, target);
  }

  lemma CertifiedEnvelope(
    similar: (Blob, Blob) -> bool, g: Graph, manifest: Path, p: PromotionPlan, root: Digest, c: Payload)
    requires p.source < |g| && Certifies(similar, g, manifest, p, root, c)
    ensures Envelope(similar, g, manifest, p.source, c.source) && c.source == p.certifiedSource
  {
  }

  ghost predicate SameArtifacts(before: Tree, after: Tree, entries: seq<Entry>) {
    forall i :: 0 <= i < |entries| ==>
      var path := entries[i].path; path in before && path in after && before[path] == after[path]
  }

  lemma CertifiedArtifacts(
    similar: (Blob, Blob) -> bool, g: Graph, manifest: Path, p: PromotionPlan, root: Digest, c: Payload)
    requires p.source < |g| && Certifies(similar, g, manifest, p, root, c)
    ensures c.source < |g| && SameArtifacts(g[c.source].tree, g[p.source].tree, c.entries)
  {
    forall i | 0 <= i < |c.entries|
      ensures var path := c.entries[i].path;
        path in g[c.source].tree && path in g[p.source].tree && g[c.source].tree[path] == g[p.source].tree[path]
    {
      ArtifactsAreCertified(similar, g, manifest, p.source, root, c, c.entries[i]);
    }
  }

  // ---------------------------------------------------------------------------
  // What promotion does

  /** One push of the planned commit, over an absent branch or over an ancestor of it. */
  ghost predicate FastForwardWrite(
    g: Graph, plan: PromotionPlan, moves: seq<Refs>, before: seq<Write>, after: seq<Write>)
    requires WellFounded(g) && plan.source < |g| && |moves| == 5
  {
    && after == before + [Write(plan.target, At(moves[2], plan.target), plan.source)]
    && Contained(g, moves[2], plan.target, plan.source)
  }

  ghost predicate PullsTo(g: Graph, s: State, t: string, fetched: Refs, commit: Sha)
    requires WellFounded(g) && Known(g, s.branches) && Known(g, s.tracking) && Known(g, fetched)
  {
    && (t in s.branches || t in s.tracking) && t in fetched
    && FastForward(g, if t in s.branches then s.branches[t] else s.tracking[t], fetched[t]) == Some(commit)
  }

  ghost predicate Synchronizes(g: Graph, plan: PromotionPlan, s: State, first: Refs, second: Refs)
    requires WellFounded(g) && Known(g, s.branches) && Known(g, s.tracking) && Known(g, second) && s.head in s.branches
  {
    && !s.dirty && s.head == plan.sourceBranch && s.branches[s.head] == plan.source == plan.verified
    && At(first, plan.target) == Some(plan.targetBefore)
    && PullsTo(g, s, plan.target, second, plan.targetBefore)
  }

  ghost predicate Advances(g: Graph, plan: PromotionPlan, s: State, moves: seq<Refs>, dirtied: bool)
    requires WellFounded(g) && Known(g, s.branches) && Known(g, s.tracking) && s.head in s.branches
    requires |moves| == 5 && (forall k :: 0 <= k < 5 ==> Known(g, moves[k]))
    requires plan.source < |g| && plan.targetBefore < |g|
  {
    && Synchronizes(g, plan, s, moves[0], moves[1])
    && FastForward(g, plan.targetBefore, plan.source) == Some(plan.source)
    && !dirtied
  }

  /** The conditions under which promotion returns normally. */
  ghost predicate Clears(g: Graph, plan: PromotionPlan, s: State, moves: seq<Refs>, dirtied: bool)
    requires WellFounded(g) && Known(g, s.branches) && Known(g, s.tracking) && s.head in s.branches
    requires |moves| == 5 && (forall k :: 0 <= k < 5 ==> Known(g, moves[k]))
    requires plan.source < |g| && plan.targetBefore < |g|
  {
    && Advances(g, plan, s, moves, dirtied)
    && Contained(g, moves[2], plan.target, plan.source)
    && At(moves[3], plan.target) == At(moves[4], plan.target) == Some(plan.source)
  }

  lemma FastForwardExactly(g: Graph, mine: Sha, fetched: Sha, result: Sha)
    requires WellFounded(g) && mine < |g| && fetched < |g|
    ensures FastForward(g, mine, fetched) == Some(result) <==>
            (fetched == result && Ancestor(g, mine, result)) || (mine == result && Ancestor(g, fetched, result))
  {
    if Ancestor(g, mine, fetched) && Ancestor(g, fetched, mine) {
      AncestorPrecedes(g, mine, fetched);
      AncestorPrecedes(g, fetched, mine);
    }
  }

  /** Promotion returns if and only if the worktree was and stayed clean, the planned branch is checked out at the
      planned and verified commit, the remote main stood at the planned base when it was first asked, pulling then
      brought local main to that base, the planned commit is above it and above what the push found, and both looks at
      the remote after the push show the planned commit. */
  lemma ClearsExactly(g: Graph, plan: PromotionPlan, s: State, moves: seq<Refs>, dirtied: bool)
    requires WellFounded(g) && Known(g, s.branches) && Known(g, s.tracking) && s.head in s.branches
    requires |moves| == 5 && (forall k :: 0 <= k < 5 ==> Known(g, moves[k]))
    requires plan.source < |g| && plan.targetBefore < |g| && plan.target == "main"
    ensures Clears(g, plan, s, moves, dirtied) <==>
            && !s.dirty && !dirtied
            && s.head == plan.sourceBranch && s.branches[s.head] == plan.source && plan.verified == plan.source
            && "main" in moves[0] && moves[0]["main"] == plan.targetBefore
            && ("main" in s.branches || "main" in s.tracking) && "main" in moves[1]
            && (var mine := if "main" in s.branches then s.branches["main"] else s.tracking["main"];
                || (moves[1]["main"] == plan.targetBefore && Ancestor(g, mine, plan.targetBefore))
                || (mine == plan.targetBefore && Ancestor(g, moves[1]["main"], plan.targetBefore)))
            && Ancestor(g, plan.targetBefore, plan.source)
            && ("main" in moves[2] ==> Ancestor(g, moves[2]["main"], plan.source))
            && "main" in moves[3] && moves[3]["main"] == plan.source
            && "main" in moves[4] && moves[4]["main"] == plan.source
  {
    if "main" in moves[1] && ("main" in s.branches || "main" in s.tracking) {
      var mine := if "main" in s.branches then s.branches["main"] else s.tracking["main"];
      FastForwardExactly(g, mine, moves[1]["main"], plan.targetBefore);
    }
    FastForwardExactly(g, plan.targetBefore, plan.source, plan.source);
    hide Ancestor, FastForward;
  }

  /** What promotion may have written: nothing but one push, to the planned branch, of the planned commit, over an
      ancestor of it. */
  lemma OnePush(g: Graph, plan: PromotionPlan, moves: seq<Refs>, before: seq<Write>, after: seq<Write>)
    requires WellFounded(g) && plan.source < |g| && |moves| == 5 && FastForwardWrite(g, plan, moves, before, after)
    ensures |after| == |before| + 1 && after[..|before|] == before
    ensures var w := after[|before|];
      && w.branch == plan.target && w.after == plan.source
      && (w.before.Some? <==> plan.target in moves[2])
      && (w.before.Some? ==> w.before.value == moves[2][plan.target] && Ancestor(g, w.before.value, w.after))
  {
  }

  /** Whatever was reachable from the remote branch when the push landed is reachable from the promoted commit. */
  lemma NothingBecomesUnreachable(
    g: Graph, plan: PromotionPlan, moves: seq<Refs>, before: seq<Write>, after: seq<Write>, c: Sha)
    requires WellFounded(g) && plan.source < |g| && |moves| == 5 && Known(g, moves[2])
    requires FastForwardWrite(g, plan, moves, before, after)
    requires plan.target in moves[2] && Ancestor(g, c, moves[2][plan.target])
    ensures Ancestor(g, c, plan.source)
  {
    AncestorTransitive(g, c, moves[2][plan.target], plan.source);
  }

  /** A planned promotion of an undisturbed remote succeeds exactly when local main, if there is one, is behind the
      preflighted commit. */
  lemma UndisturbedPromotion(
    similar: (Blob, Blob) -> bool, g: Graph, s: State, verified: Sha, manifest: Path,
    root: Digest, p: PromotionPlan, moves: seq<Refs>)
    requires WellFounded(g) && Known(g, s.branches) && Known(g, s.tracking)
    requires |moves| == 5 && (forall k :: 0 <= k < 5 ==> Known(g, moves[k]))
    requires PlanIsSound(similar, g, s, verified, "main", manifest, root, s.tracking, p)
    requires At(moves[0], "main") == At(moves[1], "main") == At(moves[2], "main") == Some(p.targetBefore)
    requires At(moves[3], "main") == At(moves[4], "main") == Some(p.source)
    ensures Clears(g, p, s, moves, false) <==>
            ("main" in s.branches ==> Ancestor(g, s.branches["main"], p.targetBefore))
  {
    var mine := if "main" in s.branches then s.branches["main"] else s.tracking["main"];
    assert mine == p.targetBefore ==> Ancestor(g, mine, p.targetBefore);
    if Ancestor(g, p.targetBefore, mine) && Ancestor(g, mine, p.targetBefore) {
      AncestorPrecedes(g, p.targetBefore, mine);
      AncestorPrecedes(g, mine, p.targetBefore);
    }
  }

  /** A promotion that returns has seen only ancestors of the planned commit on the remote branch up to its push: a
      rival commit that the planned one does not contain stops it. */
  lemma RivalsWin(g: Graph, plan: PromotionPlan, s: State, moves: seq<Refs>, dirtied: bool)
    requires WellFounded(g) && Known(g, s.branches) && Known(g, s.tracking) && s.head in s.branches
    requires |moves| == 5 && (forall k :: 0 <= k < 5 ==> Known(g, moves[k]))
    requires plan.source < |g| && plan.targetBefore < |g| && Ancestor(g, plan.targetBefore, plan.source)
    requires Clears(g, plan, s, moves, dirtied)
    ensures Contained(g, moves[0], plan.target, plan.source)
    ensures Contained(g, moves[1], plan.target, plan.source)
    ensures Contained(g, moves[2], plan.target, plan.source)
  {
    hide Ancestor, FastForward;
    PulledIsBehind(g, s, plan.target, moves[1], plan.targetBefore, plan.source);
  }

  lemma PulledIsBehind(g: Graph, s: State, t: string, fetched: Refs, before: Sha, source: Sha)
    requires WellFounded(g) && Known(g, s.branches) && Known(g, s.tracking) && Known(g, fetched)
    requires before < |g| && source < |g| && PullsTo(g, s, t, fetched, before) && Ancestor(g, before, source)
    ensures Ancestor(g, fetched[t], source)
  {
    ForwardIsAbove(g, if t in s.branches then s.branches[t] else s.tracking[t], fetched[t], before, source);
  }

  lemma ForwardIsAbove(g: Graph, mine: Sha, fetched: Sha, before: Sha, source: Sha)
    requires WellFounded(g) && mine < |g| && fetched < |g| && before < |g| && source < |g|
    requires FastForward(g, mine, fetched) == Some(before) && Ancestor(g, before, source)
    ensures Ancestor(g, fetched, source)
  {
    hide Ancestor;
    if fetched != before { AncestorTransitive(g, fetched, before, source); }
  }
}
