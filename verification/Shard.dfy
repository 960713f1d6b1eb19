/** One shard of logical executions over two routes: a batch to the adapter, and one isolated process per short-limit
    execution. */
module Shard {
  import opened Options
  import opened Sorting

  datatype Id = Id(text: nat)

  datatype Logical = Logical(id: Id, wallTimeMs: nat)

  /** A response names the execution it answers; the rest of it is opaque. */
  datatype Response = Response(id: Id, body: nat)

  const MAXIMUM_ISOLATED_TARGET_WALL_TIME_MS := 1_000

  // ---------------------------------------------------------------------------
  // Splitting

  predicate IsIsolated(python: bool, l: Logical) { python && l.wallTimeMs <= MAXIMUM_ISOLATED_TARGET_WALL_TIME_MS }

  function Where<T(!new)>(s: seq<T>, p: T -> bool): (r: seq<T>)
    ensures forall x :: x in r <==> x in s && p(x)
  {
    if s == [] then [] else
    var last := s[|s| - 1];
    var rest := Where(s[..|s| - 1], p);
    assert s == s[..|s| - 1] + [last];
    if p(last) then rest + [last] else rest
  }

  function Short(python: bool): Logical -> bool { (l: Logical) => IsIsolated(python, l) }

  function Outside(ids: set<Id>): Logical -> bool { (l: Logical) => l.id !in ids }

  function Not(p: Logical -> bool): Logical -> bool { (l: Logical) => !p(l) }

  function Isolated(python: bool, ls: seq<Logical>): seq<Logical> { Where(ls, Short(python)) }

  function IdsOf(ls: seq<Logical>): set<Id> { set l | l in ls :: l.id }

  /** Everything whose identifier no isolated execution has. */
  function Batched(python: bool, ls: seq<Logical>): seq<Logical> {
    Where(ls, Outside(IdsOf(Isolated(python, ls))))
  }

  lemma {:induction false} WhereConcat<T(!new)>(a: seq<T>, b: seq<T>, p: T -> bool)
    ensures Where(a + b, p) == Where(a, p) + Where(b, p)
    decreases |b|
  {
    if b == [] {
      assert a + b == a;
    } else {
      WhereConcat(a, b[..|b| - 1], p);
      assert (a + b)[..|a + b| - 1] == a + b[..|b| - 1];
    }
  }

  /** Appending an execution to a shard: it is isolated when the target is Python and its limit is at most a second;
      then whatever shares its identifier leaves the batch, and otherwise it joins the batch at the end unless an
      isolated execution has its identifier. */
  lemma OneMoreExecution(python: bool, ls: seq<Logical>, l: Logical)
    ensures Isolated(python, ls + [l]) ==
            Isolated(python, ls) + if python && l.wallTimeMs <= 1_000 then [l] else []
    ensures var others := Where(Batched(python, ls), (b: Logical) => b.id != l.id);
      Batched(python, ls + [l]) ==
      if python && l.wallTimeMs <= 1_000 then others
      else Batched(python, ls) + if exists q :: q in Isolated(python, ls) && q.id == l.id then [] else [l]
  {
    var longer := ls + [l];
    WhereConcat(ls, [l], Short(python));
    assert [l][..0] == [] && Where([l], Short(python)) == if IsIsolated(python, l) then [l] else [];
    var (before, after) := (IdsOf(Isolated(python, ls)), IdsOf(Isolated(python, longer)));
    WhereConcat(ls, [l], Outside(after));
    assert Where([l], Outside(after)) == if l.id !in after then [l] else [];
    if IsIsolated(python, l) {
      IdsMore(Isolated(python, ls), l);
      WhereTwice(ls, Outside(before), (b: Logical) => b.id != l.id, Outside(after));
    } else {
      assert Isolated(python, longer) == Isolated(python, ls);
    }
  }

  lemma IdsMore(ls: seq<Logical>, l: Logical)
    ensures IdsOf(ls + [l]) == IdsOf(ls) + {l.id}
  {
    assert forall q :: q in ls + [l] <==> q in ls || q == l;
  }

  lemma {:induction false} WhereTwice<T(!new)>(s: seq<T>, p: T -> bool, q: T -> bool, both: T -> bool)
    requires forall x :: x in s ==> both(x) == (p(x) && q(x))
    ensures Where(Where(s, p), q) == Where(s, both)
  {
    if s != [] {
      var (front, last) := (s[..|s| - 1], s[|s| - 1]);
      assert s == front + [last];
      WhereTwice(front, p, q, both);
      if p(last) {
        WhereConcat(Where(front, p), [last], q);
        assert [last][..0] == [];
      }
    }
  }

  predicate DistinctIds(ls: seq<Logical>) { forall i, j :: 0 <= i < j < |ls| ==> ls[i].id != ls[j].id }

  lemma {:induction false} WhereSame<T(!new)>(s: seq<T>, p: T -> bool, q: T -> bool)
    requires forall x :: x in s ==> p(x) == q(x)
    ensures Where(s, p) == Where(s, q)
  {
    if s != [] {
      assert s == s[..|s| - 1] + [s[|s| - 1]];
      WhereSame(s[..|s| - 1], p, q);
    }
  }

  /** With distinct identifiers the two routes are complementary. */
  lemma BatchedIsTheRest(python: bool, ls: seq<Logical>)
    requires DistinctIds(ls)
    ensures Batched(python, ls) == Where(ls, Not(Short(python)))
  {
    var isolated := IdsOf(Isolated(python, ls));
    forall l | l in ls ensures Outside(isolated)(l) == Not(Short(python))(l) {
      if l.id in isolated {
        var other :| other in Isolated(python, ls) && other.id == l.id;
        var i :| 0 <= i < |ls| && ls[i] == l;
        var j :| 0 <= j < |ls| && ls[j] == other;
        assert i == j;
      } else if IsIsolated(python, l) {
        assert l in Isolated(python, ls);
      }
    }
    WhereSame(ls, Outside(isolated), Not(Short(python)));
  }

  lemma {:induction false} WhereDistinct(ls: seq<Logical>, p: Logical -> bool)
    requires DistinctIds(ls)
    ensures DistinctIds(Where(ls, p))
  {
    if ls != [] {
      var (front, last) := (ls[..|ls| - 1], ls[|ls| - 1]);
      WhereDistinct(front, p);
      forall l | l in Where(front, p) ensures l.id != last.id {
        var i :| 0 <= i < |front| && front[i] == l;
        assert ls[i] == l;
      }
    }
  }

  // ---------------------------------------------------------------------------
  // Correlating and merging

  predicate Correlated(rs: seq<Response>, ls: seq<Logical>) {
    |rs| == |ls| && forall i :: 0 <= i < |rs| ==> rs[i].id == ls[i].id
  }

  /** {item["correlation_id"]: item for item in responses}: the last one wins. */
  function ById(rs: seq<Response>): (m: map<Id, Response>)
    ensures forall k :: k in m ==> m[k].id == k && m[k] in rs
    ensures forall i :: 0 <= i < |rs| ==> rs[i].id in m
  {
    if rs == [] then map[] else
    assert rs == rs[..|rs| - 1] + [rs[|rs| - 1]];
    ById(rs[..|rs| - 1])[rs[|rs| - 1].id := rs[|rs| - 1]]
  }

  /** The answers of the first n isolated processes: each for its own execution, none for an identifier already
      answered. */
  predicate Answers(before: map<Id, Response>, ls: seq<Logical>, answers: seq<Option<Response>>, n: nat)
    requires |answers| == |ls| && n <= |ls|
  {
    && (forall i :: 0 <= i < n ==> answers[i].Some? && answers[i].value.id == ls[i].id && ls[i].id !in before)
    && (forall i, j :: 0 <= i < j < n ==> ls[i].id != ls[j].id)
  }

  function Values(answers: seq<Option<Response>>, n: nat): (rs: seq<Response>)
    requires n <= |answers| && forall i :: 0 <= i < n ==> answers[i].Some?
    ensures |rs| == n && forall i :: 0 <= i < n ==> rs[i] == answers[i].value
  {
    seq(n, i requires 0 <= i < n => answers[i].value)
  }

  function InOrder(m: map<Id, Response>, ls: seq<Logical>): (rs: seq<Response>)
    requires forall i :: 0 <= i < |ls| ==> ls[i].id in m
    ensures |rs| == |ls| && forall i :: 0 <= i < |ls| ==> rs[i] == m[ls[i].id]
  {
    seq(|ls|, i requires 0 <= i < |ls| => m[ls[i].id])
  }

  /** When the shard returns normally. */
  predicate Returns(python: bool, ls: seq<Logical>, responses: seq<Response>, answers: seq<Option<Response>>)
    requires |answers| == |Isolated(python, ls)|
  {
    Correlated(responses, Batched(python, ls)) && Answers(ById(responses), Isolated(python, ls), answers, |answers|)
  }

  function Merged(responses: seq<Response>, answers: seq<Option<Response>>): map<Id, Response>
    requires forall i :: 0 <= i < |answers| ==> answers[i].Some?
  {
    ById(responses) + ById(Values(answers, |answers|))
  }

  lemma Covers(python: bool, ls: seq<Logical>, responses: seq<Response>, answers: seq<Option<Response>>)
    requires |answers| == |Isolated(python, ls)| && Returns(python, ls, responses, answers)
    ensures forall k :: k in Merged(responses, answers) <==> k in IdsOf(ls)
  {
    var (isolated, batched) := (Isolated(python, ls), Batched(python, ls));
    forall l | l in ls ensures l.id in Merged(responses, answers) {
      if l.id in IdsOf(isolated) {
        var other :| other in isolated && other.id == l.id;
        var i :| 0 <= i < |isolated| && isolated[i] == other;
        assert Values(answers, |answers|)[i].id == l.id;
      } else {
        assert l in batched;
        var i :| 0 <= i < |batched| && batched[i] == l;
        assert responses[i].id == l.id;
      }
    }
    forall k | k in Merged(responses, answers) ensures k in IdsOf(ls) {
      if k in ById(Values(answers, |answers|)) {
        var i :| 0 <= i < |Values(answers, |answers|)|
          && Values(answers, |answers|)[i] == ById(Values(answers, |answers|))[k];
        assert isolated[i] in isolated && isolated[i].id == k;
      } else {
        var i :| 0 <= i < |responses| && responses[i] == ById(responses)[k];
        assert batched[i] in batched && batched[i].id == k;
      }
    }
  }

  lemma AnswersMore(before: map<Id, Response>, ls: seq<Logical>, answers: seq<Option<Response>>, n: nat)
    requires |answers| == |ls| && n < |ls| && Answers(before, ls, answers, n)
    requires answers[n].Some? && answers[n].value.id == ls[n].id
    ensures Answers(before, ls, answers, n + 1) <==> ls[n].id !in before && ls[n].id !in ById(Values(answers, n))
  {
    var values := Values(answers, n);
    if ls[n].id in ById(values) {
      var j :| 0 <= j < n && values[j] == ById(values)[ls[n].id];
      assert ls[j].id == ls[n].id;
    } else {
      forall j | 0 <= j < n ensures ls[j].id != ls[n].id {
        assert values[j].id == ls[j].id;
      }
    }
  }

  lemma ByIdMore(answers: seq<Option<Response>>, n: nat)
    requires n < |answers| && forall i :: 0 <= i <= n ==> answers[i].Some?
    ensures ById(Values(answers, n + 1)) == ById(Values(answers, n))[answers[n].value.id := answers[n].value]
  {
    hide ById;
    ByIdSnoc(Values(answers, n), answers[n].value);
    assert Values(answers, n + 1) == Values(answers, n) + [answers[n].value];
  }

  lemma ByIdSnoc(rs: seq<Response>, r: Response)
    ensures ById(rs + [r]) == ById(rs)[r.id := r]
  {
    var longer := rs + [r];
    assert longer[..|longer| - 1] == rs;
  }

  predicate MergedUpTo(
    before: map<Id, Response>, ls: seq<Logical>, answers: seq<Option<Response>>, n: nat, byId: map<Id, Response>)
    requires |answers| == |ls| && n <= |ls|
  {
    Answers(before, ls, answers, n) && byId == before + ById(Values(answers, n))
  }

  lemma NoAnswers(before: map<Id, Response>, ls: seq<Logical>, answers: seq<Option<Response>>)
    requires |answers| == |ls|
    ensures MergedUpTo(before, ls, answers, 0, before)
  {
  }

  /** The checks on one answer decide whether the answers so far can be extended, and whether all can be accepted. */
  lemma Judged(
    before: map<Id, Response>, ls: seq<Logical>, answers: seq<Option<Response>>, n: nat, byId: map<Id, Response>)
    requires |answers| == |ls| && n < |ls| && MergedUpTo(before, ls, answers, n, byId)
    ensures if answers[n].Some? && answers[n].value.id == ls[n].id && answers[n].value.id !in byId
            then MergedUpTo(before, ls, answers, n + 1, byId[answers[n].value.id := answers[n].value])
            else !Answers(before, ls, answers, |ls|)
  {
    TakenSoFar(before, ls, answers, n);
    hide ById, Answers;
    if answers[n].Some? && answers[n].value.id == ls[n].id {
      AnswersMore(before, ls, answers, n);
      if answers[n].value.id in byId {
        AnswersFewer(before, ls, answers, n + 1);
      } else {
        ByIdMore(answers, n);
        Appended(before, ById(Values(answers, n)), answers[n].value);
      }
    } else {
      BadAnswer(before, ls, answers, n);
    }
  }

  lemma TakenSoFar(before: map<Id, Response>, ls: seq<Logical>, answers: seq<Option<Response>>, n: nat)
    requires |answers| == |ls| && n <= |ls| && Answers(before, ls, answers, n)
    ensures forall i :: 0 <= i < n ==> answers[i].Some?
  {
  }

  lemma AnswersFewer(before: map<Id, Response>, ls: seq<Logical>, answers: seq<Option<Response>>, n: nat)
    requires |answers| == |ls| && n <= |ls|
    ensures Answers(before, ls, answers, |ls|) ==> Answers(before, ls, answers, n)
  {
  }

  lemma BadAnswer(before: map<Id, Response>, ls: seq<Logical>, answers: seq<Option<Response>>, n: nat)
    requires |answers| == |ls| && n < |ls| && (answers[n].None? || answers[n].value.id != ls[n].id)
    ensures !Answers(before, ls, answers, |ls|)
  {
  }

  lemma Appended(before: map<Id, Response>, taken: map<Id, Response>, r: Response)
    ensures (before + taken)[r.id := r] == before + taken[r.id := r]
  {
  }

  /** The loop over the isolated executions. */
  method MergeAnswers(before: map<Id, Response>, ls: seq<Logical>, answers: seq<Option<Response>>)
    returns (ok: bool, byId: map<Id, Response>)
    requires |answers| == |ls|
    ensures ok <==> Answers(before, ls, answers, |ls|)
    ensures ok ==> byId == before + ById(Values(answers, |ls|))
  {
    hide ById, Answers;
    byId := before;
    NoAnswers(before, ls, answers);
    for n := 0 to |ls|
      invariant MergedUpTo(before, ls, answers, n, byId)
    {
      Judged(before, ls, answers, n, byId);
      if answers[n].None? { return false, byId; }
      var result := answers[n].value;
      if result.id != ls[n].id || result.id in byId { return false, byId; }
      byId := byId[result.id := result];
    }
    ok := true;
  }

  /** Split the shard, run both routes, correlate, and merge in shard order. The coverage check at the end never fires.
      */
  method Invoke(python: bool, ls: seq<Logical>, responses: seq<Response>, answers: seq<Option<Response>>)
    returns (results: Option<seq<Response>>)
    requires |answers| == |Isolated(python, ls)|
    ensures results.Some? <==> Returns(python, ls, responses, answers)
    ensures results.Some? ==>
              && (forall i :: 0 <= i < |ls| ==> ls[i].id in Merged(responses, answers))
              && results.value == InOrder(Merged(responses, answers), ls)
  {
    var isolated, batched := Isolated(python, ls), Batched(python, ls);
    if |responses| != |batched| { return None; }
    if exists i :: 0 <= i < |batched| && responses[i].id != batched[i].id { return None; }
    var ok, byId := MergeAnswers(ById(responses), isolated, answers);
    if !ok { return None; }
    Covers(python, ls, responses, answers);
    if byId.Keys != IdsOf(ls) { return None; }
    forall i | 0 <= i < |ls| ensures ls[i].id in byId { assert ls[i] in ls; }
    return Some(InOrder(byId, ls));
  }

  // ---------------------------------------------------------------------------
  // What a normal return means

  lemma {:induction false} LookUp(rs: seq<Response>, i: nat)
    requires i < |rs| && forall a, b :: 0 <= a < b < |rs| ==> rs[a].id != rs[b].id
    ensures rs[i].id in ById(rs) && ById(rs)[rs[i].id] == rs[i]
    decreases |rs|
  {
    if i < |rs| - 1 { LookUp(rs[..|rs| - 1], i); }
  }

  lemma WhereKnown(m: map<Id, Response>, ls: seq<Logical>, p: Logical -> bool)
    requires forall i :: 0 <= i < |ls| ==> ls[i].id in m
    ensures forall i :: 0 <= i < |Where(ls, p)| ==> Where(ls, p)[i].id in m
  {
    forall i | 0 <= i < |Where(ls, p)| ensures Where(ls, p)[i].id in m {
      assert Where(ls, p)[i] in ls;
    }
  }

  lemma InOrderMore(m: map<Id, Response>, ls: seq<Logical>, l: Logical)
    requires (forall i :: 0 <= i < |ls| ==> ls[i].id in m) && l.id in m
    ensures forall i :: 0 <= i < |ls + [l]| ==> (ls + [l])[i].id in m
    ensures InOrder(m, ls + [l]) == InOrder(m, ls) + [m[l.id]]
  {
  }

  lemma {:induction false} SplitResults(m: map<Id, Response>, ls: seq<Logical>, p: Logical -> bool)
    requires forall i :: 0 <= i < |ls| ==> ls[i].id in m
    ensures forall i :: 0 <= i < |Where(ls, p)| ==> Where(ls, p)[i].id in m
    ensures forall i :: 0 <= i < |Where(ls, Not(p))| ==> Where(ls, Not(p))[i].id in m
    ensures multiset(InOrder(m, ls)) == multiset(InOrder(m, Where(ls, p))) + multiset(InOrder(m, Where(ls, Not(p))))
    decreases |ls|
  {
    WhereKnown(m, ls, p);
    WhereKnown(m, ls, Not(p));
    if ls == [] {
      assert InOrder(m, ls) == [];
    } else {
      var (front, last) := (ls[..|ls| - 1], ls[|ls| - 1]);
      SplitResults(m, front, p);
      assert ls == front + [last];
      hide InOrder;
      InOrderMore(m, front, last);
      var kept := if p(last) then Where(front, p) else Where(front, Not(p));
      InOrderMore(m, kept, last);
      OneMore(m[last.id], InOrder(m, front));
      OneMore(m[last.id], InOrder(m, kept));
    }
  }

  lemma OneMore(r: Response, rs: seq<Response>)
    ensures multiset(rs + [r]) == multiset(rs) + multiset{r}
  {
  }

  lemma AnsweredIsIsolated(ls: seq<Logical>, answers: seq<Option<Response>>, before: map<Id, Response>, k: Id)
    requires |answers| == |ls| && Answers(before, ls, answers, |ls|) && k in ById(Values(answers, |answers|))
    ensures k in IdsOf(ls) && k !in before
  {
    var values := Values(answers, |answers|);
    var i :| 0 <= i < |values| && values[i] == ById(values)[k];
    assert ls[i] in ls;
  }

  lemma IsolatedResults(ls: seq<Logical>, answers: seq<Option<Response>>, before: map<Id, Response>)
    requires |answers| == |ls| && Answers(before, ls, answers, |ls|)
    ensures var m := before + ById(Values(answers, |answers|));
      (forall i :: 0 <= i < |ls| ==> ls[i].id in m) && InOrder(m, ls) == Values(answers, |answers|)
  {
    forall i | 0 <= i < |ls|
      ensures ls[i].id in ById(Values(answers, |answers|))
      ensures ById(Values(answers, |answers|))[ls[i].id] == Values(answers, |answers|)[i]
    {
      LookUp(Values(answers, |answers|), i);
    }
  }

  lemma BatchedResults(ls: seq<Logical>, responses: seq<Response>, others: map<Id, Response>)
    requires Correlated(responses, ls) && DistinctIds(ls) && forall k :: k in others ==> k !in ById(responses)
    ensures var m := ById(responses) + others;
      (forall i :: 0 <= i < |ls| ==> ls[i].id in m) && InOrder(m, ls) == responses
  {
    forall i | 0 <= i < |ls| ensures ls[i].id in ById(responses) && ById(responses)[ls[i].id] == responses[i] {
      LookUp(responses, i);
    }
  }

  lemma InShard(ls: seq<Logical>)
    ensures forall i :: 0 <= i < |ls| ==> ls[i].id in IdsOf(ls)
  {
    forall i | 0 <= i < |ls| ensures ls[i].id in IdsOf(ls) { assert ls[i] in ls; }
  }

  /** With distinct identifiers: one result per execution, in shard order, carrying its identifier; and the results are
      exactly the batched responses and the isolated answers, each used once. */
  lemma EveryAnswerUsedOnce(python: bool, ls: seq<Logical>, responses: seq<Response>, answers: seq<Option<Response>>)
    requires |answers| == |Isolated(python, ls)| && Returns(python, ls, responses, answers) && DistinctIds(ls)
    ensures forall i :: 0 <= i < |ls| ==> ls[i].id in Merged(responses, answers)
    ensures var results := InOrder(Merged(responses, answers), ls);
      && |results| == |ls| && (forall i :: 0 <= i < |ls| ==> results[i].id == ls[i].id)
      && multiset(results) == multiset(responses) + multiset(Values(answers, |answers|))
  {
    hide ById, Short, Where, IdsOf;
    var (isolated, batched, m) := (Isolated(python, ls), Batched(python, ls), Merged(responses, answers));
    Covers(python, ls, responses, answers);
    InShard(ls);
    forall i | 0 <= i < |ls| ensures ls[i].id in m { assert ls[i] in ls; }
    BatchedIsTheRest(python, ls);
    WhereDistinct(ls, Not(Short(python)));
    SplitResults(m, ls, Short(python));
    IsolatedResults(isolated, answers, ById(responses));
    forall k | k in ById(Values(answers, |answers|)) ensures k !in ById(responses) {
      AnsweredIsIsolated(isolated, answers, ById(responses), k);
    }
    BatchedResults(batched, responses, ById(Values(answers, |answers|)));
  }

  lemma {:induction false} WhereNone<T(!new)>(s: seq<T>, p: T -> bool)
    requires forall x :: x in s ==> !p(x)
    ensures Where(s, p) == []
  {
    if s != [] {
      assert s == s[..|s| - 1] + [s[|s| - 1]];
      WhereNone(s[..|s| - 1], p);
    }
  }

  lemma {:induction false} WhereAll<T(!new)>(s: seq<T>, p: T -> bool)
    requires forall x :: x in s ==> p(x)
    ensures Where(s, p) == s
  {
    if s != [] {
      assert s == s[..|s| - 1] + [s[|s| - 1]];
      WhereAll(s[..|s| - 1], p);
    }
  }

  /** Distinct identifiers are needed: a repeated one returns normally although a response is dropped. */
  lemma RepeatedIdLosesAResponse()
    ensures var (ls, rs) := ([Logical(Id(0), 5_000), Logical(Id(0), 5_000)], [Response(Id(0), 1), Response(Id(0), 2)]);
      && |Isolated(true, ls)| == 0 && Returns(true, ls, rs, [])
      && Id(0) in Merged(rs, []) && Response(Id(0), 1) !in InOrder(Merged(rs, []), ls)
  {
    var ls := [Logical(Id(0), 5_000), Logical(Id(0), 5_000)];
    var rs := [Response(Id(0), 1), Response(Id(0), 2)];
    WhereNone(ls, Short(true));
    assert IdsOf([]) == {};
    WhereAll(ls, Outside({}));
    assert ById(Values([], 0)) == map[];
  }

  // ---------------------------------------------------------------------------
  // Exactly which shards lose nothing

  /** On a normal return every response and every isolated answer is used exactly once. */
  ghost predicate UsesAll(python: bool, ls: seq<Logical>, responses: seq<Response>, answers: seq<Option<Response>>) {
    && |answers| == |Isolated(python, ls)|
    && (Returns(python, ls, responses, answers) ==>
          && (forall i :: 0 <= i < |ls| ==> ls[i].id in Merged(responses, answers))
          && multiset(InOrder(Merged(responses, answers), ls)) ==
             multiset(responses) + multiset(Values(answers, |answers|)))
  }

  /** Answers that are all different: the batch numbers its responses, the isolated processes continue. */
  function Numbered(ls: seq<Logical>, start: nat): (rs: seq<Response>)
    ensures |rs| == |ls| && forall i :: 0 <= i < |ls| ==> rs[i] == Response(ls[i].id, start + i)
  {
    seq(|ls|, i requires 0 <= i < |ls| => Response(ls[i].id, start + i))
  }

  function Given(rs: seq<Response>): (answers: seq<Option<Response>>)
    ensures |answers| == |rs| && forall i :: 0 <= i < |rs| ==> answers[i] == Some(rs[i])
  {
    seq(|rs|, i requires 0 <= i < |rs| => Some(rs[i]))
  }

  lemma IdsIn(ls: seq<Logical>, responses: seq<Response>, k: Id)
    requires Correlated(responses, ls) && k in ById(responses)
    ensures exists i :: 0 <= i < |ls| && ls[i].id == k
  {
    var i :| 0 <= i < |responses| && responses[i] == ById(responses)[k];
    assert ls[i].id == k;
  }

  /** A shard whose isolated executions have distinct identifiers can return. */
  lemma NumberedReturns(python: bool, ls: seq<Logical>)
    requires DistinctIds(Isolated(python, ls))
    ensures var (isolated, batched) := (Isolated(python, ls), Batched(python, ls));
      Returns(python, ls, Numbered(batched, 0), Given(Numbered(isolated, |batched|)))
  {
    var (isolated, batched) := (Isolated(python, ls), Batched(python, ls));
    var (responses, answers) := (Numbered(batched, 0), Given(Numbered(isolated, |batched|)));
    forall i | 0 <= i < |isolated| ensures isolated[i].id !in ById(responses) {
      if isolated[i].id in ById(responses) {
        IdsIn(batched, responses, isolated[i].id);
        var j :| 0 <= j < |batched| && batched[j].id == isolated[i].id;
        BatchedOutside(python, ls, batched[j]);
      }
    }
  }

  lemma BatchedOutside(python: bool, ls: seq<Logical>, l: Logical)
    requires l in Batched(python, ls)
    ensures forall k :: 0 <= k < |Isolated(python, ls)| ==> Isolated(python, ls)[k].id != l.id
  {
    forall k | 0 <= k < |Isolated(python, ls)| ensures Isolated(python, ls)[k].id != l.id {
      assert Isolated(python, ls)[k] in Isolated(python, ls);
    }
  }

  /** If two executions share an identifier they get the same result, although all answers differ. */
  lemma NumberedLoses(python: bool, ls: seq<Logical>, i: nat, j: nat)
    requires DistinctIds(Isolated(python, ls)) && i < j < |ls| && ls[i].id == ls[j].id
    ensures var (isolated, batched) := (Isolated(python, ls), Batched(python, ls));
      !UsesAll(python, ls, Numbered(batched, 0), Given(Numbered(isolated, |batched|)))
  {
    var (isolated, batched) := (Isolated(python, ls), Batched(python, ls));
    var (responses, answers) := (Numbered(batched, 0), Given(Numbered(isolated, |batched|)));
    NumberedReturns(python, ls);
    Covers(python, ls, responses, answers);
    InShard(ls);
    var m := Merged(responses, answers);
    var results := InOrder(m, ls);
    Twice(results, i, j);
    var all := responses + Numbered(isolated, |batched|);
    assert Values(answers, |answers|) == Numbered(isolated, |batched|);
    assert multiset(all) == multiset(responses) + multiset(Values(answers, |answers|));
    AllDifferent(batched, isolated);
    Once(all, results[i]);
  }

  lemma AllDifferent(batched: seq<Logical>, isolated: seq<Logical>)
    ensures Distinct(Numbered(batched, 0) + Numbered(isolated, |batched|))
  {
    var all := Numbered(batched, 0) + Numbered(isolated, |batched|);
    assert forall i :: 0 <= i < |all| ==> all[i].body == i;
  }

  /** Whatever the adapter and the processes answer, every normal return uses each answer exactly once if and only if
      the shard's identifiers are distinct, or two of its isolated executions share one and it never returns. */
  lemma UsesAllExactly(python: bool, ls: seq<Logical>)
    ensures (forall responses, answers :: |answers| == |Isolated(python, ls)| ==>
                 UsesAll(python, ls, responses, answers)) <==>
            DistinctIds(ls) || !DistinctIds(Isolated(python, ls))
  {
    if DistinctIds(ls) {
      forall responses, answers | |answers| == |Isolated(python, ls)| ensures UsesAll(python, ls, responses, answers) {
        if Returns(python, ls, responses, answers) { EveryAnswerUsedOnce(python, ls, responses, answers); }
      }
    } else if !DistinctIds(Isolated(python, ls)) {
      forall responses, answers | |answers| == |Isolated(python, ls)| ensures UsesAll(python, ls, responses, answers) {
        NeverReturns(python, ls, responses, answers);
      }
    } else {
      var i, j :| 0 <= i < j < |ls| && ls[i].id == ls[j].id;
      NumberedLoses(python, ls, i, j);
    }
  }

  lemma NeverReturns(python: bool, ls: seq<Logical>, responses: seq<Response>, answers: seq<Option<Response>>)
    requires |answers| == |Isolated(python, ls)| && !DistinctIds(Isolated(python, ls))
    ensures !Returns(python, ls, responses, answers)
  {
  }
}
