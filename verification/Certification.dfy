/** The local certification manifest: its closure roots, and what an accepted envelope says about two commits.

  Hashes are ideal: a digest is the content it was taken of, or a foreign string that is the digest of nothing known.
  Paths, roles and test identifiers are ranks in code-point order.
*/
module Certification {
  import opened Options
  import opened Sorting

  type Path = nat
  type Sha = nat

  datatype Digest =
    | OfBlob(blob: Blob)
    | OfEntries(entries: seq<Entry>)
    | OfTests(tests: seq<Test>)
    | OfPayload(payload: Payload)
    | Foreign(text: nat)

  /** File contents: a manifest file of some length, or anything else. */
  datatype Blob = Plain(bytes: seq<nat>) | Document(length: nat, manifest: Manifest)

  datatype Entry = Entry(role: nat, path: Path, digest: Digest, length: nat)

  datatype Test = Test(id: nat, result: nat, passed: bool)

  datatype Payload = Payload(
    source: Sha, worktreeClean: bool, sourceTree: nat, entries: seq<Entry>, entriesRoot: Digest,
    tests: seq<Test>, testsRoot: Digest, passed: bool)

  datatype Manifest = Manifest(payload: Payload, root: Digest)

  type Tree = map<Path, Blob>

  datatype Commit = Commit(parents: seq<Sha>, tree: Tree, treeSha: nat)

  type Graph = seq<Commit>

  // ---------------------------------------------------------------------------
  // Closure roots

  datatype Key = Key(role: nat, path: nat, test: nat)

  predicate KeyLe(a: Key, b: Key) {
    a.role < b.role || (a.role == b.role && (a.path < b.path || (a.path == b.path && a.test <= b.test)))
  }

  function KeyOf(e: Entry): Key { Key(e.role, e.path, 0) }

  function TestKey(t: Test): Key { Key(0, 0, t.id) }

  function ByKey<T>(key: T -> Key): (T, T) -> bool { (x, y) => KeyLe(key(x), key(y)) }

  function EntriesRoot(entries: seq<Entry>): Digest { OfEntries(Sort(entries, ByKey(KeyOf))) }

  function TestsRoot(tests: seq<Test>): Digest { OfTests(Sort(tests, ByKey(TestKey))) }

  lemma ByKeyPreorder<T(!new)>(key: T -> Key)
    ensures Preorder(ByKey(key))
  {
  }

  predicate KeysDecide<T(!new, ==)>(s: seq<T>, key: T -> Key) {
    forall i, j :: 0 <= i < |s| && 0 <= j < |s| && key(s[i]) == key(s[j]) ==> s[i] == s[j]
  }

  /** Two list orders give the same sorted list when equal keys mean equal records. */
  lemma SortIsCanonical<T(!new)>(a: seq<T>, b: seq<T>, key: T -> Key)
    requires multiset(a) == multiset(b) && KeysDecide(a, key)
    ensures Sort(a, ByKey(key)) == Sort(b, ByKey(key))
  {
    var le := ByKey(key);
    ByKeyPreorder(key);
    SortOrders(a, le);
    SortOrders(b, le);
    SameMembers(a, Sort(a, le));
    forall x, y | x in Sort(a, le) && y in Sort(a, le) && le(x, y) && le(y, x) ensures x == y {
      var i :| 0 <= i < |a| && a[i] == x;
      var j :| 0 <= j < |a| && a[j] == y;
      assert key(a[i]) == key(a[j]);
    }
    OrderedUnique(Sort(a, le), Sort(b, le), le);
  }

  /** Exchanging two records of one key in a sorted list gives another sorted list. */
  lemma Exchanged<T(!new)>(s: seq<T>, key: T -> Key, i: nat, j: nat) returns (t: seq<T>)
    requires i < |s| && j < |s| && key(s[i]) == key(s[j]) && s[i] != s[j] && Ordered(s, ByKey(key))
    ensures multiset(t) == multiset(s) && Ordered(t, ByKey(key)) && t != s
  {
    t := s[i := s[j]][j := s[i]];
    assert t[i] == s[j];
    forall k, l | 0 <= k < l < |t| ensures ByKey(key)(t[k], t[l]) {
      assert key(t[k]) == key(s[k]) && key(t[l]) == key(s[l]);
      assert ByKey(key)(s[k], s[l]);
    }
  }

  lemma UndecidedKeys<T(!new)>(s: seq<T>, key: T -> Key) returns (a: seq<T>, b: seq<T>)
    requires !KeysDecide(s, key)
    ensures multiset(a) == multiset(b) == multiset(s)
    ensures Sort(a, ByKey(key)) != Sort(b, ByKey(key))
  {
    var le := ByKey(key);
    a := Sort(s, le);
    ByKeyPreorder(key);
    SortOrders(s, le);
    SameMembers(s, a);
    var k, l :| 0 <= k < |s| && 0 <= l < |s| && key(s[k]) == key(s[l]) && s[k] != s[l];
    assert s[k] in a && s[l] in a;
    var i :| 0 <= i < |a| && a[i] == s[k];
    var j :| 0 <= j < |a| && a[j] == s[l];
    b := Exchanged(a, key, i, j);
    SortOfOrdered(a, le);
    SortOfOrdered(b, le);
  }

  ghost predicate SameRoot(entries: seq<Entry>, a: seq<Entry>, b: seq<Entry>) {
    multiset(a) == multiset(entries) && multiset(b) == multiset(entries) ==> EntriesRoot(a) == EntriesRoot(b)
  }

  /** The root is independent of the order of the entries exactly when entries of one role and path are equal. */
  lemma RootIgnoresOrder(entries: seq<Entry>)
    ensures (forall a, b :: SameRoot(entries, a, b)) <==>
            forall x, y :: x in entries && y in entries && x.role == y.role && x.path == y.path ==> x == y
  {
    if KeysDecide(entries, KeyOf) {
      forall a, b ensures SameRoot(entries, a, b) {
        if multiset(a) == multiset(entries) && multiset(b) == multiset(entries) {
          SortIsCanonical(entries, a, KeyOf);
          SortIsCanonical(entries, b, KeyOf);
        }
      }
      forall x, y | x in entries && y in entries && x.role == y.role && x.path == y.path ensures x == y {
        var i :| 0 <= i < |entries| && entries[i] == x;
        var j :| 0 <= j < |entries| && entries[j] == y;
        assert KeyOf(entries[i]) == KeyOf(entries[j]);
      }
    } else {
      var a, b := UndecidedKeys(entries, KeyOf);
      assert !SameRoot(entries, a, b);
      var i, j :| 0 <= i < |entries| && 0 <= j < |entries| && KeyOf(entries[i]) == KeyOf(entries[j])
        && entries[i] != entries[j];
      assert entries[i] in entries && entries[j] in entries;
    }
  }

  /** A closure root hashes its entries by role and then by path, and results by identifier. */
  lemma RootOrders(entries: seq<Entry>, tests: seq<Test>)
    ensures var s := Sort(entries, ByKey(KeyOf));
      && EntriesRoot(entries) == OfEntries(s) && multiset(s) == multiset(entries)
      && forall i, j :: 0 <= i < j < |s| ==>
           s[i].role < s[j].role || (s[i].role == s[j].role && s[i].path <= s[j].path)
    ensures var s := Sort(tests, ByKey(TestKey));
      && TestsRoot(tests) == OfTests(s) && multiset(s) == multiset(tests)
      && forall i, j :: 0 <= i < j < |s| ==> s[i].id <= s[j].id
  {
    var (es, ts) := (Sort(entries, ByKey(KeyOf)), Sort(tests, ByKey(TestKey)));
    hide Sort, ByKey;
    forall i, j | 0 <= i < j < |es|
      ensures es[i].role < es[j].role || (es[i].role == es[j].role && es[i].path <= es[j].path)
    {
      SortedPair(entries, KeyOf, i, j);
    }
    forall i, j | 0 <= i < j < |ts| ensures ts[i].id <= ts[j].id {
      SortedPair(tests, TestKey, i, j);
    }
  }

  lemma SortedPair<T(!new)>(s: seq<T>, key: T -> Key, i: nat, j: nat)
    requires i < j < |s|
    ensures KeyLe(key(Sort(s, ByKey(key))[i]), key(Sort(s, ByKey(key))[j]))
  {
    ByKeyPreorder(key);
    SortOrders(s, ByKey(key));
    assert ByKey(key)(Sort(s, ByKey(key))[i], Sort(s, ByKey(key))[j]);
  }

  /** Equal roots come from the same collection of entries. */
  lemma RootCommits(a: seq<Entry>, b: seq<Entry>)
    requires EntriesRoot(a) == EntriesRoot(b)
    ensures multiset(a) == multiset(b)
  {
    assert multiset(Sort(a, ByKey(KeyOf))) == multiset(a);
  }

  // ---------------------------------------------------------------------------
  // Diffs

  /** Paths that two trees do not agree on. */
  ghost predicate DiffersAt(before: Tree, after: Tree, p: Path) {
    (p in before <==> p !in after) || (p in before && p in after && before[p] != after[p])
  }

  ghost predicate AgreeExcept(before: Tree, after: Tree, path: Path) {
    forall p :: p != path ==> !DiffersAt(before, after, p)
  }

  /** git diff pairs a removed file with a similar added one and lists only the new name. */
  ghost predicate MovedFrom(similar: (Blob, Blob) -> bool, before: Tree, after: Tree, path: Path, from: Path) {
    && from in before && from !in after && path !in before && path in after
    && similar(before[from], after[path])
    && (forall p :: p != path && p != from ==> !DiffersAt(before, after, p))
  }

  /** The diff between the trees names one file, `path`. */
  ghost predicate DiffNamesOnly(similar: (Blob, Blob) -> bool, before: Tree, after: Tree, path: Path) {
    || (DiffersAt(before, after, path) && AgreeExcept(before, after, path))
    || (exists from :: MovedFrom(similar, before, after, path, from))
  }

  /** The trees differ, but are the same without the manifest, or without it in the one and without a similar file,
      which is then a new name for it, in the other. */
  lemma DiffExactly(similar: (Blob, Blob) -> bool, before: Tree, after: Tree, path: Path)
    ensures DiffNamesOnly(similar, before, after, path) <==>
            && before != after
            && (|| before - {path} == after - {path}
                || exists from :: from in before && path in after && path !in before
                     && similar(before[from], after[path]) && before - {from} == after - {path})
  {
    AgreeExactly(before, after, path);
    forall from ensures MovedFrom(similar, before, after, path, from) <==>
      from in before && path in after && path !in before
      && similar(before[from], after[path]) && before - {from} == after - {path}
    {
      MovedExactly(similar, before, after, path, from);
    }
    hide MovedFrom, AgreeExcept, DiffersAt;
    if exists from :: MovedFrom(similar, before, after, path, from) {
      var from :| MovedFrom(similar, before, after, path, from);
      assert path in after && path !in before;
    }
  }

  lemma AgreeExactly(before: Tree, after: Tree, path: Path)
    ensures AgreeExcept(before, after, path) <==> before - {path} == after - {path}
    ensures AgreeExcept(before, after, path) ==> (DiffersAt(before, after, path) <==> before != after)
  {
    if AgreeExcept(before, after, path) {
      forall p ensures p in before - {path} <==> p in after - {path} {
        assert p != path ==> !DiffersAt(before, after, p);
      }
      forall p | p in before - {path} ensures before[p] == after[p] { assert !DiffersAt(before, after, p); }
      if !DiffersAt(before, after, path) { SameTree(before, after, path); }
    }
    if before - {path} == after - {path} {
      forall p | p != path ensures !DiffersAt(before, after, p) {
        assert p in before <==> p in before - {path};
        assert p in after <==> p in after - {path};
      }
    }
  }

  lemma SameTree(before: Tree, after: Tree, path: Path)
    requires AgreeExcept(before, after, path) && !DiffersAt(before, after, path)
    ensures before == after
  {
    forall p ensures !DiffersAt(before, after, p) && (p in before <==> p in after) {
      assert p != path ==> !DiffersAt(before, after, p);
    }
  }

  lemma MovedExactly(similar: (Blob, Blob) -> bool, before: Tree, after: Tree, path: Path, from: Path)
    ensures MovedFrom(similar, before, after, path, from) <==>
            && from in before && path in after && path !in before
            && similar(before[from], after[path]) && before - {from} == after - {path}
  {
    if from in before && path in after && path !in before {
      if before - {from} == after - {path} {
        assert from !in before - {from};
        forall p | p != path && p != from ensures !DiffersAt(before, after, p) {
          assert p in before <==> p in before - {from};
          assert p in after <==> p in after - {path};
        }
      }
      if MovedFrom(similar, before, after, path, from) {
        forall p ensures p in before - {from} <==> p in after - {path} {
          assert p != path && p != from ==> !DiffersAt(before, after, p);
        }
        forall p | p in before - {from} ensures before[p] == after[p] {
          assert !DiffersAt(before, after, p);
        }
      }
    }
  }

  // ---------------------------------------------------------------------------
  // Verification

  function Length(b: Blob): nat {
    match b
    case Plain(bytes) => |bytes|
    case Document(length, _) => length
  }

  function Binding(role: nat, path: Path, b: Blob): Entry { Entry(role, path, OfBlob(b), Length(b)) }

  predicate Bound(worktree: Tree, e: Entry) { e.path in worktree && Binding(e.role, e.path, worktree[e.path]) == e }

  predicate Passing(tests: seq<Test>) { tests != [] && forall i :: 0 <= i < |tests| ==> tests[i].passed }

  ghost predicate Envelope(similar: (Blob, Blob) -> bool, g: Graph, path: Path, envelope: Sha, source: Sha) {
    && envelope < |g| && source < |g|
    && g[envelope].parents == [source]
    && DiffNamesOnly(similar, g[source].tree, g[envelope].tree, path)
  }

  /** The worktree holds a manifest that verifies against the expected envelope commit and root. */
  ghost predicate Verifies(
    similar: (Blob, Blob) -> bool, g: Graph, worktree: Tree, head: Sha, path: Path,
    envelope: Sha, root: Digest, p: Payload)
  {
    && path in worktree && worktree[path].Document?
    && worktree[path].manifest == Manifest(p, OfPayload(p)) && root == OfPayload(p)
    && p.worktreeClean
    && (forall i :: 0 <= i < |p.entries| ==> Bound(worktree, p.entries[i]))
    && p.entriesRoot == EntriesRoot(p.entries)
    && Passing(p.tests) && p.testsRoot == TestsRoot(p.tests) && p.passed
    && head == envelope
    && Envelope(similar, g, path, envelope, p.source)
    && g[p.source].treeSha == p.sourceTree
  }

  method CheckEntries(worktree: Tree, entries: seq<Entry>) returns (ok: bool)
    ensures ok <==> forall i :: 0 <= i < |entries| ==> Bound(worktree, entries[i])
  {
    for i := 0 to |entries|
      invariant forall j :: 0 <= j < i ==> Bound(worktree, entries[j])
    {
      if entries[i].path !in worktree { return false; }
      var observed := Binding(entries[i].role, entries[i].path, worktree[entries[i].path]);
      if observed != entries[i] { return false; }
    }
    return true;
  }

  /** `diffNames` is the answer of git to whether the diff names only the manifest. */
  method VerifyManifest(
    ghost similar: (Blob, Blob) -> bool, g: Graph, worktree: Tree, head: Sha, path: Path, envelope: Sha, root: Digest,
    diffNames: (Sha, Sha) -> bool)
    returns (accepted: Option<Payload>)
    requires envelope < |g|
    requires forall s: Sha :: s < |g| ==>
               (diffNames(s, envelope) <==> DiffNamesOnly(similar, g[s].tree, g[envelope].tree, path))
    ensures accepted.Some? ==> Verifies(similar, g, worktree, head, path, envelope, root, accepted.value)
    ensures accepted.None? ==> forall p :: !Verifies(similar, g, worktree, head, path, envelope, root, p)
  {
    if path !in worktree || !worktree[path].Document? { return None; }
    var manifest := worktree[path].manifest;
    var p := manifest.payload;
    if manifest.root != OfPayload(p) || root != OfPayload(p) { return None; }
    if !p.worktreeClean { return None; }
    var bound := CheckEntries(worktree, p.entries);
    if !bound { return None; }
    if EntriesRoot(p.entries) != p.entriesRoot { return None; }
    if p.tests == [] || exists i :: 0 <= i < |p.tests| && !p.tests[i].passed { return None; }
    if TestsRoot(p.tests) != p.testsRoot || !p.passed { return None; }
    if head != envelope || g[envelope].parents != [p.source] { return None; }
    if p.source >= |g| || !diffNames(p.source, envelope) { return None; }
    if g[p.source].treeSha != p.sourceTree { return None; }
    return Some(p);
  }

  // ---------------------------------------------------------------------------
  // What acceptance means

  /** The manifest of a payload, as a file of some length. */
  function ManifestOf(p: Payload, length: nat): Blob { Document(length, Manifest(p, OfPayload(p))) }

  /** What the code refuses, defect by defect; a payload without any of these is accepted. */
  ghost predicate Defective(
    similar: (Blob, Blob) -> bool, g: Graph, worktree: Tree, head: Sha, path: Path,
    envelope: Sha, root: Digest, p: Payload)
  {
    || (forall length :: path !in worktree || worktree[path] != ManifestOf(p, length))
    || root != OfPayload(p)
    || !p.worktreeClean || !p.passed
    || (exists e :: e in p.entries && (e.path !in worktree || e.digest != OfBlob(worktree[e.path])))
    || (exists e :: e in p.entries && e.path in worktree && e.length != Length(worktree[e.path]))
    || p.tests == [] || (exists t :: t in p.tests && !t.passed)
    || p.entriesRoot != EntriesRoot(p.entries) || p.testsRoot != TestsRoot(p.tests)
    || head != envelope || envelope >= |g| || p.source >= |g|
    || |g[envelope].parents| != 1 || g[envelope].parents[0] != p.source || g[p.source].treeSha != p.sourceTree
    || !DiffNamesOnly(similar, g[p.source].tree, g[envelope].tree, path)
  }

  lemma AcceptedExactly(
    similar: (Blob, Blob) -> bool, g: Graph, worktree: Tree, head: Sha, path: Path,
    envelope: Sha, root: Digest, p: Payload)
    ensures Verifies(similar, g, worktree, head, path, envelope, root, p) <==>
            !Defective(similar, g, worktree, head, path, envelope, root, p)
  {
    hide DiffNamesOnly, EntriesRoot, TestsRoot;
    if Verifies(similar, g, worktree, head, path, envelope, root, p) {
      assert worktree[path] == ManifestOf(p, worktree[path].length);
      forall e | e in p.entries ensures Bound(worktree, e) { }
    }
    if !Defective(similar, g, worktree, head, path, envelope, root, p) {
      assert forall i :: 0 <= i < |p.entries| ==> p.entries[i] in p.entries;
      assert forall i :: 0 <= i < |p.tests| ==> p.tests[i] in p.tests;
    }
  }

  /** No manifest can bind itself: its digest would have to be part of what it is a digest of. */
  lemma NotSelfBound(m: Manifest, length: nat, e: Entry)
    requires e in m.payload.entries
    ensures e.digest != OfBlob(Document(length, m))
  {
  }

  /** Every artifact an accepted envelope binds has, in the certified source commit too, exactly the bytes that were
      bound. */
  lemma ArtifactsAreCertified(
    similar: (Blob, Blob) -> bool, g: Graph, path: Path, envelope: Sha, root: Digest, p: Payload, e: Entry)
    requires envelope < |g| && Verifies(similar, g, g[envelope].tree, envelope, path, envelope, root, p)
    requires e in p.entries
    ensures e.path != path
    ensures e.path in g[p.source].tree && e.path in g[envelope].tree
    ensures g[p.source].tree[e.path] == g[envelope].tree[e.path] && e.digest == OfBlob(g[p.source].tree[e.path])
  {
    var (before, after) := (g[p.source].tree, g[envelope].tree);
    assert Bound(after, e);
    NotSelfBound(after[path].manifest, after[path].length, e);
    if exists from :: MovedFrom(similar, before, after, path, from) {
      var from :| MovedFrom(similar, before, after, path, from);
      assert !DiffersAt(before, after, e.path);
    }
    assert !DiffersAt(before, after, e.path);
  }

  /** Every path of the source but the manifest's is still there. */
  ghost predicate NothingRemoved(before: Tree, after: Tree, path: Path) {
    forall p :: p in before && p != path ==> p in after
  }

  /** The two trees of an envelope agree on every other path if and only if no file of the source is missing from the
      envelope: a removed file is the one difference the diff can hide, as the source of a rename into the manifest. */
  lemma OnlyTheManifestChanged(similar: (Blob, Blob) -> bool, g: Graph, path: Path, envelope: Sha, source: Sha)
    requires Envelope(similar, g, path, envelope, source)
    ensures AgreeExcept(g[source].tree, g[envelope].tree, path) <==>
              NothingRemoved(g[source].tree, g[envelope].tree, path)
    ensures path in g[source].tree ==> AgreeExcept(g[source].tree, g[envelope].tree, path)
  {
    var (before, after) := (g[source].tree, g[envelope].tree);
    if AgreeExcept(before, after, path) {
      forall p | p in before && p != path ensures p in after { assert !DiffersAt(before, after, p); }
    } else {
      var from :| MovedFrom(similar, before, after, path, from);
      assert from in before && from !in after;
    }
  }

  /** Everything that verification asks of the payload itself, for artifacts in the tree `rest`. */
  predicate WellBound(rest: Tree, p: Payload) {
    && p.worktreeClean && p.passed && Passing(p.tests) && p.testsRoot == TestsRoot(p.tests)
    && p.entriesRoot == EntriesRoot(p.entries) && forall i :: 0 <= i < |p.entries| ==> Bound(rest, p.entries[i])
  }

  /** And such envelopes are accepted: whatever else the two trees share and the payload binds in it, the manifest may
      take the place of any file similar to it. */
  lemma RenamesHideARemoval(
    similar: (Blob, Blob) -> bool, rest: Tree, path: Path, from: Path, removed: Blob,
    p: Payload, length: nat, parents: seq<Sha>)
    requires path !in rest && from !in rest && path != from && WellBound(rest, p) && p.source == 0
    requires similar(removed, ManifestOf(p, length))
    ensures var g := [Commit(parents, rest[from := removed], p.sourceTree),
              Commit([0], rest[path := ManifestOf(p, length)], 1)];
      && Verifies(similar, g, g[1].tree, 1, path, 1, OfPayload(p), p)
      && !AgreeExcept(g[0].tree, g[1].tree, path)
  {
    var g := [Commit(parents, rest[from := removed], p.sourceTree),
      Commit([0], rest[path := ManifestOf(p, length)], 1)];
    var (before, after) := (g[0].tree, g[1].tree);
    assert MovedFrom(similar, before, after, path, from);
    assert DiffersAt(before, after, from);
    forall i | 0 <= i < |p.entries| ensures Bound(after, p.entries[i]) {
      assert Bound(rest, p.entries[i]);
    }
  }

  /** The root alone fixes what was certified: source, source tree, artifacts and results. */
  lemma RootPinsCertificate(
    similar: (Blob, Blob) -> bool, g: Graph, wa: Tree, wb: Tree, a: Sha, b: Sha, path: Path, path': Path, root: Digest,
    p: Payload, q: Payload)
    requires Verifies(similar, g, wa, a, path, a, root, p) && Verifies(similar, g, wb, b, path', b, root, q)
    ensures p == q && g[a].parents == g[b].parents == [p.source]
    ensures forall i :: 0 <= i < |p.entries| ==>
              var e := p.entries[i]; e.path in wa && e.path in wb && wa[e.path] == wb[e.path]
  {
    forall i | 0 <= i < |p.entries|
      ensures var e := p.entries[i]; e.path in wa && e.path in wb && wa[e.path] == wb[e.path]
    {
      assert Bound(wa, p.entries[i]) && Bound(wb, p.entries[i]);
    }
  }
}
