/** Reconciliation of staged partitions: identities, counts, deduplicated bytes, and admission under the limits.

  Hashes are ideal. Every partition is checked against its own reading of the staging root, which may change in between.
*/
module Reconciliation {
  import opened Options
  import opened Sorting
  import opened Sums

  datatype Key = Key(name: nat)

  datatype Descriptor = Descriptor(key: Key, size: nat, digest: Digest, evidenceClass: nat)

  datatype Content = Plain(bytes: seq<nat>) | PackManifest(size: nat, objects: seq<Descriptor>, packDigest: nat)

  datatype Digest = OfContent(content: Content) | OfItems(items: seq<Item>) | Foreign(text: nat)

  datatype Item = Item(key: Key, data: Content, evidenceClass: nat, manifest: bool)

  type Staging = map<Key, Content>

  datatype Partition = Partition(index: nat, campaign: nat, included: nat, shards: nat, plannedInterruptions: nat)

  datatype Preparation = Preparation(
    index: nat, campaign: nat, logical: nat, attempts: nat, physicalAttempts: nat, infrastructure: nat,
    evidenceManifest: nat, manifestKey: Key, manifestDigest: Digest, packDigest: nat, objectCount: nat,
    retainedBytes: nat, descriptors: Digest)

  datatype Execution = Execution(
    index: nat, campaign: nat, logical: nat, accepted: nat, attempts: nat, infrastructure: nat, shards: nat,
    interruptions: nat, forcedInterruptions: nat, evidenceManifest: nat)

  const PARTITION_COUNT := 64
  const CANARY_BYTES := 461
  const PUBLICATION_CONTROL_RESERVE_BYTES := 1_000_000
  const SOFT_STOP_BYTES := 8_000_000_000
  const HARD_CAP_BYTES := 10_000_000_000
  const MANIFESTS_INTEGRITY := 0

  function Size(c: Content): nat {
    match c
    case Plain(bytes) => |bytes|
    case PackManifest(size, _, _) => size
  }

  // ---------------------------------------------------------------------------
  // One partition

  predicate CountsReconcile(p: Partition, prep: Preparation, exec: Execution) {
    && prep.campaign == exec.campaign == p.campaign && prep.index == exec.index == p.index
    && prep.logical == exec.logical == exec.accepted == p.included
    && prep.attempts == prep.physicalAttempts == exec.attempts
    && exec.attempts - p.included == exec.infrastructure == prep.infrastructure
    && exec.shards == p.shards
    && exec.interruptions == exec.forcedInterruptions == p.plannedInterruptions
    && exec.evidenceManifest == prep.evidenceManifest
  }

  predicate ManifestReads(staging: Staging, prep: Preparation) {
    && prep.manifestKey in staging
    && OfContent(staging[prep.manifestKey]) == prep.manifestDigest
    && staging[prep.manifestKey].PackManifest?
    && staging[prep.manifestKey].packDigest == prep.packDigest
  }

  predicate ObjectReads(staging: Staging, d: Descriptor) {
    d.key in staging && Size(staging[d.key]) == d.size && d.digest == OfContent(staging[d.key])
  }

  predicate ObjectsRead(staging: Staging, ds: seq<Descriptor>) {
    forall i :: 0 <= i < |ds| ==> ObjectReads(staging, ds[i])
  }

  function ItemOf(staging: Staging, d: Descriptor): Item
    requires d.key in staging
  {
    Item(d.key, staging[d.key], d.evidenceClass, false)
  }

  function ObjectItems(staging: Staging, ds: seq<Descriptor>): (items: seq<Item>)
    requires ObjectsRead(staging, ds)
    ensures |items| == |ds| && forall i :: 0 <= i < |ds| ==> items[i] == ItemOf(staging, ds[i])
  {
    seq(|ds|, i requires 0 <= i < |ds| => ItemOf(staging, ds[i]))
  }

  predicate Readable(staging: Staging, prep: Preparation) {
    ManifestReads(staging, prep) && ObjectsRead(staging, staging[prep.manifestKey].objects)
  }

  /** What a partition publishes: its objects, then its manifest. */
  function ItemsOf(staging: Staging, prep: Preparation): seq<Item>
    requires Readable(staging, prep)
  {
    ObjectItems(staging, staging[prep.manifestKey].objects)
    + [Item(prep.manifestKey, staging[prep.manifestKey], MANIFESTS_INTEGRITY, true)]
  }

  function Bytes(items: seq<Item>): nat {
    if items == [] then 0 else Bytes(items[..|items| - 1]) + Size(items[|items| - 1].data)
  }

  predicate PartitionReconciles(p: Partition, prep: Preparation, exec: Execution, staging: Staging) {
    && CountsReconcile(p, prep, exec)
    && Readable(staging, prep)
    && var items := ItemsOf(staging, prep);
       |items| == prep.objectCount && Bytes(items) == prep.retainedBytes && OfItems(items) == prep.descriptors
  }

  /** What the three records of a partition and the staging root must agree on, one by one: both reports are about the
      plan's partition; everything planned ran, was accepted and was interrupted as planned; every attempt beyond the
      planned executions is an infrastructure failure; and the manifest and its objects are staged as described. */
  lemma ReconcilesExactly(p: Partition, prep: Preparation, exec: Execution, staging: Staging)
    ensures PartitionReconciles(p, prep, exec, staging) <==>
            && prep.campaign == p.campaign && exec.campaign == p.campaign
            && prep.index == p.index && exec.index == p.index
            && prep.logical == p.included && exec.logical == p.included && exec.accepted == p.included
            && prep.attempts == exec.attempts && prep.physicalAttempts == exec.attempts
            && exec.attempts == p.included + exec.infrastructure && prep.infrastructure == exec.infrastructure
            && exec.shards == p.shards
            && exec.interruptions == p.plannedInterruptions && exec.forcedInterruptions == p.plannedInterruptions
            && prep.evidenceManifest == exec.evidenceManifest
            && prep.manifestKey in staging
            && var manifest := staging[prep.manifestKey];
            && manifest.PackManifest? && prep.manifestDigest == OfContent(manifest)
            && prep.packDigest == manifest.packDigest
            && (forall d :: d in manifest.objects ==>
                  d.key in staging && d.size == Size(staging[d.key]) && d.digest == OfContent(staging[d.key]))
            && exists items :: Publishes(staging, prep.manifestKey, manifest, items)
                 && prep.objectCount == |items| && prep.retainedBytes == Bytes(items)
                 && prep.descriptors == OfItems(items)
  {
    hide Bytes;
    if prep.manifestKey in staging && staging[prep.manifestKey].PackManifest? {
      var manifest := staging[prep.manifestKey];
      assert ObjectsRead(staging, manifest.objects) <==>
        forall d :: d in manifest.objects ==>
          d.key in staging && d.size == Size(staging[d.key]) && d.digest == OfContent(staging[d.key]) by {
        AllObjectsRead(staging, manifest.objects);
      }
      if Readable(staging, prep) {
        var items := ItemsOf(staging, prep);
        assert Publishes(staging, prep.manifestKey, manifest, items);
        forall other | Publishes(staging, prep.manifestKey, manifest, other) ensures other == items {
          OnePublication(staging, prep.manifestKey, manifest, items, other);
        }
      }
    }
  }

  lemma AllObjectsRead(staging: Staging, ds: seq<Descriptor>)
    ensures ObjectsRead(staging, ds) <==> forall d :: d in ds ==> ObjectReads(staging, d)
  {
    if ObjectsRead(staging, ds) {
      forall d | d in ds ensures ObjectReads(staging, d) {
        var i :| 0 <= i < |ds| && ds[i] == d;
      }
    }
  }

  /** The items of a manifest: the staged content of each object in its order and class, and last, flagged, itself. */
  predicate Publishes(staging: Staging, key: Key, manifest: Content, items: seq<Item>) {
    && manifest.PackManifest? && |items| == |manifest.objects| + 1
    && (forall i :: 0 <= i < |manifest.objects| ==>
          var d := manifest.objects[i];
          && items[i].key == d.key && d.key in staging && items[i].data == staging[d.key]
          && items[i].evidenceClass == d.evidenceClass && !items[i].manifest)
    && var last := items[|items| - 1];
       last.key == key && last.data == manifest && last.evidenceClass == MANIFESTS_INTEGRITY && last.manifest
  }

  lemma OnePublication(staging: Staging, key: Key, manifest: Content, a: seq<Item>, b: seq<Item>)
    requires Publishes(staging, key, manifest, a) && Publishes(staging, key, manifest, b)
    ensures a == b
  {
    forall i | 0 <= i < |a| ensures a[i] == b[i] { }
  }

  // ---------------------------------------------------------------------------
  // Deduplication

  /** No key stands for two contents. */
  predicate Consistent(items: seq<Item>) {
    forall i, j :: 0 <= i < |items| && 0 <= j < |items| && items[i].key == items[j].key ==>
      items[i].data == items[j].data
  }

  /** `unique` holds exactly the items, one content per key. */
  ghost predicate Deduplicates(unique: map<Key, Content>, items: seq<Item>) {
    && (forall i :: 0 <= i < |items| ==> items[i].key in unique && unique[items[i].key] == items[i].data)
    && (forall k :: k in unique ==> exists i :: 0 <= i < |items| && items[i].key == k)
  }

  lemma DeduplicatesMore(unique: map<Key, Content>, items: seq<Item>, item: Item)
    requires Deduplicates(unique, items)
    requires item.key in unique ==> unique[item.key] == item.data
    ensures Deduplicates(unique[item.key := item.data], items + [item])
  {
    var (next, more) := (unique[item.key := item.data], items + [item]);
    forall k | k in next ensures exists i :: 0 <= i < |more| && more[i].key == k {
      if k == item.key {
        assert more[|items|].key == k;
      } else {
        var i :| 0 <= i < |items| && items[i].key == k;
        assert more[i].key == k;
      }
    }
  }

  lemma DeduplicatedIsConsistent(unique: map<Key, Content>, items: seq<Item>)
    requires Deduplicates(unique, items)
    ensures Consistent(items)
  {
  }

  lemma Conflicts(unique: map<Key, Content>, items: seq<Item>, item: Item, rest: seq<Item>)
    requires Deduplicates(unique, items) && item.key in unique && unique[item.key] != item.data
    ensures !Consistent(items + [item] + rest)
  {
    var all := items + [item] + rest;
    var i :| 0 <= i < |items| && items[i].key == item.key;
    assert all[i].key == all[|items|].key && all[i].data != all[|items|].data;
  }

  method Deduplicate(before: map<Key, Content>, ghost seen: seq<Item>, items: seq<Item>)
    returns (ok: bool, unique: map<Key, Content>)
    requires Deduplicates(before, seen)
    ensures ok <==> Consistent(seen + items)
    ensures ok ==> Deduplicates(unique, seen + items)
  {
    unique := before;
    assert seen + items[..0] == seen;
    for i := 0 to |items|
      invariant Deduplicates(unique, seen + items[..i])
    {
      var item := items[i];
      assert seen + items[..i + 1] == seen + items[..i] + [item];
      if item.key in unique && unique[item.key] != item.data {
        Conflicts(unique, seen + items[..i], item, items[i + 1..]);
        assert seen + items[..i] + [item] + items[i + 1..] == seen + items;
        return false, unique;
      }
      DeduplicatesMore(unique, seen + items[..i], item);
      unique := unique[item.key := item.data];
    }
    assert items[..|items|] == items;
    DeduplicatedIsConsistent(unique, seen + items);
    ok := true;
  }

  ghost function Sizes(unique: map<Key, Content>): map<Key, int> { map k | k in unique :: Size(unique[k]) }

  ghost function KeysOf(items: seq<Item>): multiset<Key> {
    if items == [] then multiset{} else KeysOf(items[..|items| - 1]) + multiset{items[|items| - 1].key}
  }

  function Copies(n: int, size: nat): int { n * size }

  /** Bytes a key costs beyond its first copy. */
  ghost function Repeats(unique: map<Key, Content>, items: seq<Item>): map<Key, int> {
    map k | k in unique :: Copies(KeysOf(items)[k] as int - 1, Size(unique[k]))
  }

  ghost function Paid(unique: map<Key, Content>, items: seq<Item>): map<Key, int> {
    map k | k in unique :: Copies(KeysOf(items)[k], Size(unique[k]))
  }

  lemma {:induction false} KeysAreItems(items: seq<Item>, k: Key)
    ensures KeysOf(items)[k] > 0 <==> exists i :: 0 <= i < |items| && items[i].key == k
  {
    if items != [] {
      var n := |items| - 1;
      KeysAreItems(items[..n], k);
      if i :| 0 <= i < |items| && items[i].key == k {
        if i < n { assert items[..n][i].key == k; }
      }
    }
  }

  /** One more copy of a key costs its size again. */
  lemma PaidMore(unique: map<Key, Content>, items: seq<Item>, item: Item)
    requires item.key in unique && unique[item.key] == item.data
    ensures Total(Paid(unique, items + [item])) == Total(Paid(unique, items)) + Size(item.data)
  {
    hide Copies;
    var more := items + [item];
    assert more[..|items|] == items;
    var (a, b) := (Paid(unique, items), Paid(unique, more));
    Times(KeysOf(items)[item.key], Size(item.data));
    assert b == a[item.key := a[item.key] + Size(item.data)];
    TotalUpdate(a, item.key, a[item.key] + Size(item.data));
  }

  lemma Times(n: int, size: nat)
    ensures Copies(n + 1, size) == Copies(n, size) + size
    ensures Copies(n - 1, size) == Copies(n, size) - size
  {
  }

  lemma {:induction false} BytesArePaid(unique: map<Key, Content>, items: seq<Item>)
    requires forall i :: 0 <= i < |items| ==> items[i].key in unique && unique[items[i].key] == items[i].data
    ensures Bytes(items) == Total(Paid(unique, items))
    decreases |items|
  {
    if items == [] {
      var zero := Paid(unique, []);
      assert forall k :: k in zero ==> zero[k] == 0;
      AllZero(zero);
    } else {
      var n := |items| - 1;
      BytesArePaid(unique, items[..n]);
      PaidMore(unique, items[..n], items[n]);
      assert items == items[..n] + [items[n]];
    }
  }

  lemma {:induction false} AllZero(m: map<Key, int>)
    requires forall k :: k in m ==> m[k] == 0
    ensures Total(m) == 0
  {
    TotalLe(m, m);
    var none := map k | k in m :: 0 * m[k] - 0 * m[k];
    TotalDifference(0, m, 0, m, none);
    assert none == m;
  }

  /** Published bytes are the unique bytes plus, for every key, its size once for each copy after the first. */
  lemma Accounting(unique: map<Key, Content>, items: seq<Item>)
    requires Deduplicates(unique, items)
    ensures Bytes(items) == Total(Sizes(unique)) + Total(Repeats(unique, items))
    ensures forall k :: k in unique ==> KeysOf(items)[k] >= 1
    ensures Total(Sizes(unique)) <= Bytes(items)
  {
    hide Copies;
    var (sizes, repeats, paid) := (Sizes(unique), Repeats(unique, items), Paid(unique, items));
    BytesArePaid(unique, items);
    forall k | k in unique
      ensures KeysOf(items)[k] >= 1
      ensures Differs(1, paid[k], 1, sizes[k], repeats[k]) && sizes[k] <= paid[k]
    {
      KeysAreItems(items, k);
      Times(KeysOf(items)[k], Size(unique[k]));
      AtLeast(KeysOf(items)[k], Size(unique[k]));
    }
    TotalDifference(1, paid, 1, sizes, repeats);
    TotalLe(sizes, paid);
  }

  lemma AtLeast(n: nat, size: nat)
    requires n >= 1
    ensures size <= Copies(n, size)
  {
  }

  /** The deduplicated objects depend only on which items there are, not on their order or multiplicity. */
  lemma OrderDoesNotMatter(unique: map<Key, Content>, items: seq<Item>, unique': map<Key, Content>, items': seq<Item>)
    requires Deduplicates(unique, items) && Deduplicates(unique', items')
    requires forall x :: x in items <==> x in items'
    ensures unique == unique'
  {
    SameObjects(unique, items, unique', items');
    SameObjects(unique', items', unique, items);
  }

  lemma SameObjects(unique: map<Key, Content>, items: seq<Item>, unique': map<Key, Content>, items': seq<Item>)
    requires Deduplicates(unique, items) && Deduplicates(unique', items')
    requires forall x :: x in items ==> x in items'
    ensures forall k :: k in unique ==> k in unique' && unique'[k] == unique[k]
  {
    forall k | k in unique ensures k in unique' && unique'[k] == unique[k] {
      var i :| 0 <= i < |items| && items[i].key == k;
      assert items[i] in items';
      var j :| 0 <= j < |items'| && items'[j] == items[i];
    }
  }

  // ---------------------------------------------------------------------------
  // All partitions

  ghost predicate AllReconcile(
    ps: seq<Partition>, preps: seq<Preparation>, execs: seq<Execution>, staging: seq<Staging>, n: nat)
    requires |ps| == |preps| == |execs| == |staging| && n <= |ps|
  {
    forall i :: 0 <= i < n ==> PartitionReconciles(ps[i], preps[i], execs[i], staging[i])
  }

  ghost function AllItems(preps: seq<Preparation>, staging: seq<Staging>, n: nat): seq<Item>
    requires |preps| == |staging| && n <= |preps|
    requires forall i :: 0 <= i < n ==> Readable(staging[i], preps[i])
  {
    if n == 0 then [] else AllItems(preps, staging, n - 1) + ItemsOf(staging[n - 1], preps[n - 1])
  }

  function Sum(values: seq<int>): int { if values == [] then 0 else Sum(values[..|values| - 1]) + values[|values| - 1] }

  function Logicals(execs: seq<Execution>): (r: seq<int>)
    ensures |r| == |execs|
  {
    seq(|execs|, i requires 0 <= i < |execs| => execs[i].logical)
  }

  function Attempts(execs: seq<Execution>): (r: seq<int>)
    ensures |r| == |execs|
  {
    seq(|execs|, i requires 0 <= i < |execs| => execs[i].attempts)
  }

  function Infrastructure(execs: seq<Execution>): (r: seq<int>)
    ensures |r| == |execs|
  {
    seq(|execs|, i requires 0 <= i < |execs| => execs[i].infrastructure)
  }

  function Interruptions(execs: seq<Execution>): (r: seq<int>)
    ensures |r| == |execs|
  {
    seq(|execs|, i requires 0 <= i < |execs| => execs[i].interruptions)
  }

  function Shards(execs: seq<Execution>): (r: seq<int>)
    ensures |r| == |execs|
  {
    seq(|execs|, i requires 0 <= i < |execs| => execs[i].shards)
  }

  function Retained(preps: seq<Preparation>): (r: seq<int>)
    ensures |r| == |preps|
  {
    seq(|preps|, i requires 0 <= i < |preps| => preps[i].retainedBytes)
  }

  datatype Readiness = Readiness(
    logical: int, attempts: int, infrastructure: int, packBytes: int, projected: int, unique: map<Key, Content>)

  /** Totals that are admitted. */
  predicate Admits(preps: seq<Preparation>, execs: seq<Execution>) {
    var (logical, packBytes) := (Sum(Logicals(execs)), Sum(Retained(preps)));
    var projected := CANARY_BYTES + packBytes + PUBLICATION_CONTROL_RESERVE_BYTES;
    && logical == 1_000_000
    && Sum(Attempts(execs)) - logical == Sum(Infrastructure(execs))
    && Sum(Interruptions(execs)) == 192
    && Sum(Shards(execs)) == 4_003
    && projected < SOFT_STOP_BYTES && projected <= HARD_CAP_BYTES
  }

  lemma NothingYet()
    ensures Deduplicates(map[], [])
  {
  }

  method ReconcileObjects(
    ps: seq<Partition>, preps: seq<Preparation>, execs: seq<Execution>, staging: seq<Staging>)
    returns (ok: bool, unique: map<Key, Content>)
    requires |ps| == |preps| == |execs| == |staging|
    ensures ok <==> AllReconcile(ps, preps, execs, staging, |ps|) && Consistent(AllItems(preps, staging, |ps|))
    ensures ok ==> Deduplicates(unique, AllItems(preps, staging, |ps|))
  {
    hide Deduplicates, Consistent, CountsReconcile, Readable, ItemsOf, Bytes;
    unique := map[];
    NothingYet();
    for n := 0 to |ps|
      invariant AllReconcile(ps, preps, execs, staging, n)
      invariant Deduplicates(unique, AllItems(preps, staging, n))
    {
      if !PartitionReconciles(ps[n], preps[n], execs[n], staging[n]) { return false, unique; }
      ghost var seen := AllItems(preps, staging, n);
      ok, unique := Deduplicate(unique, seen, ItemsOf(staging[n], preps[n]));
      if !ok {
        if AllReconcile(ps, preps, execs, staging, |ps|) { InconsistentPrefix(preps, staging, n + 1, |ps|); }
        return;
      }
    }
    DeduplicatedIsConsistent(unique, AllItems(preps, staging, |ps|));
    ok := true;
  }

  lemma {:induction false} InconsistentPrefix(preps: seq<Preparation>, staging: seq<Staging>, n: nat, m: nat)
    requires |preps| == |staging| && n <= m <= |preps|
    requires forall i :: 0 <= i < m ==> Readable(staging[i], preps[i])
    requires !Consistent(AllItems(preps, staging, n))
    ensures !Consistent(AllItems(preps, staging, m))
    decreases m
  {
    if n < m {
      InconsistentPrefix(preps, staging, n, m - 1);
      var (a, b) := (AllItems(preps, staging, m - 1), AllItems(preps, staging, m));
      var i, j :| 0 <= i < |a| && 0 <= j < |a| && a[i].key == a[j].key && a[i].data != a[j].data;
      assert b[i] == a[i] && b[j] == a[j];
    }
  }

  /** The whole reconciliation, over preparations and executions in any order of discovery. */
  method Reconcile(
    ps: seq<Partition>, discovered: seq<Preparation>, found: seq<Execution>, staging: seq<Staging>)
    returns (ready: Option<Readiness>)
    requires |ps| == |staging| == PARTITION_COUNT
    ensures var (preps, execs) := (InIndexOrder(discovered), ByIndex(found));
      ready.Some? <==>
        && |discovered| == |found| == 64
        && (forall i :: 0 <= i < PARTITION_COUNT ==> preps[i].index == i && execs[i].index == i)
        && AllReconcile(ps, preps, execs, staging, PARTITION_COUNT)
        && Consistent(AllItems(preps, staging, PARTITION_COUNT))
        && Admits(preps, execs)
    ensures ready.Some? ==>
      var (preps, execs) := (InIndexOrder(discovered), ByIndex(found));
      && ready.value.logical == Sum(Logicals(execs)) && ready.value.attempts == Sum(Attempts(execs))
      && ready.value.infrastructure == Sum(Infrastructure(execs)) && ready.value.packBytes == Sum(Retained(preps))
      && ready.value.projected == CANARY_BYTES + ready.value.packBytes + PUBLICATION_CONTROL_RESERVE_BYTES
      && Deduplicates(ready.value.unique, AllItems(preps, staging, PARTITION_COUNT))
  {
    if |discovered| != PARTITION_COUNT || |found| != PARTITION_COUNT { return None; }
    var preps, execs := InIndexOrder(discovered), ByIndex(found);
    if exists i :: 0 <= i < PARTITION_COUNT && (preps[i].index != i || execs[i].index != i) { return None; }
    var ok, unique := ReconcileObjects(ps, preps, execs, staging);
    if !ok || !Admits(preps, execs) { return None; }
    return Some(Readiness(
      Sum(Logicals(execs)), Sum(Attempts(execs)), Sum(Infrastructure(execs)), Sum(Retained(preps)),
      CANARY_BYTES + Sum(Retained(preps)) + PUBLICATION_CONTROL_RESERVE_BYTES, unique));
  }

  predicate PreparationLe(a: Preparation, b: Preparation) { a.index <= b.index }

  predicate ExecutionLe(a: Execution, b: Execution) { a.index <= b.index }

  function InIndexOrder(preps: seq<Preparation>): (r: seq<Preparation>)
    ensures |r| == |preps|
  {
    Sort(preps, PreparationLe)
  }

  function ByIndex(execs: seq<Execution>): (r: seq<Execution>)
    ensures |r| == |execs|
  {
    Sort(execs, ExecutionLe)
  }

  // ---------------------------------------------------------------------------
  // What acceptance means

  lemma {:induction false} BytesConcat(a: seq<Item>, b: seq<Item>)
    ensures Bytes(a + b) == Bytes(a) + Bytes(b)
    decreases |b|
  {
    if b == [] {
      assert a + b == a;
    } else {
      var n := |b| - 1;
      BytesConcat(a, b[..n]);
      assert (a + b)[..|a + b| - 1] == a + b[..n];
    }
  }

  lemma {:induction false} PackBytesAreItemBytes(
    ps: seq<Partition>, preps: seq<Preparation>, execs: seq<Execution>, staging: seq<Staging>, n: nat)
    requires |ps| == |preps| == |execs| == |staging| && n <= |ps| && AllReconcile(ps, preps, execs, staging, n)
    ensures Sum(Retained(preps)[..n]) == Bytes(AllItems(preps, staging, n))
    decreases n
  {
    if n > 0 {
      PackBytesAreItemBytes(ps, preps, execs, staging, n - 1);
      BytesConcat(AllItems(preps, staging, n - 1), ItemsOf(staging[n - 1], preps[n - 1]));
      assert Retained(preps)[..n][..n - 1] == Retained(preps)[..n - 1];
      assert PartitionReconciles(ps[n - 1], preps[n - 1], execs[n - 1], staging[n - 1]);
    }
  }

  lemma {:induction false} AttemptsBalance(
    ps: seq<Partition>, preps: seq<Preparation>, execs: seq<Execution>, staging: seq<Staging>, n: nat)
    requires |ps| == |preps| == |execs| == |staging| && n <= |ps| && AllReconcile(ps, preps, execs, staging, n)
    ensures Sum(Attempts(execs)[..n]) - Sum(Logicals(execs)[..n]) == Sum(Infrastructure(execs)[..n])
    decreases n
  {
    if n > 0 {
      AttemptsBalance(ps, preps, execs, staging, n - 1);
      assert Attempts(execs)[..n][..n - 1] == Attempts(execs)[..n - 1];
      assert Logicals(execs)[..n][..n - 1] == Logicals(execs)[..n - 1];
      assert Infrastructure(execs)[..n][..n - 1] == Infrastructure(execs)[..n - 1];
      assert CountsReconcile(ps[n - 1], preps[n - 1], execs[n - 1]);
    }
  }

  function Included(ps: seq<Partition>): (r: seq<int>)
    ensures |r| == |ps|
  {
    seq(|ps|, i requires 0 <= i < |ps| => ps[i].included)
  }

  function PlannedShards(ps: seq<Partition>): (r: seq<int>)
    ensures |r| == |ps|
  {
    seq(|ps|, i requires 0 <= i < |ps| => ps[i].shards)
  }

  function PlannedInterruptions(ps: seq<Partition>): (r: seq<int>)
    ensures |r| == |ps|
  {
    seq(|ps|, i requires 0 <= i < |ps| => ps[i].plannedInterruptions)
  }

  /** Once the partitions reconcile, admission is a matter of the plan, which must come to a million executions, 192
      interruptions and 4003 shards, and of the retained bytes, which with the canary's 461 and the reserve of a million
      must stay below eight thousand million. The attempt check and the hard cap never decide. */
  lemma AdmissionExactly(
    ps: seq<Partition>, preps: seq<Preparation>, execs: seq<Execution>, staging: seq<Staging>)
    requires |ps| == |preps| == |execs| == |staging| && AllReconcile(ps, preps, execs, staging, |ps|)
    ensures Admits(preps, execs) <==>
            && Sum(Included(ps)) == 1_000_000 && Sum(PlannedInterruptions(ps)) == 192
            && Sum(PlannedShards(ps)) == 4_003
            && 461 + Sum(Retained(preps)) + 1_000_000 < 8_000_000_000
  {
    var n := |ps|;
    AttemptsBalance(ps, preps, execs, staging, n);
    assert Attempts(execs)[..n] == Attempts(execs) && Logicals(execs)[..n] == Logicals(execs);
    assert Infrastructure(execs)[..n] == Infrastructure(execs);
    forall i | 0 <= i < n
      ensures execs[i].logical == ps[i].included && execs[i].shards == ps[i].shards
      ensures execs[i].interruptions == ps[i].plannedInterruptions
    {
      assert CountsReconcile(ps[i], preps[i], execs[i]);
    }
    hide Sum;
    assert Included(ps) == Logicals(execs) && PlannedShards(ps) == Shards(execs);
    assert PlannedInterruptions(ps) == Interruptions(execs);
  }

  /** For partitions that reconcile, the final attempt check cannot fail; pack bytes are unique bytes plus repeats; and
      an admitted projection keeps the unique bytes, with the canary and the reserve, below the soft stop. */
  lemma ReconciledTotals(
    ps: seq<Partition>, preps: seq<Preparation>, execs: seq<Execution>, staging: seq<Staging>,
    unique: map<Key, Content>)
    requires |ps| == |preps| == |execs| == |staging| && AllReconcile(ps, preps, execs, staging, |ps|)
    requires Deduplicates(unique, AllItems(preps, staging, |ps|))
    ensures Sum(Attempts(execs)) - Sum(Logicals(execs)) == Sum(Infrastructure(execs))
    ensures Sum(Retained(preps)) == Total(Sizes(unique)) + Total(Repeats(unique, AllItems(preps, staging, |ps|)))
    ensures Admits(preps, execs) ==>
              CANARY_BYTES + Total(Sizes(unique)) + PUBLICATION_CONTROL_RESERVE_BYTES < SOFT_STOP_BYTES
  {
    hide Sum, Total, Bytes, Sizes, Repeats, Deduplicates, CountsReconcile, Readable;
    var n := |ps|;
    AttemptsBalance(ps, preps, execs, staging, n);
    PackBytesAreItemBytes(ps, preps, execs, staging, n);
    Accounting(unique, AllItems(preps, staging, n));
    assert Attempts(execs)[..n] == Attempts(execs) && Logicals(execs)[..n] == Logicals(execs);
    assert Infrastructure(execs)[..n] == Infrastructure(execs) && Retained(preps)[..n] == Retained(preps);
  }

  /** The order in which preparations and executions are discovered cannot matter once their sorted indexes are exactly
      0 to n - 1. */
  lemma DiscoveryOrderIsIrrelevant(a: seq<Preparation>, b: seq<Preparation>, c: seq<Execution>, d: seq<Execution>)
    requires multiset(a) == multiset(b) && multiset(c) == multiset(d)
    requires forall i :: 0 <= i < |a| ==> InIndexOrder(a)[i].index == i
    requires forall i :: 0 <= i < |c| ==> ByIndex(c)[i].index == i
    ensures InIndexOrder(a) == InIndexOrder(b) && ByIndex(c) == ByIndex(d)
  {
    assert Preorder(PreparationLe) && Preorder(ExecutionLe);
    SortOrders(a, PreparationLe);
    SortOrders(b, PreparationLe);
    OrderedUnique(InIndexOrder(a), InIndexOrder(b), PreparationLe);
    SortOrders(c, ExecutionLe);
    SortOrders(d, ExecutionLe);
    OrderedUnique(ByIndex(c), ByIndex(d), ExecutionLe);
  }
}
