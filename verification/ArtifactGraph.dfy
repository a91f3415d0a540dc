/** Integrity of one artifact with its per-process cache, and the walk over a manifest's whole graph. */
module ArtifactGraph {
  import opened Common
  import opened Contracts

  /** What `stat` and the bytes of one file say. */
  datatype FileState = FileState(modified: int, digest: Digest, size: nat)

  type Disk = map<Path, FileState>

  /** The uncached verdict: the file is there with the reference's digest and size. */
  predicate Verifies(disk: Disk, ref: ArtifactRef) {
    ref.path in disk && disk[ref.path].digest == ref.digest && disk[ref.path].size == ref.size
  }

  // ------------------------------------------------------------ the cache

  type CacheKey = (Path, int, nat, Digest)

  /** The cache key of a reference: where it points, what `stat` says there, and the digest it expects. */
  function KeyOf(disk: Disk, ref: ArtifactRef): Option<CacheKey> {
    if ref.path in disk
    then Some((ref.path, disk[ref.path].modified, disk[ref.path].size, ref.digest))
    else None
  }

  /** On this disk a file's path, time and size fix its bytes. */
  ghost predicate StatFixesBytes(disk: Disk, bytes: (Path, int, nat) -> Digest) {
    forall p | p in disk :: disk[p].digest == bytes(p, disk[p].modified, disk[p].size)
  }

  class VerificationCache {
    ghost const bytes: (Path, int, nat) -> Digest
    var verified: set<CacheKey>
    var full: nat
    var cached: nat

    constructor (ghost bytes: (Path, int, nat) -> Digest)
      ensures this.bytes == bytes && verified == {} && full == 0 && cached == 0
    {
      this.bytes := bytes;
      verified, full, cached := {}, 0, 0;
    }

    ghost predicate Valid()
      reads this
    {
      forall k | k in verified :: k.3 == bytes(k.0, k.1, k.2)
    }

    /** A hit skips exactly one check: the size the reference itself declares. */
    method VerifyArtifact(disk: Disk, ref: ArtifactRef) returns (ok: bool)
      requires Valid() && StatFixesBytes(disk, bytes)
      modifies this
      ensures Valid()
      ensures var key := KeyOf(disk, ref);
              var hit := key.Some? && key.value in old(verified);
              && (ok <==> Verifies(disk, ref) || (hit && disk[ref.path].size != ref.size))
              && verified == (if ok && !hit then old(verified) + {key.value} else old(verified))
              && cached == old(cached) + (if hit then 1 else 0)
              && full == old(full) + (if !hit && key.Some? then 1 else 0)
    {
      var key := KeyOf(disk, ref);
      if key.Some? && key.value in verified {
        cached := cached + 1;
        return true;
      }
      if key.None? {
        return false;
      }
      full := full + 1;
      ok := disk[ref.path].digest == ref.digest && disk[ref.path].size == ref.size;
      if ok {
        verified := verified + {key.value};
      }
    }
  }

  type Question = (Disk, ArtifactRef)

  predicate ColdVerdict(q: Question) {
    Verifies(q.0, q.1)
  }

  /** An earlier accepted question `j` filled the cache for question `i`. */
  predicate Fills(history: seq<Question>, verdicts: seq<bool>, j: nat, i: nat)
    requires j < i < |history| && i <= |verdicts|
  {
    verdicts[j] && KeyOf(history[i].0, history[i].1).Some?
    && KeyOf(history[j].0, history[j].1) == KeyOf(history[i].0, history[i].1)
  }

  /** The file behind the question has another size than the reference declares. */
  predicate Misdeclares(q: Question) {
    q.1.path in q.0 && q.0[q.1.path].size != q.1.size
  }

  /** Verdict `i` differs from a cold start's exactly for a misdeclared size that an earlier accepted question hides. */
  ghost predicate AnsweredWarm(history: seq<Question>, verdicts: seq<bool>) {
    |verdicts| == |history| &&
    forall i: nat | i < |history| ::
      (verdicts[i] != ColdVerdict(history[i]) <==>
         Misdeclares(history[i]) && exists j: nat | j < i :: Fills(history, verdicts, j, i))
  }

  /** The keys of the accepted questions. */
  function AcceptedKeys(history: seq<Question>, verdicts: seq<bool>): set<CacheKey>
    requires |history| == |verdicts|
  {
    if history == [] then {}
    else
      var n := |history| - 1;
      var key := KeyOf(history[n].0, history[n].1);
      AcceptedKeys(history[..n], verdicts[..n]) + (if verdicts[n] && key.Some? then {key.value} else {})
  }

  lemma {:induction false} AcceptedKeysMean(history: seq<Question>, verdicts: seq<bool>, k: CacheKey)
    requires |history| == |verdicts|
    ensures k in AcceptedKeys(history, verdicts) <==>
              exists j: nat | j < |history| :: verdicts[j] && KeyOf(history[j].0, history[j].1) == Some(k)
  {
    if history != [] {
      var n := |history| - 1;
      AcceptedKeysMean(history[..n], verdicts[..n], k);
      if j: nat :| j < n && verdicts[..n][j] && KeyOf(history[..n][j].0, history[..n][j].1) == Some(k) {
        assert verdicts[j] && KeyOf(history[j].0, history[j].1) == Some(k);
      }
      if j: nat :| j < n && verdicts[j] && KeyOf(history[j].0, history[j].1) == Some(k) {
        assert verdicts[..n][j] && KeyOf(history[..n][j].0, history[..n][j].1) == Some(k);
      }
    }
  }

  /** Any history of verifications through one cache, while files change under it. */
  method VerifyAll(history: seq<Question>, ghost bytes: (Path, int, nat) -> Digest) returns (verdicts: seq<bool>)
    requires forall q | q in history :: StatFixesBytes(q.0, bytes)
    ensures AnsweredWarm(history, verdicts)
  {
    var cache := new VerificationCache(bytes);
    verdicts := [];
    for i := 0 to |history|
      invariant fresh(cache) && cache.bytes == bytes && cache.Valid()
      invariant AnsweredWarm(history[..i], verdicts) && cache.verified == AcceptedKeys(history[..i], verdicts)
    {
      assert history[i] in history;
      assert history[..i + 1][..i] == history[..i];
      var ok := cache.VerifyArtifact(history[i].0, history[i].1);
      AnswerIsWarm(history[..i + 1], verdicts, ok);
      assert (verdicts + [ok])[..i] == verdicts;
      verdicts := verdicts + [ok];
    }
    assert history[..|history|] == history;
  }

  lemma AnswerIsWarm(history: seq<Question>, verdicts: seq<bool>, ok: bool)
    requires history != [] && AnsweredWarm(history[..|history| - 1], verdicts)
    requires var q := history[|history| - 1];
             var key := KeyOf(q.0, q.1);
             ok <==> ColdVerdict(q) ||
                     (key.Some? && key.value in AcceptedKeys(history[..|history| - 1], verdicts) && Misdeclares(q))
    ensures AnsweredWarm(history, verdicts + [ok])
  {
    var n, more := |verdicts|, verdicts + [ok];
    forall i: nat | i < |history|
      ensures more[i] != ColdVerdict(history[i]) <==>
                Misdeclares(history[i]) && exists j: nat | j < i :: Fills(history, more, j, i)
    {
      if i < n {
        OlderAnswerStays(history, verdicts, ok, i);
      } else {
        LastIsFilled(history, verdicts, ok);
      }
    }
  }

  lemma OlderAnswerStays(history: seq<Question>, verdicts: seq<bool>, ok: bool, i: nat)
    requires |history| == |verdicts| + 1 && i < |verdicts|
    ensures (exists j: nat | j < i :: Fills(history, verdicts + [ok], j, i)) <==>
            (exists j: nat | j < i :: Fills(history[..|verdicts|], verdicts, j, i))
  {
    var front, more := history[..|verdicts|], verdicts + [ok];
    if j: nat :| j < i && Fills(history, more, j, i) { assert Fills(front, verdicts, j, i); }
    if j: nat :| j < i && Fills(front, verdicts, j, i) { assert Fills(history, more, j, i); }
  }

  lemma LastIsFilled(history: seq<Question>, verdicts: seq<bool>, ok: bool)
    requires |history| == |verdicts| + 1
    ensures var n := |verdicts|;
            var key := KeyOf(history[n].0, history[n].1);
            (exists j: nat | j < n :: Fills(history, verdicts + [ok], j, n)) <==>
            key.Some? && key.value in AcceptedKeys(history[..n], verdicts)
  {
    var n, front, more := |verdicts|, history[..|verdicts|], verdicts + [ok];
    var key := KeyOf(history[n].0, history[n].1);
    if key.Some? {
      AcceptedKeysMean(front, verdicts, key.value);
      if j: nat :| j < n && verdicts[j] && KeyOf(front[j].0, front[j].1) == key { assert Fills(history, more, j, n); }
      if j: nat :| j < n && Fills(history, more, j, n) { assert verdicts[j] && KeyOf(front[j].0, front[j].1) == key; }
    }
  }

  /** When references to one path and digest agree on the size, the warm cache answers every question as a cold start. */
  lemma {:induction false} WarmEqualsCold(history: seq<Question>, verdicts: seq<bool>, agreed: (Path, Digest) -> nat,
                                          i: nat)
    requires AnsweredWarm(history, verdicts) && i < |history|
    requires forall q | q in history :: q.1.size == agreed(q.1.path, q.1.digest)
    ensures verdicts[i] == ColdVerdict(history[i])
    decreases i
  {
    if j: nat :| j < i && Fills(history, verdicts, j, i) {
      assert history[i] in history && history[j] in history;
      WarmEqualsCold(history, verdicts, agreed, j);
    }
  }

  /** Two references to one path and digest that disagree on the size: the cold answers differ, the warm ones do not. */
  lemma WarmDiffersFromCold() returns (history: seq<Question>, bytes: (Path, int, nat) -> Digest)
    ensures |history| == 2 && history[0].0 == history[1].0
    ensures history[0].1.path == history[1].1.path && history[0].1.digest == history[1].1.digest
    ensures forall q | q in history :: StatFixesBytes(q.0, bytes)
    ensures ColdVerdict(history[0]) && !ColdVerdict(history[1])
    ensures forall verdicts | AnsweredWarm(history, verdicts) :: verdicts == [true, true]
  {
    var path, content := Elsewhere("model.bin"), OfBytes(1);
    var disk: Disk := map[path := FileState(0, content, 8)];
    var honest := ArtifactRef(path, content, 8, OtherArtifact, Unnamed);
    bytes := (p, modified, size) => content;
    history := [(disk, honest), (disk, honest.(size := 9))];
    forall verdicts | AnsweredWarm(history, verdicts) ensures verdicts == [true, true] {
      assert verdicts[0] == ColdVerdict(history[0]);
      assert Fills(history, verdicts, 0, 1);
    }
  }

  // ------------------------------------------------------------- the graph

  function StageRefs(stages: seq<StageRecord>): seq<ArtifactRef> {
    if stages == [] then [] else stages[0].inputs + stages[0].outputs + StageRefs(stages[1..])
  }

  /** References inside a manifest artifact, in the order the walk takes them. */
  function Nested(a: ArtifactRef): seq<ArtifactRef> {
    if a.kind.ManifestArtifact? && a.digest.OfManifest? then
      var m := a.digest.manifest;
      (if m.parent.Some? then [m.parent.value] else []) + m.artifacts + StageRefs(m.stages)
    else []
  }

  /** What a manifest refers to: its parent, its artifacts, and the inputs and outputs of its stages. */
  predicate RefersTo(m: RunManifest, r: ArtifactRef) {
    || m.parent == Some(r)
    || r in m.artifacts
    || exists i :: 0 <= i < |m.stages| && (r in m.stages[i].inputs || r in m.stages[i].outputs)
  }

  /** `a` is a manifest that refers to `r`. */
  predicate Inside(a: ArtifactRef, r: ArtifactRef) {
    a.kind.ManifestArtifact? && a.digest.OfManifest? && RefersTo(a.digest.manifest, r)
  }

  lemma {:induction false} StageRefsMean(stages: seq<StageRecord>, r: ArtifactRef)
    ensures r in StageRefs(stages) <==> exists i :: 0 <= i < |stages| && (r in stages[i].inputs || r in stages[i].outputs)
  {
    if stages != [] {
      var rest := stages[1..];
      StageRefsMean(rest, r);
      if i :| 0 <= i < |rest| && (r in rest[i].inputs || r in rest[i].outputs) {
        assert stages[i + 1] == rest[i];
      }
      if i :| 0 <= i < |stages| && (r in stages[i].inputs || r in stages[i].outputs) {
        if i > 0 { assert rest[i - 1] == stages[i]; }
      }
    }
  }

  /** The walk goes into exactly what a manifest refers to. */
  lemma NestedMeans(a: ArtifactRef, r: ArtifactRef)
    ensures r in Nested(a) <==> Inside(a, r)
  {
    if a.kind.ManifestArtifact? && a.digest.OfManifest? {
      StageRefsMean(a.digest.manifest.stages, r);
    }
  }

  /** Content-addressed references cannot be circular. */
  lemma InsideBelow(a: ArtifactRef, r: ArtifactRef)
    requires Inside(a, r)
    ensures r < a
  {
    var m := a.digest.manifest;
    assert m < a.digest < a;
    if m.parent == Some(r) {
      assert r < m.parent;
    } else if r in m.artifacts {
    } else {
      var i :| 0 <= i < |m.stages| && (r in m.stages[i].inputs || r in m.stages[i].outputs);
      assert m.stages[i] < m;
      assert r < m.stages[i];
    }
  }

  lemma NestedBelow(a: ArtifactRef, r: ArtifactRef)
    requires r in Nested(a)
    ensures r < a && Inside(a, r)
  {
    NestedMeans(a, r);
    InsideBelow(a, r);
  }

  ghost predicate Reachable(from: ArtifactRef, x: ArtifactRef)
    decreases from
  {
    x == from || exists r | Inside(from, r) :: Smaller(r, from) && Reachable(r, x)
  }

  ghost predicate Smaller(r: ArtifactRef, a: ArtifactRef)
    requires Inside(a, r)
    ensures Smaller(r, a) && r < a
  {
    InsideBelow(a, r);
    true
  }

  lemma {:induction false} ReachableTransitive(a: ArtifactRef, b: ArtifactRef, c: ArtifactRef)
    requires Reachable(a, b) && Reachable(b, c)
    ensures Reachable(a, c)
    decreases a
  {
    if b != a {
      var r :| Inside(a, r) && Smaller(r, a) && Reachable(r, b);
      ReachableTransitive(r, b, c);
    }
  }

  lemma InsideReachable(root: ArtifactRef, a: ArtifactRef, r: ArtifactRef)
    requires Reachable(root, a) && Inside(a, r)
    ensures Reachable(root, r)
  {
    assert Smaller(r, a);
    assert Reachable(r, r);
    ReachableTransitive(root, a, r);
  }

  type NodeKey = (Path, Digest)

  function Key(a: ArtifactRef): NodeKey {
    (a.path, a.digest)
  }

  /** The reference verifies, and a manifest's bytes parse as a valid manifest. */
  predicate Good(disk: Disk, a: ArtifactRef) {
    Verifies(disk, a) && (a.kind.ManifestArtifact? ==> a.digest.OfManifest? && a.digest.manifest.Valid())
  }

  ghost predicate AllGood(disk: Disk, root: ArtifactRef) {
    forall x | Reachable(root, x) :: Good(disk, x)
  }

  ghost predicate NestedSeen(a: ArtifactRef, seen: set<NodeKey>) {
    forall r | r in Nested(a) :: Key(r) in seen
  }

  /** The first `n` references inside `a` have been seen. */
  ghost predicate SeenFirst(a: ArtifactRef, n: nat, seen: set<NodeKey>)
    requires n <= |Nested(a)|
  {
    n == 0 || (SeenFirst(a, n - 1, seen) && Key(Nested(a)[n - 1]) in seen)
  }

  lemma {:induction false} SeenFirstGrows(a: ArtifactRef, n: nat, seen: set<NodeKey>, more: set<NodeKey>)
    requires n <= |Nested(a)| && SeenFirst(a, n, seen) && seen <= more
    ensures SeenFirst(a, n, more)
  {
    if n > 0 { SeenFirstGrows(a, n - 1, seen, more); }
  }

  lemma {:induction false} SeenAmongFirst(a: ArtifactRef, n: nat, seen: set<NodeKey>, i: nat)
    requires i < n <= |Nested(a)| && SeenFirst(a, n, seen)
    ensures Key(Nested(a)[i]) in seen
  {
    if i < n - 1 { SeenAmongFirst(a, n - 1, seen, i); }
  }

  lemma AllSeen(a: ArtifactRef, seen: set<NodeKey>)
    requires SeenFirst(a, |Nested(a)|, seen)
    ensures NestedSeen(a, seen)
  {
    forall r | r in Nested(a) ensures Key(r) in seen {
      var i :| 0 <= i < |Nested(a)| && Nested(a)[i] == r;
      SeenAmongFirst(a, |Nested(a)|, seen, i);
    }
  }

  /** Within the graph a path and digest fix the kind. */
  ghost predicate SameKinds(root: ArtifactRef) {
    forall x, y | Reachable(root, x) && Reachable(root, y) && Key(x) == Key(y) :: x.kind == y.kind
  }

  /** ... and the size as well. */
  ghost predicate Consistent(root: ArtifactRef) {
    SameKinds(root) &&
    forall x, y | Reachable(root, x) && Reachable(root, y) && Key(x) == Key(y) :: x.size == y.size
  }

  /** The file is there and has the size this reference declares. */
  predicate Sized(disk: Disk, x: ArtifactRef) {
    x.path in disk && disk[x.path].size == x.size
  }

  /** The file is there with the digest of the reference. */
  predicate InPlace(disk: Disk, x: ArtifactRef) {
    x.path in disk && disk[x.path].digest == x.digest
  }

  /** Every reference of every manifest of the graph is listed, or is the root, and its file has the stated digest. */
  ghost predicate AllReferencesInPlace(disk: Disk, refs: seq<ArtifactRef>, root: ArtifactRef) {
    forall y, x | Reachable(root, y) && Inside(y, x) :: (Listed(refs, Key(x)) || Key(x) == Key(root)) && InPlace(disk, x)
  }

  // ------------------------------------------------ the walk as a function

  /** `visit_artifact` on what was found before; None when a reference it has to check is not good. */
  ghost function Scan(disk: Disk, a: ArtifactRef, found: seq<ArtifactRef>): Option<seq<ArtifactRef>>
    decreases a, 1, 0
  {
    if Listed(found, Key(a)) then Some(found)
    else if !Good(disk, a) then None
    else ScanNested(disk, a, |Nested(a)|, found + [a])
  }

  /** The first `n` references inside `a`, in order. */
  ghost function ScanNested(disk: Disk, a: ArtifactRef, n: nat, found: seq<ArtifactRef>): Option<seq<ArtifactRef>>
    requires n <= |Nested(a)|
    decreases a, 0, n
  {
    if n == 0 then Some(found)
    else
      var before := ScanNested(disk, a, n - 1, found);
      if before.None? then None
      else
        NestedBelow(a, Nested(a)[n - 1]);
        Scan(disk, Nested(a)[n - 1], before.value)
  }

  lemma {:induction false} ScanFailureStays(disk: Disk, a: ArtifactRef, n: nat, m: nat, found: seq<ArtifactRef>)
    requires n <= m <= |Nested(a)| && ScanNested(disk, a, n, found).None?
    ensures ScanNested(disk, a, m, found).None?
    decreases m
  {
    if n < m { ScanFailureStays(disk, a, n, m - 1, found); }
  }

  ghost predicate DistinctKeys(refs: seq<ArtifactRef>) {
    forall i, j | 0 <= i < j < |refs| :: Key(refs[i]) != Key(refs[j])
  }

  lemma {:induction false} ScanExtends(disk: Disk, a: ArtifactRef, found: seq<ArtifactRef>)
    requires Scan(disk, a, found).Some?
    ensures found <= Scan(disk, a, found).value
    decreases a, 1, 0
  {
    if !Listed(found, Key(a)) {
      ScanNestedExtends(disk, a, |Nested(a)|, found + [a]);
    }
  }

  lemma {:induction false} ScanNestedExtends(disk: Disk, a: ArtifactRef, n: nat, found: seq<ArtifactRef>)
    requires n <= |Nested(a)| && ScanNested(disk, a, n, found).Some?
    ensures found <= ScanNested(disk, a, n, found).value
    decreases a, 0, n
  {
    if n > 0 {
      ScanNestedExtends(disk, a, n - 1, found);
      NestedBelow(a, Nested(a)[n - 1]);
      ScanExtends(disk, Nested(a)[n - 1], ScanNested(disk, a, n - 1, found).value);
    }
  }

  function KeysOf(refs: seq<ArtifactRef>): set<NodeKey> {
    if refs == [] then {} else KeysOf(refs[..|refs| - 1]) + {Key(refs[|refs| - 1])}
  }

  function MembersOf(refs: seq<ArtifactRef>): set<ArtifactRef> {
    if refs == [] then {} else MembersOf(refs[..|refs| - 1]) + {refs[|refs| - 1]}
  }

  lemma {:induction false} KeysOfMean(refs: seq<ArtifactRef>, k: NodeKey)
    ensures k in KeysOf(refs) <==> Listed(refs, k)
  {
    if refs != [] {
      var n := |refs| - 1;
      KeysOfMean(refs[..n], k);
      assert refs == refs[..n] + [refs[n]];
    }
  }

  lemma {:induction false} MembersOfMean(refs: seq<ArtifactRef>, d: ArtifactRef)
    ensures d in MembersOf(refs) <==> d in refs
  {
    if refs != [] {
      var n := |refs| - 1;
      MembersOfMean(refs[..n], d);
      assert refs == refs[..n] + [refs[n]];
    }
  }

  class GraphWalk {
    ghost const root: ArtifactRef
    const disk: Disk
    var seen: set<NodeKey>
    var discovered: seq<ArtifactRef>
    ghost var members: set<ArtifactRef>  // of `discovered`

    constructor (root: ArtifactRef, disk: Disk)
      ensures this.root == root && this.disk == disk && seen == {} && discovered == [] && members == {}
    {
      this.root := root;
      this.disk := disk;
      seen, discovered, members := {}, [], {};
    }

    ghost predicate Valid()
      reads this
    {
      && seen == KeysOf(discovered) && members == MembersOf(discovered) && DistinctKeys(discovered)
      && (forall d | d in members :: Reachable(root, d) && Good(disk, d))
    }

    /** Everything found, except what is still open above, has all its references seen. */
    ghost predicate ClosedBut(open: set<NodeKey>)
      reads this
    {
      forall d | d in members && Key(d) !in open :: NestedSeen(d, seen)
    }

    method Visit(a: ArtifactRef, ghost open: set<NodeKey>) returns (ok: bool)
      requires Valid() && ClosedBut(open) && Reachable(root, a)
      modifies this
      ensures ok ==> Valid() && ClosedBut(open) && Key(a) in seen
      ensures ok ==> old(discovered) <= discovered && old(seen) <= seen && old(members) <= members
      ensures ok && Key(a) !in old(seen) ==> |old(discovered)| < |discovered| && discovered[|old(discovered)|] == a
      ensures !ok ==> !AllGood(disk, root)
      ensures Scan(disk, a, old(discovered)) == if ok then Some(discovered) else None
      decreases a, 3, 0
    {
      KeysOfMean(discovered, Key(a));
      if Key(a) in seen {
        return true;
      }
      if !Verifies(disk, a) {
        assert !Good(disk, a) && !AllGood(disk, root);
        return false;
      }
      if a.kind.ManifestArtifact? && !(a.digest.OfManifest? && a.digest.manifest.Valid()) {
        assert !Good(disk, a) && !AllGood(disk, root);
        return false;
      }
      Discover(a, open);
      ok := VisitNested(a, open);
    }

    method Discover(a: ArtifactRef, ghost open: set<NodeKey>)
      requires Valid() && ClosedBut(open) && Reachable(root, a) && Good(disk, a) && Key(a) !in seen
      modifies this
      ensures Valid() && ClosedBut(open + {Key(a)})
      ensures seen == old(seen) + {Key(a)} && discovered == old(discovered) + [a] && members == old(members) + {a}
    {
      assert DistinctKeys(discovered + [a]) by {
        forall i | 0 <= i < |discovered| ensures Key(discovered[i]) != Key(a) {
          assert discovered[i] in discovered;
          KeysOfMean(discovered, Key(a));
        }
      }
      assert (discovered + [a])[..|discovered|] == discovered;
      seen := seen + {Key(a)};
      discovered, members := discovered + [a], members + {a};
    }

    method VisitNested(a: ArtifactRef, ghost open: set<NodeKey>) returns (ok: bool)
      requires Valid() && ClosedBut(open + {Key(a)}) && Reachable(root, a) && a in members
      modifies this
      ensures ok ==> Valid() && ClosedBut(open)
      ensures ok ==> old(discovered) <= discovered && old(seen) <= seen && old(members) <= members
      ensures !ok ==> !AllGood(disk, root)
      ensures ScanNested(disk, a, |Nested(a)|, old(discovered)) == if ok then Some(discovered) else None
      decreases a, 2, 0
    {
      ok := VisitEach(a, open + {Key(a)});
      if ok {
        ScanNestedExtends(disk, a, |Nested(a)|, old(discovered));
        Closes(a, open);
      }
    }

    method VisitEach(a: ArtifactRef, ghost open: set<NodeKey>) returns (ok: bool)
      requires Valid() && ClosedBut(open) && Reachable(root, a)
      modifies this
      ensures ok ==> Valid() && ClosedBut(open) && NestedSeen(a, seen)
      ensures ok ==> old(seen) <= seen && old(members) <= members
      ensures !ok ==> !AllGood(disk, root)
      ensures ScanNested(disk, a, |Nested(a)|, old(discovered)) == if ok then Some(discovered) else None
      decreases a, 1, 0
    {
      for i := 0 to |Nested(a)|
        invariant ScanNested(disk, a, i, old(discovered)) == Some(discovered)
        invariant Valid() && ClosedBut(open)
        invariant old(seen) <= seen && old(members) <= members
        invariant SeenFirst(a, i, seen)
      {
        ok := VisitAt(a, i, open, old(discovered));
        if !ok {
          ScanFailureStays(disk, a, i + 1, |Nested(a)|, old(discovered));
          return;
        }
      }
      ok := true;
      AllSeen(a, seen);
    }

    method VisitAt(a: ArtifactRef, i: nat, ghost open: set<NodeKey>, ghost start: seq<ArtifactRef>) returns (ok: bool)
      requires Valid() && ClosedBut(open) && Reachable(root, a) && i < |Nested(a)|
      requires ScanNested(disk, a, i, start) == Some(discovered) && SeenFirst(a, i, seen)
      modifies this
      ensures ok ==> Valid() && ClosedBut(open) && SeenFirst(a, i + 1, seen)
      ensures ok ==> old(seen) <= seen && old(members) <= members
      ensures !ok ==> !AllGood(disk, root)
      ensures ScanNested(disk, a, i + 1, start) == if ok then Some(discovered) else None
      decreases a, 0, 1
    {
      ok := VisitInside(a, Nested(a)[i], open);
      if ok {
        SeenFirstGrows(a, i, old(seen), seen);
      }
    }

    method VisitInside(a: ArtifactRef, r: ArtifactRef, ghost open: set<NodeKey>) returns (ok: bool)
      requires Valid() && ClosedBut(open) && Reachable(root, a) && r in Nested(a)
      modifies this
      ensures ok ==> Valid() && ClosedBut(open) && Key(r) in seen
      ensures ok ==> old(seen) <= seen && old(members) <= members
      ensures !ok ==> !AllGood(disk, root)
      ensures Scan(disk, r, old(discovered)) == if ok then Some(discovered) else None
      decreases a, 0, 0
    {
      NestedBelow(a, r);
      InsideReachable(root, a, r);
      ok := Visit(r, open);
    }

    lemma Closes(a: ArtifactRef, open: set<NodeKey>)
      requires Valid() && ClosedBut(open + {Key(a)}) && a in members
      requires NestedSeen(a, seen)
      ensures ClosedBut(open)
    {
      forall d | d in members && Key(d) !in open ensures NestedSeen(d, seen) {
        if Key(d) == Key(a) {
          MembersOfMean(discovered, d);
          MembersOfMean(discovered, a);
          assert d == a;
        }
      }
    }

    /** A completed walk has seen everything reachable, and checked all of it but the sizes of second references. */
    lemma Covers(x: ArtifactRef)
      requires Valid() && ClosedBut({}) && SameKinds(root) && Key(root) in seen && Reachable(root, x)
      ensures Listed(discovered, Key(x)) && InPlace(disk, x) && (Good(disk, x) <==> Sized(disk, x))
    {
      assert Reachable(root, root);
      ClosureCovers(this, root, x);
      KeysOfMean(discovered, Key(x));
      var d :| d in discovered && Key(d) == Key(x);
      MembersOfMean(discovered, d);
      assert d.kind == x.kind;
    }

    lemma CoversSizes(x: ArtifactRef)
      requires Valid() && ClosedBut({}) && Consistent(root) && Key(root) in seen && Reachable(root, x)
      ensures Good(disk, x)
    {
      Covers(x);
      var d :| d in discovered && Key(d) == Key(x);
      MembersOfMean(discovered, d);
      assert d.size == x.size;
    }
  }

  /** From a seen node everything reachable has been seen. */
  lemma {:induction false} ClosureCovers(w: GraphWalk, y: ArtifactRef, x: ArtifactRef)
    requires w.Valid() && w.ClosedBut({}) && SameKinds(w.root)
    requires Reachable(w.root, y) && Key(y) in w.seen && Reachable(y, x)
    ensures Key(x) in w.seen
    decreases y
  {
    if x != y {
      var r :| Inside(y, r) && Smaller(r, y) && Reachable(r, x);
      NestedMeans(y, r);
      KeysOfMean(w.discovered, Key(y));
      var d :| d in w.discovered && Key(d) == Key(y);
      MembersOfMean(w.discovered, d);
      assert Nested(d) == Nested(y) && NestedSeen(d, w.seen);
      InsideReachable(w.root, y, r);
      ClosureCovers(w, r, x);
    }
  }

  /** The generator at the end of the walk: everything but the root reference. */
  function WithoutRoot(refs: seq<ArtifactRef>, root: ArtifactRef): seq<ArtifactRef> {
    if refs == [] then []
    else (if refs[0] == root then [] else [refs[0]]) + WithoutRoot(refs[1..], root)
  }

  lemma {:induction false} WithoutRootKeeps(refs: seq<ArtifactRef>, root: ArtifactRef)
    requires root !in refs
    ensures WithoutRoot(refs, root) == refs
  {
    if refs != [] {
      WithoutRootKeeps(refs[1..], root);
    }
  }

  /** `refs` is the answer for `root`: every reachable path and digest except the root's, each once. */
  ghost predicate IsGraphOf(refs: seq<ArtifactRef>, root: ArtifactRef) {
    && DistinctKeys(refs)
    && (forall d | d in refs :: Reachable(root, d) && Key(d) != Key(root))
    && (forall x | Reachable(root, x) && Key(x) != Key(root) :: Listed(refs, Key(x)))
  }

  ghost predicate Listed(refs: seq<ArtifactRef>, k: NodeKey) {
    exists d :: d in refs && Key(d) == k
  }

  lemma TailLists(found: seq<ArtifactRef>, k: NodeKey)
    requires found != [] && Listed(found, k) && k != Key(found[0])
    ensures Listed(found[1..], k)
  {
    var i :| 0 <= i < |found| && Key(found[i]) == k;
    assert found[1..][i - 1] == found[i];
  }

  lemma TailFacts(found: seq<ArtifactRef>)
    requires found != [] && DistinctKeys(found)
    ensures DistinctKeys(found[1..])
    ensures forall d | d in found[1..] :: d in found && Key(d) != Key(found[0])
    ensures WithoutRoot(found, found[0]) == found[1..]
  {
    var rest := found[1..];
    forall d | d in rest ensures d in found && Key(d) != Key(found[0]) {
      var i :| 0 <= i < |rest| && rest[i] == d;
      assert found[i + 1] == d;
    }
    assert found[0] !in rest;
    WithoutRootKeeps(rest, found[0]);
  }

  lemma TailIsGraph(found: seq<ArtifactRef>, root: ArtifactRef)
    requires found != [] && found[0] == root && DistinctKeys(found)
    requires forall d | d in found :: Reachable(root, d)
    requires forall x | Reachable(root, x) :: Listed(found, Key(x))
    ensures IsGraphOf(found[1..], root)
  {
    TailFacts(found);
    forall x | Reachable(root, x) && Key(x) != Key(root) ensures Listed(found[1..], Key(x)) {
      TailLists(found, Key(x));
    }
  }

  lemma GraphIsInPlace(disk: Disk, refs: seq<ArtifactRef>, root: ArtifactRef)
    requires IsGraphOf(refs, root) && forall x | Reachable(root, x) :: InPlace(disk, x)
    ensures AllReferencesInPlace(disk, refs, root)
  {
    forall y, x | Reachable(root, y) && Inside(y, x)
      ensures (Listed(refs, Key(x)) || Key(x) == Key(root)) && InPlace(disk, x)
    {
      InsideReachable(root, y, x);
    }
  }

  /**
   `verify_manifest_graph`. Whatever it returns is reachable, verified and listed once, and it never refuses a good
   graph. When a path and digest fix the kind, it misses nothing, every file is in place, and of what is reachable
   exactly the references that declare another size than the file has go unverified; when they fix the size too, it
   succeeds exactly on good graphs.
   */
  method VerifyManifestGraph(root: ArtifactRef, disk: Disk) returns (r: Option<seq<ArtifactRef>>)
    ensures r.None? ==> !AllGood(disk, root)
    ensures r.Some? ==> DistinctKeys(r.value)
    ensures r.Some? ==> forall d | d in r.value :: Reachable(root, d) && Good(disk, d) && Key(d) != Key(root)
    ensures SameKinds(root) && r.Some? ==> IsGraphOf(r.value, root)
    ensures SameKinds(root) && r.Some? ==> forall x | Reachable(root, x) :: Good(disk, x) <==> Sized(disk, x)
    ensures SameKinds(root) && r.Some? ==> AllReferencesInPlace(disk, r.value, root)
    ensures Consistent(root) && r.Some? ==> AllGood(disk, root)
    ensures match Scan(disk, root, [])
            case None => r == None
            case Some(found) => r == Some(WithoutRoot(found, root))
  {
    var w := new GraphWalk(root, disk);
    assert Reachable(root, root);
    var ok := w.Visit(root, {});
    if !ok {
      return None;
    }
    TailFacts(w.discovered);
    forall d | d in w.discovered ensures Reachable(root, d) && Good(disk, d) {
      MembersOfMean(w.discovered, d);
    }
    r := Some(WithoutRoot(w.discovered, root));
    if SameKinds(root) {
      forall x | Reachable(root, x)
        ensures Listed(w.discovered, Key(x)) && InPlace(disk, x) && (Good(disk, x) <==> Sized(disk, x))
      {
        w.Covers(x);
      }
      TailIsGraph(w.discovered, root);
      GraphIsInPlace(disk, r.value, root);
    }
    if Consistent(root) {
      forall x | Reachable(root, x) ensures Good(disk, x) {
        w.CoversSizes(x);
      }
    }
  }

  // ------------------------------------------------------------- witnesses

  const MODEL := Elsewhere("model.bin")
  const COPY := Elsewhere("copy.json")

  function Holding(artifacts: seq<ArtifactRef>): RunManifest {
    RunManifest(1, 0, 0, 0, None, "", [], artifacts, None)
  }

  function Stored(files: Disk, m: RunManifest): Disk {
    files[PublishedRef(m).path := FileState(0, OfManifest(m), SizeOf(m))]
  }

  /** The walk over a manifest of two artifacts, the second of which shares path and digest with the first. */
  lemma ScanTwo(disk: Disk, root: ArtifactRef, a: ArtifactRef, b: ArtifactRef)
    requires Good(disk, root) && Nested(root) == [a, b] && Good(disk, a) && Nested(a) == [] && Key(b) == Key(a) != Key(root)
    ensures Scan(disk, root, []) == Some([root, a])
  {
    NestedBelow(root, a);
    NestedBelow(root, b);
    assert a in [root, a] && [root] + [a] == [root, a];
    assert !Listed([root], Key(a));
    assert ScanNested(disk, a, 0, [root, a]) == Some([root, a]);
    assert ScanNested(disk, root, 0, [root]) == Some([root]);
    assert Scan(disk, a, [root]) == Some([root, a]);
    assert ScanNested(disk, root, 1, [root]) == Some([root, a]);
    assert Listed([root, a], Key(b));
    assert ScanNested(disk, root, 2, [root]) == Some([root, a]);
    assert !Listed([], Key(root));
    assert [] + [root] == [root];
  }

  /** Even with a cold cache, a second reference to one path and digest may declare any size. */
  lemma WalkSkipsDeclaredSize() returns (disk: Disk, root: ArtifactRef, found: seq<ArtifactRef>, x: ArtifactRef)
    ensures Scan(disk, root, []) == Some(found) && SameKinds(root)
    ensures Reachable(root, x) && !Good(disk, x)
  {
    var honest := ArtifactRef(MODEL, OfBytes(1), 8, OtherArtifact, Unnamed);
    x := honest.(size := 9);
    var m := Holding([honest, x]);
    root := PublishedRef(m);
    disk := Stored(map[MODEL := FileState(0, OfBytes(1), 8)], m);
    found := [root, honest];
    assert m.artifacts == [honest, x] && StageRefs([]) == [];
    ScanTwo(disk, root, honest, x);
    assert Smaller(x, root) && Reachable(x, x);
    forall y | Reachable(root, y) ensures y == root || y == honest || y == x {
      if y != root {
        var r :| Inside(root, r) && Smaller(r, root) && Reachable(r, y);
      }
    }
  }

  /**
   When kinds differ the listing can have gaps: a manifest first met as an ordinary artifact is never opened, so what
   only it refers to is missed.
   */
  lemma WalkMissesBehindOtherKind() returns (disk: Disk, root: ArtifactRef, found: seq<ArtifactRef>, x: ArtifactRef)
    ensures Scan(disk, root, []) == Some(found) && !SameKinds(root)
    ensures Reachable(root, x) && !Listed(found, Key(x))
  {
    x := ArtifactRef(MODEL, OfBytes(1), 8, OtherArtifact, Unnamed);
    var inner := Holding([x]);
    var proper := ArtifactRef(COPY, OfManifest(inner), SizeOf(inner), ManifestArtifact, Unnamed);
    var plain := proper.(kind := OtherArtifact);
    var m := Holding([plain, proper]);
    root := PublishedRef(m);
    disk := Stored(map[COPY := FileState(0, OfManifest(inner), SizeOf(inner))], m);
    found := [root, plain];
    assert StageRefs([]) == [];
    ScanTwo(disk, root, plain, proper);
    assert Smaller(proper, root) && Smaller(plain, root) && Smaller(x, proper);
    assert Reachable(x, x) && Reachable(proper, x) && Reachable(proper, proper) && Reachable(plain, plain);
    assert Reachable(root, proper) && Reachable(root, plain);
  }
}
