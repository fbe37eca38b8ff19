// Promoting the clones of a volume's deferred snapshots before it is destroyed: from a stale
// list, in any order, whatever fails.
module Promotion {
  import opened Results
  import opened Zfs
  import opened Nas

  // ---------------------------------------------------------------- Promoting clones

  // The loop invariant of the promotion: z0 is the pool when the snapshots of d were
  // listed, z the pool now, pending the clones of d's snapshots not yet tried.
  ghost predicate Promoting(z0: Pool, d: string, z: Pool, pending: set<string>) {
    && Wf(z0) && Wf(z) && d in z0 && z.Keys == z0.Keys
    && (forall c :: c in pending ==> c in z0 && ClonedFrom(z0, c, d) && z[c] == z0[c])
    && Suffix(z[d].snaps, z0[d].snaps)
    && (forall x :: x in z ==> PrefixFrom(z0, d, z[x].snaps))
    && SameVolumes(z0, z)
    && (forall x, s :: x in z0 && s in z0[x].snaps && !Holds(z0, d, s.guid) ==> s in z[x].snaps)
    && (forall g :: Alive(z, g) <==> Alive(z0, g))
    && (forall g :: IsOrigin(z, g) ==> IsOrigin(z0, g))
  }

  // Promotion and snapshot deletion leave sizes and properties alone.
  ghost predicate SameVolumes(z: Pool, z': Pool) {
    forall x :: x in z && x in z' ==> z'[x].volsize == z[x].volsize && z'[x].props == z[x].props
  }

  predicate Suffix(xs: seq<Snap>, ys: seq<Snap>) {
    |xs| <= |ys| && xs == ys[|ys| - |xs|..]
  }

  // The snapshots that were d's come before all others.
  ghost predicate PrefixFrom(z0: Pool, d: string, snaps: seq<Snap>) {
    forall i, j :: 0 <= i < j < |snaps| && Holds(z0, d, snaps[j].guid) ==> Holds(z0, d, snaps[i].guid)
  }

  lemma PromotingStarts(z: Pool, d: string, pending: set<string>)
    requires Wf(z) && d in z && forall c :: c in pending ==> ClonedFrom(z, c, d)
    ensures Promoting(z, d, z, pending)
  {
    forall x | x in z ensures PrefixFrom(z, d, z[x].snaps) {
      forall i, j | 0 <= i < j < |z[x].snaps| && Holds(z, d, z[x].snaps[j].guid)
        ensures Holds(z, d, z[x].snaps[i].guid)
      {
        assert z[x].snaps[j] in z[x].snaps && z[x].snaps[i] in z[x].snaps;
        assert Holds(z, x, z[x].snaps[j].guid) && Holds(z, x, z[x].snaps[i].guid);
      }
    }
  }

  lemma NoOwnClone(z: Pool, c: string, d: string)
    requires Wf(z) && ClonedFrom(z, c, d)
    ensures c != d
  {
    var rank :| Ranked(z, rank);
  }

  // A pending clone never owns another clone's origin, and is not d.
  lemma OwnerIsNotPending(z0: Pool, d: string, z: Pool, pending: set<string>, c: string)
    requires Promoting(z0, d, z, pending) && c in pending
    ensures c != d && z[c].origin.Some? && Alive(z, z[c].origin.value)
    ensures Holds(z0, d, z[c].origin.value)
    ensures Owner(z, z[c].origin.value) !in pending
    ensures forall s :: s in z[c].snaps ==> !Holds(z0, d, s.guid)
  {
    var g := z[c].origin.value;
    assert Alive(z0, g);
    var p := Owner(z, g);
    forall q | q in pending ensures q != d { NoOwnClone(z0, q, d); }
    assert p in pending ==> Holds(z0, p, g) && Holds(z0, d, g);
    forall s | s in z[c].snaps ensures !Holds(z0, d, s.guid) {
      assert Holds(z0, c, s.guid);
    }
  }

  // Everything a promote of a pending clone moves was d's when the promotion began.
  lemma MovesOnlyListed(z0: Pool, d: string, z: Pool, pending: set<string>, c: string, s: Snap)
    requires Promoting(z0, d, z, pending) && c in pending && CanPromote(z, c) && s in Moved(z, c)
    ensures Holds(z0, d, s.guid)
  {
    OwnerIsNotPending(z0, d, z, pending, c);
    var g := z[c].origin.value;
    var p := Owner(z, g);
    var k := IndexOf(z[p].snaps, g);
    var i :| 0 <= i <= k && z[p].snaps[i] == s;
    assert PrefixFrom(z0, d, z[p].snaps);
    if i < k { assert Holds(z0, d, z[p].snaps[k].guid); }
  }

  lemma PrefixOfDrop(z0: Pool, d: string, snaps: seq<Snap>, k: nat)
    requires k <= |snaps| && PrefixFrom(z0, d, snaps)
    ensures PrefixFrom(z0, d, snaps[k..])
  {
    forall i, j | 0 <= i < j < |snaps[k..]| && Holds(z0, d, snaps[k..][j].guid)
      ensures Holds(z0, d, snaps[k..][i].guid)
    {
      assert snaps[k..][i] == snaps[k + i] && snaps[k..][j] == snaps[k + j];
    }
  }

  lemma PrefixOfJoin(z0: Pool, d: string, xs: seq<Snap>, ys: seq<Snap>)
    requires forall s :: s in xs ==> Holds(z0, d, s.guid)
    requires forall s :: s in ys ==> !Holds(z0, d, s.guid)
    ensures PrefixFrom(z0, d, xs + ys)
  {
    assert forall k :: 0 <= k < |xs| ==> (xs + ys)[k] in xs;
    assert forall k :: |xs| <= k < |xs + ys| ==> (xs + ys)[k] in ys;
  }

  lemma PrefixStep(z0: Pool, d: string, z: Pool, pending: set<string>, c: string, x: string)
    requires Promoting(z0, d, z, pending) && c in pending && CanPromote(z, c) && x in z
    ensures PrefixFrom(z0, d, Promote(z, c)[x].snaps)
  {
    OwnerIsNotPending(z0, d, z, pending, c);
    if x == c {
      forall s | s in Moved(z, c) ensures Holds(z0, d, s.guid) { MovesOnlyListed(z0, d, z, pending, c, s); }
      PrefixOfJoin(z0, d, Moved(z, c), z[c].snaps);
    } else if x == Owner(z, z[c].origin.value) {
      PrefixOfDrop(z0, d, z[x].snaps, IndexOf(z[x].snaps, z[c].origin.value) + 1);
    }
  }

  lemma FixedStep(z0: Pool, d: string, z: Pool, pending: set<string>, c: string, x: string, s: Snap)
    requires Promoting(z0, d, z, pending) && c in pending && CanPromote(z, c)
    requires x in z0 && s in z0[x].snaps && !Holds(z0, d, s.guid)
    ensures s in Promote(z, c)[x].snaps
  {
    PromotePlaces(z, c, x, s);
    if s in Moved(z, c) { MovesOnlyListed(z0, d, z, pending, c, s); }
  }

  lemma SuffixStep(z0: Pool, d: string, z: Pool, pending: set<string>, c: string)
    requires Promoting(z0, d, z, pending) && c in pending && CanPromote(z, c)
    ensures Suffix(Promote(z, c)[d].snaps, z0[d].snaps)
    ensures forall g :: Holds(Promote(z, c), d, g) ==> Holds(z, d, g)
    ensures !Holds(Promote(z, c), d, z[c].origin.value)
  {
    var g := z[c].origin.value;
    var p := Owner(z, g);
    var k := IndexOf(z[p].snaps, g);
    OwnerIsNotPending(z0, d, z, pending, c);
    forall h: nat | Holds(Promote(z, c), d, h) ensures Holds(z, d, h) { PromoteHolds(z, c, d, h); }
    assert z[p].snaps[k] in Moved(z, c);
    PromoteHolds(z, c, d, g);
  }

  lemma PendingStep(z0: Pool, d: string, z: Pool, pending: set<string>, c: string, x: string)
    requires Promoting(z0, d, z, pending) && c in pending && CanPromote(z, c) && x in pending && x != c
    ensures x in z0 && ClonedFrom(z0, x, d) && Promote(z, c)[x] == z0[x]
  {
    OwnerIsNotPending(z0, d, z, pending, c);
    PromoteOrigins(z, c, x);
  }

  // Promoting one pending clone keeps the invariant; afterwards its origin is not on d.
  lemma PromotingStep(z0: Pool, d: string, z: Pool, pending: set<string>, c: string)
    requires Promoting(z0, d, z, pending) && c in pending && CanPromote(z, c)
    ensures Promoting(z0, d, Promote(z, c), pending - {c})
    ensures forall g :: Holds(Promote(z, c), d, g) ==> Holds(z, d, g)
    ensures !Holds(Promote(z, c), d, z[c].origin.value)
  {
    PromoteKeepsWf(z, c);
    PromoteConserves(z, c);
    SuffixStep(z0, d, z, pending, c);
    forall x | x in pending - {c} ensures x in z0 && ClonedFrom(z0, x, d) && Promote(z, c)[x] == z0[x] {
      PendingStep(z0, d, z, pending, c, x);
    }
    forall x | x in z ensures PrefixFrom(z0, d, Promote(z, c)[x].snaps) { PrefixStep(z0, d, z, pending, c, x); }
    forall x, s | x in z0 && s in z0[x].snaps && !Holds(z0, d, s.guid) ensures s in Promote(z, c)[x].snaps {
      FixedStep(z0, d, z, pending, c, x, s);
    }
  }

  // The newest of the snapshots, listed in creation order, that has a clone.
  ghost function NewestCloned(z: Pool, snaps: seq<Snap>): (r: Option<Snap>)
    ensures r.None? <==> forall s :: s in snaps ==> !IsOrigin(z, s.guid)
    ensures r.Some? ==> r.value in snaps && IsOrigin(z, r.value.guid)
  {
    if snaps == [] then None
    else
      var newer := NewestCloned(z, snaps[1..]);
      if newer.Some? then newer
      else if IsOrigin(z, snaps[0].guid) then Some(snaps[0])
      else None
  }

  lemma {:induction false} NewestIsLast(z: Pool, snaps: seq<Snap>, i: nat, j: nat)
    requires DistinctSnaps(snaps) && i < j < |snaps| && IsOrigin(z, snaps[j].guid)
    ensures NewestCloned(z, snaps) != Some(snaps[i])
  {
    var rest := snaps[1..];
    assert forall k :: 0 <= k < |rest| ==> rest[k] == snaps[k + 1];
    assert rest[j - 1] in rest;
    if i > 0 { NewestIsLast(z, rest, i - 1, j - 1); }
  }

  // The snapshots that were d's are unchanged, wherever they are now.
  ghost predicate SameSnaps(z0: Pool, d: string, z: Pool) {
    d in z0 && forall x, s :: x in z && s in z[x].snaps && Holds(z0, d, s.guid) ==> s in z0[d].snaps
  }

  // The clones of what is still on d are exactly those of before, untouched.
  ghost predicate SameClones(z0: Pool, d: string, z: Pool) {
    && (forall c :: ClonedFrom(z, c, d) ==> c in z0 && z0[c] == z[c])
    && (forall c :: ClonedFrom(z0, c, d) && Holds(z, d, z0[c].origin.value) ==> c in z && z[c] == z0[c])
  }

  // The newest snapshot of d that had a clone is still on d, unless it is deferred.
  ghost predicate NewestStays(z0: Pool, d: string, z: Pool) {
    d in z0 && d in z
    && var newest := NewestCloned(z0, z0[d].snaps);
       newest.Some? && !newest.value.deferred ==> newest.value in z[d].snaps
  }

  ghost predicate Unaltered(z0: Pool, d: string, z: Pool) {
    SameSnaps(z0, d, z) && SameClones(z0, d, z) && NewestStays(z0, d, z)
  }

  lemma UnalteredAtFirst(z: Pool, d: string)
    requires Wf(z) && d in z
    ensures Unaltered(z, d, z)
  {
    forall x, s | x in z && s in z[x].snaps && Holds(z, d, s.guid) ensures s in z[d].snaps {
      assert Holds(z, x, s.guid);
    }
  }

  // c was a clone of a deferred snapshot of d.
  ghost predicate OfDeferred(z0: Pool, d: string, c: string) {
    d in z0 && c in z0 && exists t :: t in z0[d].snaps && t.deferred && z0[c].origin == Some(t.guid)
  }

  lemma SnapsStep(z0: Pool, d: string, z: Pool, pending: set<string>, c: string)
    requires Promoting(z0, d, z, pending) && SameSnaps(z0, d, z) && c in pending && CanPromote(z, c)
    ensures SameSnaps(z0, d, Promote(z, c))
  {
    OwnerIsNotPending(z0, d, z, pending, c);
    var p := Owner(z, z[c].origin.value);
    forall x, s | x in z && s in Promote(z, c)[x].snaps && Holds(z0, d, s.guid) ensures s in z0[d].snaps {
      PromotePlaces(z, c, x, s);
      assert s in Moved(z, c) ==> s in z[p].snaps;
    }
  }

  // The owner of a pending clone's origin is not itself a clone of what is still on d.
  lemma OwnerIsNoClone(z0: Pool, d: string, z: Pool, pending: set<string>, c: string)
    requires Promoting(z0, d, z, pending) && SameClones(z0, d, z) && c in pending
    ensures z[c].origin.Some? && Alive(z, z[c].origin.value)
    ensures var p := Owner(z, z[c].origin.value);
            !ClonedFrom(z, p, d) && !(ClonedFrom(z0, p, d) && Holds(z, d, z0[p].origin.value))
  {
    OwnerIsNotPending(z0, d, z, pending, c);
    var p := Owner(z, z[c].origin.value);
    if ClonedFrom(z, p, d) || (ClonedFrom(z0, p, d) && Holds(z, d, z0[p].origin.value)) {
      assert z[p] == z0[p] && Holds(z0, p, z[c].origin.value);
      assert p == d;
      NoOwnCloneIn(z0, z, d);
    }
  }

  lemma NoOwnCloneIn(z0: Pool, z: Pool, d: string)
    requires Wf(z0) && Wf(z)
    ensures !ClonedFrom(z, d, d) && !ClonedFrom(z0, d, d)
  {
    if ClonedFrom(z, d, d) { NoOwnClone(z, d, d); }
    if ClonedFrom(z0, d, d) { NoOwnClone(z0, d, d); }
  }

  lemma NoNewClone(z0: Pool, d: string, z: Pool, pending: set<string>, c: string, x: string)
    requires Promoting(z0, d, z, pending) && SameClones(z0, d, z) && c in pending && CanPromote(z, c)
    requires ClonedFrom(Promote(z, c), x, d)
    ensures x in z0 && z0[x] == Promote(z, c)[x]
  {
    var p := Owner(z, z[c].origin.value);
    SuffixStep(z0, d, z, pending, c);
    OwnerIsNoClone(z0, d, z, pending, c);
    PromoteOrigins(z, c, x);
    assert Holds(z, d, Promote(z, c)[x].origin.value);
    assert x == c ==> ClonedFrom(z, p, d);
    assert ClonedFrom(z, x, d);
  }

  lemma CloneStays(z0: Pool, d: string, z: Pool, pending: set<string>, c: string, x: string)
    requires Promoting(z0, d, z, pending) && SameClones(z0, d, z) && c in pending && CanPromote(z, c)
    requires ClonedFrom(z0, x, d) && Holds(Promote(z, c), d, z0[x].origin.value)
    ensures x in z && Promote(z, c)[x] == z0[x]
  {
    SuffixStep(z0, d, z, pending, c);
    OwnerIsNoClone(z0, d, z, pending, c);
    assert z[x] == z0[x];
    assert x != c && x != Owner(z, z[c].origin.value);
  }

  lemma ClonesStep(z0: Pool, d: string, z: Pool, pending: set<string>, c: string)
    requires Promoting(z0, d, z, pending) && SameClones(z0, d, z) && c in pending && CanPromote(z, c)
    ensures SameClones(z0, d, Promote(z, c))
  {
    var z' := Promote(z, c);
    forall x | ClonedFrom(z', x, d) ensures x in z0 && z0[x] == z'[x] { NoNewClone(z0, d, z, pending, c, x); }
    forall x | ClonedFrom(z0, x, d) && Holds(z', d, z0[x].origin.value) ensures x in z' && z'[x] == z0[x] {
      CloneStays(z0, d, z, pending, c, x);
    }
  }

  // Promoting a clone of a deferred snapshot moves no newer one.
  lemma NewestStep(z0: Pool, d: string, z: Pool, pending: set<string>, c: string)
    requires Promoting(z0, d, z, pending) && NewestStays(z0, d, z) && c in pending && CanPromote(z, c)
      && OfDeferred(z0, d, c)
    ensures NewestStays(z0, d, Promote(z, c))
  {
    var newest := NewestCloned(z0, z0[d].snaps);
    if newest.Some? && !newest.value.deferred {
      var n := newest.value;
      var p := Owner(z, z[c].origin.value);
      PromotePlaces(z, c, d, n);
      if n in Moved(z, c) {
        SameSnap(z, p, d, n, n);
        MovedIsOlder(z0, d, z[d].snaps, c, IndexOf(z[d].snaps, z[c].origin.value), n);
      }
    }
  }

  // xs are what is left of d's snapshots, and number m of them is the origin of clone c.
  lemma MovedIsOlder(z0: Pool, d: string, xs: seq<Snap>, c: string, m: nat, n: Snap)
    requires d in z0 && Suffix(xs, z0[d].snaps) && DistinctSnaps(z0[d].snaps)
    requires OfDeferred(z0, d, c) && m < |xs| && z0[c].origin == Some(xs[m].guid) && n in xs[..m + 1]
    ensures n.deferred || NewestCloned(z0, z0[d].snaps) != Some(n)
  {
    var i :| 0 <= i <= m && xs[i] == n;
    var t :| t in z0[d].snaps && t.deferred && z0[c].origin == Some(t.guid);
    OlderIsNotNewest(z0, z0[d].snaps, xs, i, m, t);
  }

  lemma OlderIsNotNewest(z0: Pool, ys: seq<Snap>, xs: seq<Snap>, i: nat, m: nat, t: Snap)
    requires DistinctSnaps(ys) && Suffix(xs, ys) && i <= m < |xs| && IsOrigin(z0, t.guid)
    requires t in ys && t.deferred && xs[m].guid == t.guid
    ensures xs[i].deferred || NewestCloned(z0, ys) != Some(xs[i])
  {
    var off := |ys| - |xs|;
    assert ys[off + i] == xs[i] && ys[off + m] == xs[m];
    var k :| 0 <= k < |ys| && ys[k] == t;
    assert k == off + m;
    if i < m { NewestIsLast(z0, ys, off + i, off + m); }
  }

  lemma UnalteredStep(z0: Pool, d: string, z: Pool, pending: set<string>, c: string)
    requires Promoting(z0, d, z, pending) && Unaltered(z0, d, z) && c in pending && CanPromote(z, c)
      && OfDeferred(z0, d, c)
    ensures Unaltered(z0, d, Promote(z, c))
  {
    SnapsStep(z0, d, z, pending, c);
    ClonesStep(z0, d, z, pending, c);
    NewestStep(z0, d, z, pending, c);
  }

  // No clone of a snapshot of d has a snapshot named like one of d's.
  ghost predicate NoClashes(z: Pool, d: string) {
    forall c, s, t :: d in z && s in z[d].snaps && ClonedFrom(z, c, d) && t in z[c].snaps ==> s.name != t.name
  }

  // The snapshots up to one that was d's were all d's, and are as they were.
  lemma PrefixWasListed(z0: Pool, d: string, z: Pool, p: string, k: nat, x: Snap)
    requires SameSnaps(z0, d, z) && p in z && PrefixFrom(z0, d, z[p].snaps)
    requires k < |z[p].snaps| && Holds(z0, d, z[p].snaps[k].guid) && x in z[p].snaps[..k + 1]
    ensures x in z0[d].snaps
  {
    var i :| 0 <= i <= k && z[p].snaps[i] == x;
    assert Holds(z0, d, z[p].snaps[i].guid);
  }

  // Without clashing names every pending clone can be promoted.
  lemma PendingCanPromote(z0: Pool, d: string, z: Pool, pending: set<string>, c: string)
    requires Promoting(z0, d, z, pending) && SameSnaps(z0, d, z) && c in pending && NoClashes(z0, d)
    ensures CanPromote(z, c)
  {
    OwnerIsNotPending(z0, d, z, pending, c);
    var p := Owner(z, z[c].origin.value);
    var k := IndexOf(z[p].snaps, z[c].origin.value);
    forall x, y | x in z[p].snaps[..k + 1] && y in z[c].snaps ensures x.name != y.name {
      PrefixWasListed(z0, d, z, p, k, x);
      assert ClonedFrom(z0, c, d) && y in z0[c].snaps;
    }
  }

  // The same for a promote that may not have happened.
  lemma PromotingOutcome(z0: Pool, d: string, z: Pool, pending: set<string>, c: string, z': Pool)
    requires Promoting(z0, d, z, pending) && Unaltered(z0, d, z) && c in pending && OfDeferred(z0, d, c)
    requires z' == z || (CanPromote(z, c) && z' == Promote(z, c))
    ensures Promoting(z0, d, z', pending - {c}) && Unaltered(z0, d, z')
    ensures forall g :: Holds(z', d, g) ==> Holds(z, d, g)
    ensures CanPromote(z, c) && z' == Promote(z, c) ==> z0[c].origin.Some? && !Holds(z', d, z0[c].origin.value)
    ensures NoClashes(z0, d) ==> CanPromote(z, c)
  {
    if NoClashes(z0, d) { PendingCanPromote(z0, d, z, pending, c); }
    assert z[c] == z0[c];
    if CanPromote(z, c) {
      PromotingStep(z0, d, z, pending, c);
      UnalteredStep(z0, d, z, pending, c);
    }
  }

  // Why a promotion is not clean: a call failed, or names clash.
  ghost predicate Spoiled(z0: Pool, d: string, f: Schedule, f': Schedule) {
    Pending(f') < Pending(f) || !NoClashes(z0, d)
  }

  // What a promotion of the clones of d's deferred snapshots leaves.
  ghost predicate Promoted(z0: Pool, d: string, z: Pool) {
    && Wf(z) && z.Keys == z0.Keys
    && (d in z0 ==> Suffix(z[d].snaps, z0[d].snaps) && Unaltered(z0, d, z))
    && SameVolumes(z0, z)
    && (forall x, s :: x in z0 && s in z0[x].snaps && !Holds(z0, d, s.guid) ==> s in z[x].snaps)
    && (forall g :: Alive(z, g) <==> Alive(z0, g))
    && (forall g :: IsOrigin(z, g) ==> IsOrigin(z0, g))
  }

  // The clones in infos[i..] from position j of the first on are still pending.
  ghost predicate Listed(infos: seq<SnapInfo>, i: nat, j: nat, pending: set<string>) {
    && (forall k, c :: i < k < |infos| && c in infos[k].clones ==> c in pending)
    && (i < |infos| ==> forall k :: j <= k < |infos[i].clones| ==> infos[i].clones[k] in pending)
  }

  // The deferred snapshots with clones among infos[..i] have left d.
  ghost predicate Gone(infos: seq<SnapInfo>, i: nat, z: Pool, d: string) {
    forall k :: 0 <= k < i && k < |infos| && infos[k].deferred && infos[k].clones != [] ==> !Holds(z, d, infos[k].guid)
  }

  lemma ListedNext(z0: Pool, d: string, infos: seq<SnapInfo>, i: nat, j: nat, pending: set<string>)
    requires Wf(z0) && SnapsListed(z0, d, infos) && i < |infos| && j < |infos[i].clones|
    requires Listed(infos, i, j, pending)
    ensures Listed(infos, i, j + 1, pending - {infos[i].clones[j]})
  {
    var c := infos[i].clones[j];
    forall k, e | i < k < |infos| && e in infos[k].clones ensures e in pending - {c} {
      assert DistinctSnaps(z0[d].snaps);
      assert c in infos[i].clones;
      assert z0[c].origin == Some(infos[i].guid) && z0[e].origin == Some(infos[k].guid);
    }
  }

  lemma ListedSkip(infos: seq<SnapInfo>, i: nat, pending: set<string>)
    requires i < |infos| && Listed(infos, i, |infos[i].clones|, pending)
    ensures Listed(infos, i + 1, 0, pending)
  {
    if i + 1 < |infos| {
      var clones := infos[i + 1].clones;
      forall k | 0 <= k < |clones| ensures clones[k] in pending { assert clones[k] in infos[i + 1].clones; }
    }
  }

  method PromoteOne(nas: Client, ghost z0: Pool, d: string, c: string, ghost pending: set<string>) returns (ok: bool)
    requires Promoting(z0, d, nas.st.pool, pending) && Unaltered(z0, d, nas.st.pool) && c in pending
      && OfDeferred(z0, d, c)
    modifies nas`st, nas`faults
    ensures nas.st == old(nas.st).(pool := nas.st.pool) && Pending(nas.faults) <= Pending(old(nas.faults))
    ensures Promoting(z0, d, nas.st.pool, pending - {c}) && Unaltered(z0, d, nas.st.pool)
    ensures ok || Spoiled(z0, d, old(nas.faults), nas.faults)
    ensures forall g :: Holds(nas.st.pool, d, g) ==> Holds(old(nas.st).pool, d, g)
    ensures ok ==> !Holds(nas.st.pool, d, z0[c].origin.value)
  {
    ghost var z := nas.st.pool;
    var r := nas.PromoteDataset(c);
    PromotingOutcome(z0, d, z, pending, c, nas.st.pool);
    ok := r.Ok?;
  }

  // Promote the clones of one listed snapshot. clean: no promote failed.
  method PromoteEach(nas: Client, ghost z0: Pool, d: string, infos: seq<SnapInfo>, i: nat, ghost pending: set<string>)
    returns (promoted: bool, ghost clean: bool, ghost pending': set<string>)
    requires Promoting(z0, d, nas.st.pool, pending) && Unaltered(z0, d, nas.st.pool) && SnapsListed(z0, d, infos)
      && i < |infos|
    requires Listed(infos, i, 0, pending) && infos[i].deferred
    modifies nas`st, nas`faults
    ensures nas.st == old(nas.st).(pool := nas.st.pool) && Pending(nas.faults) <= Pending(old(nas.faults))
    ensures Promoting(z0, d, nas.st.pool, pending') && Unaltered(z0, d, nas.st.pool)
      && Listed(infos, i + 1, 0, pending')
    ensures forall g :: Holds(nas.st.pool, d, g) ==> Holds(old(nas.st).pool, d, g)
    ensures clean || Spoiled(z0, d, old(nas.faults), nas.faults)
    ensures clean && infos[i].clones != [] ==> promoted && !Holds(nas.st.pool, d, infos[i].guid)
  {
    promoted, clean, pending' := false, true, pending;
    var clones := infos[i].clones;
    for j := 0 to |clones|
      invariant nas.st == old(nas.st).(pool := nas.st.pool)
      invariant Promoting(z0, d, nas.st.pool, pending') && Unaltered(z0, d, nas.st.pool)
        && Listed(infos, i, j, pending')
      invariant Pending(nas.faults) <= Pending(old(nas.faults))
      invariant clean || Spoiled(z0, d, old(nas.faults), nas.faults)
      invariant forall g :: Holds(nas.st.pool, d, g) ==> Holds(old(nas.st).pool, d, g)
      invariant clean && j > 0 ==> promoted && !Holds(nas.st.pool, d, infos[i].guid)
    {
      var c := clones[j];
      ListedOrigin(z0, d, infos, i, j);
      ListedNext(z0, d, infos, i, j, pending');
      var ok := PromoteOne(nas, z0, d, c, pending');
      pending' := pending' - {c};
      promoted, clean := promoted || ok, clean && ok;
    }
    ListedSkip(infos, i, pending');
  }

  lemma ListedOrigin(z0: Pool, d: string, infos: seq<SnapInfo>, i: nat, j: nat)
    requires SnapsListed(z0, d, infos) && i < |infos| && j < |infos[i].clones|
    ensures infos[i].clones[j] in z0 && z0[infos[i].clones[j]].origin == Some(infos[i].guid)
    ensures d in z0 && infos[i].deferred ==> OfDeferred(z0, d, infos[i].clones[j])
  {
    assert infos[i].clones[j] in infos[i].clones;
    assert d in z0 ==> z0[d].snaps[i] in z0[d].snaps;
  }

  // No deferred snapshot of d has a clone: nothing DeleteSnapshot left there blocks its destruction.
  ghost predicate Unblocked(z: Pool, d: string) {
    d in z ==> forall s :: s in z[d].snaps && s.deferred ==> !IsOrigin(z, s.guid)
  }

  // Some snapshot of d has a clone.
  ghost predicate Blocked(z: Pool, d: string) { d in z && !CanDestroy(z, d) }

  // Promotion can clear the way: no snapshot of d has a clone, or the newest that has is
  // deferred and takes the older ones along.
  ghost predicate NewestDeferred(z: Pool, d: string) {
    d in z && var newest := NewestCloned(z, z[d].snaps); newest.Some? ==> newest.value.deferred
  }

  // Promotion cannot: d's newest snapshot with a clone is not deferred.
  ghost predicate Stuck(z: Pool, d: string) { d in z && !NewestDeferred(z, d) }

  lemma {:induction false} NewestOfSame(z: Pool, z': Pool, snaps: seq<Snap>)
    requires forall s :: s in snaps ==> (IsOrigin(z, s.guid) <==> IsOrigin(z', s.guid))
    ensures NewestCloned(z, snaps) == NewestCloned(z', snaps)
  {
    if snaps != [] { NewestOfSame(z, z', snaps[1..]); }
  }

  lemma {:induction false} NewestOfSuffix(z: Pool, xs: seq<Snap>, ys: seq<Snap>)
    requires Suffix(xs, ys) && NewestCloned(z, xs).Some?
    ensures NewestCloned(z, ys) == NewestCloned(z, xs)
  {
    if |xs| == |ys| {
      assert xs == ys;
    } else {
      assert xs == ys[1..][|ys[1..]| - |xs|..];
      NewestOfSuffix(z, xs, ys[1..]);
    }
  }

  // On d promotion takes clones from no snapshot that stays.
  lemma ClonedAsBefore(z0: Pool, d: string, z: Pool, s: Snap)
    requires Promoted(z0, d, z) && d in z0 && s in z[d].snaps
    ensures s in z0[d].snaps && (IsOrigin(z, s.guid) <==> IsOrigin(z0, s.guid))
  {
    if c :| c in z0 && z0[c].origin == Some(s.guid) {
      assert Holds(z, d, s.guid) && Holds(z0, d, s.guid);
      assert ClonedFrom(z0, c, d);
    }
  }

  lemma NewestAsBefore(z0: Pool, d: string, z: Pool)
    requires Promoted(z0, d, z) && d in z0
    ensures var newest := NewestCloned(z, z[d].snaps); newest.Some? ==> newest == NewestCloned(z0, z0[d].snaps)
  {
    forall s | s in z[d].snaps ensures IsOrigin(z, s.guid) <==> IsOrigin(z0, s.guid) { ClonedAsBefore(z0, d, z, s); }
    NewestOfSame(z, z0, z[d].snaps);
    if NewestCloned(z0, z[d].snaps).Some? { NewestOfSuffix(z0, z[d].snaps, z0[d].snaps); }
  }

  // After a promotion in which nothing failed the source can be destroyed exactly if the
  // newest of its snapshots with a clone was deferred, or none had one.
  lemma CanDestroyIffNewestDeferred(z0: Pool, d: string, z: Pool)
    requires Promoted(z0, d, z) && d in z0 && Unblocked(z, d)
    ensures CanDestroy(z, d) <==> NewestDeferred(z0, d)
  {
    if NewestDeferred(z0, d) { NewestAsBefore(z0, d, z); } else { OthersStayBlocked(z0, d, z); }
  }

  // Otherwise it stays blocked, whatever fails.
  lemma OthersStayBlocked(z0: Pool, d: string, z: Pool)
    requires Promoted(z0, d, z) && Stuck(z0, d)
    ensures Blocked(z, d)
  {
    ClonedAsBefore(z0, d, z, NewestCloned(z0, z0[d].snaps).value);
  }

  // Nor can a later promotion clear the way then.
  lemma OthersStayStuck(z0: Pool, d: string, z: Pool)
    requires Promoted(z0, d, z) && Stuck(z0, d)
    ensures Stuck(z, d)
  {
    OthersStayBlocked(z0, d, z);
    NewestAsBefore(z0, d, z);
  }

  lemma GoneNext(infos: seq<SnapInfo>, i: nat, z: Pool, z': Pool, d: string)
    requires Gone(infos, i, z, d) && i < |infos|
    requires forall g :: Holds(z', d, g) ==> Holds(z, d, g)
    requires infos[i].deferred && infos[i].clones != [] ==> !Holds(z', d, infos[i].guid)
    ensures Gone(infos, i + 1, z', d)
  {
  }

  // Promote the clones of the listed snapshot if it is deferred.
  method PromoteSnapshot(nas: Client, ghost z0: Pool, d: string, infos: seq<SnapInfo>, i: nat,
          ghost pending: set<string>)
    returns (promoted: bool, ghost clean: bool, ghost pending': set<string>)
    requires Promoting(z0, d, nas.st.pool, pending) && Unaltered(z0, d, nas.st.pool) && SnapsListed(z0, d, infos)
      && i < |infos|
    requires Listed(infos, i, 0, pending)
    modifies nas`st, nas`faults
    ensures nas.st == old(nas.st).(pool := nas.st.pool) && Pending(nas.faults) <= Pending(old(nas.faults))
    ensures Promoting(z0, d, nas.st.pool, pending') && Unaltered(z0, d, nas.st.pool)
      && Listed(infos, i + 1, 0, pending')
    ensures forall g :: Holds(nas.st.pool, d, g) ==> Holds(old(nas.st).pool, d, g)
    ensures clean || Spoiled(z0, d, old(nas.faults), nas.faults)
    ensures clean && infos[i].deferred && infos[i].clones != [] ==> !Holds(nas.st.pool, d, infos[i].guid)
    ensures clean && !promoted ==> nas.st == old(nas.st)
  {
    if !infos[i].deferred || infos[i].clones == [] {
      ListedTail(infos, i, pending);
      return false, true, pending;
    }
    promoted, clean, pending' := PromoteEach(nas, z0, d, infos, i, pending);
  }

  // Promote the clones of every listed deferred snapshot.
  method PromoteListed(nas: Client, ghost z0: Pool, d: string, infos: seq<SnapInfo>, ghost pending: set<string>)
    returns (promoted: bool, ghost clean: bool)
    requires Promoting(z0, d, nas.st.pool, pending) && Unaltered(z0, d, nas.st.pool)
    requires SnapsListed(z0, d, infos) && Listed(infos, 0, 0, pending)
    modifies nas`st, nas`faults
    ensures nas.st == old(nas.st).(pool := nas.st.pool) && Pending(nas.faults) <= Pending(old(nas.faults))
    ensures clean || Spoiled(z0, d, old(nas.faults), nas.faults)
    ensures Promoting(z0, d, nas.st.pool, {}) && Unaltered(z0, d, nas.st.pool)
    ensures clean ==> Gone(infos, |infos|, nas.st.pool, d)
    ensures clean && !promoted ==> nas.st == old(nas.st)
  {
    promoted, clean := false, true;
    ghost var left := pending;
    for i := 0 to |infos|
      invariant nas.st == old(nas.st).(pool := nas.st.pool)
      invariant Promoting(z0, d, nas.st.pool, left) && Unaltered(z0, d, nas.st.pool) && Listed(infos, i, 0, left)
      invariant Pending(nas.faults) <= Pending(old(nas.faults))
        && (clean || Spoiled(z0, d, old(nas.faults), nas.faults))
      invariant clean ==> Gone(infos, i, nas.st.pool, d)
      invariant clean && !promoted ==> nas.st == old(nas.st)
    {
      ghost var z := nas.st.pool;
      var some, each, rest := PromoteSnapshot(nas, z0, d, infos, i, left);
      left := rest;
      if clean && each { GoneNext(infos, i, z, nas.st.pool, d); }
      promoted, clean := promoted || some, clean && each;
    }
  }

  // clean: the listing and every promote succeeded.
  method PromoteClonesOfDeferred(nas: Client, d: string) returns (promoted: bool, ghost clean: bool)
    requires Wf(nas.st.pool)
    modifies nas`st, nas`faults
    ensures nas.st == old(nas.st).(pool := nas.st.pool)
    ensures Promoted(old(nas.st).pool, d, nas.st.pool) && Pending(nas.faults) <= Pending(old(nas.faults))
    ensures clean || Spoiled(old(nas.st).pool, d, old(nas.faults), nas.faults)
    ensures clean ==> Unblocked(nas.st.pool, d)
    ensures clean && !promoted ==> nas.st == old(nas.st)
  {
    ghost var z0 := nas.st.pool;
    promoted, clean := false, false;
    if d in z0 { UnalteredAtFirst(z0, d); }
    var q := nas.QuerySnapshots(d);
    if q.Err? { return; }
    clean := true;
    if d !in nas.st.pool { return; }
    ghost var pending := set c | c in z0 && ClonedFrom(z0, c, d);
    PromotingStarts(z0, d, pending);
    ListedAtFirst(z0, d, q.value, pending);
    promoted, clean := PromoteListed(nas, z0, d, q.value, pending);
    if clean { GoneMeansUnblocked(z0, d, q.value, nas.st.pool); }
  }

  lemma ListedAtFirst(z0: Pool, d: string, infos: seq<SnapInfo>, pending: set<string>)
    requires d in z0 && SnapsListed(z0, d, infos) && pending == set c | c in z0 && ClonedFrom(z0, c, d)
    ensures Listed(infos, 0, 0, pending)
  {
    forall k, c | 0 <= k < |infos| && c in infos[k].clones ensures c in pending {
      assert z0[d].snaps[k] in z0[d].snaps && Holds(z0, d, infos[k].guid);
    }
    if 0 < |infos| {
      var clones := infos[0].clones;
      forall k | 0 <= k < |clones| ensures clones[k] in pending { assert clones[k] in infos[0].clones; }
    }
  }

  lemma ListedTail(infos: seq<SnapInfo>, i: nat, pending: set<string>)
    requires i < |infos| && Listed(infos, i, 0, pending)
    ensures Listed(infos, i + 1, 0, pending)
  {
    ListedSkip(infos, i, pending);
  }

  lemma GoneMeansUnblocked(z0: Pool, d: string, infos: seq<SnapInfo>, z: Pool)
    requires d in z0 && d in z && SnapsListed(z0, d, infos) && Gone(infos, |infos|, z, d)
    requires Suffix(z[d].snaps, z0[d].snaps) && forall g :: IsOrigin(z, g) ==> IsOrigin(z0, g)
    ensures Unblocked(z, d)
  {
    forall s | s in z[d].snaps && s.deferred ensures !IsOrigin(z, s.guid) {
      var i :| 0 <= i < |z[d].snaps| && z[d].snaps[i] == s;
      var k := |z0[d].snaps| - |z[d].snaps| + i;
      assert z0[d].snaps[k] == s && infos[k].guid == s.guid && infos[k].deferred;
      assert Holds(z, d, s.guid);
      assert infos[k].clones == [];
      assert forall c :: c in z0 ==> c !in infos[k].clones;
    }
  }

  // ---------------------------------------------------------------- Removable volumes

  // Nothing but failing calls keeps d from being destroyed: promotion clears the way, and no
  // name stands in its own.
  ghost predicate Removable(z: Pool, d: string) {
    NewestDeferred(z, d) && NoClashes(z, d)
  }

  lemma DestroyableIsRemovable(z: Pool, d: string)
    requires CanDestroy(z, d)
    ensures Removable(z, d)
  {
    forall c ensures !ClonedFrom(z, c, d) { CloneBlocks(z, c, d); }
  }

  lemma CloneBlocks(z: Pool, c: string, d: string)
    ensures ClonedFrom(z, c, d) ==> Blocked(z, d)
  {
    if ClonedFrom(z, c, d) {
      var s :| s in z[d].snaps && s.guid == z[c].origin.value;
      assert IsOrigin(z, s.guid);
    }
  }

  // Only snapshots and origins matter to that.
  lemma SameRemovable(z: Pool, z': Pool, d: string)
    requires z'.Keys == z.Keys && forall x :: x in z ==> z'[x].snaps == z[x].snaps && z'[x].origin == z[x].origin
    ensures Removable(z, d) ==> Removable(z', d)
    ensures NewestDeferred(z', d) <==> NewestDeferred(z, d)
    ensures Blocked(z', d) <==> Blocked(z, d)
  {
    assert forall x, g :: Holds(z', x, g) ==> Holds(z, x, g);
    assert forall c, x :: ClonedFrom(z', c, x) ==> ClonedFrom(z, c, x);
    assert forall g :: IsOrigin(z', g) <==> IsOrigin(z, g);
    if d in z { NewestOfSame(z, z', z[d].snaps); }
  }

  // A promotion cut short leaves what it cannot do wrong: the next one can finish.
  lemma PromotedRemovable(z0: Pool, d: string, z: Pool)
    requires Promoted(z0, d, z) && Removable(z0, d)
    ensures Removable(z, d)
  {
    NewestAsBefore(z0, d, z);
    forall c, s, u | s in z[d].snaps && ClonedFrom(z, c, d) && u in z[c].snaps ensures s.name != u.name {
      assert z0[c] == z[c];
      var t :| t in z[d].snaps && t.guid == z[c].origin.value;
      assert t in z0[d].snaps && Holds(z0, d, t.guid);
      assert ClonedFrom(z0, c, d);
    }
  }

  // ---------------------------------------------------------------- Concrete pools

  const PLAIN := Props(Some("tns-csi"), None, "delete", None, None, "", None, None)

  // d with an older snapshot and a newer, deferred one, and a clone of each.
  function TwoClones(d: string, older: string, newer: string): Pool {
    map[d := Dataset(1, PLAIN, None, [Snap(1, "older", false, false), Snap(2, "newer", true, true)]),
        older := Dataset(1, PLAIN, Some(1), []),
        newer := Dataset(1, PLAIN, Some(2), [])]
  }

  lemma TwoClonesWf(d: string, older: string, newer: string)
    requires d != older && d != newer && older != newer
    ensures Wf(TwoClones(d, older, newer))
  {
    var z := TwoClones(d, older, newer);
    var snaps := z[d].snaps;
    assert snaps[0] in snaps && snaps[1] in snaps;
    assert Holds(z, d, 1) && Holds(z, d, 2);
    assert forall x, g :: Holds(z, x, g) ==> x == d;
    assert Ranked(z, map[d := 0, older := 1, newer := 1]);
  }

  lemma TwoClonesNewest(d: string, older: string, newer: string)
    requires d != older && d != newer && older != newer
    ensures var z := TwoClones(d, older, newer);
            NewestCloned(z, z[d].snaps) == Some(Snap(2, "newer", true, true))
    ensures IsOrigin(TwoClones(d, older, newer), 1)
  {
    var z := TwoClones(d, older, newer);
    assert z[older].origin == Some(1) && z[newer].origin == Some(2);
    assert z[d].snaps[1..] == [Snap(2, "newer", true, true)];
  }

  lemma TwoClonesHaveNoSnaps(d: string, older: string, newer: string)
    requires d != older && d != newer && older != newer
    ensures NoClashes(TwoClones(d, older, newer), d)
  {
    var z := TwoClones(d, older, newer);
    TwoClonesWf(d, older, newer);
    forall c ensures ClonedFrom(z, c, d) ==> z[c].snaps == [] { NoOwnCloneIn(z, z, d); }
  }

  lemma TwoClonesUnprotected(d: string, older: string, newer: string)
    requires d != older && d != newer && older != newer
    ensures var z := TwoClones(d, older, newer);
      NoneProtectedOn(z, d) && Snap(1, "older", false, false) in z[d].snaps
  {
    var snaps := TwoClones(d, older, newer)[d].snaps;
    assert snaps[0] == Snap(1, "older", false, false) && snaps[1] == Snap(2, "newer", true, true);
  }

  // The older snapshot, although not deferred, does not keep d: promotion carries it off with
  // the newer one.
  lemma CarriedOff(d: string, older: string, newer: string)
    requires d != older && d != newer && older != newer
    ensures var z := TwoClones(d, older, newer);
            && Wf(z) && NoneProtectedOn(z, d) && Removable(z, d)
            && exists s :: s in z[d].snaps && !s.deferred && IsOrigin(z, s.guid)
  {
    TwoClonesWf(d, older, newer);
    TwoClonesNewest(d, older, newer);
    TwoClonesHaveNoSnaps(d, older, newer);
    TwoClonesUnprotected(d, older, newer);
  }

  // A ZVOL with nothing to keep it ...
  function PlainPool(zvol: string): Pool {
    map[zvol := Dataset(1, PLAIN, None, [])]
  }

  lemma PlainPoolIs(zvol: string)
    ensures var z := PlainPool(zvol); Wf(z) && NoneProtectedOn(z, zvol) && Removable(z, zvol)
  {
    DestroyableIsRemovable(PlainPool(zvol), zvol);
    assert Ranked(PlainPool(zvol), map[zvol := 0]);
  }

  // ... and one whose snapshot has a clone and is not deferred.
  function ClonedPool(zvol: string, clone: string): Pool {
    map[zvol := Dataset(1, PLAIN, None, [Snap(1, "snap", false, false)]), clone := Dataset(1, PLAIN, Some(1), [])]
  }

  lemma ClonedPoolIs(zvol: string, clone: string)
    requires zvol != clone
    ensures var z := ClonedPool(zvol, clone); Wf(z) && NoneProtectedOn(z, zvol) && !NewestDeferred(z, zvol)
  {
    var z := ClonedPool(zvol, clone);
    assert z[zvol].snaps[0] in z[zvol].snaps && Holds(z, zvol, 1);
    assert forall x, g :: Holds(z, x, g) ==> x == zvol && g == 1;
    assert Ranked(z, map[zvol := 0, clone := 1]);
    assert z[clone].origin == Some(1);
  }
}
