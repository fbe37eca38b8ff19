// The TrueNAS server as the driver sees it: a store changed one API call at a time, where
// any call may fail without effect or fail although it took effect.
module Nas {
  import opened Results
  import opened Zfs

  datatype Extent = Extent(name: string, disk: string)
  // The portal and the initiator group through which a target is reached.
  datatype Groups = Groups(portal: int, initiator: int)

  datatype Target = Target(name: string, groups: Groups)
  datatype Lun = Lun(target: int, extent: int, lun: int)
  datatype Namespace = Namespace(subsystem: int, device: string)
  datatype Subsystem = Subsystem(name: string, nqn: string, ports: set<int>)

  datatype Store = Store(
    pool: Pool,
    extents: map<int, Extent>,
    targets: map<int, Target>,
    luns: map<int, Lun>,
    namespaces: map<int, Namespace>,
    subsystems: map<int, Subsystem>)

  // TrueNAS keeps names unique, and a mapping never outlives its target or extent.
  ghost predicate WfStore(s: Store) { Wf(s.pool) && WfTables(s) }

  ghost predicate WfTables(s: Store) {
    && (forall i :: i in s.extents ==> i > 0)
    && (forall i :: i in s.targets ==> i > 0)
    && (forall i, j :: i in s.extents && j in s.extents && s.extents[i].name == s.extents[j].name ==> i == j)
    && (forall i, j :: i in s.targets && j in s.targets && s.targets[i].name == s.targets[j].name ==> i == j)
    && (forall l :: l in s.luns ==> s.luns[l].target in s.targets && s.luns[l].extent in s.extents)
  }

  function DropTarget(s: Store, t: int): Store {
    s.(targets := s.targets - {t},
       luns := map l | l in s.luns && s.luns[l].target != t :: s.luns[l])
  }

  function DropExtent(s: Store, e: int): Store {
    s.(extents := s.extents - {e},
       luns := map l | l in s.luns && s.luns[l].extent != e :: s.luns[l])
  }

  // The mappings of target t.
  function LunsOf(s: Store, t: int): set<int> {
    set l | l in s.luns && s.luns[l].target == t
  }

  // The namespaces attached to subsystem id.
  function Attached(s: Store, id: int): set<int> {
    set n | n in s.namespaces && s.namespaces[n].subsystem == id
  }

  // Nothing keeps TrueNAS from deleting subsystem id.
  predicate CanDrop(s: Store, id: int)
    requires id in s.subsystems
  {
    Attached(s, id) == {} && s.subsystems[id].ports == {}
  }

  // Subsystem id without some of its port bindings.
  function Unbound(s: Store, id: int, ports: set<int>): Store
    requires id in s.subsystems
  {
    s.(subsystems := s.subsystems[id := s.subsystems[id].(ports := s.subsystems[id].ports - ports)])
  }

  // ---------------------------------------------------------------- Faults

  // How a call ends: as asked, failed without effect, or failed although applied.
  datatype Outcome = Fine | Lost | Applied

  // A schedule says how the coming calls end; past its end every call is fine.
  type Schedule = seq<Outcome>

  function Head(f: Schedule): Outcome { if f == [] then Fine else f[0] }

  // The number of calls that will fail.
  function Pending(f: Schedule): nat {
    if f == [] then 0 else (if f[0].Fine? then 0 else 1) + Pending(f[1..])
  }

  predicate NoneApplied(f: Schedule) {
    forall o :: o in f ==> !o.Applied?
  }

  function Tail(f: Schedule): (r: Schedule)
    ensures Pending(r) == Pending(f) - (if Head(f).Fine? then 0 else 1)
    ensures NoneApplied(f) ==> NoneApplied(r) && !Head(f).Applied?
  {
    if f == [] then [] else f[1..]
  }

  lemma {:induction false} QuietMeansNoneApplied(f: Schedule)
    requires Pending(f) == 0
    ensures NoneApplied(f)
  {
    if f != [] {
      QuietMeansNoneApplied(f[1..]);
      assert f == [f[0]] + f[1..];
    }
  }

  // Only call k may fail, and if it does then without effect.
  lemma {:induction false} OnlyOneLost(f: Schedule, k: nat)
    requires forall i :: 0 <= i < |f| && i != k ==> f[i] == Fine
    requires k < |f| ==> f[k] == Lost
    ensures NoneApplied(f) && Pending(f) == (if k < |f| then 1 else 0)
  {
    if f != [] {
      if k == 0 { OnlyOneLost(f[1..], |f|); } else { OnlyOneLost(f[1..], k - 1); }
      assert f == [f[0]] + f[1..];
    }
  }

  // f' is what a run of calls leaves of f.
  predicate Later(f: Schedule, f': Schedule) {
    Pending(f') <= Pending(f) && (NoneApplied(f) ==> NoneApplied(f'))
  }

  // What one API query returns for one snapshot: its identity, the two markers and the
  // clones property, already split at its commas.
  datatype SnapInfo = SnapInfo(guid: nat, name: string, hasSnapshotId: bool, deferred: bool, clones: seq<string>)

  ghost predicate ClonesListed(z: Pool, i: SnapInfo) {
    && (forall c :: c in i.clones <==> c in z && z[c].origin == Some(i.guid))
    && forall j, k :: 0 <= j < k < |i.clones| ==> i.clones[j] != i.clones[k]
  }

  // infos lists exactly the snapshots of d.
  ghost predicate SnapsListed(z: Pool, d: string, infos: seq<SnapInfo>) {
    var snaps := if d in z then z[d].snaps else [];
    && |infos| == |snaps|
    && forall i :: 0 <= i < |infos| ==>
         && infos[i].guid == snaps[i].guid && infos[i].name == snaps[i].name
         && infos[i].hasSnapshotId == snaps[i].csi && infos[i].deferred == snaps[i].deferred
         && ClonesListed(z, infos[i])
  }

  // s' is s with a new, unmarked snapshot g of d.
  ghost predicate CreatedSnap(s: Store, s': Store, d: string, name: string, g: nat) {
    && d in s.pool && !Named(s.pool, d, name) && !Alive(s.pool, g)
    && s' == s.(pool := AddSnap(s.pool, d, Snap(g, name, false, false)))
  }

  ghost predicate IsSnap(z: Pool, d: string, name: string, g: nat) {
    d in z && exists s :: s in z[d].snaps && s.name == name && s.guid == g
  }

  ghost predicate MarkedSnap(s: Store, s': Store, d: string, name: string, g: nat) {
    IsSnap(s.pool, d, name, g) && s' == s.(pool := s.pool[d := s.pool[d].(snaps := Mark(s.pool[d].snaps, g))])
  }

  ghost predicate DeletedSnap(s: Store, s': Store, d: string, name: string, g: nat) {
    IsSnap(s.pool, d, name, g) && s' == s.(pool := DeleteSnap(s.pool, d, g))
  }

  // A call that takes part of an NVMe-oF presentation away, and what it reported.
  datatype Removal =
    | NamespaceDelete(id: int, reported: Result<()>)
    | PortUnbind(id: int, port: int)
    | SubsystemDelete(id: int, reported: Result<()>)

  method AnyOf<T(==)>(xs: set<T>) returns (x: T)
    requires xs != {}
    ensures x in xs
  {
    x :| x in xs;
  }

  class Client {
    var st: Store
    var faults: Schedule
    // The removals called for so far.
    ghost var log: seq<Removal>
    const basename: string
    const portals: seq<int>
    const initiators: seq<int>
    // Deleting a subsystem that is still bound to a port reports success and does nothing;
    // otherwise it is refused.
    const silent: bool
    // Whether the failure of a delete that began with this schedule reads as a passing one.
    const transient: Schedule -> bool

    constructor (st: Store, faults: Schedule, basename: string, portals: seq<int>, initiators: seq<int>, silent: bool,
                 transient: Schedule -> bool)
      ensures this.st == st && this.faults == faults && this.log == [] && this.basename == basename
      ensures this.portals == portals && this.initiators == initiators && this.silent == silent
      ensures this.transient == transient
    {
      this.st, this.faults, this.log, this.basename := st, faults, [], basename;
      this.portals, this.initiators, this.silent, this.transient := portals, initiators, silent, transient;
    }

    // Every failed delete is worth another attempt.
    ghost predicate Patient() { forall f :: transient(f) }

    method Answer() returns (o: Outcome)
      modifies this`faults
      ensures o == Head(old(faults)) && faults == Tail(old(faults))
    {
      o := Head(faults);
      faults := Tail(faults);
    }

    // An identifier nobody uses now; one freed by a delete may come back.
    method FreshId(used: set<int>) returns (id: int)
      ensures id > 0 && id !in used
    {
      id := 1;
      ghost var left := used;
      while id in used
        invariant id > 0
        invariant forall i :: i in used && i >= id ==> i in left
        decreases left
      {
        left := left - {id};
        id := id + 1;
      }
    }

    // ------------------------------------------------------------ Datasets

    method GetDataset(d: string) returns (r: Result<Option<Dataset>>)
      modifies this`faults
      ensures faults == Tail(old(faults))
      ensures r == if !Head(old(faults)).Fine? then Err(Unavailable)
                   else Ok(if d in st.pool then Some(st.pool[d]) else None)
    {
      var o := Answer();
      if !o.Fine? { return Err(Unavailable); }
      r := Ok(if d in st.pool then Some(st.pool[d]) else None);
    }

    method GetProps(d: string) returns (r: Result<Props>)
      modifies this`faults
      ensures faults == Tail(old(faults))
      ensures r == if !Head(old(faults)).Fine? then Err(Unavailable)
                   else if d in st.pool then Ok(st.pool[d].props) else Err(NotFound)
    {
      var o := Answer();
      if !o.Fine? { return Err(Unavailable); }
      r := if d in st.pool then Ok(st.pool[d].props) else Err(NotFound);
    }

    method SetProps(d: string, update: Props -> Props) returns (r: Result<()>)
      modifies this`st, this`faults
      ensures faults == Tail(old(faults))
      ensures r.Ok? <==> Head(old(faults)).Fine? && d in old(st).pool
      ensures st == if d in old(st).pool && !Head(old(faults)).Lost?
                    then old(st).(pool := old(st).pool[d := old(st).pool[d].(props := update(old(st).pool[d].props))])
                    else old(st)
    {
      var o := Answer();
      if o.Lost? { return Err(Unavailable); }
      if d !in st.pool { return Err(NotFound); }
      st := st.(pool := st.pool[d := st.pool[d].(props := update(st.pool[d].props))]);
      r := if o.Applied? then Err(Unavailable) else Ok(());
    }

    method CreateZvol(d: string, size: int, props: Props) returns (r: Result<()>)
      modifies this`st, this`faults
      ensures faults == Tail(old(faults))
      ensures r.Ok? <==> Head(old(faults)).Fine? && d !in old(st).pool
      ensures st == if d !in old(st).pool && !Head(old(faults)).Lost?
                    then old(st).(pool := old(st).pool[d := Dataset(size, props, None, [])])
                    else old(st)
    {
      var o := Answer();
      if o.Lost? { return Err(Unavailable); }
      if d in st.pool { return Err(AlreadyExists); }
      st := st.(pool := st.pool[d := Dataset(size, props, None, [])]);
      r := if o.Applied? then Err(Unavailable) else Ok(());
    }

    // What ZFS keeps when dataset d goes.
    method Destroyed(d: string) returns (pool: Pool)
      requires Wf(st.pool) && d in st.pool
      ensures pool == Destroy(st.pool, d)
    {
      var rest := st.pool - {d};
      if st.pool[d].origin.None? || IsOrigin(rest, st.pool[d].origin.value) { return rest; }
      var g := st.pool[d].origin.value;
      if q :| q in rest && exists s :: s in rest[q].snaps && s.guid == g && s.deferred {
        assert Reaps(st.pool, d, q, g);
        forall q', g' | Reaps(st.pool, d, q', g') ensures q' == q && g' == g {
          assert Holds(st.pool, q', g) && Holds(st.pool, q, g);
        }
        return DropSnap(rest, q, g);
      }
      return rest;
    }

    // pool.dataset.delete with recursive and force: refused while a snapshot has a clone.
    method DeleteDataset(d: string) returns (r: Result<()>)
      requires Wf(st.pool)
      modifies this`st, this`faults
      ensures faults == Tail(old(faults))
      ensures r.Ok? <==> Head(old(faults)).Fine? && CanDestroy(old(st).pool, d)
      ensures st == if CanDestroy(old(st).pool, d) && !Head(old(faults)).Lost?
                    then old(st).(pool := Destroy(old(st).pool, d)) else old(st)
      ensures r == Err(NotFound) ==> d !in old(st).pool
      ensures !Head(old(faults)).Lost? && d !in old(st).pool ==> r == Err(NotFound)
      ensures r.Err? && CanDestroy(old(st).pool, d) ==> r.error == Unavailable
      ensures !Head(old(faults)).Lost? && d in old(st).pool && !CanDestroy(old(st).pool, d) ==>
        r == Err(DependentClones)
      ensures Head(old(faults)).Lost? ==> r == Err(Unavailable)
      ensures Wf(st.pool)
    {
      var o := Answer();
      if o.Lost? { return Err(Unavailable); }
      if d !in st.pool { return Err(NotFound); }
      if exists s :: s in st.pool[d].snaps && IsOrigin(st.pool, s.guid) { return Err(DependentClones); }
      DestroyKeepsWf(st.pool, d);
      var pool := Destroyed(d);
      st := st.(pool := pool);
      r := if o.Applied? then Err(Unavailable) else Ok(());
    }

    // ------------------------------------------------------------ Snapshots

    method CloneNames(g: nat) returns (names: seq<string>)
      ensures forall c :: c in names <==> c in st.pool && st.pool[c].origin == Some(g)
      ensures forall j, k :: 0 <= j < k < |names| ==> names[j] != names[k]
    {
      names := [];
      var all := set c | c in st.pool && st.pool[c].origin == Some(g);
      var rest := all;
      while rest != {}
        invariant rest <= all
        invariant forall c :: c in names <==> c in all && c !in rest
        invariant forall j, k :: 0 <= j < k < |names| ==> names[j] != names[k]
      {
        var c :| c in rest;
        names := names + [c];
        rest := rest - {c};
      }
    }

    method QuerySnapshots(d: string) returns (r: Result<seq<SnapInfo>>)
      modifies this`faults
      ensures faults == Tail(old(faults))
      ensures r.Ok? <==> Head(old(faults)).Fine?
      ensures r.Ok? ==> SnapsListed(st.pool, d, r.value)
    {
      var o := Answer();
      if !o.Fine? { return Err(Unavailable); }
      var infos: seq<SnapInfo> := [];
      var snaps := if d in st.pool then st.pool[d].snaps else [];
      for i := 0 to |snaps|
        invariant |infos| == i && faults == Tail(old(faults))
        invariant forall j :: 0 <= j < i ==>
          && infos[j].guid == snaps[j].guid && infos[j].name == snaps[j].name
          && infos[j].hasSnapshotId == snaps[j].csi && infos[j].deferred == snaps[j].deferred
          && ClonesListed(st.pool, infos[j])
      {
        var clones := CloneNames(snaps[i].guid);
        infos := infos + [SnapInfo(snaps[i].guid, snaps[i].name, snaps[i].csi, snaps[i].deferred, clones)];
      }
      r := Ok(infos);
    }

    // The datasets that have a snapshot of this name, in any order.
    method SnapshotsNamed(name: string) returns (r: Result<seq<string>>)
      modifies this`faults
      ensures faults == Tail(old(faults))
      ensures r.Ok? <==> Head(old(faults)).Fine?
      ensures r.Ok? ==> forall d :: d in r.value <==> Named(st.pool, d, name)
    {
      var o := Answer();
      if !o.Fine? { return Err(Unavailable); }
      var all := set d | d in st.pool && exists s :: s in st.pool[d].snaps && s.name == name;
      var found, rest := [], all;
      while rest != {}
        invariant rest <= all && faults == Tail(old(faults))
        invariant forall d :: d in found <==> d in all && d !in rest
      {
        var d :| d in rest;
        found := found + [d];
        rest := rest - {d};
      }
      r := Ok(found);
    }

    method FreshGuid() returns (g: nat)
      ensures !Alive(st.pool, g)
    {
      var used := set d, s | d in st.pool && s in st.pool[d].snaps :: s.guid;
      var id := FreshId(used);
      return id;
    }

    method CreateSnapshot(d: string, name: string) returns (r: Result<nat>)
      requires Wf(st.pool)
      modifies this`st, this`faults
      ensures faults == Tail(old(faults))
      ensures r.Ok? <==> Head(old(faults)).Fine? && d in old(st).pool && !Named(old(st).pool, d, name)
      ensures r.Ok? ==> CreatedSnap(old(st), st, d, name, r.value)
      ensures r.Err? ==>
        st == old(st) || (Head(old(faults)).Applied? && exists g :: CreatedSnap(old(st), st, d, name, g))
      ensures Wf(st.pool)
    {
      var o := Answer();
      if o.Lost? { return Err(Unavailable); }
      if d !in st.pool { return Err(NotFound); }
      if exists s :: s in st.pool[d].snaps && s.name == name { return Err(AlreadyExists); }
      var g := FreshGuid();
      AddSnapKeepsWf(st.pool, d, Snap(g, name, false, false));
      st := st.(pool := AddSnap(st.pool, d, Snap(g, name, false, false)));
      assert CreatedSnap(old(st), st, d, name, g);
      r := if o.Applied? then Err(Unavailable) else Ok(g);
    }

    // Set snapshot_id on snapshot name of d.
    method SetSnapshotId(d: string, name: string) returns (r: Result<()>)
      requires Wf(st.pool)
      modifies this`st, this`faults
      ensures faults == Tail(old(faults))
      ensures r.Ok? <==> Head(old(faults)).Fine? && Named(old(st).pool, d, name)
      ensures r.Ok? ==> exists g :: MarkedSnap(old(st), st, d, name, g)
      ensures r.Err? ==> st == old(st) || exists g :: MarkedSnap(old(st), st, d, name, g)
      ensures Wf(st.pool)
    {
      var o := Answer();
      if o.Lost? { return Err(Unavailable); }
      if d in st.pool {
        if s :| s in st.pool[d].snaps && s.name == name {
          RewriteKeepsWf(st.pool, d, Mark(st.pool[d].snaps, s.guid));
          st := st.(pool := st.pool[d := st.pool[d].(snaps := Mark(st.pool[d].snaps, s.guid))]);
          assert MarkedSnap(old(st), st, d, name, s.guid);
          return if o.Applied? then Err(Unavailable) else Ok(());
        }
      }
      return Err(NotFound);
    }

    // zfs.snapshot.delete with defer.
    method DeleteSnapshot(d: string, name: string) returns (r: Result<()>)
      requires Wf(st.pool)
      modifies this`st, this`faults
      ensures faults == Tail(old(faults))
      ensures r.Ok? <==> Head(old(faults)).Fine? && Named(old(st).pool, d, name)
      ensures r.Ok? ==> exists g :: DeletedSnap(old(st), st, d, name, g)
      ensures r.Err? ==> st == old(st) || exists g :: DeletedSnap(old(st), st, d, name, g)
      ensures r == Err(NotFound) ==> !Named(old(st).pool, d, name)
      ensures !Head(old(faults)).Lost? && !Named(old(st).pool, d, name) ==> r == Err(NotFound)
      ensures Wf(st.pool)
    {
      var o := Answer();
      if o.Lost? { return Err(Unavailable); }
      if d in st.pool {
        if s :| s in st.pool[d].snaps && s.name == name {
          DeleteSnapKeepsWf(st.pool, d, s.guid);
          st := st.(pool := DeleteSnap(st.pool, d, s.guid));
          assert DeletedSnap(old(st), st, d, name, s.guid);
          return if o.Applied? then Err(Unavailable) else Ok(());
        }
      }
      return Err(NotFound);
    }

    method OriginOwner(g: nat) returns (p: string)
      requires Wf(st.pool) && Alive(st.pool, g)
      ensures p == Owner(st.pool, g)
    {
      var owners := set q | q in st.pool && exists s :: s in st.pool[q].snaps && s.guid == g;
      assert Holds(st.pool, Owner(st.pool, g), g);
      assert Owner(st.pool, g) in owners;
      p :| p in owners;
      assert Holds(st.pool, p, g);
    }

    method PromoteDataset(c: string) returns (r: Result<()>)
      requires Wf(st.pool)
      modifies this`st, this`faults
      ensures faults == Tail(old(faults))
      ensures r.Ok? <==> Head(old(faults)).Fine? && CanPromote(old(st).pool, c)
      ensures st == if CanPromote(old(st).pool, c) && !Head(old(faults)).Lost?
                    then old(st).(pool := Promote(old(st).pool, c)) else old(st)
      ensures Wf(st.pool)
    {
      var o := Answer();
      if o.Lost? { return Err(Unavailable); }
      if c !in st.pool || st.pool[c].origin.None? { return Err(FailedPrecondition); }
      var g := st.pool[c].origin.value;
      var p := OriginOwner(g);
      var k := IndexOf(st.pool[p].snaps, g);
      if p == c || NameClash(st.pool[p].snaps[..k + 1], st.pool[c].snaps) { return Err(FailedPrecondition); }
      PromoteKeepsWf(st.pool, c);
      st := st.(pool := MoveOrigin(st.pool, c, p, k));
      r := if o.Applied? then Err(Unavailable) else Ok(());
    }

    // ------------------------------------------------------------ iSCSI

    method GlobalConfig() returns (r: Result<string>)
      modifies this`faults
      ensures faults == Tail(old(faults))
      ensures r == if Head(old(faults)).Fine? then Ok(basename) else Err(Unavailable)
    {
      var o := Answer();
      r := if o.Fine? then Ok(basename) else Err(Unavailable);
    }

    method QueryPortals() returns (r: Result<seq<int>>)
      modifies this`faults
      ensures faults == Tail(old(faults))
      ensures r == if Head(old(faults)).Fine? then Ok(portals) else Err(Unavailable)
    {
      var o := Answer();
      r := if o.Fine? then Ok(portals) else Err(Unavailable);
    }

    method QueryInitiators() returns (r: Result<seq<int>>)
      modifies this`faults
      ensures faults == Tail(old(faults))
      ensures r == if Head(old(faults)).Fine? then Ok(initiators) else Err(Unavailable)
    {
      var o := Answer();
      r := if o.Fine? then Ok(initiators) else Err(Unavailable);
    }

    method Reload() returns (r: Result<()>)
      modifies this`faults
      ensures faults == Tail(old(faults))
    {
      var o := Answer();
      r := if o.Fine? then Ok(()) else Err(Unavailable);
    }

    method ExtentByName(name: string) returns (r: Result<Option<(int, Extent)>>)
      modifies this`faults
      ensures faults == Tail(old(faults))
      ensures r.Ok? <==> Head(old(faults)).Fine?
      ensures r.Ok? && r.value.Some? ==>
        var (id, found) := r.value.value; id in st.extents && st.extents[id] == found && found.name == name
      ensures r.Ok? && r.value.None? ==> forall i :: i in st.extents ==> st.extents[i].name != name
    {
      var o := Answer();
      if !o.Fine? { return Err(Unavailable); }
      if i :| i in st.extents && st.extents[i].name == name { return Ok(Some((i, st.extents[i]))); }
      r := Ok(None);
    }

    method ExtentById(id: int) returns (r: Result<Option<Extent>>)
      modifies this`faults
      ensures faults == Tail(old(faults))
      ensures r == if !Head(old(faults)).Fine? then Err(Unavailable)
                   else Ok(if id in st.extents then Some(st.extents[id]) else None)
    {
      var o := Answer();
      if !o.Fine? { return Err(Unavailable); }
      r := Ok(if id in st.extents then Some(st.extents[id]) else None);
    }

    method CreateExtent(name: string, disk: string) returns (r: Result<int>)
      modifies this`st, this`faults
      ensures faults == Tail(old(faults))
      ensures (exists e :: e in old(st).extents && old(st).extents[e].name == name) ==> r.Err? && st == old(st)
      ensures (forall e :: e in old(st).extents ==> old(st).extents[e].name != name) ==>
        (r.Ok? <==> Head(old(faults)).Fine?)
      ensures r.Ok? ==> r.value > 0 && r.value !in old(st).extents
                        && st == old(st).(extents := old(st).extents[r.value := Extent(name, disk)])
      ensures r.Err? ==> (st == old(st) ||
                (Head(old(faults)).Applied? && (forall e :: e in old(st).extents ==> old(st).extents[e].name != name)
                 && exists e ::
                      e > 0 && e !in old(st).extents
                      && st == old(st).(extents := old(st).extents[e := Extent(name, disk)])))
    {
      var o := Answer();
      if o.Lost? { return Err(Unavailable); }
      if exists e :: e in st.extents && st.extents[e].name == name { return Err(AlreadyExists); }
      var id := FreshId(st.extents.Keys);
      st := st.(extents := st.extents[id := Extent(name, disk)]);
      r := if o.Applied? then Err(Unavailable) else Ok(id);
    }

    method DeleteExtent(id: int) returns (r: Result<()>)
      modifies this`st, this`faults
      ensures faults == Tail(old(faults))
      ensures r.Ok? <==> Head(old(faults)).Fine? && id in old(st).extents
      ensures r == Err(NotFound) ==> id !in old(st).extents
      ensures !Head(old(faults)).Lost? && id !in old(st).extents ==> r == Err(NotFound)
      ensures st == if id in old(st).extents && !Head(old(faults)).Lost? then DropExtent(old(st), id) else old(st)
    {
      var o := Answer();
      if o.Lost? { return Err(Unavailable); }
      if id !in st.extents { return Err(NotFound); }
      st := DropExtent(st, id);
      r := if o.Applied? then Err(Unavailable) else Ok(());
    }

    method TargetByName(name: string) returns (r: Result<Option<(int, Target)>>)
      modifies this`faults
      ensures faults == Tail(old(faults))
      ensures r.Ok? <==> Head(old(faults)).Fine?
      ensures r.Ok? && r.value.Some? ==>
        var (id, found) := r.value.value; id in st.targets && st.targets[id] == found && found.name == name
      ensures r.Ok? && r.value.None? ==> forall i :: i in st.targets ==> st.targets[i].name != name
    {
      var o := Answer();
      if !o.Fine? { return Err(Unavailable); }
      if i :| i in st.targets && st.targets[i].name == name { return Ok(Some((i, st.targets[i]))); }
      r := Ok(None);
    }

    method TargetById(id: int) returns (r: Result<Option<Target>>)
      modifies this`faults
      ensures faults == Tail(old(faults))
      ensures r == if !Head(old(faults)).Fine? then Err(Unavailable)
                   else Ok(if id in st.targets then Some(st.targets[id]) else None)
    {
      var o := Answer();
      if !o.Fine? { return Err(Unavailable); }
      r := Ok(if id in st.targets then Some(st.targets[id]) else None);
    }

    method CreateTarget(name: string, groups: Groups) returns (r: Result<int>)
      modifies this`st, this`faults
      ensures faults == Tail(old(faults))
      ensures (exists t :: t in old(st).targets && old(st).targets[t].name == name) ==> r.Err? && st == old(st)
      ensures (forall t :: t in old(st).targets ==> old(st).targets[t].name != name) ==>
        (r.Ok? <==> Head(old(faults)).Fine?)
      ensures r.Ok? ==> r.value > 0 && r.value !in old(st).targets
                        && st == old(st).(targets := old(st).targets[r.value := Target(name, groups)])
      ensures r.Err? ==> (st == old(st) ||
                (Head(old(faults)).Applied? && (forall t :: t in old(st).targets ==> old(st).targets[t].name != name)
                 && exists t ::
                      t > 0 && t !in old(st).targets
                      && st == old(st).(targets := old(st).targets[t := Target(name, groups)])))
    {
      var o := Answer();
      if o.Lost? { return Err(Unavailable); }
      if exists t :: t in st.targets && st.targets[t].name == name { return Err(AlreadyExists); }
      var id := FreshId(st.targets.Keys);
      st := st.(targets := st.targets[id := Target(name, groups)]);
      r := if o.Applied? then Err(Unavailable) else Ok(id);
    }

    method DeleteTarget(id: int) returns (r: Result<()>)
      modifies this`st, this`faults
      ensures faults == Tail(old(faults))
      ensures r.Ok? <==> Head(old(faults)).Fine? && id in old(st).targets
      ensures r == Err(NotFound) ==> id !in old(st).targets
      ensures !Head(old(faults)).Lost? && id !in old(st).targets ==> r == Err(NotFound)
      ensures st == if id in old(st).targets && !Head(old(faults)).Lost? then DropTarget(old(st), id) else old(st)
    {
      var o := Answer();
      if o.Lost? { return Err(Unavailable); }
      if id !in st.targets { return Err(NotFound); }
      st := DropTarget(st, id);
      r := if o.Applied? then Err(Unavailable) else Ok(());
    }

    method LunsByTarget(t: int) returns (r: Result<map<int, Lun>>)
      modifies this`faults
      ensures faults == Tail(old(faults))
      ensures r == if Head(old(faults)).Fine? then Ok(map l | l in LunsOf(st, t) :: st.luns[l]) else Err(Unavailable)
    {
      var o := Answer();
      r := if o.Fine? then Ok(map l | l in LunsOf(st, t) :: st.luns[l]) else Err(Unavailable);
    }

    method CreateLun(t: int, e: int, lun: int) returns (r: Result<int>)
      modifies this`st, this`faults
      ensures faults == Tail(old(faults))
      ensures r.Ok? <==> Head(old(faults)).Fine? && t in old(st).targets && e in old(st).extents
      ensures r.Ok? ==> r.value !in old(st).luns && st == old(st).(luns := old(st).luns[r.value := Lun(t, e, lun)])
      ensures r.Err? ==> (st == old(st) ||
                (Head(old(faults)).Applied? && t in old(st).targets && e in old(st).extents
                 && exists l :: l !in old(st).luns && st == old(st).(luns := old(st).luns[l := Lun(t, e, lun)])))
    {
      var o := Answer();
      if o.Lost? { return Err(Unavailable); }
      if t !in st.targets || e !in st.extents { return Err(NotFound); }
      var id := FreshId(st.luns.Keys);
      st := st.(luns := st.luns[id := Lun(t, e, lun)]);
      r := if o.Applied? then Err(Unavailable) else Ok(id);
    }

    method DeleteLun(id: int) returns (r: Result<()>)
      modifies this`st, this`faults
      ensures faults == Tail(old(faults))
      ensures r.Ok? <==> Head(old(faults)).Fine? && id in old(st).luns
      ensures r == Err(NotFound) ==> id !in old(st).luns
      ensures !Head(old(faults)).Lost? && id !in old(st).luns ==> r == Err(NotFound)
      ensures st == if id in old(st).luns && !Head(old(faults)).Lost?
                    then old(st).(luns := old(st).luns - {id}) else old(st)
    {
      var o := Answer();
      if o.Lost? { return Err(Unavailable); }
      if id !in st.luns { return Err(NotFound); }
      st := st.(luns := st.luns - {id});
      r := if o.Applied? then Err(Unavailable) else Ok(());
    }

    // ------------------------------------------------------------ NVMe-oF

    method NamespaceById(id: int) returns (r: Result<Option<Namespace>>)
      modifies this`faults
      ensures faults == Tail(old(faults))
      ensures r == if !Head(old(faults)).Fine? then Err(Unavailable)
                   else Ok(if id in st.namespaces then Some(st.namespaces[id]) else None)
    {
      var o := Answer();
      if !o.Fine? { return Err(Unavailable); }
      r := Ok(if id in st.namespaces then Some(st.namespaces[id]) else None);
    }

    method NamespacesOf(subsystem: int) returns (r: Result<set<int>>)
      modifies this`faults
      ensures faults == Tail(old(faults))
      ensures r == if Head(old(faults)).Fine? then Ok(Attached(st, subsystem)) else Err(Unavailable)
    {
      var o := Answer();
      r := if o.Fine? then Ok(Attached(st, subsystem)) else Err(Unavailable);
    }

    method DeleteNamespace(id: int) returns (r: Result<()>)
      modifies this`st, this`faults, this`log
      ensures faults == Tail(old(faults)) && log == old(log) + [NamespaceDelete(id, r)]
      ensures r == if Head(old(faults)).Lost? then Err(Unavailable)
                   else if id !in old(st).namespaces then Err(NotFound)
                   else if Head(old(faults)).Applied? then Err(Unavailable) else Ok(())
      ensures st == if id in old(st).namespaces && !Head(old(faults)).Lost?
                    then old(st).(namespaces := old(st).namespaces - {id}) else old(st)
    {
      var o := Answer();
      r := if o.Lost? then Err(Unavailable)
           else if id !in st.namespaces then Err(NotFound)
           else if o.Applied? then Err(Unavailable) else Ok(());
      if id in st.namespaces && !o.Lost? { st := st.(namespaces := st.namespaces - {id}); }
      log := log + [NamespaceDelete(id, r)];
    }

    method SubsystemById(id: int) returns (r: Result<Option<Subsystem>>)
      modifies this`faults
      ensures faults == Tail(old(faults))
      ensures r == if !Head(old(faults)).Fine? then Err(Unavailable)
                   else Ok(if id in st.subsystems then Some(st.subsystems[id]) else None)
    {
      var o := Answer();
      if !o.Fine? { return Err(Unavailable); }
      r := Ok(if id in st.subsystems then Some(st.subsystems[id]) else None);
    }

    method PortsOf(id: int) returns (r: Result<set<int>>)
      modifies this`faults
      ensures faults == Tail(old(faults))
      ensures r == if !Head(old(faults)).Fine? then Err(Unavailable)
                   else Ok(if id in st.subsystems then st.subsystems[id].ports else {})
    {
      var o := Answer();
      if !o.Fine? { return Err(Unavailable); }
      r := Ok(if id in st.subsystems then st.subsystems[id].ports else {});
    }

    method Unbind(id: int, port: int) returns (r: Result<()>)
      modifies this`st, this`faults, this`log
      ensures faults == Tail(old(faults)) && log == old(log) + [PortUnbind(id, port)]
      ensures st == if id in old(st).subsystems && !Head(old(faults)).Lost?
                    then Unbound(old(st), id, {port}) else old(st)
    {
      log := log + [PortUnbind(id, port)];
      var o := Answer();
      if o.Lost? { return Err(Unavailable); }
      if id !in st.subsystems { return Err(NotFound); }
      st := Unbound(st, id, {port});
      r := if o.Applied? then Err(Unavailable) else Ok(());
    }

    // Refused while a namespace is attached; a port binding gets in the way as silent says.
    method DeleteSubsystem(id: int) returns (r: Result<()>)
      modifies this`st, this`faults, this`log
      ensures faults == Tail(old(faults)) && log == old(log) + [SubsystemDelete(id, r)]
      ensures r == if Head(old(faults)).Lost? then Err(Unavailable)
                   else if id !in old(st).subsystems then Err(NotFound)
                   else if Attached(old(st), id) != {} then Err(FailedPrecondition)
                   else if old(st).subsystems[id].ports != {} then
                     if silent && Head(old(faults)).Fine? then Ok(()) else Err(FailedPrecondition)
                   else if Head(old(faults)).Applied? then Err(Unavailable) else Ok(())
      ensures st == if id in old(st).subsystems && CanDrop(old(st), id) && !Head(old(faults)).Lost?
                    then old(st).(subsystems := old(st).subsystems - {id}) else old(st)
    {
      var o := Answer();
      r := if o.Lost? then Err(Unavailable)
           else if id !in st.subsystems then Err(NotFound)
           else if Attached(st, id) != {} then Err(FailedPrecondition)
           else if st.subsystems[id].ports != {} then
             if silent && o.Fine? then Ok(()) else Err(FailedPrecondition)
           else if o.Applied? then Err(Unavailable) else Ok(());
      if id in st.subsystems && CanDrop(st, id) && !o.Lost? {
        st := st.(subsystems := st.subsystems - {id});
      }
      log := log + [SubsystemDelete(id, r)];
    }
  }
}
