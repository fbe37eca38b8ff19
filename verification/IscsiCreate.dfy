// CreateVolume for iSCSI: build or resume ZVOL, extent, target and LUN mapping, and on
// failure remove only what this call created.
module IscsiCreate {
  import opened Results
  import opened Zfs
  import opened Nas

  datatype Request = Request(name: string, parent: string, size: int, portal: int, initiator: int, strategy: string) {
    function Zvol(): string { parent + "/" + name }

    function Disk(): string { "zvol/" + Zvol() }

    function OwnExtent(): Extent { Extent(name, Disk()) }

    function OwnProps(): Props {
      Props(Some("tns-csi"), Some(name), strategy, None, None, "", None, None)
    }

    function OwnZvol(): Dataset { Dataset(size, OwnProps(), None, []) }

    function Recorded(props: Props, v: Volume): Props {
      props.(managedBy := Some("tns-csi"), volume := Some(name), strategy := strategy,
             targetId := Some(v.targetId), extentId := Some(v.extentId), iqn := v.iqn)
    }
  }

  datatype Volume = Volume(targetId: int, extentId: int, iqn: string, capacity: int) {
    predicate SameIds(w: Volume) { targetId == w.targetId && extentId == w.extentId }
  }

  // What the current call created itself; "" and 0 stand for "not created here". The target is
  // reached through groups.
  datatype Created = Created(zvol: string, extentId: int, targetId: int, groups: Groups)

  const NO_GROUPS := Groups(0, 0)

  // ---------------------------------------------------------------- Layouts

  // A volume size the request accepts: as asked, or unreadable.
  predicate SizeFits(p: Request, volsize: int) { volsize <= 0 || volsize == p.size }

  // Target t maps extent e at LUN 0 and nothing else.
  ghost predicate MapsOnly(s: Store, t: int, e: int) {
    exists l :: l in s.luns && s.luns[l] == Lun(t, e, 0) && LunsOf(s, t) == {l}
  }

  ghost predicate MapsNothing(s: Store, t: int) {
    forall l :: l in s.luns ==> s.luns[l].target != t
  }

  ghost predicate NamedTarget(s: Store, p: Request, t: int) {
    t in s.targets && s.targets[t].name == p.name
  }

  ghost predicate Backs(s: Store, p: Request, e: int) {
    e in s.extents && s.extents[e].disk == p.Disk()
  }

  // Target t and extent e carry the volume's name and present its ZVOL.
  ghost predicate ByName(s: Store, p: Request, t: int, e: int) {
    NamedTarget(s, p, t) && Backs(s, p, e) && s.extents[e].name == p.name && MapsOnly(s, t, e)
  }

  // The ZVOL's properties record t and e, which present it.
  ghost predicate Stored(s: Store, p: Request, t: int, e: int) {
    && Records(s, p, t, e)
    && t in s.targets && Backs(s, p, e) && MapsOnly(s, t, e)
  }

  ghost predicate Records(s: Store, p: Request, t: int, e: int) {
    && p.Zvol() in s.pool && t > 0 && e > 0
    && s.pool[p.Zvol()].props.targetId == Some(t)
    && s.pool[p.Zvol()].props.extentId == Some(e)
    && s.pool[p.Zvol()].props.iqn != ""
  }

  // A returned volume is usable: its ZVOL has a fitting size, the extent's disk is that
  // ZVOL, and the target maps exactly that extent at LUN 0.
  ghost predicate Serves(s: Store, p: Request, v: Volume) {
    && p.Zvol() in s.pool && SizeFits(p, s.pool[p.Zvol()].volsize)
    && v.targetId in s.targets && Backs(s, p, v.extentId) && MapsOnly(s, v.targetId, v.extentId)
  }

  ghost predicate NoNamedTarget(s: Store, p: Request) {
    forall t :: !NamedTarget(s, p, t)
  }

  // What a create without faults finds and returns instead of building anything.
  ghost predicate Finds(s: Store, p: Request, t: int, e: int) {
    && p.Zvol() in s.pool && SizeFits(p, s.pool[p.Zvol()].volsize)
    && (ByName(s, p, t, e) || (NoNamedTarget(s, p) && Stored(s, p, t, e)))
  }

  // The leftovers of interrupted attempts: same-named extents back this ZVOL, and the
  // same-named target maps nothing except such an extent at LUN 0.
  ghost predicate Resumable(s: Store, p: Request) {
    && (p.Zvol() in s.pool ==> SizeFits(p, s.pool[p.Zvol()].volsize))
    && (forall e :: e in s.extents && s.extents[e].name == p.name ==> s.extents[e].disk == p.Disk())
    && (forall l :: l in s.luns && NamedTarget(s, p, s.luns[l].target) ==>
          s.luns[l].lun == 0 && s.luns[l].extent in s.extents && s.extents[s.luns[l].extent].name == p.name)
    && (forall l, m :: (l in s.luns && m in s.luns && NamedTarget(s, p, s.luns[l].target)
                        && s.luns[l].target == s.luns[m].target) ==> l == m)
  }

  // The recorded identifiers and the names do not point at two different presentations.
  ghost predicate Agrees(s: Store, p: Request) {
    forall t, u, e :: NamedTarget(s, p, t) && Stored(s, p, u, e) ==> ByName(s, p, u, e)
  }

  // ---------------------------------------------------------------- Frames

  // Every entry of m is in m', unchanged.
  ghost predicate Sub<K, V>(m: map<K, V>, m': map<K, V>) {
    forall k :: k in m ==> k in m' && m'[k] == m[k]
  }

  ghost predicate KeepsTables(s: Store, s': Store) {
    && Sub(s.extents, s'.extents) && Sub(s.targets, s'.targets) && Sub(s.luns, s'.luns)
    && s'.namespaces == s.namespaces && s'.subsystems == s.subsystems
  }

  // As Sub, but the properties of dataset own may change.
  ghost predicate KeepsPoolButProps(z: Pool, z': Pool, own: string) {
    && (forall d :: d in z ==> d in z' && (d == own || z'[d] == z[d]))
    && (own in z ==> z'[own] == z[own].(props := z'[own].props))
  }

  // The properties say whose the dataset is and what a delete may do to it.
  predicate Claims(props: Props, p: Request) {
    props.managedBy == Some("tns-csi") && props.volume == Some(p.name) && props.strategy == p.strategy
  }

  ghost predicate AddsPool(z: Pool, z': Pool, p: Request) {
    && (forall d :: d in z' && d !in z ==> d == p.Zvol())
    && (p.Zvol() in z' && p.Zvol() !in z ==>
          z'[p.Zvol()] == p.OwnZvol().(props := z'[p.Zvol()].props) && Claims(z'[p.Zvol()].props, p))
  }

  ghost predicate AddsExtents(m: map<int, Extent>, m': map<int, Extent>, p: Request) {
    forall e :: e in m' && e !in m ==> m'[e] == p.OwnExtent()
  }

  ghost predicate AddsTargets(m: map<int, Target>, m': map<int, Target>, p: Request) {
    forall t :: t in m' && t !in m ==> m'[t].name == p.name
  }

  // Whatever tables s' has beyond s belong to this volume.
  ghost predicate AddsTables(s: Store, s': Store, p: Request) {
    && AddsExtents(s.extents, s'.extents, p) && AddsTargets(s.targets, s'.targets, p)
    && (forall l :: l in s'.luns && l !in s.luns ==> OwnLun(s', p, l))
  }

  // l maps the volume's extent to the volume's target at LUN 0, alone.
  ghost predicate OwnLun(s: Store, p: Request, l: int) {
    && l in s.luns && s.luns[l].lun == 0
    && NamedTarget(s, p, s.luns[l].target)
    && s.luns[l].extent in s.extents && s.extents[s.luns[l].extent] == p.OwnExtent()
    && forall k :: k in s.luns && s.luns[k].target == s.luns[l].target ==> k == l
  }

  function DropTables(s: Store, c: Created): Store {
    var s1 := if c.targetId != 0 then DropTarget(s, c.targetId) else s;
    if c.extentId != 0 then DropExtent(s1, c.extentId) else s1
  }

  function DropPool(z: Pool, c: Created): Pool {
    if c.zvol != "" then z - {c.zvol} else z
  }

  function Drop(s: Store, c: Created): Store {
    DropTables(s, c).(pool := DropPool(s.pool, c))
  }

  // c's objects are in s' but were not in s.
  ghost predicate IsNew(s: Store, s': Store, c: Created, p: Request) {
    && (c.targetId != 0 ==> c.targetId !in s.targets && NamedTarget(s', p, c.targetId))
    && (c.extentId != 0 ==>
          c.extentId !in s.extents && c.extentId in s'.extents && s'.extents[c.extentId] == p.OwnExtent())
    && (c.zvol != "" ==> c.zvol == p.Zvol() && c.zvol !in s.pool && c.zvol in s'.pool && s'.pool[c.zvol] == p.OwnZvol())
  }

  ghost predicate PartOf(c: Created, d: Created) {
    && (c.zvol == d.zvol || c.zvol == "")
    && (c.extentId == d.extentId || c.extentId == 0)
    && (c.targetId == d.targetId || c.targetId == 0)
  }

  // s with the objects of c added.
  function Grow(s: Store, c: Created, p: Request): Store {
    s.(pool := if c.zvol != "" then s.pool[c.zvol := p.OwnZvol()] else s.pool,
       extents := if c.extentId != 0 then s.extents[c.extentId := p.OwnExtent()] else s.extents,
       targets := if c.targetId != 0 then s.targets[c.targetId := Target(p.name, c.groups)] else s.targets)
  }

  ghost predicate BuildsPool(z: Pool, z': Pool, p: Request) {
    && Sub(z, z') && AddsPool(z, z', p)
    && (p.Zvol() in z' && p.Zvol() !in z ==> z'[p.Zvol()] == p.OwnZvol())
  }

  // The invariant of one attempt: s is where the call began, m where it is now.
  ghost predicate Building(s: Store, m: Store, p: Request) {
    && WfTables(m) && KeepsTables(s, m) && AddsTables(s, m, p)
    && BuildsPool(s.pool, m.pool, p)
  }

  // An attempt builds only if nothing recorded presents the ZVOL, or its own target exists.
  ghost predicate Committed(s: Store, p: Request) {
    (exists t :: NamedTarget(s, p, t)) || (forall u, e :: !Stored(s, p, u, e))
  }

  lemma RemoveOwnZvol(z: Pool, p: Request)
    requires Wf(z) && p.Zvol() in z && z[p.Zvol()] == p.OwnZvol()
    ensures CanDestroy(z, p.Zvol()) && Destroy(z, p.Zvol()) == z - {p.Zvol()}
    ensures Wf(z - {p.Zvol()})
  {
    RemoveKeepsWf(z, p.Zvol());
    assert forall q, g :: !Reaps(z, p.Zvol(), q, g);
  }

  // An attempt that only adds its own objects keeps the leftovers resumable.
  lemma BuildingResumable(s: Store, m: Store, p: Request)
    requires WfTables(s) && WfTables(m) && KeepsTables(s, m) && AddsTables(s, m, p) && Resumable(s, p)
    requires KeepsPoolButProps(s.pool, m.pool, p.Zvol()) && AddsPool(s.pool, m.pool, p)
    ensures Resumable(m, p)
  {
    forall l, k | l in m.luns && k in m.luns && NamedTarget(m, p, m.luns[l].target)
      && m.luns[l].target == m.luns[k].target
      ensures l == k
    {
      if l in s.luns && k in s.luns {
        assert NamedTarget(s, p, s.luns[l].target);
      }
    }
    forall l | l in m.luns && NamedTarget(m, p, m.luns[l].target)
      ensures m.luns[l].lun == 0 && m.luns[l].extent in m.extents && m.extents[m.luns[l].extent].name == p.name
    {
      if l in s.luns { assert NamedTarget(s, p, s.luns[l].target); }
    }
  }

  // A mapping that is the only one of its target later on was the only one before.
  lemma MapsOnlyBefore(s: Store, m: Store, t: int, e: int, l: int)
    requires forall k :: k in s.luns ==> k in m.luns && m.luns[k] == s.luns[k]
    requires l in s.luns && m.luns[l] == Lun(t, e, 0) && LunsOf(m, t) == {l}
    ensures MapsOnly(s, t, e)
  {
    forall k | k in LunsOf(s, t) ensures k == l { assert k in LunsOf(m, t); }
    assert LunsOf(s, t) == {l};
  }

  lemma BuildingAgrees(s: Store, m: Store, p: Request)
    requires WfTables(s) && Building(s, m, p) && Agrees(s, p) && Committed(s, p)
    ensures Agrees(m, p)
  {
    forall t, u, e | NamedTarget(m, p, t) && Stored(m, p, u, e) ensures ByName(m, p, u, e) {
      var l :| l in m.luns && m.luns[l] == Lun(u, e, 0) && LunsOf(m, u) == {l};
      if l in s.luns {
        MapsOnlyBefore(s, m, u, e, l);
        assert s.luns[l] == Lun(u, e, 0);
        assert Stored(s, p, u, e);
        var t' :| NamedTarget(s, p, t');
        assert ByName(s, p, u, e);
      }
    }
  }

  lemma DropTargetKeepsBuilding(s: Store, m: Store, t: int, p: Request)
    requires WfTables(s) && Building(s, m, p) && t !in s.targets
    ensures Building(s, DropTarget(m, t), p)
  {
    var m' := DropTarget(m, t);
    forall l | l in m'.luns && l !in s.luns ensures OwnLun(m', p, l) { assert OwnLun(m, p, l); }
  }

  lemma DropExtentKeepsBuilding(s: Store, m: Store, e: int, p: Request)
    requires WfTables(s) && Building(s, m, p) && e !in s.extents
    ensures Building(s, DropExtent(m, e), p)
  {
    var m' := DropExtent(m, e);
    forall l | l in m'.luns && l !in s.luns ensures OwnLun(m', p, l) { assert OwnLun(m, p, l); }
  }

  lemma DropKeepsBuilding(s: Store, m: Store, c: Created, gone: Created, p: Request)
    requires WfTables(s) && Building(s, m, p) && IsNew(s, m, c, p) && PartOf(gone, c)
    ensures Building(s, Drop(m, gone), p)
  {
    var m1 := if gone.targetId != 0 then DropTarget(m, gone.targetId) else m;
    assert Building(s, m1, p) by {
      if gone.targetId != 0 { DropTargetKeepsBuilding(s, m, gone.targetId, p); }
    }
    var m2 := if gone.extentId != 0 then DropExtent(m1, gone.extentId) else m1;
    assert Building(s, m2, p) by {
      if gone.extentId != 0 { DropExtentKeepsBuilding(s, m1, gone.extentId, p); }
    }
    assert m2.pool == m.pool;
    DropPoolKeepsBuilding(s.pool, m.pool, gone, p);
    SwapPool(s, m2, DropPool(m.pool, gone), p);
  }

  lemma DropPoolKeepsBuilding(z: Pool, z': Pool, gone: Created, p: Request)
    requires BuildsPool(z, z', p) && (gone.zvol != "" ==> gone.zvol !in z)
    ensures BuildsPool(z, DropPool(z', gone), p)
  {
  }

  lemma SwapPool(s: Store, m: Store, z: Pool, p: Request)
    requires Building(s, m, p) && BuildsPool(s.pool, z, p)
    ensures Building(s, m.(pool := z), p)
  {
    var m' := m.(pool := z);
    forall l | l in m'.luns && l !in s.luns ensures OwnLun(m', p, l) { assert OwnLun(m, p, l); }
  }

  // Removing exactly what was added restores the store.
  lemma DropGrown(s: Store, c: Created, p: Request)
    requires WfTables(s) && IsNew(s, Grow(s, c, p), c, p)
    ensures Drop(Grow(s, c, p), c) == s
  {
    AddRemove(s.extents, c.extentId, p.OwnExtent());
    AddRemove(s.targets, c.targetId, Target(p.name, c.groups));
    if c.zvol != "" { AddRemove(s.pool, c.zvol, p.OwnZvol()); }
    KeepsLuns(Grow(s, c, p), c);
  }

  lemma AddRemove<K, V>(m: map<K, V>, k: K, v: V)
    requires k !in m
    ensures m[k := v] - {k} == m
  {
  }

  lemma KeepsLuns(s: Store, c: Created)
    requires c.targetId != 0 ==> forall l :: l in s.luns ==> s.luns[l].target != c.targetId
    requires c.extentId != 0 ==> forall l :: l in s.luns ==> s.luns[l].extent != c.extentId
    ensures DropTables(s, c).luns == s.luns
  {
    var s1 := if c.targetId != 0 then DropTarget(s, c.targetId) else s;
    assert s1.luns == s.luns by {
      assert forall l :: l in s1.luns <==> l in s.luns;
    }
    assert forall l :: l in DropTables(s, c).luns <==> l in s.luns;
  }

  // A resumable target that maps anything maps the volume's extent alone.
  lemma ResumableMaps(s: Store, p: Request, t: int, e: int)
    requires WfTables(s) && Resumable(s, p) && NamedTarget(s, p, t) && !MapsNothing(s, t)
    requires e in s.extents && s.extents[e].name == p.name
    ensures MapsOnly(s, t, e)
  {
    var l :| l in s.luns && s.luns[l].target == t;
    assert NamedTarget(s, p, s.luns[l].target);
    assert s.luns[l] == Lun(t, e, 0);
    forall m | m in LunsOf(s, t) ensures m == l { assert s.luns[m].target == s.luns[l].target; }
    assert LunsOf(s, t) == {l};
  }

  // ---------------------------------------------------------------- The calls of one attempt

  // Whether t maps exactly e at LUN 0; a target laid out for anything else is an error.
  method TargetMapsExtent(nas: Client, t: int, e: int) returns (r: Result<bool>)
    modifies nas`faults
    ensures nas.faults == Tail(old(nas.faults))
    ensures r == if !Head(old(nas.faults)).Fine? then Err(Internal)
                 else if MapsNothing(nas.st, t) then Ok(false)
                 else if MapsOnly(nas.st, t, e) then Ok(true)
                 else Err(AlreadyExists)
  {
    var q := nas.LunsByTarget(t);
    if q.Err? { return Err(Internal); }
    var luns := q.value;
    assert luns.Keys == LunsOf(nas.st, t);
    if l :| l in luns {
      assert l in LunsOf(nas.st, t);
      if luns.Keys == {l} && luns[l].extent == e && luns[l].lun == 0 {
        assert nas.st.luns[l] == Lun(t, e, 0);
        return Ok(true);
      }
      return Err(AlreadyExists);
    }
    assert forall l :: l in nas.st.luns && nas.st.luns[l].target == t ==> l in LunsOf(nas.st, t);
    r := Ok(false);
  }

  // The ZVOL records some target and some extent.
  predicate Known(s: Store, p: Request) {
    p.Zvol() in s.pool && s.pool[p.Zvol()].props.targetId.Some? && s.pool[p.Zvol()].props.extentId.Some?
  }

  // The ZVOL records the volume: whose it is, and how it is presented.
  predicate Noted(s: Store, p: Request, v: Volume) {
    && p.Zvol() in s.pool
    && var props := s.pool[p.Zvol()].props;
       && Claims(props, p)
       && props.targetId == Some(v.targetId) && props.extentId == Some(v.extentId) && props.iqn == v.iqn
  }

  // What the server is configured with: whether there are groups to present to, which ones, and
  // the base of its IQNs.
  datatype Config = Config(groups: bool, reach: Groups, basename: string)

  function ConfigOf(nas: Client, p: Request): (c: Config)
    ensures p.portal != 0 ==> c.reach.portal == p.portal
    ensures p.portal == 0 && nas.portals != [] ==> c.reach.portal == nas.portals[0]
    ensures p.initiator != 0 ==> c.reach.initiator == p.initiator
    ensures p.initiator == 0 && nas.initiators != [] ==> c.reach.initiator == nas.initiators[0]
    ensures nas.portals != [] && nas.initiators != [] ==> c.groups
    ensures p.portal != 0 && p.initiator != 0 ==> c.groups
    ensures c.basename == nas.basename
  {
    Config(HasGroups(nas, p), GroupsOf(nas, p), nas.basename)
  }

  // What an error says of an attempt on s: a call failed, the leftovers are foreign, or no
  // portal or initiator group is configured.
  ghost predicate Explains(e: Error, s: Store, f: Schedule, f': Schedule, groups: bool, p: Request) {
    match e
    case Internal => Pending(f') < Pending(f)
    case AlreadyExists => !Resumable(s, p)
    case FailedPrecondition => !groups
    case _ => false
  }

  // v is the volume under its own names, presented at the configured base name ...
  ghost predicate NamedAnswer(s: Store, p: Request, basename: string, v: Volume) {
    v.iqn == basename + ":" + p.name && ByName(s, p, v.targetId, v.extentId)
  }

  // ... or just what the ZVOL records.
  ghost predicate StoredAnswer(s: Store, p: Request, v: Volume) {
    Stored(s, p, v.targetId, v.extentId) && v.iqn == s.pool[p.Zvol()].props.iqn
  }

  // Write the presentation IDs onto the ZVOL unless both are recorded; failures are ignored.
  method EnsureProps(nas: Client, p: Request, v: Volume)
    requires WfStore(nas.st) && p.Zvol() in nas.st.pool
    modifies nas
    ensures WfStore(nas.st) && Later(old(nas.faults), nas.faults)
    ensures nas.st == old(nas.st) || nas.st == WithRecord(old(nas.st), p, v)
    ensures (old(nas.st).pool[p.Zvol()].props.targetId.Some? && old(nas.st).pool[p.Zvol()].props.extentId.Some?)
            ==> nas.st == old(nas.st)
    ensures Pending(old(nas.faults)) == 0 && !Known(old(nas.st), p) ==> nas.st == WithRecord(old(nas.st), p, v)
  {
    var q := nas.GetProps(p.Zvol());
    if q.Err? || (q.value.targetId.Some? && q.value.extentId.Some?) { return; }
    SetPropsKeepsWf(nas.st.pool, p.Zvol(), p.Recorded(nas.st.pool[p.Zvol()].props, v));
    var w := nas.SetProps(p.Zvol(), props => p.Recorded(props, v));
  }

  function WithRecord(s: Store, p: Request, v: Volume): Store
    requires p.Zvol() in s.pool
  {
    s.(pool := s.pool[p.Zvol() := s.pool[p.Zvol()].(props := p.Recorded(s.pool[p.Zvol()].props, v))])
  }

  // The volume recorded on the ZVOL, if it passes the same checks as one found by name.
  method FindByStoredProperties(nas: Client, p: Request) returns (r: Result<Option<Volume>>)
    requires WfStore(nas.st) && p.Zvol() in nas.st.pool
    modifies nas
    ensures nas.st == old(nas.st) && Later(old(nas.faults), nas.faults)
    ensures r.Err? ==> r.error == Internal && Pending(nas.faults) < Pending(old(nas.faults))
    ensures r.Ok? && r.value.Some? ==> StoredAnswer(nas.st, p, r.value.value) && r.value.value.capacity == p.size
    ensures r.Ok? && r.value.None? ==> forall t, e :: !Stored(nas.st, p, t, e)
  {
    var q := nas.GetProps(p.Zvol());
    if q.Err? { return Err(Internal); }
    var t := if q.value.targetId.Some? then q.value.targetId.value else 0;
    var e := if q.value.extentId.Some? then q.value.extentId.value else 0;
    if t <= 0 || e <= 0 || q.value.iqn == "" { return Ok(None); }
    assert forall u, f :: Records(nas.st, p, u, f) ==> u == t && f == e;
    var target := nas.TargetById(t);
    if target.Err? { return Err(Internal); }
    var extent := nas.ExtentById(e);
    if extent.Err? { return Err(Internal); }
    if target.value.None? || extent.value.None? { return Ok(None); }
    if extent.value.value.disk != p.Disk() { return Ok(None); }
    var mapped := TargetMapsExtent(nas, t, e);
    if mapped.Err? && mapped.error != AlreadyExists { return Err(mapped.error); }
    if mapped.Err? || !mapped.value { return Ok(None); }
    var v := Volume(t, e, q.value.iqn, p.size);
    EnsureProps(nas, p, v);
    r := Ok(Some(v));
  }

  // What the check of an existing ZVOL guarantees.
  ghost predicate Handled(p: Request, basename: string, s: Store, f: Schedule, s': Store, f': Schedule,
          r: Result<Option<Volume>>)
  {
    && Later(f, f')
    && (s' == s || (r.Ok? && r.value.Some? && p.Zvol() in s.pool && s' == WithRecord(s, p, r.value.value)))
    && (r.Err? ==> Explains(r.error, s, f, f', true, p))
    && (r.Ok? && r.value.Some? ==> var v := r.value.value;
          && v.capacity == p.size
          && (NamedAnswer(s, p, basename, v) || (StoredAnswer(s, p, v) && s' == s)))
    && (r.Ok? && r.value.None? ==> Committed(s, p))
    && HandledQuietly(p, basename, s, f, s', r)
  }

  // Without faults the check finds exactly what is there to find; a name lookup that finds
  // or answers nothing falls back to the recorded identifiers.
  ghost predicate HandledQuietly(p: Request, basename: string, s: Store, f: Schedule, s': Store,
          r: Result<Option<Volume>>)
  {
    var found := r.Ok? && r.value.Some?;
    && (Pending(f) == 0 ==> forall t, e :: Finds(s, p, t, e) ==>
          found && r.value.value.targetId == t && r.value.value.extentId == e)
    && (Pending(f) == 0 && found && s' == s ==> Known(s, p))
    && (Pending(f) == 0 && found && !NoNamedTarget(s, p) ==> NamedAnswer(s, p, basename, r.value.value))
    && (found && NoNamedTarget(s, p) ==> s' == s && Stored(s, p, r.value.value.targetId, r.value.value.extentId))
    && (f == [Lost] ==> forall t, e :: Stored(s, p, t, e) ==>
          found && r.value.value.targetId == t && r.value.value.extentId == e && s' == s)
  }

  // The ZVOL exists: return the volume if it is complete, nothing if it must be (re)built.
  method HandleExisting(nas: Client, p: Request, existing: Dataset) returns (r: Result<Option<Volume>>)
    requires WfStore(nas.st) && p.Zvol() in nas.st.pool && existing == nas.st.pool[p.Zvol()]
    modifies nas
    ensures WfStore(nas.st)
    ensures r.Ok? ==> SizeFits(p, existing.volsize)
    ensures !SizeFits(p, existing.volsize) ==>
      r == Err(AlreadyExists) && nas.st == old(nas.st) && nas.faults == old(nas.faults)
    ensures SizeFits(p, existing.volsize) ==>
      Handled(p, nas.basename, old(nas.st), old(nas.faults), nas.st, nas.faults, r)
  {
    if existing.volsize > 0 && existing.volsize != p.size { return Err(AlreadyExists); }
    ghost var s := nas.st;
    var target := nas.TargetByName(p.name);
    if target.Err? || target.value.None? {
      r := FindByStoredProperties(nas, p);
      return;
    }
    assert NamedTarget(nas.st, p, target.value.value.0);
    r := FindByName(nas, p, target.value.value.0, if existing.volsize > 0 then existing.volsize else p.size);
  }

  // The target with the volume's name exists: is the rest of the volume there?
  method FindByName(nas: Client, p: Request, t: int, capacity: int) returns (r: Result<Option<Volume>>)
    requires WfStore(nas.st) && p.Zvol() in nas.st.pool && NamedTarget(nas.st, p, t)
    modifies nas
    ensures r.Ok? && r.value.Some? ==> r.value.value.capacity == capacity
    ensures WfStore(nas.st) && Later(old(nas.faults), nas.faults)
    ensures nas.st == old(nas.st) || (r.Ok? && r.value.Some? && nas.st == WithRecord(old(nas.st), p, r.value.value))
    ensures r.Err? ==> Explains(r.error, nas.st, old(nas.faults), nas.faults, true, p)
    ensures r.Ok? && r.value.Some? ==> NamedAnswer(old(nas.st), p, nas.basename, r.value.value)
    ensures Pending(old(nas.faults)) == 0 && r.Ok? && r.value.Some? && nas.st == old(nas.st) ==> Known(nas.st, p)
    ensures Pending(old(nas.faults)) == 0 ==> forall e :: ByName(old(nas.st), p, t, e) ==>
              r.Ok? && r.value.Some? && r.value.value.targetId == t && r.value.value.extentId == e
  {
    var extent := nas.ExtentByName(p.name);
    if extent.Err? || extent.value.None? { return Ok(None); }
    var (e, backing) := extent.value.value;
    if backing.disk != p.Disk() { return Ok(None); }
    var mapped := TargetMapsExtent(nas, t, e);
    if mapped.Err? {
      if Resumable(nas.st, p) && !MapsNothing(nas.st, t) { ResumableMaps(nas.st, p, t, e); }
      return Err(mapped.error);
    }
    if !mapped.value { return Ok(None); }
    var config := nas.GlobalConfig();
    if config.Err? { return Err(Internal); }
    var v := Volume(t, e, config.value + ":" + p.name, capacity);
    EnsureProps(nas, p, v);
    r := Ok(Some(v));
  }

  lemma NewZvol(s: Store, p: Request)
    requires WfStore(s) && p.Zvol() !in s.pool
    ensures var s' := s.(pool := s.pool[p.Zvol() := p.OwnZvol()]);
            s' == Grow(s, Created(p.Zvol(), 0, 0, NO_GROUPS), p) && WfStore(s')
  {
    AddKeepsWf(s.pool, p.Zvol(), p.OwnZvol());
  }

  method GetOrCreateZvol(nas: Client, p: Request, present: bool) returns (r: Result<bool>)
    requires WfStore(nas.st) && (present <==> p.Zvol() in nas.st.pool)
    modifies nas`st, nas`faults
    ensures WfStore(nas.st) && Later(old(nas.faults), nas.faults)
    ensures present ==> r == Ok(false) && nas.st == old(nas.st)
    ensures r.Ok? && !present ==> r.value && nas.st == Grow(old(nas.st), Created(p.Zvol(), 0, 0, NO_GROUPS), p)
    ensures r.Err? ==> r.error == Internal && Pending(nas.faults) < Pending(old(nas.faults))
    ensures r.Err? ==> (nas.st == old(nas.st) || nas.st == Grow(old(nas.st), Created(p.Zvol(), 0, 0, NO_GROUPS), p))
    ensures r.Err? && NoneApplied(old(nas.faults)) ==> nas.st == old(nas.st)
  {
    if present { return Ok(false); }
    NewZvol(nas.st, p);
    var c := nas.CreateZvol(p.Zvol(), p.size, p.OwnProps());
    r := if c.Err? then Err(Internal) else Ok(true);
  }

  // The extent named after the volume; reused only if it backs this ZVOL.
  method GetOrCreateExtent(nas: Client, p: Request) returns (r: Result<(int, bool)>)
    requires WfStore(nas.st)
    modifies nas`st, nas`faults
    ensures WfStore(nas.st) && Later(old(nas.faults), nas.faults)
    ensures r.Ok? && !r.value.1 ==> nas.st == old(nas.st)
    ensures r.Ok? && r.value.1 ==>
      r.value.0 !in old(nas.st).extents && nas.st == Grow(old(nas.st), Created("", r.value.0, 0, NO_GROUPS), p)
    ensures r.Ok? ==> r.value.0 > 0 && r.value.0 in nas.st.extents && nas.st.extents[r.value.0] == p.OwnExtent()
    ensures r.Err? ==> Explains(r.error, old(nas.st), old(nas.faults), nas.faults, true, p)
    ensures r.Err? ==> (nas.st == old(nas.st) || ResidueExtent(old(nas.st), nas.st, p))
    ensures r.Err? && NoneApplied(old(nas.faults)) ==> nas.st == old(nas.st)
  {
    var q := nas.ExtentByName(p.name);
    if q.Err? { return Err(Internal); }
    if q.value.Some? {
      var (e, found) := q.value.value;
      if found.disk != p.Disk() { return Err(AlreadyExists); }
      return Ok((e, false));
    }
    var c := nas.CreateExtent(p.name, p.Disk());
    r := if c.Err? then Err(Internal) else Ok((c.value, true));
  }

  predicate HasGroups(nas: Client, p: Request) {
    (p.portal != 0 || nas.portals != []) && (p.initiator != 0 || nas.initiators != [])
  }

  // The groups asked for, or else the first ones the server has.
  function GroupsOf(nas: Client, p: Request): Groups {
    Groups(if p.portal != 0 || nas.portals == [] then p.portal else nas.portals[0],
           if p.initiator != 0 || nas.initiators == [] then p.initiator else nas.initiators[0])
  }

  method ResolveGroups(nas: Client, p: Request) returns (r: Result<Groups>)
    modifies nas`faults
    ensures Later(old(nas.faults), nas.faults)
    ensures r.Ok? ==> HasGroups(nas, p) && r.value == GroupsOf(nas, p)
    ensures r.Err? ==> Explains(r.error, nas.st, old(nas.faults), nas.faults, HasGroups(nas, p), p)
                       && r.error != AlreadyExists
  {
    var portal, initiator := p.portal, p.initiator;
    if portal == 0 {
      var q := nas.QueryPortals();
      if q.Err? { return Err(Internal); }
      if q.value == [] { return Err(FailedPrecondition); }
      portal := q.value[0];
    }
    if initiator == 0 {
      var q := nas.QueryInitiators();
      if q.Err? { return Err(Internal); }
      if q.value == [] { return Err(FailedPrecondition); }
      initiator := q.value[0];
    }
    r := Ok(Groups(portal, initiator));
  }

  method GetOrCreateTarget(nas: Client, p: Request) returns (r: Result<(int, bool)>)
    requires WfStore(nas.st)
    modifies nas`st, nas`faults
    ensures WfStore(nas.st) && Later(old(nas.faults), nas.faults)
    ensures r.Ok? && !r.value.1 ==> nas.st == old(nas.st)
    ensures r.Ok? && r.value.1 ==>
      r.value.0 !in old(nas.st).targets && nas.st == Grow(old(nas.st), Created("", 0, r.value.0, GroupsOf(nas, p)), p)
    ensures r.Ok? ==> r.value.0 > 0 && NamedTarget(nas.st, p, r.value.0)
    ensures r.Err? ==> Explains(r.error, nas.st, old(nas.faults), nas.faults, HasGroups(nas, p), p)
                       && r.error != AlreadyExists
    ensures r.Err? ==> (nas.st == old(nas.st) || ResidueTarget(old(nas.st), nas.st, p))
    ensures r.Err? && NoneApplied(old(nas.faults)) ==> nas.st == old(nas.st)
  {
    var q := nas.TargetByName(p.name);
    if q.Err? { return Err(Internal); }
    if q.value.Some? { return Ok((q.value.value.0, false)); }
    var groups := ResolveGroups(nas, p);
    if groups.Err? { return Err(groups.error); }
    ghost var was := nas.st;
    var c := nas.CreateTarget(p.name, groups.value);
    if c.Err? {
      if t :| t > 0 && t !in was.targets
              && nas.st == was.(targets := was.targets[t := Target(p.name, groups.value)]) {
        assert nas.st == Grow(was, Created("", 0, t, groups.value), p);
      }
      return Err(Internal);
    }
    r := Ok((c.value, true));
  }

  ghost predicate Mapped(s: Store, s': Store, t: int, e: int) {
    MapsNothing(s, t) && exists l :: AddsLun(s, s', l, t, e)
  }

  ghost predicate AddsLun(s: Store, s': Store, l: int, t: int, e: int) {
    l !in s.luns && s' == s.(luns := s.luns[l := Lun(t, e, 0)])
  }

  lemma NewLunMaps(s: Store, s': Store, l: int, t: int, e: int)
    requires MapsNothing(s, t) && AddsLun(s, s', l, t, e)
    ensures MapsOnly(s', t, e) && Mapped(s, s', t, e)
  {
    assert s'.luns[l] == Lun(t, e, 0);
    forall k ensures k in LunsOf(s', t) <==> k == l { assert k in s'.luns && k != l ==> k in s.luns; }
    assert LunsOf(s', t) == {l};
  }

  // Map the extent to the target as LUN 0 unless it already is.
  method EnsureMapped(nas: Client, p: Request, t: int, e: int) returns (r: Result<()>)
    requires WfTables(nas.st) && NamedTarget(nas.st, p, t) && e in nas.st.extents && nas.st.extents[e] == p.OwnExtent()
    modifies nas`st, nas`faults
    ensures Later(old(nas.faults), nas.faults)
    ensures WfTables(nas.st) && (nas.st == old(nas.st) || Mapped(old(nas.st), nas.st, t, e))
    ensures nas.st.pool == old(nas.st).pool && nas.st.targets == old(nas.st).targets
    ensures r.Ok? ==> MapsOnly(nas.st, t, e)
    ensures r.Err? ==> Explains(r.error, old(nas.st), old(nas.faults), nas.faults, true, p)
    ensures r.Err? && NoneApplied(old(nas.faults)) ==> nas.st == old(nas.st)
  {
    var mapped := TargetMapsExtent(nas, t, e);
    if mapped.Err? {
      if Resumable(nas.st, p) && !MapsNothing(nas.st, t) { ResumableMaps(nas.st, p, t, e); }
      return Err(mapped.error);
    }
    if mapped.value { return Ok(()); }
    ghost var was := nas.st;
    var c := nas.CreateLun(t, e, 0);
    if c.Err? {
      if l :| l !in was.luns && nas.st == was.(luns := was.luns[l := Lun(t, e, 0)]) {
        assert AddsLun(was, nas.st, l, t, e);
      }
      return Err(Internal);
    }
    NewLunMaps(was, nas.st, c.value, t, e);
    r := Ok(());
  }

  // Delete, in reverse order, only the objects this call created. gone says which went.
  method Cleanup(nas: Client, created: Created, p: Request, ghost s: Store) returns (ghost gone: Created)
    requires WfStore(nas.st) && IsNew(s, nas.st, created, p)
    modifies nas`st, nas`faults
    ensures nas.st == Drop(old(nas.st), gone) && PartOf(gone, created)
    ensures Pending(old(nas.faults)) == 0 ==> gone == created
    ensures Wf(nas.st.pool)
  {
    gone := created.(zvol := "", extentId := 0, targetId := 0);
    if created.targetId != 0 {
      var d := nas.DeleteTarget(created.targetId);
      if created.targetId !in nas.st.targets { gone := gone.(targetId := created.targetId); }
    }
    if created.extentId != 0 {
      var d := nas.DeleteExtent(created.extentId);
      if created.extentId !in nas.st.extents { gone := gone.(extentId := created.extentId); }
    }
    if created.zvol == "" { return; }
    RemoveOwnZvol(nas.st.pool, p);
    var d := nas.DeleteDataset(created.zvol);
    if created.zvol !in nas.st.pool { gone := gone.(zvol := created.zvol); }
  }

  lemma GrowKeepsBuilding(s: Store, m: Store, c: Created, p: Request)
    requires WfTables(s) && Building(s, m, p) && IsNew(m, Grow(m, c, p), c, p) && WfTables(Grow(m, c, p))
    ensures Building(s, Grow(m, c, p), p)
  {
    var m' := Grow(m, c, p);
    forall l | l in m'.luns && l !in s.luns ensures OwnLun(m', p, l) { assert OwnLun(m, p, l); }
  }

  lemma LunKeepsBuilding(s: Store, m: Store, m': Store, t: int, e: int, p: Request)
    requires WfTables(s) && Building(s, m, p) && Mapped(m, m', t, e)
    requires NamedTarget(m, p, t) && e in m.extents && m.extents[e] == p.OwnExtent()
    ensures Building(s, m', p)
  {
    var n :| AddsLun(m, m', n, t, e);
    forall l | l in m'.luns && l !in s.luns ensures OwnLun(m', p, l) {
      assert l in m.luns ==> OwnLun(m, p, l);
    }
  }

  // Recording the identifiers that name lookup finds leaves the two in agreement.
  lemma RecordAgrees(s: Store, p: Request, v: Volume)
    requires p.Zvol() in s.pool && ByName(s, p, v.targetId, v.extentId)
    ensures Agrees(WithRecord(s, p, v), p) && ByName(WithRecord(s, p, v), p, v.targetId, v.extentId)
  {
    var s' := WithRecord(s, p, v);
    assert MapsOnly(s', v.targetId, v.extentId) by {
      var l :| l in s.luns && s.luns[l] == Lun(v.targetId, v.extentId, 0) && LunsOf(s, v.targetId) == {l};
      assert LunsOf(s', v.targetId) == {l};
    }
    assert forall u, e :: Stored(s', p, u, e) ==> u == v.targetId && e == v.extentId;
  }

  // The attempt begun in s with schedule f has added exactly the objects of c.
  ghost predicate Staged(s: Store, f: Schedule, m: Store, f': Schedule, c: Created, p: Request) {
    m == Grow(s, c, p) && Fresh(s, c, p) && Later(f, f')
  }

  predicate Fresh(s: Store, c: Created, p: Request) {
    && (c.targetId == 0 || (c.targetId > 0 && c.targetId !in s.targets))
    && (c.extentId == 0 || (c.extentId > 0 && c.extentId !in s.extents))
    && (c.zvol == "" || (c.zvol == p.Zvol() && c.zvol !in s.pool))
  }

  lemma StagedBuilds(s: Store, m: Store, c: Created, p: Request)
    requires WfTables(s) && WfTables(m) && m == Grow(s, c, p) && Fresh(s, c, p)
    ensures Building(s, m, p) && IsNew(s, m, c, p)
  {
  }

  // The attempt begun in s with schedule f has failed and cleaned up.
  ghost predicate Failed(s: Store, f: Schedule, m: Store, groups: bool, p: Request, e: Error) {
    && WfStore(m) && Building(s, m, p)
    && Explains(e, s, f, [], groups, p)
    && (Harmless(f, s, groups, p) ==> m == s)
  }

  // m' is m, or m with one more object whose creation was reported as failed.
  ghost predicate Residue(s: Store, m: Store, m': Store, p: Request) {
    m' == m || ResidueExtent(m, m', p) || ResidueTarget(m, m', p) || ResidueLun(m, m', p)
  }

  ghost predicate ResidueExtent(m: Store, m': Store, p: Request) {
    exists e :: e > 0 && e !in m.extents && m' == Grow(m, Created("", e, 0, NO_GROUPS), p)
  }

  ghost predicate ResidueTarget(m: Store, m': Store, p: Request) {
    exists t, g :: t > 0 && t !in m.targets && m' == Grow(m, Created("", 0, t, g), p)
  }

  lemma ResidueBuilds(s: Store, m: Store, m': Store, c: Created, p: Request)
    requires WfTables(s) && WfTables(m) && WfTables(m') && m == Grow(s, c, p) && Fresh(s, c, p) && Residue(s, m, m', p)
    ensures Building(s, m', p) && IsNew(s, m', c, p)
  {
    StagedBuilds(s, m, c, p);
    if ResidueExtent(m, m', p) { ResidueExtentBuilds(s, m, m', p); }
    else if ResidueTarget(m, m', p) { ResidueTargetBuilds(s, m, m', p); }
    else if ResidueLun(m, m', p) { ResidueLunBuilds(s, m, m', p); }
    ResidueKeepsNew(s, m, m', c, p);
  }

  lemma ResidueExtentBuilds(s: Store, m: Store, m': Store, p: Request)
    requires WfTables(s) && WfTables(m') && Building(s, m, p) && ResidueExtent(m, m', p)
    ensures Building(s, m', p)
  {
    var e :| e > 0 && e !in m.extents && m' == Grow(m, Created("", e, 0, NO_GROUPS), p);
    GrowKeepsBuilding(s, m, Created("", e, 0, NO_GROUPS), p);
  }

  lemma ResidueTargetBuilds(s: Store, m: Store, m': Store, p: Request)
    requires WfTables(s) && WfTables(m') && Building(s, m, p) && ResidueTarget(m, m', p)
    ensures Building(s, m', p)
  {
    var t, g :| t > 0 && t !in m.targets && m' == Grow(m, Created("", 0, t, g), p);
    GrowKeepsBuilding(s, m, Created("", 0, t, g), p);
  }

  lemma ResidueLunBuilds(s: Store, m: Store, m': Store, p: Request)
    requires WfTables(s) && WfTables(m') && Building(s, m, p) && ResidueLun(m, m', p)
    ensures Building(s, m', p)
  {
    var t, e :| Mapped(m, m', t, e) && NamedTarget(m, p, t) && e in m.extents && m.extents[e] == p.OwnExtent();
    LunKeepsBuilding(s, m, m', t, e, p);
  }

  lemma KeepsNew(s: Store, m: Store, m': Store, c: Created, p: Request)
    requires IsNew(s, m, c, p) && Sub(m.targets, m'.targets) && Sub(m.extents, m'.extents) && m'.pool == m.pool
    ensures IsNew(s, m', c, p)
  {
  }

  lemma ResidueKeepsNew(s: Store, m: Store, m': Store, c: Created, p: Request)
    requires IsNew(s, m, c, p) && Residue(s, m, m', p)
    ensures IsNew(s, m', c, p)
  {
    ResidueExtends(s, m, m', p);
    KeepsNew(s, m, m', c, p);
  }

  lemma ResidueExtends(s: Store, m: Store, m': Store, p: Request)
    requires Residue(s, m, m', p)
    ensures Sub(m.targets, m'.targets) && Sub(m.extents, m'.extents) && m'.pool == m.pool
  {
    if ResidueLun(m, m', p) {
      var t, e :| Mapped(m, m', t, e) && NamedTarget(m, p, t) && e in m.extents && m.extents[e] == p.OwnExtent();
      var l :| AddsLun(m, m', l, t, e);
    }
  }

  ghost predicate ResidueLun(m: Store, m': Store, p: Request) {
    exists t, e :: Mapped(m, m', t, e) && NamedTarget(m, p, t) && e in m.extents && m.extents[e] == p.OwnExtent()
  }

  // What every failing step does: remove again what this call created, as far as the
  // server lets it. m is the state before the failing step.
  method Abandon(nas: Client, created: Created, p: Request, ghost s: Store, ghost f: Schedule, ghost m: Store,
          ghost e: Error)
    requires WfTables(s) && WfTables(m) && WfStore(nas.st)
    requires m == Grow(s, created, p) && Fresh(s, created, p) && Residue(s, m, nas.st, p)
    requires Later(f, nas.faults) && Explains(e, s, f, nas.faults, HasGroups(nas, p), p)
    requires NoneApplied(f) ==> nas.st == m
    modifies nas`st, nas`faults
    ensures Failed(s, f, nas.st, HasGroups(nas, p), p, e)
  {
    ResidueBuilds(s, m, nas.st, created, p);
    ghost var m' := nas.st;
    if Pending(f) == 0 { QuietMeansNoneApplied(f); }
    ghost var gone := Cleanup(nas, created, p, s);
    DropKeepsBuilding(s, m', created, gone, p);
    if Harmless(f, s, HasGroups(nas, p), p) { DropGrown(s, created, p); }
  }

  // Step 2 with its failure handling: the extent.
  method ExtentStage(nas: Client, p: Request, created: Created, ghost s: Store, ghost f: Schedule)
    returns (r: Result<int>, created': Created)
    requires WfTables(s) && WfStore(nas.st) && Staged(s, f, nas.st, nas.faults, created, p)
    requires created.extentId == 0 && created.targetId == 0
    modifies nas`st, nas`faults
    ensures r.Ok? ==> WfStore(nas.st) && Staged(s, f, nas.st, nas.faults, created', p) && created'.targetId == 0
                      && r.value in nas.st.extents && nas.st.extents[r.value] == p.OwnExtent()
    ensures created'.zvol == created.zvol
    ensures r.Err? ==> Failed(s, f, nas.st, HasGroups(nas, p), p, r.error)
  {
    ghost var m := nas.st;
    StagedResumable(s, m, created, p);
    created' := created;
    var extent := GetOrCreateExtent(nas, p);
    if extent.Err? {
      Abandon(nas, created, p, s, f, m, extent.error);
      return Err(extent.error), created;
    }
    if extent.value.1 { created' := created.(extentId := extent.value.0); }
    r := Ok(extent.value.0);
  }

  // A target that was not there before is reached through groups.
  ghost predicate ReachesNew(s: Store, s': Store, groups: Groups) {
    forall t :: t in s'.targets && t !in s.targets ==> s'.targets[t].groups == groups
  }

  // Step 3 with its failure handling: the target.
  method TargetStage(nas: Client, p: Request, created: Created, e: int, ghost s: Store, ghost f: Schedule)
    returns (r: Result<int>, created': Created)
    requires WfTables(s) && WfStore(nas.st) && Staged(s, f, nas.st, nas.faults, created, p) && created.targetId == 0
    requires e in nas.st.extents && nas.st.extents[e] == p.OwnExtent()
    modifies nas`st, nas`faults
    ensures r.Ok? ==>
      WfStore(nas.st) && Staged(s, f, nas.st, nas.faults, created', p) && NamedTarget(nas.st, p, r.value)
                      && ReachesNew(s, nas.st, GroupsOf(nas, p))
                      && e in nas.st.extents && nas.st.extents[e] == p.OwnExtent()
    ensures created'.zvol == created.zvol
    ensures r.Err? ==> Failed(s, f, nas.st, HasGroups(nas, p), p, r.error)
  {
    ghost var m := nas.st;
    created' := created;
    var target := GetOrCreateTarget(nas, p);
    if target.Err? {
      Abandon(nas, created, p, s, f, m, target.error);
      return Err(target.error), created;
    }
    if target.value.1 { created' := created.(targetId := target.value.0, groups := GroupsOf(nas, p)); }
    r := Ok(target.value.0);
  }

  // Step 4 with its failure handling: the mapping.
  method LunStage(nas: Client, p: Request, created: Created, t: int, e: int, ghost s: Store, ghost f: Schedule)
    returns (r: Result<()>)
    requires WfTables(s) && WfStore(nas.st) && Staged(s, f, nas.st, nas.faults, created, p)
    requires NamedTarget(nas.st, p, t) && e in nas.st.extents && nas.st.extents[e] == p.OwnExtent()
    modifies nas`st, nas`faults
    ensures r.Ok? ==> WfStore(nas.st) && Building(s, nas.st, p) && ByName(nas.st, p, t, e)
                      && nas.st.pool == old(nas.st).pool && nas.st.targets == old(nas.st).targets
                      && Later(f, nas.faults)
    ensures r.Err? ==> Failed(s, f, nas.st, HasGroups(nas, p), p, r.error)
  {
    ghost var m := nas.st;
    StagedResumable(s, m, created, p);
    var mapped := EnsureMapped(nas, p, t, e);
    if mapped.Err? {
      Abandon(nas, created, p, s, f, m, mapped.error);
      return Err(mapped.error);
    }
    ResidueBuilds(s, m, nas.st, created, p);
    r := Ok(());
  }

  lemma StagedResumable(s: Store, m: Store, c: Created, p: Request)
    requires WfTables(s) && WfTables(m) && m == Grow(s, c, p) && Fresh(s, c, p)
    ensures Resumable(s, p) ==> Resumable(m, p)
  {
    StagedBuilds(s, m, c, p);
    if Resumable(s, p) { BuildingResumable(s, m, p); }
  }

  // Step 1: the ZVOL. Nothing of this call has to be removed when it fails.
  method ZvolStage(nas: Client, p: Request, present: bool) returns (r: Result<()>, created: Created)
    requires WfStore(nas.st) && (present <==> p.Zvol() in nas.st.pool)
    modifies nas`st, nas`faults
    ensures r.Ok? ==> WfStore(nas.st) && Staged(old(nas.st), old(nas.faults), nas.st, nas.faults, created, p)
                      && created == Created(if present then "" else p.Zvol(), 0, 0, NO_GROUPS)
    ensures r.Err? ==> Failed(old(nas.st), old(nas.faults), nas.st, HasGroups(nas, p), p, r.error)
  {
    ghost var s := nas.st;
    created := Created(if present then "" else p.Zvol(), 0, 0, NO_GROUPS);
    var zvol := GetOrCreateZvol(nas, p, present);
    if zvol.Err? {
      StagedBuilds(s, nas.st, if nas.st == s then Created("", 0, 0, NO_GROUPS) else created, p);
      return Err(zvol.error), created;
    }
    r := Ok(());
  }

  // Steps 1 to 4: ZVOL, extent, target, mapping. The volume's target and extent.
  method Present(nas: Client, p: Request, present: bool) returns (r: Result<(int, int)>)
    requires WfStore(nas.st) && (present <==> p.Zvol() in nas.st.pool)
    requires present ==> SizeFits(p, nas.st.pool[p.Zvol()].volsize)
    modifies nas`st, nas`faults
    ensures r.Ok? ==> WfStore(nas.st) && Building(old(nas.st), nas.st, p) && ByName(nas.st, p, r.value.0, r.value.1)
                      && p.Zvol() in nas.st.pool && SizeFits(p, nas.st.pool[p.Zvol()].volsize)
                      && Later(old(nas.faults), nas.faults)
    ensures r.Ok? ==> ReachesNew(old(nas.st), nas.st, GroupsOf(nas, p))
    ensures r.Err? ==> Failed(old(nas.st), old(nas.faults), nas.st, HasGroups(nas, p), p, r.error)
  {
    ghost var s, f := nas.st, nas.faults;
    var zvol, c1 := ZvolStage(nas, p, present);
    if zvol.Err? { return Err(zvol.error); }
    var extent, c2 := ExtentStage(nas, p, c1, s, f);
    if extent.Err? { return Err(extent.error); }
    var target, c3 := TargetStage(nas, p, c2, extent.value, s, f);
    if target.Err? { return Err(target.error); }
    assert p.Zvol() in nas.st.pool && SizeFits(p, nas.st.pool[p.Zvol()].volsize);
    var mapped := LunStage(nas, p, c3, target.value, extent.value, s, f);
    if mapped.Err? { return Err(mapped.error); }
    r := Ok((target.value, extent.value));
  }

  // Steps 1 to 5.
  method Build(nas: Client, p: Request, present: bool, basename: string) returns (r: Result<Volume>)
    requires WfStore(nas.st) && Committed(nas.st, p) && (present <==> p.Zvol() in nas.st.pool)
    requires present ==> SizeFits(p, nas.st.pool[p.Zvol()].volsize)
    modifies nas`st, nas`faults
    ensures r.Ok? ==> WfStore(nas.st) && Built(old(nas.st), nas.st, p, r.value)
    ensures r.Ok? ==> r.value.capacity == p.size && r.value.iqn == basename + ":" + p.name
                      && ReachesNew(old(nas.st), nas.st, GroupsOf(nas, p))
    ensures r.Ok? && Pending(old(nas.faults)) == 0 ==> Noted(nas.st, p, r.value)
    ensures r.Err? ==> Failed(old(nas.st), old(nas.faults), nas.st, HasGroups(nas, p), p, r.error)
  {
    ghost var s := nas.st;
    var ids := Present(nas, p, present);
    if ids.Err? { return Err(ids.error); }
    var reload := nas.Reload();
    var v := Volume(ids.value.0, ids.value.1, basename + ":" + p.name, p.size);
    Record(nas, p, v, s);
    r := Ok(v);
  }

  // Recording the identifiers or failing to, the volume is built.
  lemma RecordedIsBuilt(s: Store, m: Store, m': Store, p: Request, v: Volume)
    requires WfTables(s) && WfStore(m) && Building(s, m, p) && Committed(s, p)
    requires p.Zvol() in m.pool && SizeFits(p, m.pool[p.Zvol()].volsize) && ByName(m, p, v.targetId, v.extentId)
    requires m' == m || m' == WithRecord(m, p, v)
    ensures WfStore(m') && Built(s, m', p, v)
  {
    RecordAgrees(m, p, v);
    SetPropsKeepsWf(m.pool, p.Zvol(), p.Recorded(m.pool[p.Zvol()].props, v));
    if Agrees(s, p) { BuildingAgrees(s, m, p); }
    SameTables(s, m, m', p);
  }

  // Step 5: record the identifiers; a failure is only logged.
  method Record(nas: Client, p: Request, v: Volume, ghost s: Store)
    requires WfTables(s) && WfStore(nas.st) && Building(s, nas.st, p) && Committed(s, p)
    requires p.Zvol() in nas.st.pool && SizeFits(p, nas.st.pool[p.Zvol()].volsize)
    requires ByName(nas.st, p, v.targetId, v.extentId)
    modifies nas`st, nas`faults
    ensures WfStore(nas.st) && Built(s, nas.st, p, v) && nas.st.targets == old(nas.st).targets
    ensures Pending(old(nas.faults)) == 0 ==> Noted(nas.st, p, v)
  {
    ghost var m := nas.st;
    var w := nas.SetProps(p.Zvol(), props => p.Recorded(props, v));
    RecordedIsBuilt(s, m, nas.st, p, v);
  }

  lemma SameTables(s: Store, m: Store, m': Store, p: Request)
    requires AddsTables(s, m, p) && m' == m.(pool := m'.pool)
    ensures AddsTables(s, m', p)
  {
    forall l | l in m'.luns && l !in s.luns ensures OwnLun(m', p, l) { assert OwnLun(m, p, l); }
  }

  // What a successful build leaves: the volume under its own names, over everything s had.
  ghost predicate Built(s: Store, s': Store, p: Request, v: Volume) {
    && p.Zvol() in s'.pool && SizeFits(p, s'.pool[p.Zvol()].volsize)
    && ByName(s', p, v.targetId, v.extentId)
    && Extends(s, s', p)
    && (Agrees(s, p) ==> Agrees(s', p))
  }

  // s' has all of s unchanged, up to the ZVOL's properties, and beyond it only this volume's objects.
  ghost predicate Extends(s: Store, s': Store, p: Request) {
    && KeepsTables(s, s') && AddsTables(s, s', p)
    && KeepsPoolButProps(s.pool, s'.pool, p.Zvol()) && AddsPool(s.pool, s'.pool, p)
    && (p.Zvol() in s.pool ==>
          s'.pool[p.Zvol()].props == s.pool[p.Zvol()].props || Claims(s'.pool[p.Zvol()].props, p))
  }

  // Schedules whose failures an attempt undoes completely: none at all, or a single call
  // that fails without effect in a state an attempt can resume from.
  ghost predicate Harmless(f: Schedule, s: Store, groups: bool, p: Request) {
    Pending(f) == 0 || (Pending(f) <= 1 && NoneApplied(f) && Resumable(s, p) && groups)
  }

  // ---------------------------------------------------------------- One attempt

  // What one CreateVolume call guarantees: it begins in s with schedule f and ends in s'
  // with result r.
  ghost predicate Attempt(p: Request, c: Config, s: Store, f: Schedule, s': Store, r: Result<Volume>) {
    && Safe(p, s, s', r)
    && Converges(p, c.groups, s, f, s', r)
    && (r.Ok? ==> Answers(p, c, s, f, s', r.value))
    && Finding(p, s, f, s', r)
    && Recording(p, s, f, s', r)
    && Refusing(p, c, s, f, s', r)
  }

  // Both lookups that come first are answered, and an existing ZVOL has a fitting size.
  ghost predicate Answered(p: Request, s: Store, f: Schedule) {
    Head(f).Fine? && Head(Tail(f)).Fine? && (p.Zvol() in s.pool ==> SizeFits(p, s.pool[p.Zvol()].volsize))
  }

  // An error says what is the matter; without the first answers, and over a ZVOL of another
  // size, nothing is done.
  ghost predicate Refusing(p: Request, c: Config, s: Store, f: Schedule, s': Store, r: Result<Volume>) {
    && (r.Err? ==> Explains(r.error, s, f, [], c.groups, p))
    && (!Answered(p, s, f) ==>
          s' == s && r == Err(if Head(f).Fine? && Head(Tail(f)).Fine? then AlreadyExists else Internal))
  }

  // What is returned: the size asked for, and the IQN under which the target is presented, or
  // the recorded one if the recorded identifiers present the volume. Without faults a target
  // that has the volume's name is the one returned. A new target is reached through the
  // configured groups.
  ghost predicate Answers(p: Request, c: Config, s: Store, f: Schedule, s': Store, v: Volume) {
    && v.capacity == p.size
    && (NamedAnswer(s', p, c.basename, v) || (s' == s && StoredAnswer(s, p, v)))
    && (Pending(f) == 0 && !NoNamedTarget(s, p) ==> NamedAnswer(s', p, c.basename, v))
    && ReachesNew(s, s', c.reach)
  }

  // Without faults a returned volume is recorded on its ZVOL: newly, or because it was found
  // with identifiers recorded already.
  ghost predicate Recording(p: Request, s: Store, f: Schedule, s': Store, r: Result<Volume>) {
    Pending(f) == 0 && r.Ok? ==> Noted(s', p, r.value) || (Known(s, p) && s' == s)
  }

  // Under any faults: a returned volume is usable, a failed call leaves everything that
  // existed before unchanged, nothing foreign is added, and what is left can be resumed.
  ghost predicate Safe(p: Request, s: Store, s': Store, r: Result<Volume>) {
    && WfStore(s')
    && Extends(s, s', p)
    && (r.Ok? ==> Serves(s', p, r.value))
    && (r.Err? ==> KeepsTables(s, s') && Sub(s.pool, s'.pool))
    && (Resumable(s, p) ==> Resumable(s', p))
    && (Agrees(s, p) ==> Agrees(s', p))
  }

  // Without faults a resumable state is completed; a harmless failure leaves no trace.
  ghost predicate Converges(p: Request, groups: bool, s: Store, f: Schedule, s': Store, r: Result<Volume>) {
    && (Pending(f) == 0 && Resumable(s, p) && groups ==> r.Ok?)
    && (r.Err? && Harmless(f, s, groups, p) ==> s' == s)
  }

  // Which volume is returned.
  ghost predicate Finding(p: Request, s: Store, f: Schedule, s': Store, r: Result<Volume>) {
    && (Pending(f) == 0 ==> forall t, e :: Finds(s, p, t, e) ==>
      r.Ok? && r.value.targetId == t && r.value.extentId == e)
    && (r.Ok? && Agrees(s, p) ==> Finds(s', p, r.value.targetId, r.value.extentId))
    && ((Pending(f) == 0 && r.Ok? && exists t :: NamedTarget(s, p, t)) ==>
      ByName(s', p, r.value.targetId, r.value.extentId))
    && (f == [Fine, Fine, Lost] && p.Zvol() in s.pool && SizeFits(p, s.pool[p.Zvol()].volsize) ==>
          forall t, e :: Stored(s, p, t, e) ==> r.Ok? && r.value.targetId == t && r.value.extentId == e && s' == s)
    && (NoNamedTarget(s, p) ==> forall t, e :: Stored(s, p, t, e) ==>
          s' == s && (r.Ok? ==> r.value.targetId == t && r.value.extentId == e))
  }

  lemma FailedIsSafe(s: Store, f: Schedule, m: Store, groups: bool, p: Request, error: Error)
    requires WfStore(s) && Failed(s, f, m, groups, p, error) && (Agrees(s, p) ==> Committed(s, p) || m == s)
    ensures Safe(p, s, m, Err(error)) && Converges(p, groups, s, f, m, Err(error))
  {
    if Resumable(s, p) { BuildingResumable(s, m, p); }
    if Agrees(s, p) && m != s { BuildingAgrees(s, m, p); }
  }

  lemma BuiltIsSafe(s: Store, m: Store, p: Request, v: Volume)
    requires WfStore(s) && WfStore(m) && Built(s, m, p, v)
    ensures Safe(p, s, m, Ok(v)) && Finds(m, p, v.targetId, v.extentId)
  {
    if Resumable(s, p) { BuildingResumable(s, m, p); }
  }

  lemma FoundIsSafe(s: Store, m: Store, p: Request, v: Volume)
    requires WfStore(s) && WfStore(m) && p.Zvol() in s.pool && SizeFits(p, s.pool[p.Zvol()].volsize)
    requires (ByName(s, p, v.targetId, v.extentId) && (m == s || m == WithRecord(s, p, v)))
             || (Stored(s, p, v.targetId, v.extentId) && m == s)
    ensures Safe(p, s, m, Ok(v))
    ensures Agrees(s, p) ==> Finds(m, p, v.targetId, v.extentId)
    ensures ByName(s, p, v.targetId, v.extentId) ==> ByName(m, p, v.targetId, v.extentId)
  {
    if m != s {
      RecordAgrees(s, p, v);
      if Resumable(s, p) { BuildingResumable(s, m, p); }
    }
  }

  lemma FoundIsFinding(p: Request, basename: string, s: Store, f: Schedule, g: Schedule, s': Store,
          r: Result<Option<Volume>>)
    requires HandledQuietly(p, basename, s, g, s', r) && r.Ok? && r.value.Some?
    requires g == Tail(Tail(f)) && Pending(g) == Pending(f) && p.Zvol() in s.pool
    requires var v := r.value.value;
      && (Agrees(s, p) ==> Finds(s', p, v.targetId, v.extentId))
      && (ByName(s, p, v.targetId, v.extentId) ==> ByName(s', p, v.targetId, v.extentId))
    ensures Finding(p, s, f, s', Ok(r.value.value))
  {
    var v := r.value.value;
    assert f == [Fine, Fine, Lost] ==> g == [Lost];
    if NoNamedTarget(s, p) {
      assert forall t, e :: Stored(s, p, t, e) ==> v.targetId == t && v.extentId == e;
    }
  }

  lemma FoundIsAttempt(p: Request, c: Config, s: Store, f: Schedule, g: Schedule, s': Store, g': Schedule,
          r: Result<Option<Volume>>)
    requires WfStore(s) && WfStore(s') && p.Zvol() in s.pool && SizeFits(p, s.pool[p.Zvol()].volsize)
    requires Handled(p, c.basename, s, g, s', g', r) && r.Ok? && r.value.Some?
    requires g == Tail(Tail(f)) && Pending(g) == Pending(f)
    ensures Attempt(p, c, s, f, s', Ok(r.value.value))
  {
    FoundIsSafe(s, s', p, r.value.value);
    FoundIsFinding(p, c.basename, s, f, g, s', r);
  }

  lemma RefusedIsAttempt(p: Request, c: Config, s: Store, f: Schedule, error: Error)
    requires WfStore(s)
    requires Explains(error, s, f, [], true, p)
    requires !Answered(p, s, f) ==>
      error == if Head(f).Fine? && Head(Tail(f)).Fine? then AlreadyExists else Internal
    requires Pending(f) == 0 ==> forall t, e :: !Finds(s, p, t, e)
    requires f == [Fine, Fine, Lost] && p.Zvol() in s.pool && SizeFits(p, s.pool[p.Zvol()].volsize)
             ==> forall t, e :: !Stored(s, p, t, e)
    ensures Attempt(p, c, s, f, s, Err(error))
  {
  }

  // Nothing that is there answers an attempt on s with schedule f, and what is there may be
  // built on; h is what the lookups left of the schedule.
  ghost predicate MustBuild(p: Request, s: Store, f: Schedule, h: Schedule) {
    && Committed(s, p) && Later(f, h) && Answered(p, s, f)
    && (Pending(f) == 0 ==> forall t, e :: !Finds(s, p, t, e))
    && (f == [Fine, Fine, Lost] ==> forall t, e :: !(p.Zvol() in s.pool && Stored(s, p, t, e)))
  }

  // The part of an attempt that finds the ZVOL there; None: the rest must be built.
  method Resume(nas: Client, p: Request, existing: Dataset, ghost f: Schedule) returns (r: Option<Result<Volume>>)
    requires WfStore(nas.st) && p.Zvol() in nas.st.pool && existing == nas.st.pool[p.Zvol()]
    requires Head(f).Fine? && Head(Tail(f)).Fine? && nas.faults == Tail(Tail(f))
    modifies nas
    ensures r.Some? ==> Attempt(p, ConfigOf(nas, p), old(nas.st), f, nas.st, r.value)
    ensures r.None? ==>
      nas.st == old(nas.st) && SizeFits(p, existing.volsize) && MustBuild(p, old(nas.st), f, nas.faults)
  {
    ghost var s, g, c := nas.st, nas.faults, ConfigOf(nas, p);
    var found := HandleExisting(nas, p, existing);
    if found.Err? {
      RefusedIsAttempt(p, c, s, f, found.error);
      return Some(Err(found.error));
    }
    if found.value.Some? {
      FoundIsAttempt(p, c, s, f, g, nas.st, nas.faults, found);
      return Some(Ok(found.value.value));
    }
    r := None;
  }

  // CreateVolume for protocol iscsi.
  method CreateIscsiVolume(nas: Client, p: Request) returns (r: Result<Volume>)
    requires WfStore(nas.st)
    modifies nas
    ensures Attempt(p, ConfigOf(nas, p), old(nas.st), old(nas.faults), nas.st, r)
  {
    ghost var s, f, c := nas.st, nas.faults, ConfigOf(nas, p);
    var config := nas.GlobalConfig();
    if config.Err? {
      RefusedIsAttempt(p, c, s, f, Internal);
      return Err(Internal);
    }
    var q := nas.GetDataset(p.Zvol());
    if q.Err? {
      RefusedIsAttempt(p, c, s, f, Internal);
      return Err(Internal);
    }
    if q.value.Some? {
      var found := Resume(nas, p, q.value.value, f);
      if found.Some? { return found.value; }
    }
    ghost var h := nas.faults;
    r := Build(nas, p, q.value.Some?, config.value);
    BuildIsAttempt(p, c, s, f, h, nas.st, r);
  }

  lemma BuildIsAttempt(p: Request, c: Config, s: Store, f: Schedule, h: Schedule, s': Store, r: Result<Volume>)
    requires WfStore(s) && WfStore(s') && MustBuild(p, s, f, h)
    requires r.Ok? ==> Built(s, s', p, r.value) && (Pending(f) == 0 ==> Noted(s', p, r.value))
    requires r.Ok? ==>
      r.value.capacity == p.size && r.value.iqn == c.basename + ":" + p.name && ReachesNew(s, s', c.reach)
    requires r.Err? ==> Failed(s, h, s', c.groups, p, r.error)
    ensures Attempt(p, c, s, f, s', r)
  {
    if r.Ok? { BuiltIsSafe(s, s', p, r.value); } else { FailedIsSafe(s, h, s', c.groups, p, r.error); }
    if NoNamedTarget(s, p) {
      assert forall u, e :: !Stored(s, p, u, e);
    }
  }

  // ---------------------------------------------------------------- Runs of attempts

  // A mapping of the volume's target or to its ZVOL.
  ghost predicate Mine(s: Store, p: Request, l: int) {
    l in s.luns && (NamedTarget(s, p, s.luns[l].target) || Backs(s, p, s.luns[l].extent))
  }

  // Whatever of the volume is in s is in s', unchanged but for the ZVOL's snapshots and origin.
  ghost predicate Leaves(s: Store, s': Store, p: Request) {
    && (p.Zvol() in s.pool ==>
          && p.Zvol() in s'.pool && s'.pool[p.Zvol()].volsize == s.pool[p.Zvol()].volsize
          && s'.pool[p.Zvol()].props == s.pool[p.Zvol()].props)
    && (forall e :: e in s.extents && (s.extents[e].name == p.name || Backs(s, p, e)) ==>
          e in s'.extents && s'.extents[e] == s.extents[e])
    && (forall t :: NamedTarget(s, p, t) ==> NamedTarget(s', p, t))
    && (forall l :: Mine(s, p, l) ==>
          l in s'.luns && s'.luns[l] == s.luns[l] && LunsOf(s, s.luns[l].target) <= LunsOf(s', s.luns[l].target))
  }

  // Calls for other names may create and delete anything, and may be given identifiers that
  // are recorded for this volume, but touch nothing that is this volume's and add nothing to it.
  ghost predicate Bystander(s: Store, s': Store, p: Request) {
    WfStore(s') && Leaves(s, s', p) && Leaves(s', s, p)
  }

  // One step of a run: an attempt, with its schedule and result, or calls for other names.
  datatype Step =
    | Try(faults: Schedule, result: Result<Volume>, after: Store)
    | Elsewhere(after: Store)
  {
    ghost predicate From(p: Request, c: Config, s: Store) {
      match this
      case Try(f, r, s') => Attempt(p, c, s, f, s', r)
      case Elsewhere(s') => Bystander(s, s', p)
    }
  }

  // steps are attempts for one request, with calls for other names in between; the first
  // begins in s.
  ghost predicate Run(p: Request, c: Config, s: Store, steps: seq<Step>)
    decreases |steps|
  {
    steps == [] || (steps[0].From(p, c, s) && Run(p, c, steps[0].after, steps[1..]))
  }

  ghost function Last(s: Store, steps: seq<Step>): Store {
    if steps == [] then s else steps[|steps| - 1].after
  }

  lemma BystanderResumable(s: Store, s': Store, p: Request)
    requires WfStore(s) && Bystander(s, s', p) && Resumable(s, p)
    ensures Resumable(s', p)
  {
    forall l | l in s'.luns && NamedTarget(s', p, s'.luns[l].target)
      ensures Mine(s, p, l) && s'.luns[l] == s.luns[l] && NamedTarget(s, p, s.luns[l].target)
    {
      assert Mine(s', p, l);
    }
  }

  lemma BystanderMaps(s: Store, s': Store, p: Request, t: int, e: int)
    requires Bystander(s, s', p) && MapsOnly(s', t, e) && Backs(s', p, e)
    ensures MapsOnly(s, t, e)
  {
    var l :| l in s'.luns && s'.luns[l] == Lun(t, e, 0) && LunsOf(s', t) == {l};
    assert Mine(s', p, l) && Mine(s, p, l);
    assert LunsOf(s, t) == {l};
  }

  // What presents the volume is the same before and after.
  lemma BystanderFinds(s: Store, s': Store, p: Request, t: int, e: int)
    requires WfStore(s) && Bystander(s, s', p)
    ensures ByName(s', p, t, e) <==> ByName(s, p, t, e)
    ensures Stored(s', p, t, e) <==> Stored(s, p, t, e)
    ensures NamedTarget(s', p, t) <==> NamedTarget(s, p, t)
  {
    if MapsOnly(s', t, e) && Backs(s', p, e) { BystanderMaps(s, s', p, t, e); }
    if MapsOnly(s, t, e) && Backs(s, p, e) { BystanderMaps(s', s, p, t, e); }
  }

  lemma BystanderAgrees(s: Store, s': Store, p: Request)
    requires WfStore(s) && Bystander(s, s', p)
    ensures Agrees(s, p) ==> Agrees(s', p)
    ensures forall t, e :: Finds(s, p, t, e) ==> Finds(s', p, t, e)
  {
    forall t, e ensures ByName(s', p, t, e) <==> ByName(s, p, t, e) { BystanderFinds(s, s', p, t, e); }
    forall t, e ensures Stored(s', p, t, e) <==> Stored(s, p, t, e) { BystanderFinds(s, s', p, t, e); }
    forall t ensures NamedTarget(s', p, t) <==> NamedTarget(s, p, t) { BystanderFinds(s, s', p, t, 0); }
  }

  // Anything a store holds. Of the request's own ZVOL an attempt may set properties.
  datatype Object = AnExtent(id: int) | ATarget(id: int) | ALun(id: int) | ADataset(path: string)

  // o is in s, and in s' exactly as it was.
  ghost predicate Same(s: Store, s': Store, o: Object) {
    match o
    case AnExtent(id) => id in s.extents && id in s'.extents && s'.extents[id] == s.extents[id]
    case ATarget(id) => id in s.targets && id in s'.targets && s'.targets[id] == s.targets[id]
    case ALun(id) => id in s.luns && id in s'.luns && s'.luns[id] == s.luns[id]
    case ADataset(d) => d in s.pool && d in s'.pool && s'.pool[d] == s.pool[d]
  }

  // No call for another name changes o in the course of the run.
  ghost predicate OthersKeep(s: Store, steps: seq<Step>, o: Object)
    decreases |steps|
  {
    steps == [] ||
    ((steps[0].Elsewhere? ==> Same(s, steps[0].after, o)) && OthersKeep(steps[0].after, steps[1..], o))
  }

  lemma StepTouchesNothing(p: Request, c: Config, s: Store, step: Step, o: Object)
    requires step.From(p, c, s) && Same(s, s, o) && o != ADataset(p.Zvol())
    requires step.Elsewhere? ==> Same(s, step.after, o)
    ensures Same(s, step.after, o)
  {
  }

  lemma SameTrans(s: Store, s': Store, s'': Store, o: Object)
    ensures Same(s, s', o) ==> Same(s', s', o)
    ensures Same(s, s', o) && Same(s', s'', o) ==> Same(s, s'', o)
  {
  }

  // No attempt changes or removes anything that was there before the run.
  lemma {:induction false} AttemptsTouchNothing(p: Request, c: Config, s: Store, steps: seq<Step>, o: Object)
    requires Run(p, c, s, steps) && Same(s, s, o) && o != ADataset(p.Zvol()) && OthersKeep(s, steps, o)
    ensures Same(s, Last(s, steps), o)
    decreases |steps|
  {
    if steps != [] {
      assert Last(steps[0].after, steps[1..]) == Last(s, steps);
      StepTouchesNothing(p, c, s, steps[0], o);
      SameTrans(s, steps[0].after, Last(s, steps), o);
      AttemptsTouchNothing(p, c, steps[0].after, steps[1..], o);
    }
  }

  lemma StepKeepsResumable(p: Request, c: Config, s: Store, step: Step)
    requires WfStore(s) && step.From(p, c, s)
    ensures WfStore(step.after)
    ensures Resumable(s, p) ==> Resumable(step.after, p)
    ensures Agrees(s, p) ==> Agrees(step.after, p)
  {
    if step.Elsewhere? {
      BystanderAgrees(s, step.after, p);
      if Resumable(s, p) { BystanderResumable(s, step.after, p); }
    }
  }

  lemma {:induction false} RunKeepsResumable(p: Request, c: Config, s: Store, steps: seq<Step>)
    requires WfStore(s) && Run(p, c, s, steps)
    ensures WfStore(Last(s, steps))
    ensures Resumable(s, p) ==> Resumable(Last(s, steps), p)
    ensures Agrees(s, p) ==> Agrees(Last(s, steps), p)
    decreases |steps|
  {
    if steps != [] {
      assert Last(steps[0].after, steps[1..]) == Last(s, steps);
      StepKeepsResumable(p, c, s, steps[0]);
      RunKeepsResumable(p, c, steps[0].after, steps[1..]);
    }
  }

  // However many attempts for one request were interrupted, wherever and however their calls
  // failed, and whatever calls for other names came in between: what they left can be
  // resumed, and the next attempt without faults succeeds.
  lemma InterruptedAttemptsConverge(p: Request, c: Config, s: Store, steps: seq<Step>, f: Schedule, s': Store,
          r: Result<Volume>)
    requires WfStore(s) && Resumable(s, p) && Run(p, c, s, steps)
    requires Attempt(p, c, Last(s, steps), f, s', r)
    ensures Resumable(Last(s, steps), p)
    ensures Pending(f) == 0 && c.groups ==> r.Ok? && Serves(s', p, r.value)
  {
    RunKeepsResumable(p, c, s, steps);
  }

  lemma SubTrans<K, V>(a: map<K, V>, b: map<K, V>, c: map<K, V>)
    requires Sub(a, b) && Sub(b, c)
    ensures Sub(a, c)
  {
  }

  lemma ExtendsTrans(a: Store, b: Store, c: Store, p: Request)
    requires WfTables(c) && Extends(a, b, p) && Extends(b, c, p)
    ensures Extends(a, c, p)
  {
    SubTrans(a.extents, b.extents, c.extents);
    SubTrans(a.targets, b.targets, c.targets);
    SubTrans(a.luns, b.luns, c.luns);
    forall l | l in c.luns && l !in a.luns ensures OwnLun(c, p, l) {
      if l in b.luns {
        assert OwnLun(b, p, l) && NamedTarget(c, p, c.luns[l].target);
        forall k | k in c.luns && c.luns[k].target == c.luns[l].target ensures k == l {
          if k !in b.luns { assert OwnLun(c, p, k); }
        }
      }
    }
  }

  lemma ExtendsSelf(s: Store, p: Request)
    ensures Extends(s, s, p)
  {
  }

  // Attempts in a row add nothing but this volume's own objects.
  lemma {:induction false} AttemptsAddOnlyTheirOwn(p: Request, c: Config, s: Store, steps: seq<Step>)
    requires WfStore(s) && Run(p, c, s, steps) && forall k :: 0 <= k < |steps| ==> steps[k].Try?
    ensures WfStore(Last(s, steps)) && Extends(s, Last(s, steps), p)
    decreases |steps|
  {
    if steps == [] {
      ExtendsSelf(s, p);
    } else {
      var next := steps[0].after;
      assert Last(next, steps[1..]) == Last(s, steps);
      AttemptsAddOnlyTheirOwn(p, c, next, steps[1..]);
      ExtendsTrans(s, next, Last(s, steps), p);
    }
  }

  // A volume that can be found stays the one that is found, and every later success, under
  // any faults, returns it.
  lemma FoundStaysFound(p: Request, c: Config, s: Store, f: Schedule, s': Store, r: Result<Volume>, t: int, e: int)
    requires WfStore(s) && Attempt(p, c, s, f, s', r) && Agrees(s, p) && Finds(s, p, t, e)
    ensures Finds(s', p, t, e)
    ensures r.Ok? ==> r.value.targetId == t && r.value.extentId == e
  {
    if ByName(s, p, t, e) {
      var l :| l in s.luns && s.luns[l] == Lun(t, e, 0) && LunsOf(s, t) == {l};
      forall k | k in LunsOf(s', t) ensures k == l {
        assert k in s.luns ==> k in LunsOf(s, t);
        assert k !in s.luns ==> OwnLun(s', p, k);
      }
      assert LunsOf(s', t) == {l};
      assert ByName(s', p, t, e);
    }
  }

  lemma StepKeepsFound(p: Request, c: Config, s: Store, step: Step, t: int, e: int)
    requires WfStore(s) && Agrees(s, p) && step.From(p, c, s) && Finds(s, p, t, e)
    ensures WfStore(step.after) && Agrees(step.after, p) && Finds(step.after, p, t, e)
    ensures step.Try? && step.result.Ok? ==> step.result.value.targetId == t && step.result.value.extentId == e
  {
    StepKeepsResumable(p, c, s, step);
    if step.Try? {
      FoundStaysFound(p, c, s, step.faults, step.after, step.result, t, e);
    } else {
      BystanderAgrees(s, step.after, p);
    }
  }

  lemma {:induction false} FoundThroughout(p: Request, c: Config, s: Store, steps: seq<Step>, t: int, e: int, k: nat)
    requires WfStore(s) && Agrees(s, p) && Run(p, c, s, steps) && Finds(s, p, t, e)
    requires k < |steps| && steps[k].Try? && steps[k].result.Ok?
    ensures steps[k].result.value.targetId == t && steps[k].result.value.extentId == e
    decreases |steps|
  {
    StepKeepsFound(p, c, s, steps[0], t, e);
    if k > 0 { FoundThroughout(p, c, steps[0].after, steps[1..], t, e, k - 1); }
  }

  // Once an attempt has returned a volume, every later successful attempt returns the same
  // identifiers, whatever fails and whatever other names' calls do in between.
  lemma EverySuccessReturnsTheSame(p: Request, c: Config, s: Store, f: Schedule, s1: Store, v: Volume,
          steps: seq<Step>, k: nat)
    requires WfStore(s) && Agrees(s, p)
    requires Attempt(p, c, s, f, s1, Ok(v)) && Run(p, c, s1, steps)
    requires k < |steps| && steps[k].Try? && steps[k].result.Ok?
    ensures steps[k].result.value.SameIds(v)
  {
    FoundThroughout(p, c, s1, steps, v.targetId, v.extentId, k);
  }

  // A returned volume in plain words: the ZVOL of the asked path and size, behind the extent
  // and LUN 0 of a target that has nothing else, under the configured or the recorded IQN; a
  // ZVOL that was not there before is marked as this volume's.
  lemma SuccessIsUsable(p: Request, c: Config, s: Store, f: Schedule, s': Store, v: Volume)
    requires Attempt(p, c, s, f, s', Ok(v))
    ensures var zvol := p.parent + "/" + p.name;
      && zvol in s'.pool && (s'.pool[zvol].volsize == p.size || s'.pool[zvol].volsize <= 0) && v.capacity == p.size
      && v.extentId in s'.extents && s'.extents[v.extentId].disk == "zvol/" + zvol
      && v.targetId in s'.targets
      && (exists l :: l in s'.luns && s'.luns[l] == Lun(v.targetId, v.extentId, 0)
                      && forall k :: k in s'.luns && s'.luns[k].target == v.targetId ==> k == l)
      && ((v.iqn == c.basename + ":" + p.name && s'.targets[v.targetId].name == p.name)
          || (zvol in s.pool && v.iqn == s.pool[zvol].props.iqn && s.pool[zvol].props.targetId == Some(v.targetId)))
      && (v.targetId !in s.targets ==> s'.targets[v.targetId] == Target(p.name, c.reach))
      && (zvol !in s.pool ==>
            && s'.pool[zvol].volsize == p.size && s'.pool[zvol].props.managedBy == Some("tns-csi")
            && s'.pool[zvol].props.volume == Some(p.name) && s'.pool[zvol].props.strategy == p.strategy)
  {
    var l :| l in s'.luns && s'.luns[l] == Lun(v.targetId, v.extentId, 0) && LunsOf(s', v.targetId) == {l};
    assert forall k :: k in s'.luns && s'.luns[k].target == v.targetId ==> k in LunsOf(s', v.targetId);
  }

  // Where nothing carries the volume's name yet, a call during which no server call fails
  // creates it, and one during which a single server call fails without effect leaves no trace.
  lemma FirstCreate(p: Request, c: Config, s: Store, f: Schedule, k: nat, s': Store, r: Result<Volume>)
    requires WfStore(s) && Attempt(p, c, s, f, s', r) && c.groups
    requires p.parent + "/" + p.name !in s.pool
    requires forall e :: e in s.extents ==> s.extents[e].name != p.name
    requires forall t :: t in s.targets ==> s.targets[t].name != p.name
    requires forall i :: 0 <= i < |f| && i != k ==> f[i] == Fine
    requires k < |f| ==> f[k] == Lost
    ensures k >= |f| ==> r.Ok?
    ensures r.Err? ==> s' == s
    ensures Resumable(s', p) && Agrees(s', p)
  {
    OnlyOneLost(f, k);
    assert Resumable(s, p);
  }

  // A repeat without faults succeeds with the same identifiers if names and records agree. It
  // returns the very same volume unless the first call read another IQN from the ZVOL while
  // there was a target with the volume's name ...
  lemma RepeatReturnsTheSame(p: Request, c: Config, s: Store, f: Schedule, s1: Store, v: Volume, s2: Store, s3: Store,
          r: Result<Volume>)
    requires WfStore(s) && Agrees(s, p)
    requires Attempt(p, c, s, f, s1, Ok(v)) && Bystander(s1, s2, p) && Attempt(p, c, s2, [], s3, r)
    ensures r.Ok? && r.value.SameIds(v)
    ensures r.value == v <==> NoNamedTarget(s1, p) || v.iqn == c.basename + ":" + p.name
  {
    BystanderAgrees(s1, s2, p);
    BystanderFinds(s1, s2, p, v.targetId, v.extentId);
    forall t ensures NamedTarget(s2, p, t) <==> NamedTarget(s1, p, t) { BystanderFinds(s1, s2, p, t, v.extentId); }
  }

  // ... and only if they do: when they disagree, a first call whose lookup of the target by
  // name fails returns the recorded volume, and the repeat without faults does not.
  lemma DisagreementBreaksTheRepeat(p: Request, c: Config, s: Store, s1: Store, r1: Result<Volume>, s2: Store,
          r2: Result<Volume>)
    requires WfStore(s) && !Agrees(s, p) && p.Zvol() in s.pool && SizeFits(p, s.pool[p.Zvol()].volsize)
    requires Attempt(p, c, s, [Fine, Fine, Lost], s1, r1) && Attempt(p, c, s1, [], s2, r2)
    ensures r1.Ok? && !(r2.Ok? && r2.value.SameIds(r1.value))
  {
    var t, u, e :| NamedTarget(s, p, t) && Stored(s, p, u, e) && !ByName(s, p, u, e);
    assert r1.Ok? && r1.value.targetId == u && r1.value.extentId == e && s1 == s;
    if r2.Ok? && r2.value.SameIds(r1.value) {
      assert ByName(s2, p, u, e);
      assert ByName(s, p, u, e);
    }
  }

  // Names and records can disagree: the recorded target still presents the ZVOL while a
  // target with the volume's name exists beside it.
  lemma DisagreementExists() returns (p: Request, s: Store)
    ensures WfStore(s) && !Agrees(s, p) && p.Zvol() in s.pool && SizeFits(p, s.pool[p.Zvol()].volsize)
  {
    p := Request("pvc-1", "tank", 1, 1, 1, "delete");
    var props := p.OwnProps().(targetId := Some(2), extentId := Some(5), iqn := "iqn:old");
    var pool := map[p.Zvol() := Dataset(1, props, None, [])];
    s := Store(pool, map[5 := Extent("old", p.Disk())],
               map[1 := Target("pvc-1", NO_GROUPS), 2 := Target("old", NO_GROUPS)],
               map[9 := Lun(2, 5, 0)], map[], map[]);
    assert Ranked(pool, map[p.Zvol() := 0]);
    assert LunsOf(s, 2) == {9};
    assert NamedTarget(s, p, 1) && Stored(s, p, 2, 5);
    assert !ByName(s, p, 2, 5);
  }
}
