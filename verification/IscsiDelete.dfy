// DeleteVolume for iSCSI: the presentation (mappings, target, extent) goes first and the
// ZVOL, which records the identifiers a retry needs, goes last.
module IscsiDelete {
  import opened Results
  import opened Text
  import opened Zfs
  import opened Nas
  import opened Ownership
  import opened Promotion
  import opened SnapshotGuard

  // What the caller knows of the volume when the delete starts.
  datatype Meta = Meta(name: string, zvol: string, targetId: int, extentId: int, iqn: string) {
    function Device(): string { "zvol/" + zvol }

    // The target is named after the volume, or the recorded IQN ends in its name.
    predicate OwnsTarget(t: Target) {
      t.name == Base(name) || (iqn != "" && EndsWith(iqn, ":" + t.name))
    }

    predicate OwnsExtent(e: Extent) { e.disk == Device() }
  }

  // ---------------------------------------------------------------- Ownership

  // The target of m is there and is the volume's own.
  predicate HasTarget(s: Store, m: Meta) {
    m.targetId != 0 && m.targetId in s.targets && m.OwnsTarget(s.targets[m.targetId])
  }

  predicate HasExtent(s: Store, m: Meta) {
    m.extentId != 0 && m.extentId in s.extents && m.OwnsExtent(s.extents[m.extentId])
  }

  // A recorded identifier replaces a different one of the caller's, but fills in no missing one.
  function Reconciled(own: int, stored: int): int {
    if stored > 0 && own > 0 && stored != own then stored else own
  }

  function Effective(m: Meta, props: Props): Meta {
    m.(targetId := Reconciled(m.targetId, IdOf(props.targetId)),
       extentId := Reconciled(m.extentId, IdOf(props.extentId)))
  }

  // ---------------------------------------------------------------- Teardown

  // Each of the two recorded identifiers is as it was, or cleared because its object is gone.
  ghost predicate Forgets(m: Meta, s: Store, props: Props, props': Props) {
    && (props' == props.(targetId := props'.targetId, extentId := props'.extentId))
    && (props'.targetId == props.targetId || (props'.targetId == Some(0) && !HasTarget(s, m)))
    && (props'.extentId == props.extentId || (props'.extentId == Some(0) && !HasExtent(s, m)))
  }

  // s' is s with part of m's presentation removed, target before extent, and nothing else.
  ghost predicate Torn(m: Meta, s: Store, s': Store) {
    && WfStore(s')
    && TornTables(m, s, s')
    && (s'.pool == s.pool
        || (m.zvol in s.pool && m.zvol in s'.pool
            && s'.pool == s.pool[m.zvol := s.pool[m.zvol].(props := s'.pool[m.zvol].props)]
            && Forgets(m, s', s.pool[m.zvol].props, s'.pool[m.zvol].props)))
  }

  ghost predicate TornTables(m: Meta, s: Store, s': Store) {
    && s'.namespaces == s.namespaces && s'.subsystems == s.subsystems
    && (s'.targets == s.targets || (HasTarget(s, m) && s'.targets == s.targets - {m.targetId}))
    && (s'.extents == s.extents
        || (HasExtent(s, m) && !HasTarget(s', m) && s'.extents == s.extents - {m.extentId}))
    && LunsTorn(m, s, s'.luns)
  }

  // Only mappings of the volume's own target or extent are removed.
  ghost predicate LunsTorn(m: Meta, s: Store, luns: map<int, Lun>) {
    && (forall l :: l in luns ==> l in s.luns && luns[l] == s.luns[l])
    && (forall l :: l in s.luns && l !in luns ==>
          (HasTarget(s, m) && s.luns[l].target == m.targetId) || (HasExtent(s, m) && s.luns[l].extent == m.extentId))
  }

  lemma TornSelf(m: Meta, s: Store)
    requires WfStore(s)
    ensures Torn(m, s, s)
  {
  }

  lemma TearLun(m: Meta, s: Store, x: Store, l: int)
    requires Torn(m, s, x) && HasTarget(x, m) && l in x.luns && x.luns[l].target == m.targetId
    ensures Torn(m, s, x.(luns := x.luns - {l}))
  {
  }

  lemma TearTarget(m: Meta, s: Store, x: Store)
    requires Torn(m, s, x) && HasTarget(x, m)
    ensures Torn(m, s, DropTarget(x, m.targetId)) && !HasTarget(DropTarget(x, m.targetId), m)
  {
  }

  lemma TearExtent(m: Meta, s: Store, x: Store)
    requires Torn(m, s, x) && HasExtent(x, m) && !HasTarget(x, m)
    ensures Torn(m, s, DropExtent(x, m.extentId)) && !HasExtent(DropExtent(x, m.extentId), m)
  {
  }

  lemma TornProps(m: Meta, s: Store, x: Store, props: Props)
    requires Torn(m, s, x) && m.zvol in x.pool && Forgets(m, x, s.pool[m.zvol].props, props)
    ensures Torn(m, s, WithProps(x, m.zvol, props))
  {
    SetPropsKeepsWf(x.pool, m.zvol, props);
  }

  lemma ForgetTarget(m: Meta, s: Store, x: Store)
    requires Torn(m, s, x) && m.zvol in x.pool && !HasTarget(x, m)
    ensures Torn(m, s, WithProps(x, m.zvol, x.pool[m.zvol].props.(targetId := Some(0))))
  {
    TornProps(m, s, x, x.pool[m.zvol].props.(targetId := Some(0)));
  }

  lemma ForgetExtent(m: Meta, s: Store, x: Store)
    requires Torn(m, s, x) && m.zvol in x.pool && !HasExtent(x, m)
    ensures Torn(m, s, WithProps(x, m.zvol, x.pool[m.zvol].props.(extentId := Some(0))))
  {
    TornProps(m, s, x, x.pool[m.zvol].props.(extentId := Some(0)));
  }

  // ---------------------------------------------------------------- Steps

  method OwnedTarget(nas: Client, m: Meta) returns (r: Result<bool>)
    modifies nas`faults
    ensures Later(old(nas.faults), nas.faults)
    ensures r.Ok? ==> r.value == HasTarget(nas.st, m)
    ensures Pending(old(nas.faults)) == 0 ==> r.Ok?
  {
    if m.targetId == 0 { return Ok(false); }
    var q := nas.TargetById(m.targetId);
    if q.Err? { return Err(Unavailable); }
    r := Ok(q.value.Some? && m.OwnsTarget(q.value.value));
  }

  method OwnedExtent(nas: Client, m: Meta) returns (r: Result<bool>)
    modifies nas`faults
    ensures Later(old(nas.faults), nas.faults)
    ensures r.Ok? ==> r.value == HasExtent(nas.st, m)
    ensures Pending(old(nas.faults)) == 0 ==> r.Ok?
  {
    if m.extentId == 0 { return Ok(false); }
    var q := nas.ExtentById(m.extentId);
    if q.Err? { return Err(Unavailable); }
    r := Ok(q.value.Some? && m.OwnsExtent(q.value.value));
  }

  ghost predicate TargetForgotten(s: Store, m: Meta) {
    m.zvol in s.pool && m.zvol != "" ==> s.pool[m.zvol].props.targetId == Some(0)
  }

  ghost predicate ExtentForgotten(s: Store, m: Meta) {
    m.zvol in s.pool && m.zvol != "" ==> s.pool[m.zvol].props.extentId == Some(0)
  }

  // The identifiers the delete worked with are no longer recorded.
  ghost predicate Forgotten(s: Store, m: Meta) {
    (m.targetId != 0 ==> TargetForgotten(s, m)) && (m.extentId != 0 ==> ExtentForgotten(s, m))
  }

  // Clearing a recorded identifier is best effort.
  method ClearTargetId(nas: Client, m: Meta, ghost s: Store)
    requires Torn(m, s, nas.st) && !HasTarget(nas.st, m)
    modifies nas`st, nas`faults
    ensures Torn(m, s, nas.st)
    ensures nas.st == if m.zvol != "" && m.zvol in old(nas.st).pool && !Head(old(nas.faults)).Lost?
                      then WithProps(old(nas.st), m.zvol, old(nas.st).pool[m.zvol].props.(targetId := Some(0)))
                      else old(nas.st)
    ensures Later(old(nas.faults), nas.faults)
  {
    if m.zvol == "" { return; }
    ghost var x := nas.st;
    if m.zvol in x.pool { ForgetTarget(m, s, x); }
    var w := nas.SetProps(m.zvol, (props: Props) => props.(targetId := Some(0)));
  }

  method ClearExtentId(nas: Client, m: Meta, ghost s: Store)
    requires Torn(m, s, nas.st) && !HasExtent(nas.st, m)
    modifies nas`st, nas`faults
    ensures Torn(m, s, nas.st)
    ensures nas.st == if m.zvol != "" && m.zvol in old(nas.st).pool && !Head(old(nas.faults)).Lost?
                      then WithProps(old(nas.st), m.zvol, old(nas.st).pool[m.zvol].props.(extentId := Some(0)))
                      else old(nas.st)
    ensures Later(old(nas.faults), nas.faults)
  {
    if m.zvol == "" { return; }
    ghost var x := nas.st;
    if m.zvol in x.pool { ForgetExtent(m, s, x); }
    var w := nas.SetProps(m.zvol, (props: Props) => props.(extentId := Some(0)));
  }

  method DeleteMapping(nas: Client, m: Meta, ghost s: Store, l: int) returns (r: Result<()>)
    requires Torn(m, s, nas.st) && HasTarget(nas.st, m) && (l in nas.st.luns ==> nas.st.luns[l].target == m.targetId)
    modifies nas`st, nas`faults
    ensures Torn(m, s, nas.st) && nas.st == old(nas.st).(luns := nas.st.luns)
    ensures nas.st.luns == old(nas.st).luns || nas.st.luns == old(nas.st).luns - {l}
    ensures Later(old(nas.faults), nas.faults)
    ensures Pending(old(nas.faults)) == 0 ==> r.Ok?
  {
    if l in nas.st.luns { TearLun(m, s, nas.st, l); }
    var w := nas.DeleteLun(l);
    r := if w.Err? && w.error != NotFound then Err(Unavailable) else Ok(());
  }

  // Delete the listed mappings of the target one by one.
  method DeleteMappings(nas: Client, m: Meta, ghost s: Store) returns (r: Result<()>)
    requires Torn(m, s, nas.st) && HasTarget(nas.st, m)
    modifies nas`st, nas`faults
    ensures Torn(m, s, nas.st) && nas.st == old(nas.st).(luns := nas.st.luns)
    ensures Later(old(nas.faults), nas.faults)
    ensures Pending(old(nas.faults)) == 0 ==> r.Ok?
  {
    var q := nas.LunsByTarget(m.targetId);
    if q.Err? { return Err(Unavailable); }
    var rest := q.value.Keys;
    while rest != {}
      invariant Torn(m, s, nas.st) && nas.st == old(nas.st).(luns := nas.st.luns)
      invariant forall l :: l in rest && l in nas.st.luns ==> nas.st.luns[l].target == m.targetId
      invariant Later(old(nas.faults), nas.faults)
      decreases rest
    {
      var l := AnyOf(rest);
      rest := rest - {l};
      r := DeleteMapping(nas, m, s, l);
      if r.Err? { return; }
    }
    r := Ok(());
  }

  method RemoveTarget(nas: Client, m: Meta, ghost s: Store) returns (r: Result<()>)
    requires Torn(m, s, nas.st) && HasTarget(nas.st, m)
    modifies nas`st, nas`faults
    ensures Torn(m, s, nas.st) && nas.st.extents == old(nas.st).extents
    ensures Later(old(nas.faults), nas.faults)
    ensures r.Ok? ==> !HasTarget(nas.st, m)
    ensures Pending(old(nas.faults)) == 0 ==> r.Ok? && TargetForgotten(nas.st, m)
    ensures ExtentForgotten(old(nas.st), m) ==> ExtentForgotten(nas.st, m)
  {
    r := DeleteMappings(nas, m, s);
    if r.Err? { return; }
    TearTarget(m, s, nas.st);
    var gone := nas.DeleteTarget(m.targetId);
    if gone.Err? && gone.error != NotFound { return Err(Unavailable); }
    ClearTargetId(nas, m, s);
  }

  method RemoveExtent(nas: Client, m: Meta, ghost s: Store) returns (r: Result<()>)
    requires Torn(m, s, nas.st) && HasExtent(nas.st, m) && !HasTarget(nas.st, m)
    modifies nas`st, nas`faults
    ensures Torn(m, s, nas.st)
    ensures Later(old(nas.faults), nas.faults)
    ensures r.Ok? ==> !HasTarget(nas.st, m) && !HasExtent(nas.st, m)
    ensures Pending(old(nas.faults)) == 0 ==> r.Ok? && ExtentForgotten(nas.st, m)
    ensures TargetForgotten(old(nas.st), m) ==> TargetForgotten(nas.st, m)
  {
    TearExtent(m, s, nas.st);
    var gone := nas.DeleteExtent(m.extentId);
    if gone.Err? && gone.error != NotFound { return Err(Unavailable); }
    ClearExtentId(nas, m, s);
    r := Ok(());
  }

  // deleteISCSIPresentation.
  method DeletePresentation(nas: Client, m: Meta) returns (r: Result<()>)
    requires WfStore(nas.st)
    modifies nas`st, nas`faults
    ensures Torn(m, old(nas.st), nas.st)
    ensures Later(old(nas.faults), nas.faults)
    ensures r.Ok? ==> !HasTarget(nas.st, m) && !HasExtent(nas.st, m)
    ensures Pending(old(nas.faults)) == 0 ==> r.Ok? && Forgotten(nas.st, m)
  {
    ghost var s := nas.st;
    TornSelf(m, s);
    var target := OwnedTarget(nas, m);
    if target.Err? { return Err(Unavailable); }
    var extent := OwnedExtent(nas, m);
    if extent.Err? { return Err(Unavailable); }
    if m.targetId != 0 && !target.value { ClearTargetId(nas, m, s); }
    if m.extentId != 0 && !extent.value { ClearExtentId(nas, m, s); }
    if target.value {
      r := RemoveTarget(nas, m, s);
      if r.Err? { return Err(Unavailable); }
    }
    if extent.value {
      r := RemoveExtent(nas, m, s);
      if r.Err? { return Err(Unavailable); }
    }
    r := Ok(());
  }

  // ---------------------------------------------------------------- One attempt

  // The volume's properties allow the delete and no protected snapshot forbids it.
  ghost predicate Authorized(s: Store, name: string, zvol: string) {
    && zvol in s.pool && Belongs(name, s.pool[zvol].props) && !Retained(s.pool[zvol].props)
    && NoneProtectedOn(s.pool, zvol)
  }

  // Nor does a clone stand in its way that promotion cannot clear.
  ghost predicate Deletable(s: Store, name: string, zvol: string) {
    Authorized(s, name, zvol) && Removable(s.pool, zvol)
  }

  ghost predicate Cleared(s: Store, m: Meta) { !HasTarget(s, m) && !HasExtent(s, m) }

  // All that work on volume m may change in a store.
  ghost predicate WorksOn(m: Meta, s: Store, s': Store) {
    && TornTables(m, s, s')
    && s'.pool.Keys <= s.pool.Keys && s.pool.Keys - {m.zvol} <= s'.pool.Keys
    && KeepsProtected(s.pool, s'.pool) && KeepsElsewhere(s.pool, s'.pool, m.zvol)
    && (forall d :: d in s'.pool && d != m.zvol ==>
          s'.pool[d].volsize == s.pool[d].volsize && s'.pool[d].props == s.pool[d].props)
    && (m.zvol in s.pool && m.zvol in s'.pool ==> Forgets(m, s', s.pool[m.zvol].props, s'.pool[m.zvol].props))
  }

  // A volume that is gone is reported as deleted, and what the checks settle is settled.
  ghost predicate Screened(m: Meta, s: Store, f: Schedule, s': Store, r: Result<()>) {
    var verdict := Verdict(s, m.name, m.zvol, f);
    && (m.zvol !in s.pool ==> s' == s && r == if Head(f).Fine? then Ok(()) else Err(Unavailable))
    && (verdict.Some? ==> s' == s && r == verdict.value)
  }

  // What an error says: the owner or the snapshots forbid the delete, or a clone does once the
  // presentation is gone; otherwise a call failed.
  ghost predicate Explains(e: Error, m: Meta, s: Store, f: Schedule, s': Store) {
    match e
    case FailedPrecondition =>
      Verdict(s, m.name, m.zvol, f).Some?
      || (Blocked(s.pool, m.zvol) && Cleared(s', Effective(m, s.pool[m.zvol].props)))
    case Internal => Pending(f) > 0 && m.zvol in s.pool && Cleared(s', Effective(m, s.pool[m.zvol].props))
    case Unavailable => Pending(f) > 0
    case _ => false
  }

  // What one DeleteVolume guarantees, whatever fails: it begins in s with schedule f and
  // ends in s' with result r.
  ghost predicate Deletion(m: Meta, s: Store, f: Schedule, s': Store, r: Result<()>) {
    && WfStore(s')
    && Screened(m, s, f, s', r)
    && (r.Err? ==> Explains(r.error, m, s, f, s'))
    && (m.zvol in s.pool ==>
          var props := s.pool[m.zvol].props;
          var e := Effective(m, props);
          && WorksOn(e, s, s')
          && (s' != s ==> Belongs(m.name, props) && !Retained(props) && NoneProtectedOn(s.pool, m.zvol))
          && (m.zvol !in s'.pool ==> Cleared(s', e))
          && (r.Ok? ==> m.zvol !in s'.pool || (Retained(props) && s' == s))
          && (Pending(f) == 0 && s' != s ==> Forgotten(s', e)))
    && (Deletable(s, m.name, m.zvol) && m.zvol in s'.pool ==> Deletable(s', m.name, m.zvol))
    && (Deletable(s, m.name, m.zvol) && Pending(f) == 0 ==> r.Ok?)
    && (Stuck(s.pool, m.zvol) ==> Stuck(s'.pool, m.zvol))
  }

  lemma UntouchedIsDeletion(m: Meta, s: Store, f: Schedule, r: Result<()>)
    requires WfStore(s) && Screened(m, s, f, s, r)
    requires m.zvol in s.pool ==> Verdict(s, m.name, m.zvol, f).Some?
    ensures Deletion(m, s, f, s, r)
  {
    assert Pending(f) == 0 ==> Head(f).Fine? && Head(Tail(f)).Fine?;
  }

  // The teardown changes nothing of the pool but properties of the ZVOL.
  lemma TornPool(m: Meta, s: Store, x: Store)
    requires Torn(m, s, x)
    ensures x.pool.Keys == s.pool.Keys
    ensures forall d :: d in s.pool ==> x.pool[d] == s.pool[d].(props := x.pool[d].props)
    ensures forall d :: d in s.pool && d != m.zvol ==> x.pool[d] == s.pool[d]
    ensures m.zvol in s.pool ==> Forgets(m, x, s.pool[m.zvol].props, x.pool[m.zvol].props)
  {
  }

  lemma TornProtects(m: Meta, s: Store, x: Store)
    requires Torn(m, s, x)
    ensures KeepsProtected(s.pool, x.pool)
  {
    TornPool(m, s, x);
  }

  lemma TornDeletable(m: Meta, s: Store, x: Store)
    requires Torn(m, s, x)
    ensures NoneProtectedOn(s.pool, m.zvol) ==> NoneProtectedOn(x.pool, m.zvol)
    ensures Removable(s.pool, m.zvol) ==> Removable(x.pool, m.zvol)
    ensures NewestDeferred(x.pool, m.zvol) <==> NewestDeferred(s.pool, m.zvol)
    ensures Blocked(x.pool, m.zvol) <==> Blocked(s.pool, m.zvol)
    ensures m.zvol in s.pool ==>
      m.zvol in x.pool && (Belongs(m.name, s.pool[m.zvol].props) ==> Belongs(m.name, x.pool[m.zvol].props))
    ensures m.zvol in s.pool ==> (Retained(s.pool[m.zvol].props) <==> Retained(x.pool[m.zvol].props))
  {
    TornPool(m, s, x);
    SameRemovable(s.pool, x.pool, m.zvol);
    forall t | Protected(x.pool, m.zvol, t) ensures Protected(s.pool, m.zvol, t) {
    }
  }

  lemma TornWorksOn(m: Meta, s: Store, x: Store, s': Store)
    requires Torn(m, s, x) && s' == x.(pool := s'.pool) && Spares(x.pool, s'.pool, m.zvol)
    ensures WorksOn(m, s, s')
  {
    TornPool(m, s, x);
    TornProtects(m, s, x);
    SparesProtected(x.pool, s'.pool, m.zvol);
  }

  // Deletion of the ZVOL after its presentation is gone.
  method DestroyTorn(nas: Client, m: Meta, ghost s: Store) returns (r: Result<()>)
    requires WfStore(s) && m.zvol in s.pool && NoneProtectedOn(s.pool, m.zvol) && Torn(m, s, nas.st)
      && Cleared(nas.st, m)
    modifies nas`st, nas`faults
    ensures WfStore(nas.st) && WorksOn(m, s, nas.st) && Cleared(nas.st, m)
    ensures r.Ok? ==> m.zvol !in nas.st.pool
    ensures r.Err? ==> if r.error == FailedPrecondition then Blocked(s.pool, m.zvol)
                       else r.error == Internal && Pending(old(nas.faults)) > 0
    ensures Removable(s.pool, m.zvol) && m.zvol in nas.st.pool ==> Removable(nas.st.pool, m.zvol)
    ensures Stuck(s.pool, m.zvol) ==> Stuck(nas.st.pool, m.zvol)
    ensures NoneProtectedOn(nas.st.pool, m.zvol)
    ensures Removable(s.pool, m.zvol) && Pending(old(nas.faults)) == 0 ==> r.Ok?
    ensures Forgotten(old(nas.st), m) ==> Forgotten(nas.st, m)
  {
    ghost var x := nas.st;
    TornDeletable(m, s, x);
    TornPool(m, s, x);
    r := DestroyIscsiZvol(nas, m.zvol);
    TornWorksOn(m, s, x, nas.st);
  }

  // What the delete does to the volume, once the checks have allowed it, makes up a deletion.
  lemma WorkIsDeletion(m: Meta, e: Meta, s: Store, f: Schedule, s': Store, r: Result<()>)
    requires m.zvol in s.pool && e == Effective(m, s.pool[m.zvol].props) && WfStore(s')
    requires Verdict(s, m.name, m.zvol, f) == None && WorksOn(e, s, s') && NoneProtectedOn(s'.pool, m.zvol)
    requires (m.zvol !in s'.pool ==> Cleared(s', e)) && (r.Ok? ==> m.zvol !in s'.pool)
    requires Stuck(s.pool, m.zvol) ==> Stuck(s'.pool, m.zvol)
    requires Removable(s.pool, m.zvol) && m.zvol in s'.pool ==> Removable(s'.pool, m.zvol)
    requires Pending(f) == 0 ==> Forgotten(s', e) && (Removable(s.pool, m.zvol) ==> r.Ok?)
    requires r.Err? ==> Explains(r.error, m, s, f, s')
    ensures Deletion(m, s, f, s', r)
  {
  }

  // The delete once ownership and snapshots allow it; e is m with the recorded identifiers.
  method DeleteVerified(nas: Client, m: Meta, e: Meta, ghost f: Schedule) returns (r: Result<()>)
    requires WfStore(nas.st) && m.zvol in nas.st.pool && e == Effective(m, nas.st.pool[m.zvol].props)
    requires Verdict(nas.st, m.name, m.zvol, f) == None && Pending(nas.faults) <= Pending(f)
    modifies nas`st, nas`faults
    ensures Deletion(m, old(nas.st), f, nas.st, r)
  {
    ghost var s := nas.st;
    var torn := DeletePresentation(nas, e);
    TornDeletable(e, s, nas.st);
    if torn.Err? {
      SparesSelf(nas.st.pool, e.zvol);
      TornWorksOn(e, s, nas.st, nas.st);
      WorkIsDeletion(m, e, s, f, nas.st, Err(Unavailable));
      return Err(Unavailable);
    }
    r := DestroyTorn(nas, e, s);
    WorkIsDeletion(m, e, s, f, nas.st, r);
  }

  // deleteISCSIVolume.
  method DeleteIscsiVolume(nas: Client, m: Meta) returns (r: Result<()>)
    requires WfStore(nas.st) && "" !in nas.st.pool
    modifies nas`st, nas`faults
    ensures Deletion(m, old(nas.st), old(nas.faults), nas.st, r)
  {
    ghost var s, f := nas.st, nas.faults;
    var ownership := ReadOwnership(nas, m.name, m.zvol);
    if ownership.Err? { return Err(ownership.error); }
    if ownership.value.None? { return Ok(()); }
    var props := ownership.value.value;
    if Retained(props) { return Ok(()); }
    if m.zvol != "" {
      var guarded := HasCsiSnapshots(nas, m.zvol);
      if guarded.Err? {
        UntouchedIsDeletion(m, s, f, Err(Unavailable));
        return Err(Unavailable);
      }
      if guarded.value {
        UntouchedIsDeletion(m, s, f, Err(FailedPrecondition));
        return Err(FailedPrecondition);
      }
    }
    r := DeleteVerified(nas, m, Effective(m, props), f);
  }

  // ---------------------------------------------------------------- Runs of attempts

  // In plain words, all a delete may take: targets that have the volume's name or that of the
  // recorded IQN, extents on the ZVOL's device, mappings of these, and the ZVOL.
  ghost predicate Foreign(m: Meta, t: Target) {
    t.name != Base(m.name) && (m.iqn == "" || !EndsWith(m.iqn, ":" + t.name))
  }

  lemma OnlyOwnGoes(m: Meta, s: Store, f: Schedule, s': Store, r: Result<()>, t: int, e: int, l: int, d: string)
    requires WfStore(s) && Deletion(m, s, f, s', r)
    ensures t in s.targets && Foreign(m, s.targets[t]) ==> t in s'.targets && s'.targets[t] == s.targets[t]
    ensures e in s.extents && s.extents[e].disk != "zvol/" + m.zvol ==>
              e in s'.extents && s'.extents[e] == s.extents[e]
    ensures l in s.luns && Foreign(m, s.targets[s.luns[l].target])
            && s.extents[s.luns[l].extent].disk != "zvol/" + m.zvol ==>
              l in s'.luns && s'.luns[l] == s.luns[l]
    ensures d in s.pool && d != m.zvol ==> d in s'.pool && s'.pool[d].props == s.pool[d].props
  {
  }

  // And without faults it takes the target and the extent it knows of, if they are such.
  lemma OwnGoes(m: Meta, s: Store, f: Schedule, s': Store, r: Result<()>)
    requires WfStore(s) && Deletable(s, m.name, m.zvol) && Pending(f) == 0 && Deletion(m, s, f, s', r)
    ensures var e := Effective(m, s.pool[m.zvol].props);
      && (e.targetId in s.targets && !Foreign(m, s.targets[e.targetId]) ==> e.targetId !in s'.targets)
      && (e.extentId in s.extents && s.extents[e.extentId].disk == "zvol/" + m.zvol ==> e.extentId !in s'.extents)
  {
  }

  // A recorded identifier stands for a known one, and none is made up.
  lemma EffectiveInWords(m: Meta, props: Props)
    ensures Effective(m, props).targetId
      == match props.targetId { case Some(id) => if id > 0 && m.targetId > 0 then id else m.targetId
                                case None => m.targetId }
    ensures Effective(m, props).extentId
      == match props.extentId { case Some(id) => if id > 0 && m.extentId > 0 then id else m.extentId
                                case None => m.extentId }
  {
  }

  // Nothing of a volume with strategy "retain" is deleted, and for its owner that is success.
  lemma RetainedIsKept(m: Meta, s: Store, f: Schedule, s': Store, r: Result<()>)
    requires Deletion(m, s, f, s', r) && m.zvol in s.pool && s.pool[m.zvol].props.strategy == "retain"
    ensures s' == s
    ensures f == [] || f[0] == Fine ==> (r == Ok(()) <==> Belongs(m.name, s.pool[m.zvol].props))
  {
  }

  // What a caller learns of the volume from its ZVOL.
  function Looked(s: Store, name: string, zvol: string): Meta
    requires zvol in s.pool
  {
    var props := s.pool[zvol].props;
    Meta(name, zvol, IdOf(props.targetId), IdOf(props.extentId), props.iqn)
  }

  // Every target and extent of the volume is the one recorded.
  ghost predicate Recorded(s: Store, m: Meta) {
    && (forall t :: t in s.targets && m.OwnsTarget(s.targets[t]) ==> t == m.targetId)
    && (forall e :: e in s.extents && m.OwnsExtent(s.extents[e]) ==> e == m.extentId)
  }

  // No target, extent or mapping of the volume is left.
  ghost predicate NothingLeft(s: Store, m: Meta) {
    && (forall t :: t in s.targets ==> !m.OwnsTarget(s.targets[t]))
    && (forall e :: e in s.extents ==> !m.OwnsExtent(s.extents[e]))
    && (forall l :: l in s.luns && s.luns[l].target in s.targets ==> !m.OwnsTarget(s.targets[s.luns[l].target]))
    && (forall l :: l in s.luns && s.luns[l].extent in s.extents ==> !m.OwnsExtent(s.extents[s.luns[l].extent]))
  }

  lemma TornLeaves(e: Meta, s: Store, s': Store)
    requires WfTables(s) && WfTables(s') && TornTables(e, s, s') && Cleared(s', e)
    ensures NothingLeft(s', e) <==> Recorded(s, e)
  {
    if Recorded(s, e) {
      assert forall t :: t in s'.targets ==> t in s.targets && t > 0;
      assert forall x :: x in s'.extents ==> x in s.extents && x > 0;
    } else if t :| t in s.targets && e.OwnsTarget(s.targets[t]) && t != e.targetId {
      assert t in s'.targets;
    } else {
      var x :| x in s.extents && e.OwnsExtent(s.extents[x]) && x != e.extentId;
      assert x in s'.extents;
    }
  }

  // What is the volume's does not depend on the identifiers.
  lemma SameOwner(s: Store, m: Meta, e: Meta)
    requires e == m.(targetId := e.targetId, extentId := e.extentId)
    ensures NothingLeft(s, e) <==> NothingLeft(s, m)
  {
    assert forall t :: e.OwnsTarget(t) <==> m.OwnsTarget(t);
    assert forall x :: e.OwnsExtent(x) <==> m.OwnsExtent(x);
  }

  // The attempt that deletes the ZVOL leaves nothing of the volume exactly if everything
  // of it was recorded; an object whose identifier was never written leaks.
  lemma NothingLeftIffRecorded(m: Meta, s: Store, f: Schedule, s': Store, r: Result<()>)
    requires WfStore(s) && m.zvol in s.pool && Deletion(m, s, f, s', r) && m.zvol !in s'.pool
    ensures NothingLeft(s', m) <==> Recorded(s, Effective(m, s.pool[m.zvol].props))
  {
    var e := Effective(m, s.pool[m.zvol].props);
    TornLeaves(e, s, s');
    SameOwner(s', m, e);
  }

  // A volume whose identifiers were never written: it can be deleted, and its target is
  // not among what is recorded.
  lemma UnrecordedVolumeExists(name: string) returns (zvol: string, s: Store)
    requires name != "" && '/' !in name
    ensures WfStore(s) && Deletable(s, name, zvol) && !Recorded(s, Looked(s, name, zvol))
  {
    zvol := "tank/" + name;
    s := Store(PlainPool(zvol), map[], map[7 := Target(name, Groups(1, 1))], map[], map[], map[]);
    PlainPoolIs(zvol);
    BaseOfPlain(name);
    assert 7 in s.targets && Looked(s, name, zvol).OwnsTarget(s.targets[7]);
  }

  // A name without slashes is its own base.
  lemma BaseOfPlain(name: string)
    requires name != "" && '/' !in name
    ensures StripSlashes(name) == name && AfterSlash(name) == name
  {
    assert name[|name| - 1] in name;
    TailIsBase(name, name);
    TailIsBase(name, AfterSlash(name));
    BaseIsUnique(name, name, AfterSlash(name));
  }

  // What a caller knows is what the ZVOL records, or once that is gone whatever it recalls.
  ghost predicate Knows(s: Store, m: Meta, name: string, zvol: string) {
    m.name == name && m.zvol == zvol && (zvol in s.pool ==> m == Looked(s, name, zvol))
  }

  // An attempt of this volume, or other calls in between.
  datatype Step =
    | Attempt(known: Meta, faults: Schedule, result: Result<()>, after: Store)
    | Elsewhere(after: Store)
  {
    ghost predicate From(s: Store, name: string, zvol: string) {
      match this
      case Attempt(m, f, r, s') => Knows(s, m, name, zvol) && Deletion(m, s, f, s', r)
      case Elsewhere(s') => WfStore(s') && Bystander(s, s', name, zvol)
    }
  }

  // Calls for other volumes may create and delete anything, and may be given identifiers this
  // volume's objects had, and snapshots of this volume may come and go; but they make no
  // target or extent of this volume and leave its ZVOL and what that records.
  ghost predicate Bystander(s: Store, s': Store, name: string, zvol: string) {
    && (zvol in s'.pool <==> zvol in s.pool)
    && (zvol in s.pool ==>
          && s'.pool[zvol].props == s.pool[zvol].props
          && var m := Looked(s, name, zvol);
             && (forall t :: t in s'.targets && m.OwnsTarget(s'.targets[t]) ==>
                   t in s.targets && m.OwnsTarget(s.targets[t]))
             && (forall e :: e in s'.extents && m.OwnsExtent(s'.extents[e]) ==>
                   e in s.extents && m.OwnsExtent(s.extents[e])))
  }

  // steps are attempts to delete the volume, before and after its ZVOL is gone, and other calls.
  ghost predicate Run(name: string, zvol: string, s: Store, steps: seq<Step>)
    decreases |steps|
  {
    steps == [] || (steps[0].From(s, name, zvol) && Run(name, zvol, steps[0].after, steps[1..]))
  }

  ghost function Last(s: Store, steps: seq<Step>): Store {
    if steps == [] then s else steps[|steps| - 1].after
  }

  lemma StepKeepsRecorded(name: string, zvol: string, s: Store, step: Step)
    requires WfStore(s) && zvol in s.pool && step.From(s, name, zvol) && Recorded(s, Looked(s, name, zvol))
    ensures WfStore(step.after)
    ensures zvol in step.after.pool ==>
      Looked(step.after, name, zvol).iqn == Looked(s, name, zvol).iqn
        && Recorded(step.after, Looked(step.after, name, zvol))
    ensures zvol !in step.after.pool ==> NothingLeft(step.after, Looked(s, name, zvol))
  {
    var m := Looked(s, name, zvol);
    assert Effective(m, s.pool[zvol].props) == m;
    if step.Attempt? {
      if zvol in step.after.pool {
        AttemptKeepsRecorded(m, s, step.faults, step.after, step.result);
      } else {
        NothingLeftIffRecorded(m, s, step.faults, step.after, step.result);
      }
    }
  }

  lemma AttemptKeepsRecorded(m: Meta, s: Store, f: Schedule, s': Store, r: Result<()>)
    requires WfStore(s) && m.zvol in s.pool && m == Looked(s, m.name, m.zvol) && Recorded(s, m)
    requires Deletion(m, s, f, s', r) && m.zvol in s'.pool
    ensures Looked(s', m.name, m.zvol).iqn == m.iqn && Recorded(s', Looked(s', m.name, m.zvol))
  {
    assert Effective(m, s.pool[m.zvol].props) == m;
    var m' := Looked(s', m.name, m.zvol);
    forall t | t in s'.targets && m'.OwnsTarget(s'.targets[t]) ensures t == m'.targetId {
      assert t in s.targets && t == m.targetId && t > 0;
      assert HasTarget(s', m);
    }
    forall e | e in s'.extents && m'.OwnsExtent(s'.extents[e]) ensures e == m'.extentId {
      assert e in s.extents && e == m.extentId && e > 0;
      assert HasExtent(s', m);
    }
  }

  // The step that deleted the ZVOL left nothing of the volume.
  ghost predicate EndsClean(name: string, zvol: string, s: Store, steps: seq<Step>)
    decreases |steps|
  {
    && steps != [] && zvol in s.pool
    && if zvol in steps[0].after.pool then EndsClean(name, zvol, steps[0].after, steps[1..])
       else NothingLeft(steps[0].after, Looked(s, name, zvol))
  }

  // However often a delete fails and is retried, wherever and however its calls fail, and
  // whatever other volumes do in between: while the ZVOL is there everything of the volume
  // is recorded on it, and when it goes nothing of the volume is left.
  lemma {:induction false} DeletesLeaveNothing(name: string, zvol: string, s: Store, steps: seq<Step>)
    requires WfStore(s) && zvol in s.pool && Recorded(s, Looked(s, name, zvol)) && Run(name, zvol, s, steps)
    ensures zvol in Last(s, steps).pool ==> Recorded(Last(s, steps), Looked(Last(s, steps), name, zvol))
    ensures zvol !in Last(s, steps).pool ==> EndsClean(name, zvol, s, steps)
    decreases |steps|
  {
    if steps != [] {
      StepKeepsRecorded(name, zvol, s, steps[0]);
      var s1 := steps[0].after;
      assert Last(s1, steps[1..]) == Last(s, steps);
      if zvol in s1.pool {
        DeletesLeaveNothing(name, zvol, s1, steps[1..]);
      } else {
        GoneStaysGone(name, zvol, s1, steps[1..]);
      }
    }
  }

  // No other call of the run makes a deletable volume undeletable.
  ghost predicate OthersAllow(name: string, zvol: string, s: Store, steps: seq<Step>)
    decreases |steps|
  {
    steps == [] ||
    ((steps[0].Elsewhere? && zvol in steps[0].after.pool && Deletable(s, name, zvol) ==>
        Deletable(steps[0].after, name, zvol))
     && OthersAllow(name, zvol, steps[0].after, steps[1..]))
  }

  // Failed attempts leave a deletable volume deletable.
  lemma {:induction false} DeletableThroughout(name: string, zvol: string, s: Store, steps: seq<Step>)
    requires Deletable(s, name, zvol) && Run(name, zvol, s, steps) && OthersAllow(name, zvol, s, steps)
    requires zvol in Last(s, steps).pool
    ensures Deletable(Last(s, steps), name, zvol)
    decreases |steps|
  {
    if steps != [] {
      var s1 := steps[0].after;
      assert Last(s1, steps[1..]) == Last(s, steps);
      if zvol in s1.pool {
        DeletableThroughout(name, zvol, s1, steps[1..]);
      } else {
        GoneStaysGone(name, zvol, s1, steps[1..]);
      }
    }
  }

  lemma {:induction false} RunKeepsWf(name: string, zvol: string, s: Store, steps: seq<Step>)
    requires WfStore(s) && Run(name, zvol, s, steps)
    ensures WfStore(Last(s, steps))
    decreases |steps|
  {
    if steps != [] {
      assert Last(steps[0].after, steps[1..]) == Last(s, steps);
      RunKeepsWf(name, zvol, steps[0].after, steps[1..]);
    }
  }

  // Once the ZVOL is gone every attempt whose lookup is answered reports success, and none
  // changes anything.
  lemma {:induction false} GoneIsDeleted(name: string, zvol: string, s: Store, steps: seq<Step>, k: nat)
    requires zvol !in s.pool && Run(name, zvol, s, steps) && k < |steps| && steps[k].Attempt?
    ensures Head(steps[k].faults).Fine? ==> steps[k].result == Ok(())
    ensures steps[k].after == Last(s, steps[..k])
    decreases |steps|
  {
    if k > 0 {
      GoneIsDeleted(name, zvol, steps[0].after, steps[1..], k - 1);
      assert steps[1..][..k - 1] == steps[..k][1..];
    }
  }

  // A volume stays, however often its delete is tried and whatever fails, while its newest
  // snapshot with a clone is not one that DeleteSnapshot left for later; only other calls can
  // change that.
  ghost predicate OthersKeepStuck(zvol: string, s: Store, steps: seq<Step>)
    decreases |steps|
  {
    steps == [] ||
    ((steps[0].Elsewhere? && Stuck(s.pool, zvol) ==> Stuck(steps[0].after.pool, zvol))
     && OthersKeepStuck(zvol, steps[0].after, steps[1..]))
  }

  lemma {:induction false} StuckStays(name: string, zvol: string, s: Store, steps: seq<Step>)
    requires Stuck(s.pool, zvol) && Run(name, zvol, s, steps) && OthersKeepStuck(zvol, s, steps)
    ensures zvol in Last(s, steps).pool && Stuck(Last(s, steps).pool, zvol)
    decreases |steps|
  {
    if steps != [] {
      assert Last(steps[0].after, steps[1..]) == Last(s, steps);
      StuckStays(name, zvol, steps[0].after, steps[1..]);
    }
  }

  // After any number of attempts that failed or were refused, and any other calls, an attempt
  // without faults succeeds once the volume is deletable.
  lemma RetryFinishes(name: string, zvol: string, s: Store, steps: seq<Step>, f: Schedule, s': Store, r: Result<()>)
    requires WfStore(s) && zvol in s.pool && Run(name, zvol, s, steps) && Deletable(Last(s, steps), name, zvol)
    requires Deletion(Looked(Last(s, steps), name, zvol), Last(s, steps), f, s', r) && Pending(f) == 0
    ensures r.Ok? && zvol !in s'.pool
    ensures Recorded(s, Looked(s, name, zvol)) ==> NothingLeft(s', Looked(Last(s, steps), name, zvol))
  {
    var last := Last(s, steps);
    var m := Looked(last, name, zvol);
    assert Effective(m, last.pool[zvol].props) == m;
    RunKeepsWf(name, zvol, s, steps);
    NothingLeftIffRecorded(m, last, f, s', r);
    if Recorded(s, Looked(s, name, zvol)) { DeletesLeaveNothing(name, zvol, s, steps); }
  }

  lemma {:induction false} GoneStaysGone(name: string, zvol: string, s: Store, steps: seq<Step>)
    requires zvol !in s.pool && Run(name, zvol, s, steps)
    ensures zvol !in Last(s, steps).pool
    decreases |steps|
  {
    if steps != [] {
      assert Last(steps[0].after, steps[1..]) == Last(s, steps);
      GoneStaysGone(name, zvol, steps[0].after, steps[1..]);
    }
  }
}
