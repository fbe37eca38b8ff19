// An iSCSI volume from creation to deletion: what create builds and records is just what
// delete finds and removes.
module Lifecycle {
  import opened Results
  import opened Zfs
  import opened Nas
  import opened Text
  import opened Ownership
  import C = IscsiCreate
  import D = IscsiDelete

  // Nothing in the store is the volume's that p asks for, as a later delete would see it.
  ghost predicate Vacant(s: Store, p: C.Request, m: D.Meta) {
    && p.Zvol() !in s.pool
    && (forall t :: t in s.targets ==> !m.OwnsTarget(s.targets[t]))
    && (forall e :: e in s.extents ==> !m.OwnsExtent(s.extents[e]))
  }

  predicate PlainName(name: string) { name != "" && '/' !in name }

  // In a store that had nothing of the volume, a create without faults leaves every target
  // and extent of it recorded on its ZVOL.
  lemma CreatedIsRecorded(p: C.Request, c: C.Config, s: Store, f: Schedule, s': Store, v: C.Volume, m: D.Meta)
    requires PlainName(p.name) && WfStore(s) && Pending(f) == 0 && C.Attempt(p, c, s, f, s', Ok(v))
    requires p.Zvol() in s'.pool && m == D.Looked(s', p.name, p.Zvol()) && Vacant(s, p, m)
    ensures m.targetId == v.targetId && m.extentId == v.extentId
    ensures D.Recorded(s', m)
  {
    D.BaseOfPlain(p.name);
    assert C.Noted(s', p, v);
    forall e | e in s'.extents && m.OwnsExtent(s'.extents[e]) ensures e == m.extentId {
      assert e !in s.extents && s'.extents[e] == p.OwnExtent();
      NewExtent(p, c, s, f, s', v, m);
    }
    forall t | t in s'.targets && m.OwnsTarget(s'.targets[t]) ensures t == m.targetId {
      assert t !in s.targets && s'.targets[t].name == p.name;
      NewTarget(p, c, s, f, s', v, m);
    }
  }

  lemma NewExtent(p: C.Request, c: C.Config, s: Store, f: Schedule, s': Store, v: C.Volume, m: D.Meta)
    requires C.Attempt(p, c, s, f, s', Ok(v)) && p.Zvol() in s'.pool
    requires m == D.Looked(s', p.name, p.Zvol()) && Vacant(s, p, m)
    ensures v.extentId in s'.extents && v.extentId !in s.extents && s'.extents[v.extentId] == p.OwnExtent()
  {
    assert C.Backs(s', p, v.extentId);
  }

  lemma NewTarget(p: C.Request, c: C.Config, s: Store, f: Schedule, s': Store, v: C.Volume, m: D.Meta)
    requires PlainName(p.name) && WfStore(s) && C.Attempt(p, c, s, f, s', Ok(v)) && p.Zvol() in s'.pool
    requires m == D.Looked(s', p.name, p.Zvol()) && Vacant(s, p, m)
    ensures v.targetId in s'.targets && v.targetId !in s.targets && s'.targets[v.targetId].name == p.name
  {
    NewExtent(p, c, s, f, s', v, m);
    assert C.MapsOnly(s', v.targetId, v.extentId);
    assert Unowned(s, p.name) by { VacantMeansUnowned(s, p, m); }
    NewMapping(p, s, s', v.targetId, v.extentId);
  }

  lemma VacantMeansUnowned(s: Store, p: C.Request, m: D.Meta)
    requires PlainName(p.name) && Vacant(s, p, m) && m.name == p.name
    ensures Unowned(s, p.name)
  {
    D.BaseOfPlain(p.name);
  }

  // A mapping of a new extent is new, and so is its target's only one.
  lemma NewMapping(p: C.Request, s: Store, s': Store, t: int, e: int)
    requires WfTables(s) && C.Extends(s, s', p) && C.MapsOnly(s', t, e) && e !in s.extents
    ensures t in s'.targets && s'.targets[t].name == p.name
    ensures Unowned(s, p.name) ==> t !in s.targets
  {
    var l :| l in s'.luns && s'.luns[l] == Lun(t, e, 0) && LunsOf(s', t) == {l};
    assert l !in s.luns;
    assert C.OwnLun(s', p, l);
  }

  ghost predicate Unowned(s: Store, name: string) {
    forall t :: t in s.targets ==> s.targets[t].name != name
  }

  // Creating a volume without faults and deleting it, whatever of the delete fails, so long
  // as in the end its ZVOL is gone, gives back every table as it was, and the same datasets.
  lemma DeleteUndoesCreate(p: C.Request, c: C.Config, s: Store, f: Schedule, s': Store, v: C.Volume, m: D.Meta,
                           g: Schedule, s'': Store, r: Result<()>)
    requires PlainName(p.name) && WfStore(s) && Pending(f) == 0 && C.Attempt(p, c, s, f, s', Ok(v))
    requires p.Zvol() in s'.pool && m == D.Looked(s', p.name, p.Zvol()) && Vacant(s, p, m)
    requires D.Deletion(m, s', g, s'', r) && p.Zvol() !in s''.pool
    ensures s''.targets == s.targets && s''.extents == s.extents && s''.luns == s.luns
    ensures s''.pool.Keys == s.pool.Keys
  {
    CreatedIsRecorded(p, c, s, f, s', v, m);
    NewTarget(p, c, s, f, s', v, m);
    NewExtent(p, c, s, f, s', v, m);
    assert D.Effective(m, s'.pool[m.zvol].props) == m;
    D.NothingLeftIffRecorded(m, s', g, s'', r);
    TargetsBack(p, m, s.targets, s'.targets, s''.targets);
    ExtentsBack(p, m, s.extents, s'.extents, s''.extents);
    MappingsBack(p, s, s', s'', m);
    DatasetsBack(p, s, s', s'');
  }

  lemma DatasetsBack(p: C.Request, s: Store, s': Store, s'': Store)
    requires C.Extends(s, s', p) && p.Zvol() !in s.pool && p.Zvol() !in s''.pool
    requires s''.pool.Keys <= s'.pool.Keys && s'.pool.Keys - {p.Zvol()} <= s''.pool.Keys
    ensures s''.pool.Keys == s.pool.Keys
  {
  }

  // The targets are those from before: a new one would be the volume's.
  lemma TargetsBack(p: C.Request, m: D.Meta, a: map<int, Target>, b: map<int, Target>, c: map<int, Target>)
    requires PlainName(p.name) && m.name == p.name && C.Sub(a, b) && C.AddsTargets(a, b, p)
    requires (c == b || c == b - {m.targetId}) && m.targetId !in a
    requires forall t :: t in c ==> !m.OwnsTarget(c[t])
    ensures c == a
  {
    forall t | t in c ensures t in a {
      if t !in a { NamedIsOwned(m, c[t]); }
    }
  }

  lemma NamedIsOwned(m: D.Meta, t: Target)
    requires PlainName(m.name) && t.name == m.name
    ensures m.OwnsTarget(t)
  {
    D.BaseOfPlain(m.name);
  }

  lemma ExtentsBack(p: C.Request, m: D.Meta, a: map<int, Extent>, b: map<int, Extent>, c: map<int, Extent>)
    requires m.zvol == p.Zvol() && C.Sub(a, b) && C.AddsExtents(a, b, p)
    requires (c == b || c == b - {m.extentId}) && m.extentId !in a
    requires forall e :: e in c ==> !m.OwnsExtent(c[e])
    ensures c == a
  {
    forall e | e in c ensures e in a {
      assert e in a || c[e] == p.OwnExtent();
    }
  }

  // A mapping from before has neither the volume's target nor its extent, and stays.
  lemma OldMappingStays(s: Store, s': Store, luns: map<int, Lun>, m: D.Meta, l: int)
    requires WfTables(s) && l in s.luns && l in s'.luns && s'.luns[l] == s.luns[l] && D.LunsTorn(m, s', luns)
    requires m.targetId !in s.targets && m.extentId !in s.extents
    ensures l in luns && luns[l] == s.luns[l]
  {
  }

  // A new mapping has the volume's target, which is gone.
  lemma NewMappingGoes(p: C.Request, s: Store, s': Store, s'': Store, m: D.Meta, l: int)
    requires PlainName(p.name) && m.name == p.name && C.OwnLun(s', p, l)
    requires WfTables(s'') && D.NothingLeft(s'', m) && D.LunsTorn(m, s', s''.luns) && C.Sub(s''.targets, s'.targets)
    ensures l !in s''.luns
  {
    NamedIsOwned(m, s'.targets[s'.luns[l].target]);
  }

  // So the mappings are those from before.
  lemma MappingsBack(p: C.Request, s: Store, s': Store, s'': Store, m: D.Meta)
    requires PlainName(p.name) && WfTables(s) && WfTables(s'') && C.Extends(s, s', p) && m.name == p.name
    requires D.TornTables(m, s', s'') && D.NothingLeft(s'', m)
    requires m.targetId !in s.targets && m.extentId !in s.extents
    ensures s''.luns == s.luns
  {
    forall l | l in s.luns ensures l in s''.luns && s''.luns[l] == s.luns[l] {
      OldMappingStays(s, s', s''.luns, m, l);
    }
    forall l | l in s''.luns ensures l in s.luns {
      if l !in s.luns { NewMappingGoes(p, s, s', s'', m, l); }
    }
  }
}
