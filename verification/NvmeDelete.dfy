// DeleteVolume for NVMe-oF: the namespace, then its subsystem, then the ZVOL.
module NvmeDelete {
  import opened Results
  import opened Text
  import opened Zfs
  import opened Nas
  import opened Ownership
  import opened Promotion
  import opened SnapshotGuard

  datatype Meta = Meta(name: string, zvol: string, subsystemId: int, namespaceId: int, nqn: string) {
    function Device(): string { "zvol/" + zvol }

    predicate OwnsNamespace(n: Namespace) { TrimDev(n.device) == Device() }

    // The subsystem carries the recorded NQN, or without one is named after the volume.
    predicate OwnsSubsystem(b: Subsystem) {
      if nqn != "" then b.nqn == nqn || b.name == nqn else EndsWith(b.name, ":" + Base(name))
    }
  }

  function TrimDev(device: string): string {
    if "/dev/" <= device then device[5..] else device
  }

  // ---------------------------------------------------------------- Ownership

  predicate HasNamespace(s: Store, m: Meta) {
    m.namespaceId > 0 && m.namespaceId in s.namespaces && m.OwnsNamespace(s.namespaces[m.namespaceId])
  }

  predicate HasSubsystem(s: Store, m: Meta) {
    m.subsystemId > 0 && m.subsystemId in s.subsystems && m.OwnsSubsystem(s.subsystems[m.subsystemId])
  }

  // Recorded identifiers replace the caller's, missing ones included.
  function Reconciled(own: int, stored: int): int {
    if stored > 0 then stored else own
  }

  function Effective(s: Store, m: Meta): Meta {
    if m.zvol !in s.pool then m
    else m.(subsystemId := Reconciled(m.subsystemId, IdOf(s.pool[m.zvol].props.subsystemId)),
            namespaceId := Reconciled(m.namespaceId, IdOf(s.pool[m.zvol].props.namespaceId)))
  }

  // ---------------------------------------------------------------- Teardown

  // A recorded identifier is cleared only when its object is gone or, if the subsystem was
  // silently kept, seems to be.
  ghost predicate Forgets(m: Meta, s: Store, kept: bool, props: Props, props': Props) {
    && props' == props.(subsystemId := props'.subsystemId, namespaceId := props'.namespaceId)
    && (props'.namespaceId == props.namespaceId || (props'.namespaceId == Some(0) && !HasNamespace(s, m)))
    && (props'.subsystemId == props.subsystemId
      || (props'.subsystemId == Some(0) && !HasNamespace(s, m) && (HasSubsystem(s, m) ==> kept)))
  }

  // Only the volume's own namespace goes; its subsystem is touched only afterwards, loses
  // nothing but port bindings, and goes only when no namespace is attached to it.
  ghost predicate TornTables(m: Meta, s: Store, s': Store) {
    && s'.targets == s.targets && s'.extents == s.extents && s'.luns == s.luns
    && (s'.namespaces == s.namespaces
        || (HasNamespace(s, m) && s'.namespaces == s.namespaces - {m.namespaceId}))
    && (s'.subsystems == s.subsystems
        || (HasSubsystem(s, m) && !HasNamespace(s', m)
            && ((s'.subsystems == s.subsystems - {m.subsystemId} && Attached(s', m.subsystemId) == {})
                || (m.subsystemId in s'.subsystems && LosesPorts(s.subsystems, s'.subsystems, m.subsystemId)))))
  }

  // The subsystem step changes the table in one of these ways.
  ghost predicate Drops(s: Store, s': Store, m: Meta) {
    && s' == s.(subsystems := s'.subsystems)
    && (LosesPorts(s.subsystems, s'.subsystems, m.subsystemId)
        || (s'.subsystems == s.subsystems - {m.subsystemId} && Attached(s, m.subsystemId) == {}))
  }

  ghost predicate LosesPorts(b: map<int, Subsystem>, b': map<int, Subsystem>, id: int) {
    && id in b && id in b' && b'[id].ports <= b[id].ports
    && b' == b[id := b[id].(ports := b'[id].ports)]
  }

  ghost predicate Torn(m: Meta, kept: bool, s: Store, s': Store) {
    && TornTables(m, s, s')
    && (s'.pool == s.pool
        || (m.zvol in s.pool && m.zvol in s'.pool
            && s'.pool == s.pool[m.zvol := s.pool[m.zvol].(props := s'.pool[m.zvol].props)]
            && Forgets(m, s', kept, s.pool[m.zvol].props, s'.pool[m.zvol].props)))
  }

  lemma TornKeepsWf(m: Meta, kept: bool, s: Store, x: Store)
    requires WfStore(s) && Torn(m, kept, s, x)
    ensures WfStore(x)
  {
    if x.pool != s.pool { SetPropsKeepsWf(s.pool, m.zvol, x.pool[m.zvol].props); }
  }

  lemma TornEither(m: Meta, kept: bool, s: Store, x: Store)
    requires Torn(m, false, s, x)
    ensures Torn(m, kept, s, x)
  {
  }

  lemma TornSelf(m: Meta, kept: bool, s: Store)
    ensures Torn(m, kept, s, s)
  {
  }

  lemma TearNamespace(m: Meta, kept: bool, s: Store, x: Store)
    requires Torn(m, kept, s, x) && x.subsystems == s.subsystems && HasNamespace(x, m)
    ensures Torn(m, kept, s, x.(namespaces := x.namespaces - {m.namespaceId}))
  {
  }

  lemma TearSubsystem(m: Meta, s: Store, x: Store, x': Store)
    requires Torn(m, false, s, x) && x.subsystems == s.subsystems && HasSubsystem(x, m) && !HasNamespace(x, m)
    requires Drops(x, x', m)
    ensures Torn(m, false, s, x')
  {
    assert Attached(x', m.subsystemId) == Attached(x, m.subsystemId);
    assert forall y :: y in x'.subsystems ==>
      y in x.subsystems && (m.OwnsSubsystem(x'.subsystems[y]) <==> m.OwnsSubsystem(x.subsystems[y]));
  }

  // The recorded subsystem identifier is cleared, or nothing happens.
  ghost predicate Clears(s: Store, s': Store, m: Meta) {
    s' == s || (m.zvol in s.pool && s' == WithProps(s, m.zvol, s.pool[m.zvol].props.(subsystemId := Some(0))))
  }

  // What the subsystem step may do.
  ghost predicate Takes(s: Store, s': Store, m: Meta) {
    var x := s'.(pool := s.pool);
    (x == s || (HasSubsystem(s, m) && Drops(s, x, m))) && Clears(x, s', m)
  }

  lemma TakesKeepsForgotten(s: Store, s': Store, m: Meta)
    requires Takes(s, s', m) && NamespaceForgotten(s, m)
    ensures NamespaceForgotten(s', m)
  {
  }

  lemma TornTakes(m: Meta, kept: bool, s: Store, x: Store, x': Store)
    requires Torn(m, false, s, x) && x.subsystems == s.subsystems && !HasNamespace(x, m) && Takes(x, x', m)
    requires x'.pool == x.pool || (HasSubsystem(x', m) ==> kept)
    ensures Torn(m, kept, s, x') && !HasNamespace(x', m)
  {
    var y := x'.(pool := x.pool);
    if y != x { TearSubsystem(m, s, x, y); }
    TornEither(m, kept, s, y);
    if x' != y { ForgetSubsystem(m, kept, s, y); }
  }

  lemma UnbindThenDrop(s: Store, x: Store, m: Meta)
    requires x == s.(subsystems := x.subsystems) && LosesPorts(s.subsystems, x.subsystems, m.subsystemId)
    ensures x.subsystems - {m.subsystemId} == s.subsystems - {m.subsystemId}
    ensures Attached(x, m.subsystemId) == Attached(s, m.subsystemId)
  {
  }

  lemma ForgetNamespace(m: Meta, kept: bool, s: Store, x: Store)
    requires Torn(m, kept, s, x) && m.zvol in x.pool && !HasNamespace(x, m)
    ensures Torn(m, kept, s, WithProps(x, m.zvol, x.pool[m.zvol].props.(namespaceId := Some(0))))
  {
  }

  lemma ForgetSubsystem(m: Meta, kept: bool, s: Store, x: Store)
    requires Torn(m, kept, s, x) && m.zvol in x.pool && !HasNamespace(x, m) && (HasSubsystem(x, m) ==> kept)
    ensures Torn(m, kept, s, WithProps(x, m.zvol, x.pool[m.zvol].props.(subsystemId := Some(0))))
  {
  }

  // ---------------------------------------------------------------- Schedules

  // What the calls of the teardown come to is settled by the store and the schedule it meets:
  // each function here gives what one of its steps leaves of the schedule.

  function Skip(f: Schedule, n: nat): Schedule {
    if n == 0 then f else Skip(Tail(f), n - 1)
  }

  predicate NoneLost(f: Schedule, n: nat) {
    n == 0 || (!Head(f).Lost? && NoneLost(Tail(f), n - 1))
  }

  // Clearing a recorded identifier is one call, if there is a ZVOL to clear it on.
  function AfterClear(m: Meta, f: Schedule): Schedule { if m.zvol == "" then f else Tail(f) }

  // At most k deletes of one object, until one reports success or that it is gone.
  function AfterDeletes(f: Schedule, present: bool, k: nat): Option<Schedule> {
    if k == 0 then None
    else if Head(f).Lost? then AfterDeletes(Tail(f), present, k - 1)
    else if present && Head(f).Applied? then AfterDeletes(Tail(f), false, k - 1)
    else Some(Tail(f))
  }

  // The namespace step, if it succeeds: lookup, deletes, verification, clearing.
  function AfterNamespace(s: Store, m: Meta, f: Schedule): Option<Schedule> {
    if m.namespaceId <= 0 then Some(f)
    else if !Head(f).Fine? then None
    else if !HasNamespace(s, m) then Some(AfterClear(m, Tail(f)))
    else
      var deleted := AfterDeletes(Tail(f), true, 12);
      if deleted.None? then None else Some(AfterClear(m, Tail(deleted.value)))
  }

  function Ports(s: Store, m: Meta): set<int> {
    if HasSubsystem(s, m) then s.subsystems[m.subsystemId].ports else {}
  }

  // Unbinding n ports: a query, and if it is answered one call a port.
  function AfterUnbind(f: Schedule, n: nat): Schedule {
    if Head(f).Fine? then Skip(Tail(f), n) else Tail(f)
  }

  // The query is answered and no unbinding is lost.
  predicate UnbindsAll(f: Schedule, n: nat) {
    Head(f).Fine? && NoneLost(Tail(f), n)
  }

  // The subsystem step that begins with schedule f looks the subsystem up, then its
  // namespaces, then its ports.
  function AtPorts(f: Schedule): Schedule { Tail(Tail(f)) }

  // The server silently keeps the subsystem: it is bound, and unbinding it fails.
  predicate KeepsAt(s: Store, m: Meta, silent: bool, f: Schedule) {
    silent && Ports(s, m) != {} && !UnbindsAll(AtPorts(f), |Ports(s, m)|)
  }

  // The subsystem step learns which namespaces are attached.
  predicate AttachedAnswered(s: Store, m: Meta, f: Schedule) {
    var g := AfterNamespace(s, m, f);
    g.Some? && Head(Tail(g.value)).Fine?
  }

  predicate Keeps(s: Store, m: Meta, silent: bool, f: Schedule) {
    var g := AfterNamespace(s, m, f);
    g.Some? && KeepsAt(s, m, silent, g.value)
  }

  // No call of the step fails but what it passes over.
  predicate NamespaceQuiet(s: Store, m: Meta, f: Schedule) {
    m.namespaceId <= 0 || (Head(f).Fine? && (HasNamespace(s, m) ==> Head(Tail(f)).Fine?))
  }

  predicate SubsystemQuiet(s: Store, m: Meta, silent: bool, f: Schedule) {
    m.subsystemId <= 0 ||
    (Head(f).Fine? &&
     (HasSubsystem(s, m) ==>
        && (silent || Ports(s, m) == {} || UnbindsAll(AtPorts(f), |Ports(s, m)|))
        && Head(AfterUnbind(AtPorts(f), |Ports(s, m)|)).Fine?))
  }

  function AfterSubsystem(s: Store, m: Meta, f: Schedule): Schedule {
    if m.subsystemId <= 0 then f
    else if !HasSubsystem(s, m) then AfterClear(m, Tail(f))
    else AfterClear(m, Tail(AfterUnbind(AtPorts(f), |Ports(s, m)|)))
  }

  predicate PresentationQuiet(s: Store, m: Meta, silent: bool, f: Schedule) {
    NamespaceQuiet(s, m, f)
    && var g := AfterNamespace(s, m, f); g.Some? && SubsystemQuiet(s, m, silent, g.value)
  }

  function AfterPresentation(s: Store, m: Meta, f: Schedule): Schedule {
    var g := AfterNamespace(s, m, f);
    if g.None? then f else AfterSubsystem(s, m, g.value)
  }

  // The call that clears the namespace's identifier takes effect.
  predicate ClearsNamespace(s: Store, m: Meta, f: Schedule) {
    if HasNamespace(s, m) then
      var deleted := AfterDeletes(Tail(f), true, 12);
      deleted.Some? && !Head(Tail(deleted.value)).Lost?
    else !Head(Tail(f)).Lost?
  }

  // The call that clears the subsystem's identifier takes effect.
  predicate ClearsSubsystem(s: Store, m: Meta, f: Schedule) {
    if HasSubsystem(s, m) then !Head(Tail(AfterUnbind(AtPorts(f), |Ports(s, m)|))).Lost? else !Head(Tail(f)).Lost?
  }

  lemma {:induction false} QuietSkip(f: Schedule, n: nat)
    requires Pending(f) == 0
    ensures Head(f).Fine? && NoneLost(f, n) && Pending(Skip(f, n)) == 0
  {
    if n > 0 { QuietSkip(Tail(f), n - 1); }
  }

  // Without faults all of it is quiet.
  lemma QuietPresentation(s: Store, m: Meta, silent: bool, f: Schedule)
    requires Pending(f) == 0
    ensures PresentationQuiet(s, m, silent, f) && Pending(AfterPresentation(s, m, f)) == 0
    ensures !Keeps(s, m, silent, f)
    ensures ClearsNamespace(s, m, f) && ClearsSubsystem(s, m, AfterNamespace(s, m, f).value)
  {
    var n := |Ports(s, m)|;
    assert Head(f).Fine? && Head(Tail(f)).Fine?;
    var g := AfterNamespace(s, m, f);
    assert g.Some? && Pending(g.value) == 0;
    QuietSkip(Tail(AtPorts(g.value)), n);
    QuietSkip(Skip(Tail(AtPorts(g.value)), n), 0);
  }

  // The subsystem step depends on the subsystems alone.
  lemma SameStep(s: Store, x: Store, m: Meta, silent: bool, f: Schedule)
    requires x.subsystems == s.subsystems
    ensures Ports(x, m) == Ports(s, m) && KeepsAt(x, m, silent, f) == KeepsAt(s, m, silent, f)
    ensures SubsystemQuiet(x, m, silent, f) == SubsystemQuiet(s, m, silent, f)
    ensures AfterSubsystem(x, m, f) == AfterSubsystem(s, m, f) && ClearsSubsystem(x, m, f) == ClearsSubsystem(s, m, f)
  {
  }

  // ---------------------------------------------------------------- Calls

  predicate Gone(r: Result<()>) { r.Ok? || r.error == NotFound }

  // The calls for removals one delete makes, in order: those about the namespace, then those
  // about the subsystem.
  datatype Trace = Trace(first: seq<Removal>, second: seq<Removal>) {
    function All(): seq<Removal> { first + second }

    predicate TouchesSubsystem() { second != [] }
  }

  const NO_CALLS := Trace([], [])

  predicate OnlyNamespace(calls: seq<Removal>, id: int) {
    forall c :: c in calls ==> c.NamespaceDelete? && c.id == id
  }

  predicate OnlySubsystem(calls: seq<Removal>, id: int) {
    forall c :: c in calls ==> !c.NamespaceDelete? && c.id == id
  }

  predicate EndsInGone(calls: seq<Removal>) {
    calls != [] && calls[|calls| - 1].NamespaceDelete? && Gone(calls[|calls| - 1].reported)
  }

  // The calls are for the volume's own namespace and subsystem. Those about the subsystem are
  // made only if the lookup of the namespace was answered and, where the namespace was the
  // volume's, its last delete reported that it is gone.
  ghost predicate InOrder(s: Store, m: Meta, f: Schedule, calls: Trace) {
    && OnlyNamespace(calls.first, m.namespaceId) && (calls.first != [] ==> HasNamespace(s, m))
    && OnlySubsystem(calls.second, m.subsystemId)
    && (calls.second != [] ==>
          && HasSubsystem(s, m) && (m.namespaceId > 0 ==> Head(f).Fine?)
          && (HasNamespace(s, m) ==> EndsInGone(calls.first)))
  }

  // ---------------------------------------------------------------- Namespace

  // No namespace of another volume is attached to the volume's subsystem.
  ghost predicate Unshared(s: Store, m: Meta) {
    HasSubsystem(s, m) ==> forall n :: n in Attached(s, m.subsystemId) ==> n == m.namespaceId && HasNamespace(s, m)
  }

  method OwnedNamespace(nas: Client, m: Meta) returns (r: Result<bool>)
    requires m.namespaceId > 0
    modifies nas`faults
    ensures nas.faults == Tail(old(nas.faults))
    ensures r == if Head(old(nas.faults)).Fine? then Ok(HasNamespace(nas.st, m)) else Err(Unavailable)
  {
    var q := nas.NamespaceById(m.namespaceId);
    if q.Err? { return Err(Unavailable); }
    r := Ok(q.value.Some? && m.OwnsNamespace(q.value.value));
  }

  ghost predicate NamespaceForgotten(s: Store, m: Meta) {
    m.zvol in s.pool && m.zvol != "" ==> s.pool[m.zvol].props.namespaceId == Some(0)
  }

  ghost predicate SubsystemForgotten(s: Store, m: Meta) {
    m.zvol in s.pool && m.zvol != "" ==> s.pool[m.zvol].props.subsystemId == Some(0)
  }

  // The identifiers the delete worked with are no longer recorded.
  ghost predicate Forgotten(s: Store, m: Meta) {
    (m.namespaceId > 0 ==> NamespaceForgotten(s, m)) && (m.subsystemId > 0 ==> SubsystemForgotten(s, m))
  }

  // Clearing a recorded identifier is best effort.
  method ClearNamespaceId(nas: Client, m: Meta, ghost s: Store)
    requires Torn(m, false, s, nas.st) && !HasNamespace(nas.st, m)
    modifies nas`st, nas`faults
    ensures Torn(m, false, s, nas.st) && nas.st == old(nas.st).(pool := nas.st.pool)
    ensures nas.faults == AfterClear(m, old(nas.faults))
    ensures !Head(old(nas.faults)).Lost? ==> NamespaceForgotten(nas.st, m)
  {
    if m.zvol == "" { return; }
    if m.zvol in nas.st.pool { ForgetNamespace(m, false, s, nas.st); }
    var w := nas.SetProps(m.zvol, (props: Props) => props.(namespaceId := Some(0)));
  }

  // At most 12 attempts while the failure is retryable; a vanished namespace counts as deleted.
  method DeleteNamespaceRetrying(nas: Client, m: Meta) returns (r: Result<()>, ghost calls: seq<Removal>)
    requires HasNamespace(nas.st, m)
    modifies nas`st, nas`faults, nas`log
    ensures nas.st == old(nas.st) || nas.st == old(nas.st).(namespaces := old(nas.st).namespaces - {m.namespaceId})
    ensures nas.log == old(nas.log) + calls && OnlyNamespace(calls, m.namespaceId)
    ensures r.Ok? ==> AfterDeletes(old(nas.faults), true, 12) == Some(nas.faults)
    ensures r.Err? && nas.Patient() ==> AfterDeletes(old(nas.faults), true, 12).None?
    ensures r.Ok? ==> m.namespaceId !in nas.st.namespaces && EndsInGone(calls)
    ensures Head(old(nas.faults)).Fine? ==> r.Ok?
  {
    r, calls := Err(Internal), [];
    for attempt := 1 to 13
      invariant nas.st == old(nas.st) || nas.st == old(nas.st).(namespaces := old(nas.st).namespaces - {m.namespaceId})
      invariant nas.log == old(nas.log) + calls && OnlyNamespace(calls, m.namespaceId)
      invariant AfterDeletes(old(nas.faults), true, 12) ==
                AfterDeletes(nas.faults, m.namespaceId in nas.st.namespaces, 13 - attempt)
      invariant r.Err?
      invariant Head(old(nas.faults)).Fine? ==> attempt == 1 && nas.faults == old(nas.faults) && nas.st == old(nas.st)
    {
      var began := nas.faults;
      var once := nas.DeleteNamespace(m.namespaceId);
      calls := calls + [NamespaceDelete(m.namespaceId, once)];
      if once.Ok? || once.error == NotFound { return Ok(()), calls; }
      r := once;
      if !nas.transient(began) { return; }
    }
  }

  // An owned namespace: delete, verify, clear.
  method RemoveOwnedNamespace(nas: Client, m: Meta) returns (r: Result<()>, ghost calls: seq<Removal>)
    requires HasNamespace(nas.st, m)
    modifies nas`st, nas`faults, nas`log
    ensures Torn(m, false, old(nas.st), nas.st) && nas.st.subsystems == old(nas.st).subsystems
    ensures nas.log == old(nas.log) + calls && OnlyNamespace(calls, m.namespaceId)
    ensures r.Ok? ==> !HasNamespace(nas.st, m) && EndsInGone(calls)
    ensures r.Ok? ==> var deleted := AfterDeletes(old(nas.faults), true, 12);
      && deleted.Some? && nas.faults == AfterClear(m, Tail(deleted.value))
      && (!Head(Tail(deleted.value)).Lost? ==> NamespaceForgotten(nas.st, m))
    ensures Head(old(nas.faults)).Fine? ==> r.Ok?
    ensures r.Err? && nas.Patient() ==> AfterDeletes(old(nas.faults), true, 12).None?
  {
    ghost var s := nas.st;
    TornSelf(m, false, s);
    TearNamespace(m, false, s, s);
    r, calls := DeleteNamespaceRetrying(nas, m);
    if r.Err? { return Err(Internal), calls; }
    var check := nas.NamespaceById(m.namespaceId);
    if check.Ok? && check.value.Some? { return Err(Internal), calls; }
    ClearNamespaceId(nas, m, s);
  }

  // deleteNVMeOFNamespace; m' is m without an identifier that is not the volume's.
  method RemoveNamespace(nas: Client, m: Meta) returns (r: Result<()>, m': Meta, ghost calls: seq<Removal>)
    modifies nas`st, nas`faults, nas`log
    ensures Torn(m, false, old(nas.st), nas.st) && nas.st.subsystems == old(nas.st).subsystems
    ensures nas.log == old(nas.log) + calls && OnlyNamespace(calls, m.namespaceId)
    ensures m' == m || m' == m.(namespaceId := 0)
    ensures r.Err? ==> m' == m && m.namespaceId > 0
    ensures calls != [] ==> HasNamespace(old(nas.st), m)
    ensures r.Ok? ==> !HasNamespace(nas.st, m)
    ensures r.Ok? ==> AfterNamespace(old(nas.st), m, old(nas.faults)) == Some(nas.faults)
    ensures r.Ok? && HasNamespace(old(nas.st), m) ==> EndsInGone(calls)
    ensures NamespaceQuiet(old(nas.st), m, old(nas.faults)) ==> r.Ok?
    ensures r.Err? && nas.Patient() ==> AfterNamespace(old(nas.st), m, old(nas.faults)).None?
    ensures r.Ok? && m.namespaceId > 0 && ClearsNamespace(old(nas.st), m, old(nas.faults)) ==>
      NamespaceForgotten(nas.st, m)
  {
    TornSelf(m, false, nas.st);
    m', calls := m, [];
    if m.namespaceId <= 0 { return Ok(()), m, calls; }
    var owned := OwnedNamespace(nas, m);
    if owned.Err? { return Err(Unavailable), m, calls; }
    if !owned.value {
      ClearNamespaceId(nas, m, nas.st);
      return Ok(()), m.(namespaceId := 0), calls;
    }
    r, calls := RemoveOwnedNamespace(nas, m);
  }

  // ---------------------------------------------------------------- Subsystem

  method OwnedSubsystem(nas: Client, m: Meta) returns (r: Result<bool>)
    requires m.subsystemId > 0
    modifies nas`faults
    ensures nas.faults == Tail(old(nas.faults))
    ensures r == if Head(old(nas.faults)).Fine? then Ok(HasSubsystem(nas.st, m)) else Err(Unavailable)
  {
    var q := nas.SubsystemById(m.subsystemId);
    if q.Err? { return Err(Unavailable); }
    r := Ok(q.value.Some? && m.OwnsSubsystem(q.value.value));
  }

  method ClearSubsystemId(nas: Client, m: Meta)
    modifies nas`st, nas`faults
    ensures Clears(old(nas.st), nas.st, m)
    ensures nas.faults == AfterClear(m, old(nas.faults))
    ensures !Head(old(nas.faults)).Lost? ==> SubsystemForgotten(nas.st, m)
  {
    if m.zvol == "" { return; }
    var w := nas.SetProps(m.zvol, (props: Props) => props.(subsystemId := Some(0)));
  }

  // Unbind the subsystem from its ports; failures are passed over.
  method UnbindPorts(nas: Client, m: Meta) returns (ghost calls: seq<Removal>)
    requires HasSubsystem(nas.st, m)
    modifies nas`st, nas`faults, nas`log
    ensures nas.st == old(nas.st).(subsystems := nas.st.subsystems)
    ensures LosesPorts(old(nas.st).subsystems, nas.st.subsystems, m.subsystemId)
    ensures nas.log == old(nas.log) + calls && OnlySubsystem(calls, m.subsystemId)
    ensures nas.faults == AfterUnbind(old(nas.faults), |Ports(old(nas.st), m)|)
    ensures Ports(nas.st, m) == {} <==>
      Ports(old(nas.st), m) == {} || UnbindsAll(old(nas.faults), |Ports(old(nas.st), m)|)
  {
    calls := [];
    ghost var f := Tail(nas.faults);
    var q := nas.PortsOf(m.subsystemId);
    if q.Err? { return; }
    var rest := q.value;
    while rest != {}
      invariant nas.st == old(nas.st).(subsystems := nas.st.subsystems)
      invariant LosesPorts(old(nas.st).subsystems, nas.st.subsystems, m.subsystemId)
      invariant nas.log == old(nas.log) + calls && OnlySubsystem(calls, m.subsystemId)
      invariant Skip(f, |q.value|) == Skip(nas.faults, |rest|)
      invariant rest <= nas.st.subsystems[m.subsystemId].ports
      invariant NoneLost(f, |q.value|) <==>
        nas.st.subsystems[m.subsystemId].ports <= rest && NoneLost(nas.faults, |rest|)
      decreases rest
    {
      var port := AnyOf(rest);
      rest := rest - {port};
      var w := nas.Unbind(m.subsystemId, port);
      calls := calls + [PortUnbind(m.subsystemId, port)];
    }
  }

  method DeleteSubsystemRetrying(nas: Client, m: Meta) returns (r: Result<()>, ghost calls: seq<Removal>)
    requires HasSubsystem(nas.st, m)
    modifies nas`st, nas`faults, nas`log
    ensures nas.st == old(nas.st)
      || (CanDrop(old(nas.st), m.subsystemId)
          && nas.st == old(nas.st).(subsystems := old(nas.st).subsystems - {m.subsystemId}))
    ensures nas.log == old(nas.log) + calls && OnlySubsystem(calls, m.subsystemId) && calls != []
    ensures r.Ok? ==> (HasSubsystem(nas.st, m) <==> Ports(old(nas.st), m) != {})
    ensures r.Ok? && Ports(old(nas.st), m) != {} ==> nas.silent
    ensures Attached(old(nas.st), m.subsystemId) == {} && Head(old(nas.faults)).Fine?
            && (nas.silent || Ports(old(nas.st), m) == {}) ==>
      r.Ok? && nas.faults == Tail(old(nas.faults))
    ensures CanDrop(old(nas.st), m.subsystemId) && nas.Patient() ==>
      (r.Ok? <==> AfterDeletes(old(nas.faults), true, 12).Some?)
  {
    r, calls := Err(Internal), [];
    ghost var s, f := nas.st, nas.faults;
    for attempt := 1 to 13
      invariant nas.st == s
        || (CanDrop(s, m.subsystemId) && nas.st == s.(subsystems := s.subsystems - {m.subsystemId}))
      invariant nas.log == old(nas.log) + calls && OnlySubsystem(calls, m.subsystemId)
      invariant r.Err? && (attempt == 1 || calls != [])
      invariant Attached(s, m.subsystemId) == {} && Head(f).Fine? && (nas.silent || Ports(s, m) == {}) ==>
        attempt == 1 && nas.st == s && nas.faults == f
      invariant CanDrop(s, m.subsystemId) ==>
        AfterDeletes(f, true, 12) == AfterDeletes(nas.faults, m.subsystemId in nas.st.subsystems, 13 - attempt)
    {
      var began := nas.faults;
      var once := nas.DeleteSubsystem(m.subsystemId);
      calls := calls + [SubsystemDelete(m.subsystemId, once)];
      if once.Ok? || once.error == NotFound { return Ok(()), calls; }
      r := once;
      if !nas.transient(began) { return; }
    }
  }

  // The owned subsystem, once looked up.
  method RemoveOwnedSubsystem(nas: Client, m: Meta) returns (r: Result<()>, ghost calls: seq<Removal>)
    requires HasSubsystem(nas.st, m)
    modifies nas`st, nas`faults, nas`log
    ensures Drops(old(nas.st), nas.st, m) && (calls == [] ==> nas.st == old(nas.st) && r.Err?)
    ensures Head(old(nas.faults)).Fine? && calls != [] ==> Attached(nas.st, m.subsystemId) == {}
    ensures nas.log == old(nas.log) + calls && OnlySubsystem(calls, m.subsystemId)
    ensures r.Ok? ==>
      (HasSubsystem(nas.st, m) <==>
         nas.silent && Ports(old(nas.st), m) != {} && !UnbindsAll(Tail(old(nas.faults)), |Ports(old(nas.st), m)|))
    ensures var g, n := Tail(old(nas.faults)), |Ports(old(nas.st), m)|;
      Attached(old(nas.st), m.subsystemId) == {} && Head(AfterUnbind(g, n)).Fine?
      && (nas.silent || Ports(old(nas.st), m) == {} || UnbindsAll(g, n)) ==>
      r.Ok? && nas.faults == Tail(AfterUnbind(g, n))
  {
    calls := [];
    ghost var before := nas.st;
    var attached := nas.NamespacesOf(m.subsystemId);
    if attached.Ok? && attached.value != {} { return Err(FailedPrecondition), calls; }
    calls := UnbindPorts(nas, m);
    UnbindThenDrop(before, nas.st, m);
    ghost var deletes;
    r, deletes := DeleteSubsystemRetrying(nas, m);
    calls := calls + deletes;
    if r.Err? { r := Err(Internal); }
  }

  // deleteNVMeOFSubsystem. The identifier is cleared only after a success.
  method RemoveSubsystem(nas: Client, m: Meta) returns (r: Result<()>, ghost calls: seq<Removal>)
    modifies nas`st, nas`faults, nas`log
    ensures Takes(old(nas.st), nas.st, m) && (r.Err? ==> nas.st.pool == old(nas.st).pool)
    ensures nas.log == old(nas.log) + calls && OnlySubsystem(calls, m.subsystemId)
    ensures if calls == [] then nas.st.subsystems == old(nas.st).subsystems && (r.Ok? ==> !HasSubsystem(old(nas.st), m))
            else HasSubsystem(old(nas.st), m)
    ensures Head(Tail(old(nas.faults))).Fine? && calls != [] ==> Attached(nas.st, m.subsystemId) == {}
    ensures r.Ok? ==> (HasSubsystem(nas.st, m) <==> KeepsAt(old(nas.st), m, nas.silent, old(nas.faults)))
    ensures (HasSubsystem(old(nas.st), m) ==> Attached(old(nas.st), m.subsystemId) == {})
            && SubsystemQuiet(old(nas.st), m, nas.silent, old(nas.faults)) ==>
      r.Ok? && nas.faults == AfterSubsystem(old(nas.st), m, old(nas.faults))
      && (m.subsystemId > 0 && ClearsSubsystem(old(nas.st), m, old(nas.faults)) ==> SubsystemForgotten(nas.st, m))
  {
    calls := [];
    if m.subsystemId <= 0 { return Ok(()), calls; }
    var owned := OwnedSubsystem(nas, m);
    if owned.Err? { return Err(Unavailable), calls; }
    if owned.value {
      r, calls := RemoveOwnedSubsystem(nas, m);
      if r.Err? { return; }
    }
    ClearSubsystemId(nas, m);
    r := Ok(());
  }

  // ---------------------------------------------------------------- One attempt

  // The volume's properties allow the delete, and no protected snapshot forbids it.
  ghost predicate Permitted(s: Store, name: string, zvol: string) {
    && zvol in s.pool && Belongs(name, s.pool[zvol].props) && !Retained(s.pool[zvol].props)
    && NoneProtectedOn(s.pool, zvol)
  }

  // A delete goes on to the teardown also if the ZVOL is gone.
  ghost predicate Allowed(s: Store, name: string, zvol: string) {
    zvol in s.pool ==> Permitted(s, name, zvol)
  }

  // Nor does a clone stand in its way that promotion cannot clear.
  ghost predicate Authorized(s: Store, name: string, zvol: string) {
    Permitted(s, name, zvol) && Removable(s.pool, zvol)
  }

  ghost predicate Deletable(s: Store, m: Meta) {
    Authorized(s, m.name, m.zvol) && Unshared(s, Effective(s, m))
  }

  ghost predicate WorksOn(m: Meta, kept: bool, s: Store, s': Store) {
    && TornTables(m, s, s')
    && s'.pool.Keys <= s.pool.Keys && s.pool.Keys - {m.zvol} <= s'.pool.Keys
    && KeepsProtected(s.pool, s'.pool) && KeepsElsewhere(s.pool, s'.pool, m.zvol)
    && (forall d :: d in s'.pool && d != m.zvol ==>
          s'.pool[d].volsize == s.pool[d].volsize && s'.pool[d].props == s.pool[d].props)
    && (m.zvol in s.pool && m.zvol in s'.pool ==> Forgets(m, s', kept, s.pool[m.zvol].props, s'.pool[m.zvol].props))
  }

  // Nothing of the volume is left that the delete knew of, but a silently kept subsystem.
  ghost predicate Cleared(s: Store, m: Meta, kept: bool) {
    !HasNamespace(s, m) && (HasSubsystem(s, m) <==> kept)
  }

  // The ownership check and the snapshot guard are one call each, if there is a ZVOL.
  function AfterGuards(zvol: string, f: Schedule): Schedule { if zvol == "" then f else Tail(Tail(f)) }

  predicate GuardsAnswered(zvol: string, f: Schedule) {
    zvol == "" || (Head(f).Fine? && Head(Tail(f)).Fine?)
  }

  // No call up to the end of the teardown fails but what the teardown passes over.
  predicate TeardownQuiet(s: Store, m: Meta, silent: bool, f: Schedule) {
    GuardsAnswered(m.zvol, f) && PresentationQuiet(s, m, silent, AfterGuards(m.zvol, f))
  }

  // The server silently keeps the subsystem from a delete that begins with schedule f.
  predicate Leaks(s: Store, m: Meta, silent: bool, f: Schedule) {
    Keeps(s, m, silent, AfterGuards(m.zvol, f))
  }

  lemma QuietTeardown(s: Store, m: Meta, silent: bool, f: Schedule)
    requires Pending(f) == 0
    ensures TeardownQuiet(s, m, silent, f) && !Leaks(s, m, silent, f)
    ensures Pending(AfterPresentation(s, m, AfterGuards(m.zvol, f))) == 0
    ensures m.namespaceId > 0 ==> ClearsNamespace(s, m, AfterGuards(m.zvol, f))
    ensures m.subsystemId > 0 ==> ClearsIdentifier(s, m, AfterGuards(m.zvol, f))
  {
    QuietPresentation(s, m, silent, AfterGuards(m.zvol, f));
  }

  // What the checks settle is settled, and without their answers nothing is done.
  ghost predicate Screened(m: Meta, s: Store, f: Schedule, s': Store, r: Result<()>, calls: Trace) {
    var verdict := Verdict(s, m.name, m.zvol, f);
    && (verdict.Some? ==> s' == s && calls == NO_CALLS && r == verdict.value)
    && (m.zvol !in s.pool && !GuardsAnswered(m.zvol, f) ==> s' == s && calls == NO_CALLS && r == Err(Unavailable))
  }

  // What one DeleteVolume does, whatever fails: from s with schedule f to s', by these calls
  // for removals. e is m with the recorded identifiers.
  ghost predicate Sound(m: Meta, e: Meta, silent: bool, s: Store, f: Schedule, s': Store, r: Result<()>,
          calls: Trace)
  {
    && WfStore(s') && WorksOn(e, calls.TouchesSubsystem() && Leaks(s, e, silent, f), s, s')
    && (m.zvol in s.pool && (s' != s || calls != NO_CALLS) ==>
          Belongs(m.name, s.pool[m.zvol].props) && !Retained(s.pool[m.zvol].props) && NoneProtectedOn(s.pool, m.zvol))
    && Screened(m, s, f, s', r, calls)
    && InOrder(s, e, AfterGuards(m.zvol, f), calls)
    && (calls.TouchesSubsystem() ==>
          && !HasNamespace(s', e)
          && (AttachedAnswered(s, e, AfterGuards(m.zvol, f)) ==> Attached(s', e.subsystemId) == {}))
    && (s'.subsystems != s.subsystems ==> calls.TouchesSubsystem())
    && (m.zvol in s.pool && m.zvol !in s'.pool ==>
          Cleared(s', e, Leaks(s, e, silent, f)) && (HasSubsystem(s, e) ==> calls.TouchesSubsystem()))
    && (r.Ok? ==> (m.zvol in s.pool && Retained(s.pool[m.zvol].props) && s' == s)
                  || (m.zvol !in s'.pool && Cleared(s', e, Leaks(s, e, silent, f))))
  }

  // When it succeeds, and what a failure leaves for the next.
  ghost predicate Progress(m: Meta, e: Meta, silent: bool, s: Store, f: Schedule, s': Store, r: Result<()>) {
    && (Stuck(s.pool, m.zvol) ==> Stuck(s'.pool, m.zvol))
    && (Authorized(s, m.name, m.zvol) && m.zvol in s'.pool ==> Authorized(s', m.name, m.zvol))
    && (Allowed(s, m.name, m.zvol) && Unshared(s, e) && TeardownQuiet(s, e, silent, f) ==>
          && Cleared(s', e, Leaks(s, e, silent, f))
          && ForgetsWhatClears(s, e, AfterGuards(m.zvol, f), s')
          && (Pending(AfterPresentation(s, e, AfterGuards(m.zvol, f))) == 0 ==>
                (m.zvol in s.pool ==> Removable(s.pool, m.zvol)) ==> r.Ok?))
  }

  // What an error says: the owner or the snapshots forbid the delete, or a clone does at the
  // end; otherwise a call failed or a foreign namespace is on the subsystem.
  ghost predicate Explains(error: Error, m: Meta, e: Meta, s: Store, f: Schedule, s': Store) {
    match error
    case FailedPrecondition => Verdict(s, m.name, m.zvol, f).Some? || Blocked(s'.pool, m.zvol)
    case Internal => Pending(f) > 0 || !Unshared(s, e)
    case Unavailable => Pending(f) > 0 || !Unshared(s, e)
    case _ => false
  }

  ghost predicate Deletion(m: Meta, silent: bool, s: Store, f: Schedule, s': Store, r: Result<()>,
          calls: Trace)
  {
    var e := Effective(s, m);
    && Sound(m, e, silent, s, f, s', r, calls) && Progress(m, e, silent, s, f, s', r)
    && (r.Err? ==> Explains(r.error, m, e, s, f, s'))
  }

  lemma UntouchedIsDeletion(m: Meta, silent: bool, s: Store, f: Schedule, r: Result<()>)
    requires WfStore(s) && "" !in s.pool && Screened(m, s, f, s, r, NO_CALLS)
    requires if m.zvol in s.pool then Verdict(s, m.name, m.zvol, f).Some? else !GuardsAnswered(m.zvol, f)
    ensures Deletion(m, silent, s, f, s, r, NO_CALLS)
  {
    assert Pending(f) == 0 ==> Head(f).Fine? && Head(Tail(f)).Fine?;
  }

  // The teardown changes nothing of the pool but properties of the ZVOL.
  lemma TornPool(m: Meta, kept: bool, s: Store, x: Store)
    requires Torn(m, kept, s, x)
    ensures x.pool.Keys == s.pool.Keys
    ensures forall d :: d in s.pool ==> x.pool[d] == s.pool[d].(props := x.pool[d].props)
    ensures forall d :: d in s.pool && d != m.zvol ==> x.pool[d] == s.pool[d]
    ensures m.zvol in s.pool ==> Forgets(m, x, kept, s.pool[m.zvol].props, x.pool[m.zvol].props)
  {
  }

  lemma TornProtects(m: Meta, kept: bool, s: Store, x: Store)
    requires Torn(m, kept, s, x)
    ensures KeepsProtected(s.pool, x.pool)
    ensures NoneProtectedOn(s.pool, m.zvol) ==> NoneProtectedOn(x.pool, m.zvol)
  {
    TornPool(m, kept, s, x);
    forall t | Protected(x.pool, m.zvol, t) ensures Protected(s.pool, m.zvol, t) {
    }
  }

  lemma TornBlocks(m: Meta, kept: bool, s: Store, x: Store)
    requires Torn(m, kept, s, x)
    ensures Removable(s.pool, m.zvol) ==> Removable(x.pool, m.zvol)
    ensures NewestDeferred(x.pool, m.zvol) <==> NewestDeferred(s.pool, m.zvol)
  {
    TornPool(m, kept, s, x);
    SameRemovable(s.pool, x.pool, m.zvol);
  }

  lemma TornWorksOn(m: Meta, kept: bool, s: Store, x: Store, s': Store)
    requires Torn(m, kept, s, x) && s' == x.(pool := s'.pool) && Spares(x.pool, s'.pool, m.zvol)
    ensures WorksOn(m, kept, s, s')
  {
    TornPool(m, kept, s, x);
    TornProtects(m, kept, s, x);
    SparesProtected(x.pool, s'.pool, m.zvol);
    assert Attached(s', m.subsystemId) == Attached(x, m.subsystemId);
  }

  // A delete cut short may be repeated.
  lemma TornAuthorized(m: Meta, kept: bool, s: Store, x: Store, s': Store)
    requires Torn(m, kept, s, x) && Spares(x.pool, s'.pool, m.zvol)
    requires Authorized(s, m.name, m.zvol) && m.zvol in s'.pool
    ensures Authorized(s', m.name, m.zvol)
  {
    TornPool(m, kept, s, x);
    TornBlocks(m, kept, s, x);
    assert s'.pool[m.zvol].props == x.pool[m.zvol].props;
  }

  lemma UnsharedThenFree(m: Meta, s: Store, x: Store)
    requires TornTables(m, s, x) && Unshared(s, m) && !HasNamespace(x, m)
    ensures HasSubsystem(s, m) ==> Attached(x, m.subsystemId) == {}
  {
    forall n ensures HasSubsystem(s, m) ==> n !in Attached(x, m.subsystemId) {
      assert n in Attached(x, m.subsystemId) ==> n in Attached(s, m.subsystemId);
    }
  }

  // verifyNVMeOFOwnership; None: the volume is to be retained.
  method Verify(nas: Client, m: Meta) returns (r: Result<Option<Meta>>)
    requires "" !in nas.st.pool
    modifies nas`faults
    ensures nas.faults == if m.zvol == "" then old(nas.faults) else Tail(old(nas.faults))
    ensures r == if m.zvol == "" then Ok(Some(m))
                 else if !Head(old(nas.faults)).Fine? then Err(Unavailable)
                 else if m.zvol !in nas.st.pool then Ok(Some(m))
                 else if !Belongs(m.name, nas.st.pool[m.zvol].props) then Err(FailedPrecondition)
                 else if Retained(nas.st.pool[m.zvol].props) then Ok(None)
                 else Ok(Some(Effective(nas.st, m)))
  {
    if m.zvol == "" { return Ok(Some(m)); }
    var ownership := ReadOwnership(nas, m.name, m.zvol);
    if ownership.Err? { return Err(ownership.error); }
    if ownership.value.None? { return Ok(Some(m)); }
    var props := ownership.value.value;
    if Retained(props) { return Ok(None); }
    r := Ok(Some(m.(subsystemId := Reconciled(m.subsystemId, IdOf(props.subsystemId)),
                    namespaceId := Reconciled(m.namespaceId, IdOf(props.namespaceId)))));
  }

  // An identifier is no longer recorded when the call that clears it takes effect.
  ghost predicate ForgetsWhatClears(s: Store, m: Meta, f: Schedule, s': Store) {
    && (m.namespaceId > 0 && ClearsNamespace(s, m, f) ==> NamespaceForgotten(s', m))
    && (ClearsIdentifier(s, m, f) ==> SubsystemForgotten(s', m))
  }

  predicate ClearsIdentifier(s: Store, m: Meta, f: Schedule) {
    var g := AfterNamespace(s, m, f);
    m.subsystemId > 0 && g.Some? && ClearsSubsystem(s, m, g.value)
  }

  // What the teardown from s with schedule f does by these calls, whatever fails; removed: it
  // reported success.
  ghost predicate TakenDown(s: Store, e: Meta, silent: bool, f: Schedule, x: Store, removed: bool, calls: Trace) {
    && Torn(e, calls.TouchesSubsystem() && Keeps(s, e, silent, f), s, x)
    && InOrder(s, e, f, calls)
    && (calls.TouchesSubsystem() ==>
          !HasNamespace(x, e) && (AttachedAnswered(s, e, f) ==> Attached(x, e.subsystemId) == {}))
    && (x.subsystems != s.subsystems ==> calls.TouchesSubsystem())
    && (removed ==> Cleared(x, e, Keeps(s, e, silent, f)) && (HasSubsystem(s, e) ==> calls.TouchesSubsystem()))
  }

  // It ended with the namespace step ...
  lemma StoppedEarly(s: Store, e: Meta, silent: bool, f: Schedule, x: Store, first: seq<Removal>)
    requires Torn(e, false, s, x) && x.subsystems == s.subsystems
    requires OnlyNamespace(first, e.namespaceId) && (first != [] ==> HasNamespace(s, e))
    ensures TakenDown(s, e, silent, f, x, false, Trace(first, []))
  {
  }

  // ... or went on to the subsystem.
  lemma WentOn(s: Store, e: Meta, silent: bool, f: Schedule, x: Store, removed: bool, first: seq<Removal>,
          second: seq<Removal>)
    requires Torn(e, second != [] && Keeps(s, e, silent, f), s, x) && !HasNamespace(x, e)
    requires AfterNamespace(s, e, f).Some?
    requires OnlyNamespace(first, e.namespaceId) && (first != [] ==> HasNamespace(s, e))
    requires HasNamespace(s, e) ==> EndsInGone(first)
    requires OnlySubsystem(second, e.subsystemId)
    requires if second == [] then x.subsystems == s.subsystems
             else HasSubsystem(s, e) && (AttachedAnswered(s, e, f) ==> Attached(x, e.subsystemId) == {})
    requires removed ==> (HasSubsystem(x, e) <==> Keeps(s, e, silent, f)) && (HasSubsystem(s, e) ==> second != [])
    ensures TakenDown(s, e, silent, f, x, removed, Trace(first, second))
  {
  }

  // A quiet teardown that began in s with schedule f succeeds, and leaves x and schedule rest.
  ghost predicate Quietly(s: Store, e: Meta, silent: bool, f: Schedule, x: Store, rest: Schedule, removed: bool) {
    Unshared(s, e) && PresentationQuiet(s, e, silent, f) ==>
      && removed && rest == AfterPresentation(s, e, f)
      && (ClearsIdentifier(s, e, f) ==> SubsystemForgotten(x, e))
  }

  // The subsystem step once the namespace is gone: s is the store before the namespace step,
  // which began with schedule f.
  method RemoveSubsystemAfter(nas: Client, e: Meta, ghost s: Store, ghost f: Schedule)
    returns (r: Result<()>, ghost after: seq<Removal>)
    requires Torn(e, false, s, nas.st) && nas.st.subsystems == s.subsystems && !HasNamespace(nas.st, e)
    requires AfterNamespace(s, e, f) == Some(nas.faults)
    modifies nas`st, nas`faults, nas`log
    ensures Torn(e, after != [] && Keeps(s, e, nas.silent, f), s, nas.st) && !HasNamespace(nas.st, e)
    ensures nas.log == old(nas.log) + after && OnlySubsystem(after, e.subsystemId)
    ensures if after == [] then nas.st.subsystems == s.subsystems
            else HasSubsystem(s, e) && (AttachedAnswered(s, e, f) ==> Attached(nas.st, e.subsystemId) == {})
    ensures r.Ok? ==> (HasSubsystem(nas.st, e) <==> Keeps(s, e, nas.silent, f)) && (HasSubsystem(s, e) ==> after != [])
    ensures Unshared(s, e) && SubsystemQuiet(s, e, nas.silent, old(nas.faults)) ==>
      r.Ok? && nas.faults == AfterSubsystem(s, e, old(nas.faults))
      && (e.subsystemId > 0 && ClearsSubsystem(s, e, old(nas.faults)) ==> SubsystemForgotten(nas.st, e))
    ensures NamespaceForgotten(old(nas.st), e) ==> NamespaceForgotten(nas.st, e)
  {
    ghost var x := nas.st;
    SameStep(s, x, e, nas.silent, nas.faults);
    if Unshared(s, e) { UnsharedThenFree(e, s, x); }
    r, after := RemoveSubsystem(nas, e);
    TornTakes(e, after != [] && Keeps(s, e, nas.silent, f), s, x, nas.st);
    if NamespaceForgotten(x, e) { TakesKeepsForgotten(x, nas.st, e); }
  }

  // The teardown after the namespace step, which began in s with schedule f and made the
  // first calls.
  method FinishTeardown(nas: Client, e: Meta, ghost s: Store, ghost f: Schedule, ghost first: seq<Removal>)
    returns (r: Result<()>, ghost second: seq<Removal>)
    requires Torn(e, false, s, nas.st) && nas.st.subsystems == s.subsystems && !HasNamespace(nas.st, e)
    requires AfterNamespace(s, e, f) == Some(nas.faults)
    requires OnlyNamespace(first, e.namespaceId) && (first != [] ==> HasNamespace(s, e))
    requires HasNamespace(s, e) ==> EndsInGone(first)
    modifies nas`st, nas`faults, nas`log
    ensures nas.log == old(nas.log) + second
    ensures TakenDown(s, e, nas.silent, f, nas.st, r.Ok?, Trace(first, second))
    ensures Quietly(s, e, nas.silent, f, nas.st, nas.faults, r.Ok?)
    ensures NamespaceForgotten(old(nas.st), e) ==> NamespaceForgotten(nas.st, e)
  {
    r, second := RemoveSubsystemAfter(nas, e, s, f);
    WentOn(s, e, nas.silent, f, nas.st, r.Ok?, first, second);
  }

  // Namespace, then subsystem; any failure keeps the ZVOL. The subsystem step reads no
  // namespace identifier, so it is given e as it was.
  method RemovePresentation(nas: Client, e: Meta) returns (r: Result<()>, ghost calls: Trace)
    modifies nas`st, nas`faults, nas`log
    ensures nas.log == old(nas.log) + calls.All()
    ensures TakenDown(old(nas.st), e, nas.silent, old(nas.faults), nas.st, r.Ok?, calls)
    ensures Quietly(old(nas.st), e, nas.silent, old(nas.faults), nas.st, nas.faults, r.Ok?)
    ensures r.Ok? && e.namespaceId > 0 && ClearsNamespace(old(nas.st), e, old(nas.faults)) ==>
      NamespaceForgotten(nas.st, e)
  {
    ghost var s, f, log := nas.st, nas.faults, nas.log;
    var namespaceGone, e', first := RemoveNamespace(nas, e);
    calls := Trace(first, []);
    if namespaceGone.Err? && e'.namespaceId > 0 {
      StoppedEarly(s, e, nas.silent, f, nas.st, first);
      return Err(Unavailable), calls;
    }
    var subsystemGone, second := FinishTeardown(nas, e, s, f, first);
    calls := Trace(first, second);
    assert log + first + second == log + calls.All();
    if namespaceGone.Err? || subsystemGone.Err? { return Err(Unavailable), calls; }
    r := Ok(());
  }

  // deleteNVMeOFVolume.
  method DeleteNvmeVolume(nas: Client, m: Meta) returns (r: Result<()>, ghost calls: Trace)
    requires WfStore(nas.st) && "" !in nas.st.pool
    modifies nas`st, nas`faults, nas`log
    ensures nas.log == old(nas.log) + calls.All()
    ensures Deletion(m, nas.silent, old(nas.st), old(nas.faults), nas.st, r, calls)
  {
    ghost var s, f := nas.st, nas.faults;
    calls := NO_CALLS;
    var verified := Verify(nas, m);
    if verified.Err? {
      UntouchedIsDeletion(m, nas.silent, s, f, Err(verified.error));
      return Err(verified.error), calls;
    }
    if verified.value.None? {
      UntouchedIsDeletion(m, nas.silent, s, f, Ok(()));
      return Ok(()), calls;
    }
    if m.zvol != "" {
      var guarded := HasCsiSnapshots(nas, m.zvol);
      if guarded.Err? {
        UntouchedIsDeletion(m, nas.silent, s, f, Err(Unavailable));
        return Err(Unavailable), calls;
      }
      if guarded.value {
        UntouchedIsDeletion(m, nas.silent, s, f, Err(FailedPrecondition));
        return Err(FailedPrecondition), calls;
      }
    }
    r, calls := DeleteVerified(nas, m, verified.value.value, f);
  }

  // x is s with the presentation torn down, and s' is x after work on the ZVOL's snapshots, its
  // clones and itself.
  ghost predicate Worked(e: Meta, kept: bool, s: Store, x: Store, s': Store) {
    && WfStore(s') && WorksOn(e, kept, s, s') && s' == x.(pool := s'.pool)
    && (Authorized(s, e.name, e.zvol) && e.zvol in s'.pool ==> Authorized(s', e.name, e.zvol))
    && (NamespaceForgotten(x, e) ==> NamespaceForgotten(s', e))
    && (SubsystemForgotten(x, e) ==> SubsystemForgotten(s', e))
  }

  lemma SparedForgets(e: Meta, x: Store, s': Store)
    requires Spares(x.pool, s'.pool, e.zvol)
    ensures NamespaceForgotten(x, e) ==> NamespaceForgotten(s', e)
    ensures SubsystemForgotten(x, e) ==> SubsystemForgotten(s', e)
  {
  }

  lemma TornIsWorked(e: Meta, kept: bool, s: Store, x: Store, s': Store)
    requires WfStore(s) && Torn(e, kept, s, x) && s' == x.(pool := s'.pool) && Spares(x.pool, s'.pool, e.zvol)
    ensures Worked(e, kept, s, x, s')
  {
    TornWorksOn(e, kept, s, x, s');
    SparedForgets(e, x, s');
    assert WfStore(s') by { TornKeepsWf(e, kept, s, x); }
    if Authorized(s, e.name, e.zvol) && e.zvol in s'.pool { TornAuthorized(e, kept, s, x, s'); }
  }

  // Deletion of the ZVOL after its presentation is gone, or has failed to go.
  method DestroyTorn(nas: Client, e: Meta, ghost kept: bool, ghost s: Store, removed: bool) returns (r: Result<()>)
    requires WfStore(s) && NoneProtectedOn(s.pool, e.zvol) && Torn(e, kept, s, nas.st)
    modifies nas`st, nas`faults
    ensures Worked(e, kept, s, old(nas.st), nas.st)
    ensures !removed ==> r == Err(Unavailable) && nas.st == old(nas.st)
    ensures r.Err? && removed ==> if r.error == FailedPrecondition then Blocked(nas.st.pool, e.zvol)
                                  else r.error == Internal && Pending(old(nas.faults)) > 0
    ensures r.Ok? && e.zvol != "" ==> e.zvol !in nas.st.pool
    ensures removed && (e.zvol in s.pool ==> Removable(s.pool, e.zvol)) && Pending(old(nas.faults)) == 0 ==> r.Ok?
    ensures Stuck(s.pool, e.zvol) ==> Stuck(nas.st.pool, e.zvol)
  {
    ghost var x := nas.st;
    TornKeepsWf(e, kept, s, x);
    TornProtects(e, kept, s, x);
    TornBlocks(e, kept, s, x);
    SparesSelf(x.pool, e.zvol);
    TornPool(e, kept, s, x);
    r := if removed then Ok(()) else Err(Unavailable);
    if removed && e.zvol != "" { r := DestroyNvmeZvol(nas, e.zvol); }
    TornIsWorked(e, kept, s, x, nas.st);
  }

  // x: the store between the teardown, which removed the presentation or failed to, and the
  // deletion of the ZVOL.
  lemma TornIsSound(m: Meta, e: Meta, silent: bool, s: Store, f: Schedule, x: Store, s': Store, removed: bool,
          r: Result<()>, calls: Trace)
    requires e == Effective(s, m) && "" !in s.pool && GuardsAnswered(m.zvol, f)
    requires m.zvol in s.pool ==> Permitted(s, m.name, m.zvol)
    requires TakenDown(s, e, silent, AfterGuards(m.zvol, f), x, removed, calls)
    requires Worked(e, calls.TouchesSubsystem() && Leaks(s, e, silent, f), s, x, s')
    requires !removed ==> r.Err? && s' == x
    requires r.Ok? && m.zvol != "" ==> m.zvol !in s'.pool
    ensures Sound(m, e, silent, s, f, s', r, calls)
  {
    TornPool(e, calls.TouchesSubsystem() && Leaks(s, e, silent, f), s, x);
  }

  // rest: what the teardown left of the schedule.
  lemma TornMakesProgress(m: Meta, e: Meta, silent: bool, s: Store, f: Schedule, kept: bool, x: Store, s': Store,
          rest: Schedule, removed: bool, r: Result<()>, calls: Trace)
    requires e == Effective(s, m) && Worked(e, kept, s, x, s') && (Stuck(s.pool, m.zvol) ==> Stuck(s'.pool, m.zvol))
    requires TakenDown(s, e, silent, AfterGuards(m.zvol, f), x, removed, calls)
    requires Quietly(s, e, silent, AfterGuards(m.zvol, f), x, rest, removed)
    requires removed && e.namespaceId > 0 && ClearsNamespace(s, e, AfterGuards(m.zvol, f)) ==> NamespaceForgotten(x, e)
    requires removed && (m.zvol in s.pool ==> Removable(s.pool, m.zvol)) && Pending(rest) == 0 ==> r.Ok?
    ensures Progress(m, e, silent, s, f, s', r)
  {
  }

  lemma TornIsExplained(m: Meta, e: Meta, silent: bool, s: Store, f: Schedule, x: Store, s': Store, rest: Schedule,
          removed: bool, r: Result<()>)
    requires m.zvol == e.zvol && GuardsAnswered(m.zvol, f)
    requires Quietly(s, e, silent, AfterGuards(m.zvol, f), x, rest, removed)
    requires r.Err? && !removed ==> r.error == Unavailable
    requires r.Err? && removed ==>
      if r.error == FailedPrecondition then Blocked(s'.pool, m.zvol) else r.error == Internal && Pending(rest) > 0
    ensures r.Err? ==> Explains(r.error, m, e, s, f, s')
  {
    if Pending(f) == 0 { QuietTeardown(s, e, silent, f); }
  }

  // The delete once ownership and snapshots allow it; e is m with the recorded identifiers.
  method DeleteVerified(nas: Client, m: Meta, e: Meta, ghost f: Schedule)
    returns (r: Result<()>, ghost calls: Trace)
    requires WfStore(nas.st) && "" !in nas.st.pool && e == Effective(nas.st, m)
    requires Verdict(nas.st, m.name, m.zvol, f) == None
    requires GuardsAnswered(m.zvol, f) && nas.faults == AfterGuards(m.zvol, f)
    modifies nas`st, nas`faults, nas`log
    ensures nas.log == old(nas.log) + calls.All()
    ensures Deletion(m, nas.silent, old(nas.st), f, nas.st, r, calls)
  {
    ghost var s := nas.st;
    var removed, removals := RemovePresentation(nas, e);
    calls := removals;
    ghost var kept := calls.TouchesSubsystem() && Leaks(s, e, nas.silent, f);
    ghost var x := nas.st;
    ghost var rest := nas.faults;
    r := DestroyTorn(nas, e, kept, s, removed.Ok?);
    TornIsExplained(m, e, nas.silent, s, f, x, nas.st, rest, removed.Ok?, r);
    TornMakesProgress(m, e, nas.silent, s, f, kept, x, nas.st, rest, removed.Ok?, r, calls);
    TornIsSound(m, e, nas.silent, s, f, x, nas.st, removed.Ok?, r, calls);
  }

  // ---------------------------------------------------------------- Runs of attempts

  // In plain words, all a delete may take: namespaces on the ZVOL's device, subsystems that
  // carry the recorded NQN, or without one are named after the volume, and the ZVOL.
  ghost predicate ForeignSubsystem(m: Meta, b: Subsystem) {
    if m.nqn == "" then !EndsWith(b.name, ":" + Base(m.name)) else b.nqn != m.nqn && b.name != m.nqn
  }

  lemma OnlyOwnGoes(m: Meta, silent: bool, s: Store, f: Schedule, s': Store, r: Result<()>, calls: Trace,
          n: int, b: int, d: string)
    requires Deletion(m, silent, s, f, s', r, calls)
    ensures n in s.namespaces && s.namespaces[n].device != "zvol/" + m.zvol
            && s.namespaces[n].device != "/dev/zvol/" + m.zvol ==>
              n in s'.namespaces && s'.namespaces[n] == s.namespaces[n]
    ensures b in s.subsystems && ForeignSubsystem(m, s.subsystems[b]) ==>
              b in s'.subsystems && s'.subsystems[b] == s.subsystems[b]
    ensures d in s.pool && d != m.zvol ==> d in s'.pool && s'.pool[d].props == s.pool[d].props
  {
    if n in s.namespaces { DeviceInWords(m, s.namespaces[n]); }
  }

  lemma DeviceInWords(m: Meta, n: Namespace)
    ensures m.OwnsNamespace(n) <==> n.device == "zvol/" + m.zvol || n.device == "/dev/zvol/" + m.zvol
  {
    var device := "zvol/" + m.zvol;
    assert "/dev/zvol/" + m.zvol == "/dev/" + device;
    assert ("/dev/" + device)[5..] == device && device[0] == 'z';
    if "/dev/" <= n.device { assert n.device == "/dev/" + n.device[5..] && n.device[0] == '/'; }
  }

  // And without faults it takes the namespace and the subsystem it knows of, if they are such.
  lemma OwnGoes(m: Meta, silent: bool, s: Store, f: Schedule, s': Store, r: Result<()>, calls: Trace)
    requires Deletable(s, m) && Pending(f) == 0 && Deletion(m, silent, s, f, s', r, calls)
    ensures var n := Effective(s, m).namespaceId;
      n > 0 && n in s.namespaces && s.namespaces[n].device in {"zvol/" + m.zvol, "/dev/zvol/" + m.zvol}
      ==> n !in s'.namespaces
    ensures var b := Effective(s, m).subsystemId;
      b > 0 && b in s.subsystems && !ForeignSubsystem(m, s.subsystems[b]) ==> b !in s'.subsystems
  {
    var e := Effective(s, m);
    QuietTeardown(s, e, silent, f);
    if e.namespaceId in s.namespaces { DeviceInWords(e, s.namespaces[e.namespaceId]); }
    CutPortsOnly(e, s, s');
  }

  // A subsystem that is left is the same but for its ports.
  lemma CutPortsOnly(e: Meta, s: Store, s': Store)
    requires TornTables(e, s, s')
    ensures e.subsystemId in s.subsystems && e.subsystemId in s'.subsystems ==>
      (e.OwnsSubsystem(s'.subsystems[e.subsystemId]) <==> e.OwnsSubsystem(s.subsystems[e.subsystemId]))
  {
  }

  // A recorded identifier stands for the known one, and fills in a missing one.
  lemma EffectiveInWords(s: Store, m: Meta)
    requires m.zvol in s.pool
    ensures var props := s.pool[m.zvol].props;
      && Effective(s, m).subsystemId
        == (match props.subsystemId { case Some(id) => if id > 0 then id else m.subsystemId
                                      case None => m.subsystemId })
      && Effective(s, m).namespaceId
        == (match props.namespaceId { case Some(id) => if id > 0 then id else m.namespaceId
                                      case None => m.namespaceId })
  {
  }

  // Nothing of a volume with strategy "retain" is deleted or asked to be, and for its owner
  // that is success.
  lemma RetainedIsKept(m: Meta, silent: bool, s: Store, f: Schedule, s': Store, r: Result<()>, calls: Trace)
    requires Deletion(m, silent, s, f, s', r, calls)
    requires m.zvol in s.pool && s.pool[m.zvol].props.strategy == "retain"
    ensures s' == s && calls.first == [] && calls.second == []
    ensures f == [] || f[0] == Fine ==> (r == Ok(()) <==> Belongs(m.name, s.pool[m.zvol].props))
  {
  }

  // When the ZVOL is already gone a delete without faults still removes the namespace and the
  // subsystem the caller knows of, and succeeds.
  lemma OrphansAreRemoved(m: Meta, silent: bool, s: Store, f: Schedule, s': Store, r: Result<()>, calls: Trace)
    requires m.zvol !in s.pool && Unshared(s, m) && Pending(f) == 0 && Deletion(m, silent, s, f, s', r, calls)
    ensures r.Ok? && !HasNamespace(s', m) && !HasSubsystem(s', m)
  {
    QuietTeardown(s, m, silent, f);
  }

  // What a caller learns of the volume from its ZVOL.
  function Looked(s: Store, name: string, zvol: string): Meta
    requires zvol in s.pool
  {
    var props := s.pool[zvol].props;
    Meta(name, zvol, IdOf(props.subsystemId), IdOf(props.namespaceId), props.iqn)
  }

  // Every namespace and subsystem of the volume is the one recorded.
  ghost predicate Recorded(s: Store, m: Meta) {
    && (forall n :: n in s.namespaces && m.OwnsNamespace(s.namespaces[n]) ==> n == m.namespaceId && n > 0)
    && (forall b :: b in s.subsystems && m.OwnsSubsystem(s.subsystems[b]) ==> b == m.subsystemId && b > 0)
  }

  ghost predicate NothingLeft(s: Store, m: Meta) {
    && (forall n :: n in s.namespaces ==> !m.OwnsNamespace(s.namespaces[n]))
    && (forall b :: b in s.subsystems ==> !m.OwnsSubsystem(s.subsystems[b]))
  }

  lemma TornLeaves(e: Meta, s: Store, s': Store)
    requires TornTables(e, s, s') && !HasNamespace(s', e)
    ensures NothingLeft(s', e) <==> Recorded(s, e) && !HasSubsystem(s', e)
  {
    assert forall b :: b in s'.subsystems ==>
      b in s.subsystems && (e.OwnsSubsystem(s'.subsystems[b]) <==> e.OwnsSubsystem(s.subsystems[b]));
    if n :| n in s.namespaces && e.OwnsNamespace(s.namespaces[n]) && !(n == e.namespaceId && n > 0) {
      assert n in s'.namespaces;
    } else if b :| b in s.subsystems && e.OwnsSubsystem(s.subsystems[b]) && !(b == e.subsystemId && b > 0) {
      assert b in s'.subsystems;
    }
  }

  // What is the volume's does not depend on the identifiers.
  lemma SameOwner(s: Store, m: Meta, e: Meta)
    requires e == m.(subsystemId := e.subsystemId, namespaceId := e.namespaceId)
    ensures NothingLeft(s, e) <==> NothingLeft(s, m)
  {
    assert forall n :: e.OwnsNamespace(n) <==> m.OwnsNamespace(n);
    assert forall b :: e.OwnsSubsystem(b) <==> m.OwnsSubsystem(b);
  }

  // The attempt that deletes the ZVOL leaves nothing of the volume exactly if everything of it
  // was recorded and the server did not silently keep the subsystem: it refuses to delete
  // bound subsystems, or the subsystem had no port, or by the schedule the port query is
  // answered and no unbinding is lost.
  lemma NothingLeftIffRecorded(m: Meta, silent: bool, s: Store, f: Schedule, s': Store, r: Result<()>,
          calls: Trace)
    requires m.zvol in s.pool && Deletion(m, silent, s, f, s', r, calls) && m.zvol !in s'.pool
    ensures NothingLeft(s', m) <==> Recorded(s, Effective(s, m)) && !Leaks(s, Effective(s, m), silent, f)
  {
    var e := Effective(s, m);
    TornLeaves(e, s, s');
    SameOwner(s', m, e);
  }

  // Without faults only what was not recorded is left, on a silent server too.
  lemma QuietDeleteLeavesNothing(m: Meta, silent: bool, s: Store, f: Schedule, s': Store, r: Result<()>,
          calls: Trace)
    requires Deletable(s, m) && Pending(f) == 0 && Deletion(m, silent, s, f, s', r, calls)
    ensures r.Ok? && m.zvol !in s'.pool
    ensures NothingLeft(s', m) <==> Recorded(s, Effective(s, m))
  {
    QuietTeardown(s, Effective(s, m), silent, f);
    NothingLeftIffRecorded(m, silent, s, f, s', r, calls);
  }

  // Nor does a delete without faults keep a record of what it removed.
  lemma QuietDeleteForgets(m: Meta, silent: bool, s: Store, f: Schedule, s': Store, r: Result<()>,
          calls: Trace)
    requires Permitted(s, m.name, m.zvol) && Unshared(s, Effective(s, m)) && Pending(f) == 0
    requires Deletion(m, silent, s, f, s', r, calls)
    ensures Forgotten(s', Effective(s, m))
  {
    QuietTeardown(s, Effective(s, m), silent, f);
  }

  // A subsystem that is there without a record is not found by the next delete.
  lemma ForgottenIsUnrecorded(s: Store, m: Meta)
    requires m.zvol in s.pool && m.zvol != "" && HasSubsystem(s, m) && SubsystemForgotten(s, m)
    requires s.pool[m.zvol].props.iqn == m.nqn
    ensures !Recorded(s, Looked(s, m.name, m.zvol))
  {
    assert Looked(s, m.name, m.zvol).OwnsSubsystem(s.subsystems[m.subsystemId]);
  }

  lemma LeakLeaves(m: Meta, s: Store, f: Schedule, s': Store, r: Result<()>, calls: Trace)
    requires Permitted(s, m.name, m.zvol) && Effective(s, m) == m && Unshared(s, m)
    requires TeardownQuiet(s, m, true, f) && Leaks(s, m, true, f)
    requires ClearsIdentifier(s, m, AfterGuards(m.zvol, f))
    requires Deletion(m, true, s, f, s', r, calls)
    ensures HasSubsystem(s', m) && SubsystemForgotten(s', m)
    ensures m.zvol in s'.pool ==> s'.pool[m.zvol].props.iqn == s.pool[m.zvol].props.iqn
  {
  }

  // Where the teardown goes through but the subsystem is silently kept, every delete leaves it
  // behind; and if the ZVOL stays, its record is cleared, so that no retry finds the subsystem.
  lemma LeakIsForGood(m: Meta, s: Store, f: Schedule, s': Store, r: Result<()>, calls: Trace)
    requires Permitted(s, m.name, m.zvol) && m == Looked(s, m.name, m.zvol) && m.zvol != "" && Unshared(s, m)
    requires TeardownQuiet(s, m, true, f) && Leaks(s, m, true, f)
    requires ClearsIdentifier(s, m, AfterGuards(m.zvol, f))
    requires Deletion(m, true, s, f, s', r, calls)
    ensures HasSubsystem(s', m) && !NothingLeft(s', m)
    ensures m.zvol in s'.pool ==> !Recorded(s', Looked(s', m.name, m.zvol))
  {
    assert Effective(s, m) == m;
    LeakLeaves(m, s, f, s', r, calls);
    assert m.subsystemId in s'.subsystems && m.OwnsSubsystem(s'.subsystems[m.subsystemId]);
    if m.zvol in s'.pool { ForgottenIsUnrecorded(s', m); }
  }

  // A volume with nothing but a recorded subsystem that is bound to a port.
  function BoundStore(zvol: string, pool: Pool): Store
    requires zvol in pool
  {
    var props := PLAIN.(iqn := "nqn.2011-06.com:pvc", subsystemId := Some(4));
    Store(pool[zvol := pool[zvol].(props := props)], map[], map[], map[], map[],
          map[4 := Subsystem("pvc", "nqn.2011-06.com:pvc", {9})])
  }

  // The fifth call of its delete, the port query, is the only one that fails.
  const PORT_QUERY_LOST: Schedule := [Fine, Fine, Fine, Fine, Lost]

  // What matters of the pool is as it was.
  lemma BoundPoolIs(name: string, zvol: string, pool: Pool)
    requires zvol in pool && Wf(pool) && NoneProtectedOn(pool, zvol)
    ensures var s := BoundStore(zvol, pool);
      && Wf(s.pool) && Permitted(s, name, zvol)
      && (Removable(pool, zvol) ==> Removable(s.pool, zvol))
      && (NewestDeferred(s.pool, zvol) <==> NewestDeferred(pool, zvol))
  {
    var s := BoundStore(zvol, pool);
    SetPropsKeepsWf(pool, zvol, s.pool[zvol].props);
    SameRemovable(pool, s.pool, zvol);
    forall t ensures !Protected(s.pool, zvol, t) { assert !Protected(pool, zvol, t); }
  }

  lemma BoundStoreIs(name: string, zvol: string, pool: Pool)
    requires zvol in pool && Wf(pool)
    ensures var s := BoundStore(zvol, pool);
      var m := Looked(s, name, zvol);
      WfTables(s) && Unshared(s, m) && Recorded(s, m) && HasSubsystem(s, m) && Ports(s, m) == {9} && m.namespaceId == 0
  {
    assert BoundStore(zvol, pool).subsystems.Keys == {4};
  }

  lemma PortQueryLostLeaks(zvol: string, s: Store, m: Meta)
    requires zvol != "" && m.zvol == zvol && m.namespaceId == 0 && m.subsystemId > 0 && HasSubsystem(s, m)
    requires Ports(s, m) != {}
    ensures TeardownQuiet(s, m, true, PORT_QUERY_LOST) && Leaks(s, m, true, PORT_QUERY_LOST)
    ensures ClearsIdentifier(s, m, AfterGuards(zvol, PORT_QUERY_LOST))
    ensures Pending(AfterPresentation(s, m, AfterGuards(zvol, PORT_QUERY_LOST))) == 0
  {
    var g := AfterGuards(zvol, PORT_QUERY_LOST);
    assert g == [Fine, Fine, Lost];
    assert AtPorts(g) == [Lost];
  }

  // On a silent server a lost port query makes every such delete succeed and leave the
  // subsystem behind without a record.
  lemma BoundSubsystemLeaks(name: string, zvol: string, s': Store, r: Result<()>, calls: Trace)
    requires zvol != ""
    requires var s := BoundStore(zvol, PlainPool(zvol));
      Deletion(Looked(s, name, zvol), true, s, PORT_QUERY_LOST, s', r, calls)
    ensures var s := BoundStore(zvol, PlainPool(zvol));
      var m := Looked(s, name, zvol);
      && WfStore(s) && Deletable(s, m) && Recorded(s, m)
      && r.Ok? && zvol !in s'.pool && HasSubsystem(s', m) && !NothingLeft(s', m)
  {
    PlainPoolIs(zvol);
    var s := BoundStore(zvol, PlainPool(zvol));
    var m := Looked(s, name, zvol);
    BoundPoolIs(name, zvol, PlainPool(zvol));
    BoundStoreIs(name, zvol, PlainPool(zvol));
    PortQueryLostLeaks(zvol, s, m);
    LeakIsForGood(m, s, PORT_QUERY_LOST, s', r, calls);
  }

  // If a clone keeps the ZVOL, every such delete fails with the record cleared already, and no
  // retry finds the subsystem.
  lemma BoundSubsystemIsForgotten(name: string, zvol: string, clone: string, s': Store, r: Result<()>, calls: Trace)
    requires zvol != "" && clone != zvol
    requires var s := BoundStore(zvol, ClonedPool(zvol, clone));
      Deletion(Looked(s, name, zvol), true, s, PORT_QUERY_LOST, s', r, calls)
    ensures var s := BoundStore(zvol, ClonedPool(zvol, clone));
      var m := Looked(s, name, zvol);
      && WfStore(s) && Recorded(s, m)
      && r.Err? && zvol in s'.pool && HasSubsystem(s', m) && !Recorded(s', Looked(s', name, zvol))
  {
    ClonedPoolIs(zvol, clone);
    var s := BoundStore(zvol, ClonedPool(zvol, clone));
    var m := Looked(s, name, zvol);
    BoundPoolIs(name, zvol, ClonedPool(zvol, clone));
    BoundStoreIs(name, zvol, ClonedPool(zvol, clone));
    PortQueryLostLeaks(zvol, s, m);
    LeakIsForGood(m, s, PORT_QUERY_LOST, s', r, calls);
  }

  // What a failed attempt left of the volume is still on record.
  lemma WorkKeepsRecorded(m: Meta, kept: bool, s: Store, s': Store)
    requires m.zvol in s.pool && m == Looked(s, m.name, m.zvol) && Recorded(s, m)
    requires WorksOn(m, kept, s, s') && !kept && m.zvol in s'.pool
    ensures Looked(s', m.name, m.zvol).nqn == m.nqn && Recorded(s', Looked(s', m.name, m.zvol))
  {
    var m' := Looked(s', m.name, m.zvol);
    forall n | n in s'.namespaces && m'.OwnsNamespace(s'.namespaces[n]) ensures n == m'.namespaceId && n > 0 {
      assert n in s.namespaces && m.OwnsNamespace(s.namespaces[n]);
      assert HasNamespace(s', m);
    }
    forall b | b in s'.subsystems && m'.OwnsSubsystem(s'.subsystems[b]) ensures b == m'.subsystemId && b > 0 {
      assert b in s.subsystems && m.OwnsSubsystem(s.subsystems[b]);
      assert HasSubsystem(s', m);
    }
  }

  lemma AttemptKeepsRecorded(m: Meta, silent: bool, s: Store, f: Schedule, s': Store, r: Result<()>,
          calls: Trace)
    requires m.zvol in s.pool && m == Looked(s, m.name, m.zvol) && Recorded(s, m)
    requires calls.TouchesSubsystem() ==> !Leaks(s, m, silent, f)
    requires Deletion(m, silent, s, f, s', r, calls) && m.zvol in s'.pool
    ensures Looked(s', m.name, m.zvol).nqn == m.nqn && Recorded(s', Looked(s', m.name, m.zvol))
  {
    assert Effective(s, m) == m;
    WorkKeepsRecorded(m, calls.TouchesSubsystem() && Leaks(s, m, silent, f), s, s');
  }

  // An attempt of this volume, or other calls in between.
  datatype Step =
    | Attempt(faults: Schedule, result: Result<()>, calls: Trace, after: Store)
    | Elsewhere(after: Store)
  {
    ghost predicate From(s: Store, name: string, zvol: string, silent: bool) {
      match this
      case Attempt(f, r, calls, s') =>
        zvol in s.pool && Deletion(Looked(s, name, zvol), silent, s, f, s', r, calls)
      case Elsewhere(s') => WfStore(s') && Bystander(s, s', name, zvol)
    }

    // The attempt that began in s left a bound subsystem to a server that silently keeps it.
    ghost predicate Leaked(s: Store, name: string, zvol: string, silent: bool) {
      Attempt? && zvol in s.pool && calls.TouchesSubsystem() && Leaks(s, Looked(s, name, zvol), silent, faults)
    }
  }

  // Calls for other volumes may create and delete anything, and may be given identifiers this
  // volume's objects had, and snapshots of this volume may come and go; but they make no
  // namespace or subsystem of this volume and leave its ZVOL and what that records.
  ghost predicate Bystander(s: Store, s': Store, name: string, zvol: string) {
    && (zvol in s'.pool <==> zvol in s.pool)
    && (zvol in s.pool ==>
          && s'.pool[zvol].props == s.pool[zvol].props
          && var m := Looked(s, name, zvol);
             && (forall n :: n in s'.namespaces && m.OwnsNamespace(s'.namespaces[n]) ==>
                   n in s.namespaces && m.OwnsNamespace(s.namespaces[n]))
             && (forall b :: b in s'.subsystems && m.OwnsSubsystem(s'.subsystems[b]) ==>
                   b in s.subsystems && m.OwnsSubsystem(s.subsystems[b])))
  }

  // steps are attempts to delete the volume, and other calls, until one deletes its ZVOL.
  ghost predicate Run(name: string, zvol: string, silent: bool, s: Store, steps: seq<Step>)
    decreases |steps|
  {
    steps == [] || (steps[0].From(s, name, zvol, silent) && Run(name, zvol, silent, steps[0].after, steps[1..]))
  }

  ghost function Last(s: Store, steps: seq<Step>): Store {
    if steps == [] then s else steps[|steps| - 1].after
  }

  // No attempt of the run leaked the subsystem.
  ghost predicate NeverLeaked(name: string, zvol: string, silent: bool, s: Store, steps: seq<Step>)
    decreases |steps|
  {
    steps == [] ||
    (!steps[0].Leaked(s, name, zvol, silent) && NeverLeaked(name, zvol, silent, steps[0].after, steps[1..]))
  }

  // The last delete of the namespace reported that it is gone.
  predicate LastGone(calls: seq<Removal>) {
    exists k :: 0 <= k < |calls| && calls[k].NamespaceDelete? && Gone(calls[k].reported)
                && forall j :: k < j < |calls| ==> !calls[j].NamespaceDelete?
  }

  // No call about the subsystem follows a namespace delete unless the last one reported that
  // the namespace is gone.
  predicate Ordered(calls: seq<Removal>) {
    forall k :: 0 <= k < |calls| && !calls[k].NamespaceDelete? ==>
      (exists i :: 0 <= i < k && calls[i].NamespaceDelete?) ==> LastGone(calls[..k])
  }

  lemma EndsGone(first: seq<Removal>, second: seq<Removal>, m: Meta)
    requires OnlyNamespace(first, m.namespaceId) && OnlySubsystem(second, m.subsystemId) && EndsInGone(first)
    ensures LastGone(first + second)
  {
    var calls := first + second;
    var k := |first| - 1;
    assert calls[k] == first[k];
    forall j | k < j < |calls| ensures !calls[j].NamespaceDelete? { assert calls[j] in second; }
  }

  lemma InOrderIsOrdered(s: Store, m: Meta, f: Schedule, calls: Trace)
    requires InOrder(s, m, f, calls)
    ensures Ordered(calls.All())
  {
    var all := calls.All();
    assert forall k :: 0 <= k < |calls.first| ==> all[k] in calls.first;
    assert forall k :: |calls.first| <= k < |all| ==> all[k] in calls.second;
    forall k | |calls.first| <= k < |all| && calls.first != [] ensures LastGone(all[..k]) {
      var part := calls.second[..k - |calls.first|];
      assert all[..k] == calls.first + part;
      EndsGone(calls.first, part, m);
    }
  }

  lemma AttemptIsOrdered(name: string, zvol: string, silent: bool, s: Store, step: Step)
    requires step.Attempt? && step.From(s, name, zvol, silent)
    ensures Ordered(step.calls.All())
    ensures step.calls.TouchesSubsystem() ==> !HasNamespace(step.after, Looked(s, name, zvol))
  {
    var m := Looked(s, name, zvol);
    assert Effective(s, m) == m;
    InOrderIsOrdered(s, m, AfterGuards(zvol, step.faults), step.calls);
  }

  lemma LastOfPrefix(s: Store, steps: seq<Step>, k: nat)
    requires 0 < k <= |steps|
    ensures Last(s, steps[..k]) == Last(steps[0].after, steps[1..][..k - 1])
  {
    assert steps[1..][..k - 1] == steps[..k][1..];
  }

  lemma {:induction false} RunSplits(name: string, zvol: string, silent: bool, s: Store, steps: seq<Step>, k: nat)
    requires Run(name, zvol, silent, s, steps) && k < |steps|
    ensures steps[k].From(Last(s, steps[..k]), name, zvol, silent)
    decreases k
  {
    if k > 0 {
      var rest := steps[1..];
      RunSplits(name, zvol, silent, steps[0].after, rest, k - 1);
      LastOfPrefix(s, steps, k);
      assert rest[k - 1] == steps[k];
    }
  }

  // Every attempt of a run keeps the order in the calls it makes, and touches the subsystem
  // only when the namespace is gone.
  lemma DeletesAreOrdered(name: string, zvol: string, silent: bool, s: Store, steps: seq<Step>, k: nat)
    requires Run(name, zvol, silent, s, steps) && k < |steps| && steps[k].Attempt?
    ensures var before := Last(s, steps[..k]);
      zvol in before.pool && Ordered(steps[k].calls.All())
      && (steps[k].calls.TouchesSubsystem() ==> !HasNamespace(steps[k].after, Looked(before, name, zvol)))
  {
    RunSplits(name, zvol, silent, s, steps, k);
    AttemptIsOrdered(name, zvol, silent, Last(s, steps[..k]), steps[k]);
  }

  lemma StepKeepsRecorded(name: string, zvol: string, silent: bool, s: Store, step: Step)
    requires zvol in s.pool && step.From(s, name, zvol, silent) && Recorded(s, Looked(s, name, zvol))
    requires !step.Leaked(s, name, zvol, silent)
    ensures zvol in step.after.pool ==>
      Looked(step.after, name, zvol).nqn == Looked(s, name, zvol).nqn
      && Recorded(step.after, Looked(step.after, name, zvol))
    ensures zvol !in step.after.pool ==> NothingLeft(step.after, Looked(s, name, zvol))
  {
    var m := Looked(s, name, zvol);
    assert Effective(s, m) == m;
    if step.Attempt? {
      if zvol in step.after.pool {
        AttemptKeepsRecorded(m, silent, s, step.faults, step.after, step.result, step.calls);
      } else {
        NothingLeftIffRecorded(m, silent, s, step.faults, step.after, step.result, step.calls);
      }
    }
  }

  // The step that deleted the ZVOL left nothing of the volume.
  ghost predicate EndsClean(name: string, zvol: string, s: Store, steps: seq<Step>)
    decreases |steps|
  {
    && steps != [] && zvol in s.pool
    && if zvol in steps[0].after.pool then EndsClean(name, zvol, steps[0].after, steps[1..])
       else NothingLeft(steps[0].after, Looked(s, name, zvol))
  }

  // However often a delete fails and is retried, and whatever other calls do in between,
  // everything of the volume stays recorded on its ZVOL while that is there, and nothing of
  // it is left when that goes, unless a bound subsystem was silently kept.
  lemma {:induction false} DeletesLeaveNothing(name: string, zvol: string, silent: bool, s: Store, steps: seq<Step>)
    requires zvol in s.pool && Recorded(s, Looked(s, name, zvol)) && Run(name, zvol, silent, s, steps)
    requires NeverLeaked(name, zvol, silent, s, steps)
    ensures zvol in Last(s, steps).pool ==> Recorded(Last(s, steps), Looked(Last(s, steps), name, zvol))
    ensures zvol !in Last(s, steps).pool ==> EndsClean(name, zvol, s, steps)
    decreases |steps|
  {
    if steps != [] {
      StepKeepsRecorded(name, zvol, silent, s, steps[0]);
      var s1 := steps[0].after;
      assert Last(s1, steps[1..]) == Last(s, steps);
      if zvol in s1.pool {
        DeletesLeaveNothing(name, zvol, silent, s1, steps[1..]);
      } else {
        GoneStaysGone(name, zvol, silent, s1, steps[1..]);
      }
    }
  }

  // Where the server refuses to delete bound subsystems there is no such exception.
  lemma {:induction false} LoudDeletesLeaveNothing(name: string, zvol: string, s: Store, steps: seq<Step>)
    requires zvol in s.pool && Recorded(s, Looked(s, name, zvol)) && Run(name, zvol, false, s, steps)
    ensures zvol in Last(s, steps).pool ==> Recorded(Last(s, steps), Looked(Last(s, steps), name, zvol))
    ensures zvol !in Last(s, steps).pool ==> EndsClean(name, zvol, s, steps)
  {
    LoudNeverLeaks(name, zvol, s, steps);
    DeletesLeaveNothing(name, zvol, false, s, steps);
  }

  lemma {:induction false} LoudNeverLeaks(name: string, zvol: string, s: Store, steps: seq<Step>)
    ensures NeverLeaked(name, zvol, false, s, steps)
    decreases |steps|
  {
    if steps != [] { LoudNeverLeaks(name, zvol, steps[0].after, steps[1..]); }
  }

  lemma {:induction false} GoneStaysGone(name: string, zvol: string, silent: bool, s: Store, steps: seq<Step>)
    requires zvol !in s.pool && Run(name, zvol, silent, s, steps)
    ensures zvol !in Last(s, steps).pool
    decreases |steps|
  {
    if steps != [] {
      assert Last(steps[0].after, steps[1..]) == Last(s, steps);
      GoneStaysGone(name, zvol, silent, steps[0].after, steps[1..]);
    }
  }

  // A failed attempt attaches nothing to the subsystem, so the next one may delete it.
  lemma AttemptKeepsUnshared(m: Meta, kept: bool, s: Store, s': Store)
    requires WorksOn(m, kept, s, s') && Unshared(s, m) && m.zvol in s.pool && m.zvol in s'.pool
    requires m == Looked(s, m.name, m.zvol)
    ensures Unshared(s', Looked(s', m.name, m.zvol))
  {
    var m' := Looked(s', m.name, m.zvol);
    if HasSubsystem(s', m') {
      assert m'.subsystemId == m.subsystemId && HasSubsystem(s, m);
      forall n | n in Attached(s', m'.subsystemId) ensures n == m'.namespaceId && HasNamespace(s', m') {
        assert n in Attached(s, m.subsystemId);
        assert HasNamespace(s', m);
      }
    }
  }

  // A failed attempt leaves a deletable volume deletable.
  lemma AttemptKeepsDeletable(name: string, zvol: string, silent: bool, s: Store, step: Step)
    requires step.Attempt? && step.From(s, name, zvol, silent) && zvol in step.after.pool
    requires Deletable(s, Looked(s, name, zvol))
    ensures Deletable(step.after, Looked(step.after, name, zvol))
  {
    var m := Looked(s, name, zvol);
    assert Effective(s, m) == m;
    var m' := Looked(step.after, name, zvol);
    assert Effective(step.after, m') == m';
    AttemptKeepsUnshared(m, step.calls.TouchesSubsystem() && Leaks(s, m, silent, step.faults), s, step.after);
  }

  // If the step is no attempt, it keeps a deletable volume deletable.
  ghost predicate Allows(step: Step, s: Store, name: string, zvol: string) {
    step.Attempt? || (CanDelete(s, name, zvol) && zvol in step.after.pool ==> CanDelete(step.after, name, zvol))
  }

  // The volume is deletable as a caller finds it.
  ghost predicate CanDelete(s: Store, name: string, zvol: string) {
    zvol in s.pool && Deletable(s, Looked(s, name, zvol))
  }

  // No other call of the run makes a deletable volume undeletable.
  ghost predicate OthersAllow(name: string, zvol: string, s: Store, steps: seq<Step>)
    decreases |steps|
  {
    steps == [] || (Allows(steps[0], s, name, zvol) && OthersAllow(name, zvol, steps[0].after, steps[1..]))
  }

  lemma StepKeepsDeletable(name: string, zvol: string, silent: bool, s: Store, step: Step)
    requires CanDelete(s, name, zvol) && step.From(s, name, zvol, silent) && Allows(step, s, name, zvol)
    ensures zvol in step.after.pool ==> CanDelete(step.after, name, zvol)
  {
    if step.Attempt? && zvol in step.after.pool { AttemptKeepsDeletable(name, zvol, silent, s, step); }
  }

  lemma {:induction false} DeletableThroughout(name: string, zvol: string, silent: bool, s: Store, steps: seq<Step>)
    requires CanDelete(s, name, zvol) && Run(name, zvol, silent, s, steps) && OthersAllow(name, zvol, s, steps)
    requires zvol in Last(s, steps).pool
    ensures CanDelete(Last(s, steps), name, zvol)
    decreases |steps|
  {
    if steps != [] {
      var s1 := steps[0].after;
      StepKeepsDeletable(name, zvol, silent, s, steps[0]);
      assert Last(s1, steps[1..]) == Last(s, steps);
      if zvol in s1.pool {
        DeletableThroughout(name, zvol, silent, s1, steps[1..]);
      } else {
        GoneStaysGone(name, zvol, silent, s1, steps[1..]);
      }
    }
  }

  // A volume stays, however often its delete is tried and whatever fails, while its newest
  // snapshot with a clone is not one that DeleteSnapshot left for later; only other calls can
  // change that.
  ghost predicate OthersKeepStuck(zvol: string, s: Store, steps: seq<Step>)
    decreases |steps|
  {
    steps == [] ||
    ((steps[0].Elsewhere? && Stuck(s.pool, zvol) ==> Stuck(steps[0].after.pool, zvol))
     && OthersKeepStuck(zvol, steps[0].after, steps[1..]))
  }

  lemma {:induction false} StuckStays(name: string, zvol: string, silent: bool, s: Store, steps: seq<Step>)
    requires Stuck(s.pool, zvol) && Run(name, zvol, silent, s, steps) && OthersKeepStuck(zvol, s, steps)
    ensures zvol in Last(s, steps).pool && Stuck(Last(s, steps).pool, zvol)
    decreases |steps|
  {
    if steps != [] {
      assert Last(steps[0].after, steps[1..]) == Last(s, steps);
      StuckStays(name, zvol, silent, steps[0].after, steps[1..]);
    }
  }

  // After any number of attempts that failed or were refused, and any other calls, an attempt
  // without faults succeeds once the volume is deletable, on a silent server too.
  lemma RetryFinishes(name: string, zvol: string, silent: bool, s: Store, steps: seq<Step>, retry: Step)
    requires zvol in s.pool && Run(name, zvol, silent, s, steps)
    requires CanDelete(Last(s, steps), name, zvol)
    requires retry.Attempt? && retry.From(Last(s, steps), name, zvol, silent) && Pending(retry.faults) == 0
    ensures retry.result.Ok? && zvol !in retry.after.pool
    ensures Recorded(s, Looked(s, name, zvol)) && NeverLeaked(name, zvol, silent, s, steps) ==>
              NothingLeft(retry.after, Looked(Last(s, steps), name, zvol))
  {
    var s' := Last(s, steps);
    var m := Looked(s', name, zvol);
    assert Effective(s', m) == m;
    QuietDeleteLeavesNothing(m, silent, s', retry.faults, retry.after, retry.result, retry.calls);
    if Recorded(s, Looked(s, name, zvol)) && NeverLeaked(name, zvol, silent, s, steps) {
      DeletesLeaveNothing(name, zvol, silent, s, steps);
    }
  }
}
