// The cancellable per-key lock of the node service: any number of goroutines interleave the
// atomic steps of lock, cancellation, unlock and release.
module KeyedMutex {

  // An entry: the tokens in its channel of capacity one, and its reference count.
  datatype Entry = Entry(tokens: nat, refs: int)

  // Entries are allocated, never freed; the table names the live ones.
  datatype Shared = Shared(heap: map<nat, Entry>, table: map<string, nat>)

  // Where a goroutine stands. Took: it received the token and has yet to check its context
  // again. Releasing: it has still to drop its reference.
  datatype Pc =
    | Idle
    | Waiting(key: string, e: nat)
    | Took(key: string, e: nat)
    | Holding(key: string, e: nat)
    | Releasing(key: string, e: nat)
  {
    predicate Uses(x: nat) { !Idle? && e == x }

    predicate HasToken(x: nat) { (Took? || Holding?) && e == x }
  }

  datatype State = State(shared: Shared, pcs: map<nat, Pc>) {
    function At(g: nat): Pc { if g in pcs then pcs[g] else Idle }

    function Users(e: nat): set<nat> { set g | g in pcs && pcs[g].Uses(e) }

    function Takers(e: nat): set<nat> { set g | g in pcs && pcs[g].HasToken(e) }
  }

  // ---------------------------------------------------------------- Sections

  // The first critical section of lock: find or make the entry and count a reference.
  function Entered(s: Shared, key: string, e: nat): Shared
    requires key in s.table ==> s.table[key] in s.heap
  {
    if key in s.table then
      var found := s.table[key];
      s.(heap := s.heap[found := s.heap[found].(refs := s.heap[found].refs + 1)])
    else Shared(s.heap[e := Entry(1, 1)], s.table[key := e])
  }

  // release: drop a reference, and with the last one whatever the table has for the key.
  function Released(s: Shared, key: string, e: nat): Shared
    requires e in s.heap
  {
    var refs := s.heap[e].refs - 1;
    Shared(s.heap[e := s.heap[e].(refs := refs)], if refs == 0 then s.table - {key} else s.table)
  }

  // The lock's own fields; each method is one critical section.
  class Mutex {
    var heap: map<nat, Entry>
    var table: map<string, nat>

    constructor ()
      ensures heap == map[] && table == map[]
    {
      heap, table := map[], map[];
    }

    method Enter(key: string) returns (e: nat)
      requires key in table ==> table[key] in heap
      modifies this
      ensures if key in old(table) then e == old(table)[key] else e !in old(heap)
      ensures Shared(heap, table) == Entered(Shared(old(heap), old(table)), key, e)
    {
      if key !in table {
        e := 0;
        ghost var left := heap.Keys;
        while e in heap
          invariant forall i :: i in heap && i >= e ==> i in left
          decreases left
        {
          left := left - {e};
          e := e + 1;
        }
        table := table[key := e];
        heap := heap[e := Entry(1, 0)];
      }
      e := table[key];
      heap := heap[e := heap[e].(refs := heap[e].refs + 1)];
    }

    method Release(key: string, e: nat)
      requires e in heap
      modifies this
      ensures Shared(heap, table) == Released(Shared(old(heap), old(table)), key, e)
    {
      heap := heap[e := heap[e].(refs := heap[e].refs - 1)];
      if heap[e].refs == 0 { table := table - {key}; }
    }
  }

  // ---------------------------------------------------------------- Steps

  datatype Action =
    | Enter(g: nat, key: string, e: nat)
    | Receive(g: nat)
    | GiveUp(g: nat)
    | Confirm(g: nat)
    | Return(g: nat)
    | Leave(g: nat)

  predicate Live(s: Shared, e: nat) { e in s.heap }

  // A send of the token proceeds only while the channel is empty.
  predicate CanSend(s: Shared, e: nat) { e in s.heap && s.heap[e].tokens == 0 }

  predicate Enabled(s: State, a: Action) {
    match a
    case Enter(g, key, e) =>
      && s.At(g).Idle?
      && if key in s.shared.table then e == s.shared.table[key] && Live(s.shared, e) else !Live(s.shared, e)
    case Receive(g) => s.At(g).Waiting? && Live(s.shared, s.At(g).e) && s.shared.heap[s.At(g).e].tokens > 0
    case GiveUp(g) => s.At(g).Waiting?
    case Confirm(g) => s.At(g).Took?
    case Return(g) => (s.At(g).Took? || s.At(g).Holding?) && CanSend(s.shared, s.At(g).e)
    case Leave(g) => s.At(g).Releasing? && Live(s.shared, s.At(g).e)
  }

  function Tokens(s: Shared, e: nat, n: nat): Shared
    requires e in s.heap
  {
    s.(heap := s.heap[e := s.heap[e].(tokens := n)])
  }

  // Return is both the unlock of a holder and the handing back of the token by a goroutine
  // whose context ended while it received; GiveUp is a context that ended first.
  function Next(s: State, a: Action): State
    requires Enabled(s, a)
  {
    var pc := s.At(a.g);
    match a
    case Enter(g, key, e) => State(Entered(s.shared, key, e), s.pcs[g := Waiting(key, e)])
    case Receive(g) => State(Tokens(s.shared, pc.e, s.shared.heap[pc.e].tokens - 1), s.pcs[g := Took(pc.key, pc.e)])
    case GiveUp(g) => s.(pcs := s.pcs[g := Releasing(pc.key, pc.e)])
    case Confirm(g) => s.(pcs := s.pcs[g := Holding(pc.key, pc.e)])
    case Return(g) => State(Tokens(s.shared, pc.e, 1), s.pcs[g := Releasing(pc.key, pc.e)])
    case Leave(g) => State(Released(s.shared, pc.key, pc.e), s.pcs - {g})
  }

  // ---------------------------------------------------------------- Invariant

  ghost predicate Counted(s: State, e: nat) {
    && e in s.shared.heap
    && s.shared.heap[e].refs == |s.Users(e)|
    && s.shared.heap[e].tokens + |s.Takers(e)| == 1
  }

  // A goroutine's entry is the one in the table.
  ghost predicate Tabled(s: State, g: nat) {
    !s.At(g).Idle? ==> s.At(g).key in s.shared.table && s.shared.table[s.At(g).key] == s.At(g).e
  }

  ghost predicate Inv(s: State) {
    && (forall e :: e in s.shared.heap ==> Counted(s, e))
    && (forall g :: Tabled(s, g))
    && (forall k :: k in s.shared.table ==>
      s.shared.table[k] in s.shared.heap && s.shared.heap[s.shared.table[k]].refs > 0)
    && (forall k, l :: k in s.shared.table && l in s.shared.table && s.shared.table[k] == s.shared.table[l] ==> k == l)
    && (forall g :: g in s.pcs ==> !s.pcs[g].Idle?)
  }

  const INITIAL := State(Shared(map[], map[]), map[])

  lemma InitialInv()
    ensures Inv(INITIAL)
  {
  }

  function One(b: bool): int { if b then 1 else 0 }

  lemma SetSize(xs: set<nat>, g: nat)
    ensures |xs + {g}| == |xs| + 1 - One(g in xs)
    ensures |xs - {g}| == |xs| - One(g in xs)
  {
    if g in xs { assert xs + {g} == xs; }
  }

  // s' is s after goroutine g moves to pc, Idle when it is done.
  predicate Moves(s: State, s': State, g: nat, pc: Pc) {
    s'.pcs == if pc.Idle? then s.pcs - {g} else s.pcs[g := pc]
  }

  lemma MovedUsers(s: State, s': State, g: nat, pc: Pc, e: nat)
    requires Moves(s, s', g, pc)
    ensures s'.Users(e) == if pc.Uses(e) then s.Users(e) + {g} else s.Users(e) - {g}
    ensures |s'.Users(e)| == |s.Users(e)| + One(pc.Uses(e)) - One(s.At(g).Uses(e))
  {
    SetSize(s.Users(e), g);
    assert g in s.Users(e) <==> s.At(g).Uses(e);
    forall h | h != g ensures h in s'.Users(e) <==> h in s.Users(e) { }
    if pc.Uses(e) {
      assert s'.Users(e) == s.Users(e) + {g};
    } else {
      assert s'.Users(e) == s.Users(e) - {g};
    }
  }

  lemma MovedTakers(s: State, s': State, g: nat, pc: Pc, e: nat)
    requires Moves(s, s', g, pc)
    ensures |s'.Takers(e)| == |s.Takers(e)| + One(pc.HasToken(e)) - One(s.At(g).HasToken(e))
  {
    SetSize(s.Takers(e), g);
    assert g in s.Takers(e) <==> s.At(g).HasToken(e);
    forall h | h != g ensures h in s'.Takers(e) <==> h in s.Takers(e) { }
    if pc.HasToken(e) {
      assert s'.Takers(e) == s.Takers(e) + {g};
    } else {
      assert s'.Takers(e) == s.Takers(e) - {g};
    }
  }

  lemma StepMoves(s: State, a: Action)
    requires Enabled(s, a)
    ensures Moves(s, Next(s, a), a.g, Next(s, a).At(a.g))
  {
  }

  // An entry nobody has a name for has no users.
  lemma FreshUnused(s: State, e: nat)
    requires Inv(s) && e !in s.shared.heap
    ensures s.Users(e) == {} && s.Takers(e) == {}
  {
    forall g | g in s.pcs ensures !s.pcs[g].Uses(e) { assert Tabled(s, g); }
  }

  // What a step does to the counters of e matches what it does to goroutine a.g.
  lemma StepHeap(s: State, a: Action, e: nat)
    requires Inv(s) && Enabled(s, a) && e in s.shared.heap
    ensures var s' := Next(s, a);
      && e in s'.shared.heap
      && s'.shared.heap[e].refs - s.shared.heap[e].refs == One(s'.At(a.g).Uses(e)) - One(s.At(a.g).Uses(e))
      && s'.shared.heap[e].tokens - s.shared.heap[e].tokens == One(s.At(a.g).HasToken(e)) - One(s'.At(a.g).HasToken(e))
  {
  }

  lemma StepCounts(s: State, a: Action, e: nat)
    requires Inv(s) && Enabled(s, a) && e in Next(s, a).shared.heap
    ensures Counted(Next(s, a), e)
  {
    StepMoves(s, a);
    MovedUsers(s, Next(s, a), a.g, Next(s, a).At(a.g), e);
    MovedTakers(s, Next(s, a), a.g, Next(s, a).At(a.g), e);
    if e !in s.shared.heap {
      FreshUnused(s, e);
    } else {
      assert Counted(s, e);
      StepHeap(s, a, e);
    }
  }

  lemma StepTabled(s: State, a: Action, g: nat)
    requires Inv(s) && Enabled(s, a)
    ensures Tabled(Next(s, a), g)
  {
    var s' := Next(s, a);
    assert Tabled(s, g) && Tabled(s, a.g);
    if a.Leave? && g != a.g && !s.At(g).Idle? {
      var pc := s.At(a.g);
      MovedUsers(s, s', a.g, Idle, pc.e);
      StepCounts(s, a, pc.e);
      assert s.At(g).key == pc.key ==> g in s'.Users(pc.e);
    }
  }

  // Names in the table stay distinct, and each has an entry in use.
  lemma StepTable(s: State, a: Action)
    requires Inv(s) && Enabled(s, a)
    ensures var t := Next(s, a).shared;
      && (forall k :: k in t.table ==> t.table[k] in t.heap && t.heap[t.table[k]].refs > 0)
      && (forall k, l :: k in t.table && l in t.table && t.table[k] == t.table[l] ==> k == l)
  {
    assert Tabled(s, a.g);
    if a.Leave? { StepCounts(s, a, s.At(a.g).e); }
  }

  lemma StepInv(s: State, a: Action)
    requires Inv(s) && Enabled(s, a)
    ensures Inv(Next(s, a))
  {
    var s' := Next(s, a);
    forall e | e in s'.shared.heap ensures Counted(s', e) { StepCounts(s, a, e); }
    forall g ensures Tabled(s', g) { StepTabled(s, a, g); }
    StepTable(s, a);
  }

  // ---------------------------------------------------------------- Runs

  ghost predicate Run(s: State, actions: seq<Action>, s': State)
    decreases |actions|
  {
    if actions == [] then s' == s
    else Enabled(s, actions[0]) && Run(Next(s, actions[0]), actions[1..], s')
  }

  ghost predicate Reachable(s: State) {
    exists actions :: Run(INITIAL, actions, s)
  }

  lemma {:induction false} RunInv(s: State, actions: seq<Action>, s': State)
    requires Inv(s) && Run(s, actions, s')
    ensures Inv(s')
    decreases |actions|
  {
    if actions != [] {
      StepInv(s, actions[0]);
      RunInv(Next(s, actions[0]), actions[1..], s');
    }
  }

  lemma ReachableInv(s: State)
    requires Reachable(s)
    ensures Inv(s)
  {
    var actions :| Run(INITIAL, actions, s);
    InitialInv();
    RunInv(INITIAL, actions, s);
  }

  // At most one goroutine holds a key, the one checking its context after receiving included.
  lemma AtMostOneHolder(s: State, g: nat, h: nat)
    requires Reachable(s)
    requires s.At(g).Took? || s.At(g).Holding?
    requires s.At(h).Took? || s.At(h).Holding?
    requires s.At(g).key == s.At(h).key
    ensures g == h
  {
    ReachableInv(s);
    assert Tabled(s, g) && Tabled(s, h);
    var e := s.At(g).e;
    assert Counted(s, e) && {g, h} <= s.Takers(e);
    if g != h { SubsetSize({g, h}, s.Takers(e)); }
  }

  lemma {:induction false} SubsetSize(a: set<nat>, b: set<nat>)
    requires a <= b
    ensures |a| <= |b|
    decreases a
  {
    if x :| x in a { SubsetSize(a - {x}, b - {x}); }
  }

  // Accounting: a token is in the channel or with one goroutine, and the references are the
  // goroutines between entering and leaving, all of them on the entry in the table.
  lemma Accounting(s: State, g: nat)
    requires Reachable(s) && !s.At(g).Idle?
    ensures s.At(g).key in s.shared.table && s.shared.table[s.At(g).key] == s.At(g).e && s.At(g).e in s.shared.heap
    ensures s.shared.heap[s.At(g).e].refs == |set h | h in s.pcs && !s.pcs[h].Idle? && s.pcs[h].key == s.At(g).key|
    ensures s.shared.heap[s.At(g).e].tokens + |s.Takers(s.At(g).e)| == 1
  {
    ReachableInv(s);
    assert Tabled(s, g);
    var pc := s.At(g);
    assert Counted(s, pc.e);
    forall h | h in s.pcs ensures !s.pcs[h].Idle? && s.pcs[h].key == pc.key <==> s.pcs[h].Uses(pc.e) {
      assert Tabled(s, h);
    }
    assert s.Users(pc.e) == set h | h in s.pcs && !s.pcs[h].Idle? && s.pcs[h].key == pc.key;
  }

  // Handing the token back never blocks.
  lemma ReturnNeverBlocks(s: State, g: nat)
    requires Reachable(s) && (s.At(g).Took? || s.At(g).Holding?)
    ensures Enabled(s, Return(g))
  {
    ReachableInv(s);
    assert Tabled(s, g);
    assert Counted(s, s.At(g).e) && {g} <= s.Takers(s.At(g).e);
    SubsetSize({g}, s.Takers(s.At(g).e));
  }

  // A waiting goroutine proceeds as soon as nobody holds its key, whatever other keys do.
  lemma WaiterProceeds(s: State, g: nat)
    requires Reachable(s) && s.At(g).Waiting?
    ensures Enabled(s, Receive(g)) <==>
      forall h :: (s.At(h).Took? || s.At(h).Holding?) ==> s.At(h).key != s.At(g).key
  {
    ReachableInv(s);
    assert Tabled(s, g);
    var e := s.At(g).e;
    assert Counted(s, e);
    forall h ensures h in s.Takers(e) <==> (s.At(h).Took? || s.At(h).Holding?) && s.At(h).key == s.At(g).key {
      assert Tabled(s, h);
    }
    if h :| h in s.Takers(e) {
      SubsetSize({h}, s.Takers(e));
    } else {
      assert s.Takers(e) == {};
    }
  }

  // The table has exactly the keys somebody uses; when all are done it is empty.
  lemma TableHasKeysInUse(s: State)
    requires Reachable(s)
    ensures forall k :: k in s.shared.table <==> exists g :: !s.At(g).Idle? && s.At(g).key == k
    ensures (forall g :: s.At(g).Idle?) ==> s.shared.table == map[]
  {
    ReachableInv(s);
    forall k ensures k in s.shared.table <==> exists g :: !s.At(g).Idle? && s.At(g).key == k {
      if k in s.shared.table {
        var e := s.shared.table[k];
        assert Counted(s, e);
        assert s.Users(e) != {};
        var g :| g in s.Users(e);
        assert Tabled(s, g);
        assert !s.At(g).Idle? && s.At(g).key == k;
      }
      if g :| !s.At(g).Idle? && s.At(g).key == k { assert Tabled(s, g); }
    }
    if (forall g :: s.At(g).Idle?) { assert s.shared.table.Keys == {}; }
  }

  // ---------------------------------------------------------------- Termination

  // Steps left to a goroutine before it is done.
  function Left(pc: Pc): nat {
    match pc
    case Idle => 0
    case Releasing(_, _) => 1
    case Holding(_, _) => 2
    case Took(_, _) => 3
    case Waiting(_, _) => 4
  }

  predicate Advances(s: State, a: Action) {
    !a.Enter? && !a.GiveUp? && Enabled(s, a)
  }

  // The step of a goroutine that uses this key.
  predicate Concerns(s: State, a: Action, key: string) {
    !s.At(a.g).Idle? && s.At(a.g).key == key
  }

  // While a goroutine is not done, it or another one on its key can take a step towards
  // being done, no context ending.
  lemma NoDeadlock(s: State, g: nat)
    requires Reachable(s) && !s.At(g).Idle?
    ensures exists a :: Advances(s, a) && Concerns(s, a, s.At(g).key)
  {
    ReachableInv(s);
    assert Tabled(s, g);
    match s.At(g)
    case Waiting(k, e) =>
      WaiterProceeds(s, g);
      if h :| (s.At(h).Took? || s.At(h).Holding?) && s.At(h).key == k {
        ReturnNeverBlocks(s, h);
        assert Advances(s, Return(h)) && Concerns(s, Return(h), s.At(g).key);
      } else {
        assert Advances(s, Receive(g)) && Concerns(s, Receive(g), s.At(g).key);
      }
    case Took(k, e) => assert Advances(s, Confirm(g)) && Concerns(s, Confirm(g), s.At(g).key);
    case Holding(k, e) =>
      ReturnNeverBlocks(s, g);
      assert Advances(s, Return(g)) && Concerns(s, Return(g), s.At(g).key);
    case Releasing(k, e) =>
      assert Counted(s, e);
      assert Advances(s, Leave(g)) && Concerns(s, Leave(g), s.At(g).key);
  }

  // The goroutines with at least n steps left.
  function AtLeast(s: State, n: nat): set<nat> {
    set g | g in s.pcs && Left(s.pcs[g]) >= n
  }

  function Work(s: State): nat {
    |AtLeast(s, 1)| + |AtLeast(s, 2)| + |AtLeast(s, 3)| + |AtLeast(s, 4)|
  }

  lemma MovedWork(s: State, s': State, g: nat, pc: Pc, n: nat)
    requires Moves(s, s', g, pc) && n > 0
    ensures |AtLeast(s', n)| == |AtLeast(s, n)| + One(Left(pc) >= n) - One(Left(s.At(g)) >= n)
  {
    SetSize(AtLeast(s, n), g);
    assert g in AtLeast(s, n) <==> Left(s.At(g)) >= n;
    if Left(pc) >= n {
      assert AtLeast(s', n) == AtLeast(s, n) + {g};
    } else {
      assert AtLeast(s', n) == AtLeast(s, n) - {g};
    }
  }

  lemma StepWorks(s: State, a: Action)
    requires Enabled(s, a) && !a.Enter?
    ensures Work(Next(s, a)) < Work(s)
  {
    var s' := Next(s, a);
    StepMoves(s, a);
    forall n: nat | n in {1, 2, 3, 4}
      ensures |AtLeast(s', n)| == |AtLeast(s, n)| + One(Left(s'.At(a.g)) >= n) - One(Left(s.At(a.g)) >= n)
    {
      MovedWork(s, s', a.g, s'.At(a.g), n);
    }
  }

  lemma {:induction false} RunWorks(s: State, actions: seq<Action>, s': State)
    requires Run(s, actions, s') && forall k :: 0 <= k < |actions| ==> !actions[k].Enter?
    ensures |actions| + Work(s') <= Work(s)
    decreases |actions|
  {
    if actions != [] {
      assert !actions[0].Enter?;
      StepWorks(s, actions[0]);
      RunWorks(Next(s, actions[0]), actions[1..], s');
    }
  }

  lemma {:induction false} RunAppend(s: State, first: seq<Action>, m: State, second: seq<Action>, s': State)
    requires Run(s, first, m) && Run(m, second, s')
    ensures Run(s, first + second, s')
    decreases |first|
  {
    if first == [] {
      assert first + second == second;
    } else {
      assert (first + second)[1..] == first[1..] + second;
      RunAppend(Next(s, first[0]), first[1..], m, second, s');
    }
  }

  // Once nobody new arrives, whatever contexts end, every run stops after a bounded number
  // of steps, and it stops only with all goroutines done and the table empty.
  lemma AllGetDone(s: State, actions: seq<Action>, s': State)
    requires Reachable(s) && Run(s, actions, s') && forall k :: 0 <= k < |actions| ==> !actions[k].Enter?
    ensures |actions| <= Work(s)
    ensures (forall a :: !Advances(s', a)) ==> (forall g :: s'.At(g).Idle?) && s'.shared.table == map[]
  {
    RunWorks(s, actions, s');
    var before :| Run(INITIAL, before, s);
    RunAppend(INITIAL, before, s, actions, s');
    if forall a :: !Advances(s', a) {
      forall g: nat ensures s'.At(g).Idle? {
        if !s'.At(g).Idle? { NoDeadlock(s', g); }
      }
      TableHasKeysInUse(s');
    }
  }
}
