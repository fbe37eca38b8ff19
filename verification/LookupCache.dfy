// The dashboard's cache of dataset lookups: entries that live for a TTL, and lookups of one
// key collapsed into a single flight, under any interleaving of callers and clock steps.
module LookupCache {
  import opened Results

  type Data = seq<string>

  datatype Query = Query(prefix: string, name: string, value: string)

  // ---------------------------------------------------------------- Keys

  const NUL := 0 as char

  predicate NulFree(q: Query) { NUL !in q.prefix && NUL !in q.name && NUL !in q.value }

  function Key(q: Query): string { q.prefix + [NUL] + (q.name + [NUL] + q.value) }

  lemma HeadsAgree(x: string, y: string, x': string, y': string)
    requires x + [NUL] + y == x' + [NUL] + y' && NUL !in x && NUL !in x'
    ensures x == x' && y == y'
  {
    var s := x + [NUL] + y;
    assert s[|x|] == NUL && s[|x'|] == NUL;
    assert forall i :: 0 <= i < |x| ==> s[i] == x[i];
    assert forall i :: 0 <= i < |x'| ==> s[i] == x'[i];
    assert s[..|x|] == x && s[..|x'|] == x';
    assert s[|x| + 1..] == y && s[|x'| + 1..] == y';
  }

  // Queries without NUL never share a key.
  lemma KeyInjective(q: Query, q': Query)
    requires NulFree(q) && NulFree(q') && Key(q) == Key(q')
    ensures q == q'
  {
    HeadsAgree(q.prefix, q.name + [NUL] + q.value, q'.prefix, q'.name + [NUL] + q'.value);
    HeadsAgree(q.name, q.value, q'.name, q'.value);
  }

  // With a NUL in a part, two queries can.
  lemma KeysCollideOnNul() returns (q: Query, q': Query)
    ensures q != q' && Key(q) == Key(q')
  {
    q, q' := Query("a" + [NUL] + "b", "c", "d"), Query("a", "b" + [NUL] + "c", "d");
    assert "a" + [NUL] + "b" + [NUL] + ("c" + [NUL] + "d") == "a" + [NUL] + ("b" + [NUL] + "c" + [NUL] + "d");
  }

  // ---------------------------------------------------------------- Entries

  datatype Entry = Entry(data: Data, expires: int)

  // The first critical section: the entry of a key, if it has one that has not expired.
  function Cached(entries: map<string, Entry>, key: string, now: int): Option<Entry> {
    if key in entries && now < entries[key].expires then Some(entries[key]) else None
  }

  // The second: an answered lookup is kept under its key for a TTL.
  function Stored(entries: map<string, Entry>, key: string, data: Data, now: int, ttl: nat): map<string, Entry> {
    entries[key := Entry(data, now + ttl)]
  }

  // The cache's own state; its methods are these two sections.
  class Cache {
    var entries: map<string, Entry>
    const ttl: nat

    constructor (ttl: nat)
      ensures this.ttl == ttl && entries == map[]
    {
      this.ttl, entries := ttl, map[];
    }

    method Get(key: string, now: int) returns (r: Option<Data>)
      ensures var e := Cached(entries, key, now); r == if e.Some? then Some(e.value.data) else None
    {
      if key in entries && now < entries[key].expires { return Some(entries[key].data); }
      r := None;
    }

    method Put(key: string, data: Data, now: int)
      modifies this
      ensures entries == Stored(old(entries), key, data, now, ttl)
    {
      entries := entries[key := Entry(data, now + ttl)];
    }
  }

  // ---------------------------------------------------------------- Steps

  // The lookup running for a key: asked of the backend, answered, written to the cache at
  // some time but not yet handed to its callers, or failed.
  datatype Flight =
    | Asking(q: Query)
    | Answered(q: Query, data: Data)
    | Recorded(q: Query, data: Data, at: int)
    | Failed(q: Query)

  // A lookup the backend answered, recorded at this time.
  datatype Lookup = Lookup(q: Query, data: Data, at: int)

  // A caller began at start. Of a result its data are returned; the lookup says whence.
  datatype Caller =
    | Checking(q: Query, start: int)
    | Missed(q: Query, start: int)
    | Joined(q: Query, start: int)
    | Returned(q: Query, start: int, result: Option<Lookup>)

  datatype State = State(
    now: int,
    entries: map<string, Entry>,
    flights: map<string, Flight>,
    callers: map<nat, Caller>,
    lookups: set<Lookup>)

  datatype Action =
    | Tick
    | Call(id: nat, q: Query)
    | Hit(id: nat)
    | Miss(id: nat)
    | Lead(id: nat)
    | Join(id: nat)
    | Answer(key: string, data: Data)
    | Fail(key: string)
    | Record(key: string)
    | Finish(key: string)

  predicate Enabled(s: State, a: Action) {
    match a
    case Tick => true
    case Call(id, q) => id !in s.callers && NulFree(q)
    case Hit(id) => id in s.callers && s.callers[id].Checking? && Cached(s.entries, Key(s.callers[id].q), s.now).Some?
    case Miss(id) => id in s.callers && s.callers[id].Checking? && Cached(s.entries, Key(s.callers[id].q), s.now).None?
    case Lead(id) => id in s.callers && s.callers[id].Missed? && Key(s.callers[id].q) !in s.flights
    case Join(id) => id in s.callers && s.callers[id].Missed? && Key(s.callers[id].q) in s.flights
    case Answer(key, _) => key in s.flights && s.flights[key].Asking?
    case Fail(key) => key in s.flights && s.flights[key].Asking?
    case Record(key) => key in s.flights && s.flights[key].Answered?
    case Finish(key) => key in s.flights && (s.flights[key].Recorded? || s.flights[key].Failed?)
  }

  // A finished flight hands its result to every caller that joined it.
  function Handed(callers: map<nat, Caller>, key: string, result: Option<Lookup>): map<nat, Caller> {
    map id | id in callers ::
      if callers[id].Joined? && Key(callers[id].q) == key then Returned(callers[id].q, callers[id].start, result)
      else callers[id]
  }

  function Next(s: State, ttl: nat, a: Action): State
    requires Enabled(s, a)
  {
    match a
    case Tick => s.(now := s.now + 1)
    case Call(id, q) => s.(callers := s.callers[id := Checking(q, s.now)])
    case Hit(id) =>
      var c := s.callers[id];
      var e := Cached(s.entries, Key(c.q), s.now).value;
      s.(callers := s.callers[id := Returned(c.q, c.start, Some(Lookup(c.q, e.data, e.expires - ttl)))])
    case Miss(id) => s.(callers := s.callers[id := Missed(s.callers[id].q, s.callers[id].start)])
    case Lead(id) =>
      var c := s.callers[id];
      s.(flights := s.flights[Key(c.q) := Asking(c.q)], callers := s.callers[id := Joined(c.q, c.start)])
    case Join(id) =>
      var c := s.callers[id];
      s.(callers := s.callers[id := Joined(c.q, c.start)])
    case Answer(key, data) => s.(flights := s.flights[key := Answered(s.flights[key].q, data)])
    case Fail(key) => s.(flights := s.flights[key := Failed(s.flights[key].q)])
    case Record(key) =>
      var f := s.flights[key];
      s.(entries := Stored(s.entries, key, f.data, s.now, ttl),
         flights := s.flights[key := Recorded(f.q, f.data, s.now)],
         lookups := s.lookups + {Lookup(f.q, f.data, s.now)})
    case Finish(key) =>
      var f := s.flights[key];
      s.(flights := s.flights - {key},
         callers := Handed(s.callers, key, if f.Recorded? then Some(Lookup(f.q, f.data, f.at)) else None))
  }

  const INITIAL := State(0, map[], map[], map[], {})

  // ---------------------------------------------------------------- Invariant

  ghost predicate EntryInv(s: State, ttl: nat, key: string) {
    key in s.entries ==>
      exists l :: l in s.lookups && Key(l.q) == key && l.data == s.entries[key].data
        && l.at + ttl == s.entries[key].expires
  }

  ghost predicate FlightInv(s: State, ttl: nat, key: string) {
    key in s.flights ==>
      var f := s.flights[key];
      && NulFree(f.q) && Key(f.q) == key
      && (f.Recorded? ==>
            && f.at <= s.now && Lookup(f.q, f.data, f.at) in s.lookups
            && key in s.entries && s.entries[key].expires == f.at + ttl)
  }

  ghost predicate CallerInv(s: State, id: nat) {
    id in s.callers ==>
      var c := s.callers[id];
      && NulFree(c.q) && c.start <= s.now
      && (c.Joined? ==> Key(c.q) in s.flights)
      && (c.Returned? && c.result.Some? ==> c.result.value in s.lookups && c.result.value.q == c.q)
  }

  ghost predicate Inv(s: State, ttl: nat) {
    && (forall l :: l in s.lookups ==> NulFree(l.q))
    && (forall key :: EntryInv(s, ttl, key))
    && (forall key :: FlightInv(s, ttl, key))
    && (forall id :: CallerInv(s, id))
  }

  lemma StepEntry(s: State, ttl: nat, a: Action, key: string)
    requires Inv(s, ttl) && Enabled(s, a)
    ensures EntryInv(Next(s, ttl, a), ttl, key)
  {
    var s' := Next(s, ttl, a);
    assert EntryInv(s, ttl, key) && FlightInv(s, ttl, key);
    if key in s'.entries {
      if a.Record? && a.key == key {
        assert Lookup(s.flights[key].q, s.flights[key].data, s.now) in s'.lookups;
      } else {
        var l :| l in s.lookups && Key(l.q) == key && l.data == s.entries[key].data
          && l.at + ttl == s.entries[key].expires;
        assert l in s'.lookups;
      }
    }
  }

  lemma StepFlight(s: State, ttl: nat, a: Action, key: string)
    requires Inv(s, ttl) && Enabled(s, a)
    ensures FlightInv(Next(s, ttl, a), ttl, key)
  {
    assert FlightInv(s, ttl, key);
    if a.Lead? { assert CallerInv(s, a.id); }
  }

  // A hit returns a lookup of exactly the caller's query, recorded less than a TTL ago.
  lemma HitIsRecorded(s: State, ttl: nat, id: nat)
    requires Inv(s, ttl) && Enabled(s, Hit(id))
    ensures var l := Next(s, ttl, Hit(id)).callers[id].result.value;
      l in s.lookups && l.q == s.callers[id].q && l.at > s.now - ttl
  {
    var q := s.callers[id].q;
    assert EntryInv(s, ttl, Key(q)) && CallerInv(s, id);
    var l :| l in s.lookups && Key(l.q) == Key(q) && l.data == s.entries[Key(q)].data
      && l.at + ttl == s.entries[Key(q)].expires;
    KeyInjective(l.q, q);
    assert l == Lookup(q, s.entries[Key(q)].data, s.entries[Key(q)].expires - ttl);
  }

  lemma StepCaller(s: State, ttl: nat, a: Action, id: nat)
    requires Inv(s, ttl) && Enabled(s, a)
    ensures CallerInv(Next(s, ttl, a), id)
  {
    assert CallerInv(s, id);
    if a == Hit(id) { HitIsRecorded(s, ttl, id); }
    if id in s.callers && a == Finish(Key(s.callers[id].q)) {
      assert FlightInv(s, ttl, a.key);
      KeyInjective(s.flights[a.key].q, s.callers[id].q);
    }
  }

  lemma StepInv(s: State, ttl: nat, a: Action)
    requires Inv(s, ttl) && Enabled(s, a)
    ensures Inv(Next(s, ttl, a), ttl)
  {
    var s' := Next(s, ttl, a);
    forall key ensures EntryInv(s', ttl, key) && FlightInv(s', ttl, key) {
      StepEntry(s, ttl, a, key);
      StepFlight(s, ttl, a, key);
    }
    forall id ensures CallerInv(s', id) { StepCaller(s, ttl, a, id); }
    if a.Record? { assert FlightInv(s, ttl, a.key); }
  }

  // ---------------------------------------------------------------- Results

  // Only a lookup the backend answered changes the cache, and only under its own key.
  lemma OnlyAnswersAreCached(s: State, ttl: nat, a: Action, key: string)
    requires Inv(s, ttl) && Enabled(s, a)
    requires key in Next(s, ttl, a).entries && (key !in s.entries || Next(s, ttl, a).entries[key] != s.entries[key])
    ensures a == Record(key) && s.flights[key].Answered? && Key(s.flights[key].q) == key
    ensures forall now :: Cached(Next(s, ttl, a).entries, key, now) ==
                          if now < s.now + ttl then Some(Entry(s.flights[key].data, s.now + ttl)) else None
  {
    assert FlightInv(s, ttl, a.key);
  }

  ghost predicate Run(s: State, ttl: nat, actions: seq<Action>, s': State)
    decreases |actions|
  {
    if actions == [] then s' == s
    else Enabled(s, actions[0]) && Run(Next(s, ttl, actions[0]), ttl, actions[1..], s')
  }

  // The step joins caller id to a lookup that was recorded a TTL or more before it began
  // and is still being handed out.
  predicate JoinsLate(s: State, ttl: nat, a: Action, id: nat) {
    && a == Join(id) && Enabled(s, a)
    && var f := s.flights[Key(s.callers[id].q)];
       f.Recorded? && f.at + ttl <= s.callers[id].start
  }

  // Some step of the run does.
  ghost predicate EverJoinsLate(s: State, ttl: nat, actions: seq<Action>, id: nat)
    decreases |actions|
  {
    actions != [] && Enabled(s, actions[0]) &&
    (JoinsLate(s, ttl, actions[0], id) || EverJoinsLate(Next(s, ttl, actions[0]), ttl, actions[1..], id))
  }

  // The result of caller id is a lookup recorded a TTL or more before the call began.
  predicate Stale(s: State, ttl: nat, id: nat) {
    && id in s.callers && s.callers[id].Returned? && s.callers[id].result.Some?
    && s.callers[id].result.value.at <= s.callers[id].start - ttl
  }

  // It is, or the lookup the caller waits for is one.
  predicate Doomed(s: State, ttl: nat, id: nat) {
    || Stale(s, ttl, id)
    || (id in s.callers && s.callers[id].Joined?
        && var key := Key(s.callers[id].q);
           key in s.flights && s.flights[key].Recorded? && s.flights[key].at + ttl <= s.callers[id].start)
  }

  // Nothing but a late join dooms a caller, and nothing saves it.
  lemma StepDooms(s: State, ttl: nat, a: Action, id: nat)
    requires ttl > 0 && Inv(s, ttl) && Enabled(s, a)
    ensures Doomed(Next(s, ttl, a), ttl, id) <==> Doomed(s, ttl, id) || JoinsLate(s, ttl, a, id)
  {
    assert CallerInv(s, id);
    if a == Hit(id) { HitIsRecorded(s, ttl, id); }
  }

  lemma {:induction false} RunDooms(s: State, ttl: nat, actions: seq<Action>, s': State, id: nat)
    requires ttl > 0 && Inv(s, ttl) && Run(s, ttl, actions, s')
    ensures Inv(s', ttl)
    ensures Doomed(s', ttl, id) <==> Doomed(s, ttl, id) || EverJoinsLate(s, ttl, actions, id)
    decreases |actions|
  {
    if actions != [] {
      StepInv(s, ttl, actions[0]);
      StepDooms(s, ttl, actions[0], id);
      RunDooms(Next(s, ttl, actions[0]), ttl, actions[1..], s', id);
    }
  }

  // Under any interleaving a result is what the backend returned for exactly that query;
  // and it comes from a lookup recorded later than the call's start minus the TTL exactly
  // if the caller did not join one that had been recorded a TTL before it began.
  lemma ResultsAreFresh(ttl: nat, actions: seq<Action>, s: State, id: nat)
    requires ttl > 0 && Run(INITIAL, ttl, actions, s)
    requires id in s.callers && s.callers[id].Returned? && s.callers[id].result.Some?
    ensures var l := s.callers[id].result.value;
      && l in s.lookups && l.q == s.callers[id].q
      && (l.at > s.callers[id].start - ttl <==> !EverJoinsLate(INITIAL, ttl, actions, id))
  {
    RunDooms(INITIAL, ttl, actions, s, id);
    assert CallerInv(s, id);
  }

  lemma RunStep(s: State, ttl: nat, a: Action, rest: seq<Action>, s': State)
    requires Enabled(s, a) && Run(Next(s, ttl, a), ttl, rest, s')
    ensures Run(s, ttl, [a] + rest, s')
  {
    assert ([a] + rest)[1..] == rest;
  }

  lemma {:induction false} RunAppend(s: State, ttl: nat, first: seq<Action>, m: State, second: seq<Action>, s': State)
    requires Run(s, ttl, first, m) && Run(m, ttl, second, s')
    ensures Run(s, ttl, first + second, s')
    decreases |first|
  {
    if first == [] {
      assert first + second == second;
    } else {
      assert (first + second)[1..] == first[1..] + second;
      RunAppend(Next(s, ttl, first[0]), ttl, first[1..], m, second, s');
    }
  }

  // A lookup recorded at 0 and not yet handed to its caller.
  function Slow(q: Query, data: Data): State {
    State(0, map[Key(q) := Entry(data, 1)], map[Key(q) := Recorded(q, data, 0)], map[0 := Joined(q, 0)],
      {Lookup(q, data, 0)})
  }

  lemma SlowIsReached(q: Query, data: Data) returns (actions: seq<Action>)
    requires NulFree(q)
    ensures Run(INITIAL, 1, actions, Slow(q, data))
  {
    var k := Key(q);
    var s1 := Next(INITIAL, 1, Call(0, q));
    var s2 := Next(s1, 1, Miss(0));
    var s3 := Next(s2, 1, Lead(0));
    var s4 := Next(s3, 1, Answer(k, data));
    assert Next(s4, 1, Record(k)) == Slow(q, data);
    RunStep(s4, 1, Record(k), [], Slow(q, data));
    RunStep(s3, 1, Answer(k, data), [Record(k)], Slow(q, data));
    var tail := [Answer(k, data)] + [Record(k)];
    RunStep(s2, 1, Lead(0), tail, Slow(q, data));
    RunStep(s1, 1, Miss(0), [Lead(0)] + tail, Slow(q, data));
    tail := [Miss(0)] + ([Lead(0)] + tail);
    RunStep(INITIAL, 1, Call(0, q), tail, Slow(q, data));
    actions := [Call(0, q)] + tail;
  }

  // From there: a TTL passes, and another caller misses and joins the flight.
  lemma SlowIsJoined(q: Query, data: Data) returns (actions: seq<Action>, s: State)
    requires NulFree(q)
    ensures Run(Slow(q, data), 1, actions, s)
    ensures Enabled(s, Finish(Key(q))) && Stale(Next(s, 1, Finish(Key(q))), 1, 1)
  {
    var s5 := Slow(q, data);
    var s6 := Next(s5, 1, Tick);
    var s7 := Next(s6, 1, Call(1, q));
    var s8 := Next(s7, 1, Miss(1));
    s := Next(s8, 1, Join(1));
    RunStep(s8, 1, Join(1), [], s);
    RunStep(s7, 1, Miss(1), [Join(1)], s);
    RunStep(s6, 1, Call(1, q), [Miss(1)] + [Join(1)], s);
    var tail := [Call(1, q)] + ([Miss(1)] + [Join(1)]);
    RunStep(s5, 1, Tick, tail, s);
    actions := [Tick] + tail;
  }

  // A caller can join late and gets a result recorded a TTL before it began.
  lemma SlowFlightIsStale() returns (actions: seq<Action>, s: State)
    ensures Run(INITIAL, 1, actions, s) && Stale(s, 1, 1)
  {
    var q := Query("tank", "managed_by", "tns-csi");
    var first := SlowIsReached(q, ["tank/a"]);
    var joined, s9 := SlowIsJoined(q, ["tank/a"]);
    s := Next(s9, 1, Finish(Key(q)));
    RunStep(s9, 1, Finish(Key(q)), [], s);
    RunAppend(Slow(q, ["tank/a"]), 1, joined, s9, [Finish(Key(q))], s);
    RunAppend(INITIAL, 1, first, Slow(q, ["tank/a"]), joined + [Finish(Key(q))], s);
    actions := first + (joined + [Finish(Key(q))]);
  }
}
