// The guard against overlapping CreateVolume calls of one name, under any interleaving: it
// is why the attempts for one volume may be taken one after another.
module CreateGuard {
  import opened Results

  // The two atomic operations on the set of names in progress: take a name unless it is
  // taken, and give one back.
  function Taken(names: set<string>, name: string): Option<set<string>> {
    if name in names then None else Some(names + {name})
  }

  function GivenBack(names: set<string>, name: string): set<string> { names - {name} }

  // The set itself; its methods are these operations.
  class InFlight {
    var names: set<string>

    constructor ()
      ensures names == {}
    {
      names := {};
    }

    method Enter(name: string) returns (r: Result<()>)
      modifies this
      ensures var taken := Taken(old(names), name);
        if taken.Some? then r == Ok(()) && names == taken.value else r == Err(Aborted) && names == old(names)
      ensures r == (if name in old(names) then Err(Aborted) else Ok(())) && names == old(names) + {name}
    {
      if name in names { return Err(Aborted); }
      names := names + {name};
      r := Ok(());
    }

    method Exit(name: string)
      modifies this
      ensures names == GivenBack(old(names), name) == old(names) - {name}
    {
      names := names - {name};
    }
  }

  // ---------------------------------------------------------------- Steps

  // A call enters, is refused, or returns, whatever it did in between.
  datatype Event = Entered(id: nat, name: string) | Refused(id: nat, name: string) | Left(id: nat, name: string)

  datatype State = State(names: set<string>, running: map<nat, string>)

  predicate Enabled(s: State, e: Event) {
    match e
    case Entered(id, name) => id !in s.running && Taken(s.names, name).Some?
    case Refused(id, name) => id !in s.running && Taken(s.names, name).None?
    case Left(id, name) => id in s.running && s.running[id] == name
  }

  function Next(s: State, e: Event): State
    requires Enabled(s, e)
  {
    match e
    case Entered(id, name) => State(Taken(s.names, name).value, s.running[id := name])
    case Refused(_, _) => s
    case Left(id, name) => State(GivenBack(s.names, name), s.running - {id})
  }

  const INITIAL := State({}, map[])

  ghost predicate Run(s: State, log: seq<Event>)
    decreases |log|
  {
    log == [] || (Enabled(s, log[0]) && Run(Next(s, log[0]), log[1..]))
  }

  // The names in progress are those of the running calls, one call each.
  ghost predicate Inv(s: State) {
    && (forall name :: name in s.names <==> exists id :: id in s.running && s.running[id] == name)
    && (forall i, j :: i in s.running && j in s.running && s.running[i] == s.running[j] ==> i == j)
  }

  lemma StepInv(s: State, e: Event)
    requires Inv(s) && Enabled(s, e)
    ensures Inv(Next(s, e))
  {
    var s' := Next(s, e);
    forall name ensures name in s'.names <==> exists id :: id in s'.running && s'.running[id] == name {
      if e == Entered(e.id, name) { assert s'.running[e.id] == name; }
      if i :| i in s.running && s.running[i] == name { assert i != e.id ==> i in s'.running && s'.running[i] == name; }
    }
  }

  // A call enters exactly if no running call has its name, and only then it is not refused.
  lemma EntersIffFree(s: State, id: nat, name: string)
    requires Inv(s) && id !in s.running
    ensures Enabled(s, Entered(id, name)) <==> forall i :: i in s.running ==> s.running[i] != name
    ensures Enabled(s, Refused(id, name)) <==> !Enabled(s, Entered(id, name))
  {
  }

  // The call that has name after the first k events of the log.
  ghost predicate Has(log: seq<Event>, k: nat, id: nat, name: string) {
    exists b :: EntersLast(log, b, k, id, name)
  }

  ghost predicate EntersLast(log: seq<Event>, b: nat, k: nat, id: nat, name: string) {
    b < k <= |log| && log[b] == Entered(id, name) && forall i :: b < i < k ==> log[i] != Left(id, name)
  }

  lemma {:induction false} RunningAt(s: State, log: seq<Event>, b: nat, k: nat, id: nat, name: string)
    requires Inv(s) && Run(s, log) && b < k < |log| && EntersLast(log, b, k, id, name)
    ensures log[k].Entered? ==> log[k].name != name
    ensures log[k].Left? && log[k].name == name ==> log[k].id == id
    decreases |log|
  {
    StepInv(s, log[0]);
    var s' := Next(s, log[0]);
    if b == 0 {
      HeldUntil(s', log[1..], k - 1, id, name);
    } else {
      assert EntersLast(log[1..], b - 1, k - 1, id, name);
      RunningAt(s', log[1..], b - 1, k - 1, id, name);
    }
  }

  lemma {:induction false} HeldUntil(s: State, log: seq<Event>, k: nat, id: nat, name: string)
    requires Inv(s) && Run(s, log) && k < |log| && id in s.running && s.running[id] == name
    requires forall i :: 0 <= i < k ==> log[i] != Left(id, name)
    ensures log[k].Entered? ==> log[k].name != name
    ensures log[k].Left? && log[k].name == name ==> log[k].id == id
    decreases |log|
  {
    if k > 0 {
      StepInv(s, log[0]);
      assert log[0] != Left(id, name);
      HeldUntil(Next(s, log[0]), log[1..], k - 1, id, name);
    }
  }

  // Calls for one name never overlap: while one has entered and not left, no other enters,
  // and it is the one that leaves.
  lemma CallsAreSerial(log: seq<Event>, k: nat, id: nat, name: string)
    requires Run(INITIAL, log) && k < |log| && Has(log, k, id, name)
    ensures log[k].Entered? ==> log[k].name != name
    ensures log[k].Left? && log[k].name == name ==> log[k].id == id
  {
    var b: nat :| EntersLast(log, b, k, id, name);
    RunningAt(INITIAL, log, b, k, id, name);
  }
}
