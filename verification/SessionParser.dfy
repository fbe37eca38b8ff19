// Reading iscsiadm's output: the portal of a node record, and the disk of a session on the
// configured portal. Whether a portal is the configured server's is a parameter.
module SessionParser {
  import opened Results
  import opened Text

  // ---------------------------------------------------------------- Node records

  // The portal of a record for this target on a matching portal.
  function PortalOf(line: string, iqn: string, matches: string -> bool): Option<string> {
    var fields := Fields(line);
    if |fields| < 2 || fields[1] != iqn || !matches(fields[0]) then None else Some(fields[0])
  }

  // The portals among the first n lines.
  function Portals(lines: seq<string>, n: nat, iqn: string, matches: string -> bool): set<string>
    requires n <= |lines|
  {
    set i | 0 <= i < n && PortalOf(lines[i], iqn, matches).Some? :: PortalOf(lines[i], iqn, matches).value
  }

  // What a set of candidates amounts to: the only one, or why there is none.
  ghost predicate Picks(s: set<string>, r: Result<string>, empty: Result<string>) {
    && (s == {} <==> r == empty)
    && (r.Ok? && r != empty ==> s == {r.value})
    && (r.Err? ==> r == empty || r == Err(FailedPrecondition))
    && ((exists x, y :: x in s && y in s && x != y) <==> r == Err(FailedPrecondition))
  }

  lemma PickNone(s: set<string>, empty: Result<string>)
    requires s == {} && empty != Err(FailedPrecondition)
    ensures Picks(s, empty, empty)
  {
  }

  lemma PickOne(s: set<string>, x: string, empty: Result<string>)
    requires s == {x} && empty != Err(FailedPrecondition) && empty != Ok(x)
    ensures Picks(s, Ok(x), empty)
  {
    assert x in s;
  }

  lemma PickMany(s: set<string>, x: string, y: string, empty: Result<string>)
    requires x in s && y in s && x != y && empty != Err(FailedPrecondition)
    ensures Picks(s, Err(FailedPrecondition), empty)
  {
  }

  lemma PortalsGrow(lines: seq<string>, n: nat, iqn: string, matches: string -> bool)
    requires n < |lines|
    ensures Portals(lines, n + 1, iqn, matches) ==
      Portals(lines, n, iqn, matches) +
      if PortalOf(lines[n], iqn, matches).Some? then {PortalOf(lines[n], iqn, matches).value} else {}
  {
  }

  lemma PortalsInclude(lines: seq<string>, n: nat, m: nat, iqn: string, matches: string -> bool)
    requires n <= m <= |lines|
    ensures Portals(lines, n, iqn, matches) <= Portals(lines, m, iqn, matches)
  {
  }

  // selectISCSINodePortal: the portal, if exactly one matches.
  method SelectPortal(output: string, iqn: string, matches: string -> bool) returns (r: Result<string>)
    ensures var lines := Split(output, '\n');
      Picks(Portals(lines, |lines|, iqn, matches), r, Err(NotFound))
  {
    var lines := Split(output, '\n');
    var selected := "";
    for i := 0 to |lines|
      invariant Portals(lines, i, iqn, matches) == if selected == "" then {} else {selected}
    {
      PortalsGrow(lines, i, iqn, matches);
      var fields := Fields(lines[i]);
      if |fields| < 2 || fields[1] != iqn || !matches(fields[0]) { continue; }
      assert fields[0] in fields;
      if selected != "" && selected != fields[0] {
        PortalsInclude(lines, i + 1, |lines|, iqn, matches);
        PickMany(Portals(lines, |lines|, iqn, matches), selected, fields[0], Err(NotFound));
        return Err(FailedPrecondition);
      }
      selected := fields[0];
    }
    if selected == "" {
      PickNone(Portals(lines, |lines|, iqn, matches), Err(NotFound));
      return Err(NotFound);
    }
    PickOne(Portals(lines, |lines|, iqn, matches), selected, Err(NotFound));
    r := Ok(selected);
  }

  lemma PortalsByContent(lines: seq<string>, iqn: string, matches: string -> bool, x: string)
    ensures x in Portals(lines, |lines|, iqn, matches) <==>
      exists l :: l in lines && PortalOf(l, iqn, matches) == Some(x)
  {
    if l :| l in lines && PortalOf(l, iqn, matches) == Some(x) {
      var i :| 0 <= i < |lines| && lines[i] == l;
    }
  }

  // The order of the lines, and repeating them, makes no difference.
  lemma PortalOrderIrrelevant(lines: seq<string>, lines': seq<string>, iqn: string, matches: string -> bool,
          r: Result<string>, r': Result<string>)
    requires forall l :: l in lines <==> l in lines'
    requires Picks(Portals(lines, |lines|, iqn, matches), r, Err(NotFound))
    requires Picks(Portals(lines', |lines'|, iqn, matches), r', Err(NotFound))
    ensures r == r'
  {
    var s, s' := Portals(lines, |lines|, iqn, matches), Portals(lines', |lines'|, iqn, matches);
    forall x ensures x in s <==> x in s' {
      PortalsByContent(lines, iqn, matches, x);
      PortalsByContent(lines', iqn, matches, x);
    }
    PickIsUnique(s, s', r, r');
  }

  lemma PickIsUnique(s: set<string>, s': set<string>, r: Result<string>, r': Result<string>)
    requires Picks(s, r, Err(NotFound)) && Picks(s', r', Err(NotFound)) && forall x :: x in s <==> x in s'
    ensures r == r'
  {
    assert s == s';
    if r.Ok? { assert r.value in s; }
    if r'.Ok? { assert r'.value in s; }
  }

  // A record is a portal and a target; it counts if it is for the wanted target.
  lemma RecordInWords(portal: string, target: string, iqn: string, matches: string -> bool)
    requires IsWord(portal) && IsWord(target)
    ensures PortalOf(portal + " " + target, iqn, matches)
      == if target == iqn && matches(portal) then Some(portal) else None
  {
    FieldsAre(portal, target, ' ');
    FieldsAre(target, "", ' ');
    assert portal + " " + target == portal + [' '] + target;
  }

  // ---------------------------------------------------------------- Sessions

  const TARGET := "Target:"
  const PORTAL := "Current Portal:"
  const ATTACHED := "Attached scsi disk"

  predicate IsTarget(line: string) { TARGET <= line }

  predicate IsPortal(line: string) { !IsTarget(line) && PORTAL <= line }

  // The first word after the tag is this one.
  predicate Names(line: string, tag: string, word: string) {
    var fields := Fields(Trim(TrimPrefix(line, tag)));
    |fields| > 0 && fields[0] == word
  }

  predicate OnServer(line: string, matches: string -> bool) {
    var fields := Fields(Trim(TrimPrefix(line, PORTAL)));
    |fields| > 0 && matches(fields[0])
  }

  predicate FirstDisk(fields: seq<string>, i: nat) {
    i < |fields| - 1 && fields[i] == "disk" && forall j :: 0 <= j < i ==> fields[j] != "disk"
  }

  // The word after the first "disk" that has one.
  function AfterDisk(fields: seq<string>): (d: Option<string>)
    ensures forall i :: FirstDisk(fields, i) ==> d == Some(fields[i + 1])
    ensures (forall i :: !FirstDisk(fields, i)) ==> d.None?
  {
    if |fields| < 2 then None
    else if fields[0] == "disk" then
      assert FirstDisk(fields, 0);
      Some(fields[1])
    else
      var rest := fields[1..];
      assert forall i: nat :: FirstDisk(fields, i) ==> i > 0 && FirstDisk(rest, i - 1);
      assert forall i: nat :: FirstDisk(rest, i) ==> FirstDisk(fields, i + 1);
      AfterDisk(rest)
  }

  function DiskOf(line: string): Option<string> {
    if IsTarget(line) || IsPortal(line) || !Contains(line, ATTACHED) then None else AfterDisk(Fields(line))
  }

  // The target line last before line i names the wanted target.
  ghost predicate InSection(lines: seq<string>, i: nat, iqn: string) {
    i <= |lines| && exists t :: StartsSection(lines, t, i, iqn)
  }

  ghost predicate StartsSection(lines: seq<string>, t: nat, i: nat, iqn: string) {
    && t < i <= |lines| && IsTarget(lines[t]) && Names(lines[t], TARGET, iqn)
    && forall k :: t < k < i ==> !IsTarget(lines[k])
  }

  // The portal line last before line i in that section is the server's.
  ghost predicate UnderPortal(lines: seq<string>, i: nat, iqn: string, matches: string -> bool) {
    i <= |lines| && exists p :: SetsPortal(lines, p, i, iqn, matches)
  }

  ghost predicate SetsPortal(lines: seq<string>, p: nat, i: nat, iqn: string, matches: string -> bool) {
    && p < i <= |lines| && IsPortal(lines[p]) && OnServer(lines[p], matches) && InSection(lines, p, iqn)
    && forall k :: p < k < i ==> !IsTarget(lines[k]) && !IsPortal(lines[k])
  }

  ghost predicate Attaches(lines: seq<string>, i: nat, iqn: string, matches: string -> bool) {
    i < |lines| && UnderPortal(lines, i, iqn, matches) && DiskOf(lines[i]).Some?
  }

  // The disks attached under the wanted target after a matching portal, in the first n lines.
  ghost function Disks(lines: seq<string>, n: nat, iqn: string, matches: string -> bool): set<string>
    requires n <= |lines|
  {
    set i | 0 <= i < n && Attaches(lines, i, iqn, matches) :: DiskOf(lines[i]).value
  }

  function Trimmed(lines: seq<string>): (r: seq<string>)
    ensures |r| == |lines| && forall i :: 0 <= i < |r| ==> r[i] == Trim(lines[i])
  {
    seq(|lines|, i requires 0 <= i < |lines| => Trim(lines[i]))
  }

  lemma SectionStep(lines: seq<string>, i: nat, iqn: string, n: nat)
    requires i < |lines| && n == i + 1
    ensures InSection(lines, n, iqn) <==>
      if IsTarget(lines[i]) then Names(lines[i], TARGET, iqn) else InSection(lines, i, iqn)
  {
    if t: nat :| StartsSection(lines, t, n, iqn) {
      assert t == i || StartsSection(lines, t, i, iqn);
    }
    if IsTarget(lines[i]) {
      assert StartsSection(lines, i, n, iqn) <==> Names(lines[i], TARGET, iqn);
    } else if t: nat :| StartsSection(lines, t, i, iqn) {
      assert StartsSection(lines, t, n, iqn);
    }
  }

  lemma PortalStep(lines: seq<string>, i: nat, iqn: string, matches: string -> bool, n: nat)
    requires i < |lines| && n == i + 1
    ensures UnderPortal(lines, n, iqn, matches) <==>
      if IsTarget(lines[i]) then false
      else if IsPortal(lines[i]) then InSection(lines, i, iqn) && OnServer(lines[i], matches)
      else UnderPortal(lines, i, iqn, matches)
  {
    if p: nat :| SetsPortal(lines, p, n, iqn, matches) {
      assert p == i || SetsPortal(lines, p, i, iqn, matches);
    }
    if IsPortal(lines[i]) {
      assert SetsPortal(lines, i, n, iqn, matches) <==> InSection(lines, i, iqn) && OnServer(lines[i], matches);
    } else if !IsTarget(lines[i]) {
      if p: nat :| SetsPortal(lines, p, i, iqn, matches) { assert SetsPortal(lines, p, n, iqn, matches); }
    }
  }

  // A matching portal lies in the wanted section.
  lemma PortalInSection(lines: seq<string>, i: nat, iqn: string, matches: string -> bool)
    requires UnderPortal(lines, i, iqn, matches)
    ensures InSection(lines, i, iqn)
  {
    var p: nat :| SetsPortal(lines, p, i, iqn, matches);
    var t: nat :| StartsSection(lines, t, p, iqn);
    assert StartsSection(lines, t, i, iqn);
  }

  ghost predicate Gives(lines: seq<string>, i: nat, iqn: string, matches: string -> bool, x: string) {
    Attaches(lines, i, iqn, matches) && DiskOf(lines[i]) == Some(x)
  }

  ghost predicate GivenBefore(lines: seq<string>, n: nat, iqn: string, matches: string -> bool, x: string) {
    exists i: nat :: i < n && Gives(lines, i, iqn, matches, x)
  }

  lemma DisksByLine(lines: seq<string>, n: nat, iqn: string, matches: string -> bool, x: string)
    requires n <= |lines|
    ensures x in Disks(lines, n, iqn, matches) <==> GivenBefore(lines, n, iqn, matches, x)
  {
    if x in Disks(lines, n, iqn, matches) {
      var i: nat :| i < n && Attaches(lines, i, iqn, matches) && DiskOf(lines[i]).value == x;
      assert Gives(lines, i, iqn, matches, x);
    }
    if GivenBefore(lines, n, iqn, matches, x) {
      var i: nat :| i < n && Gives(lines, i, iqn, matches, x);
      assert Attaches(lines, i, iqn, matches) && DiskOf(lines[i]).value == x;
    }
  }

  lemma GivenNext(lines: seq<string>, n: nat, iqn: string, matches: string -> bool, x: string)
    ensures GivenBefore(lines, n + 1, iqn, matches, x) <==>
      GivenBefore(lines, n, iqn, matches, x) || Gives(lines, n, iqn, matches, x)
  {
  }

  function Found(line: string, inTarget: bool, onPortal: bool): Option<string> {
    if inTarget && onPortal then DiskOf(line) else None
  }

  function AsSet(o: Option<string>): set<string> { if o.Some? then {o.value} else {} }

  // One line of parseISCSISessionDeviceForPortal: the new state, and the disk it attaches.
  method ReadLine(line: string, iqn: string, matches: string -> bool, inTarget: bool, onPortal: bool)
    returns (inTarget': bool, onPortal': bool, d: Option<string>)
    ensures inTarget' == if IsTarget(line) then Names(line, TARGET, iqn) else inTarget
    ensures onPortal' == if IsTarget(line) then false
                         else if inTarget && IsPortal(line) then OnServer(line, matches) else onPortal
    ensures d == Found(line, inTarget, onPortal)
    ensures d.Some? ==> d.value != ""
  {
    inTarget', onPortal', d := inTarget, onPortal, None;
    if TARGET <= line {
      inTarget' := Names(line, TARGET, iqn);
      onPortal' := false;
      return;
    }
    if !inTarget { return; }
    if PORTAL <= line {
      onPortal' := OnServer(line, matches);
      return;
    }
    if !onPortal || !Contains(line, ATTACHED) { return; }
    d := DiskField(line);
  }

  // The parser's state after n lines, read one line at a time.
  function Section(lines: seq<string>, n: nat, iqn: string): bool
    requires n <= |lines|
  {
    n > 0 && if IsTarget(lines[n - 1]) then Names(lines[n - 1], TARGET, iqn) else Section(lines, n - 1, iqn)
  }

  function Portal(lines: seq<string>, n: nat, iqn: string, matches: string -> bool): bool
    requires n <= |lines|
  {
    n > 0 &&
    if IsTarget(lines[n - 1]) then false
    else if Section(lines, n - 1, iqn) && IsPortal(lines[n - 1]) then OnServer(lines[n - 1], matches)
    else Portal(lines, n - 1, iqn, matches)
  }

  function Collected(lines: seq<string>, n: nat, iqn: string, matches: string -> bool): set<string>
    requires n <= |lines|
  {
    if n == 0 then {}
    else Collected(lines, n - 1, iqn, matches) +
         AsSet(Found(lines[n - 1], Section(lines, n - 1, iqn), Portal(lines, n - 1, iqn, matches)))
  }

  lemma {:induction false} StateIsDeclared(lines: seq<string>, n: nat, iqn: string, matches: string -> bool)
    requires n <= |lines|
    ensures Section(lines, n, iqn) == InSection(lines, n, iqn)
    ensures Portal(lines, n, iqn, matches) == UnderPortal(lines, n, iqn, matches)
  {
    if n > 0 {
      StateIsDeclared(lines, n - 1, iqn, matches);
      SectionStep(lines, n - 1, iqn, n);
      PortalStep(lines, n - 1, iqn, matches, n);
      if UnderPortal(lines, n - 1, iqn, matches) { PortalInSection(lines, n - 1, iqn, matches); }
    }
  }

  lemma LineGives(lines: seq<string>, n: nat, iqn: string, matches: string -> bool, x: string)
    requires n < |lines|
    ensures Gives(lines, n, iqn, matches, x) <==>
      Found(lines[n], Section(lines, n, iqn), Portal(lines, n, iqn, matches)) == Some(x)
  {
    StateIsDeclared(lines, n, iqn, matches);
    if UnderPortal(lines, n, iqn, matches) { PortalInSection(lines, n, iqn, matches); }
  }

  lemma {:induction false} CollectedGives(lines: seq<string>, n: nat, iqn: string, matches: string -> bool, x: string)
    requires n <= |lines|
    ensures x in Collected(lines, n, iqn, matches) <==> GivenBefore(lines, n, iqn, matches, x)
  {
    if n > 0 {
      CollectedGives(lines, n - 1, iqn, matches, x);
      GivenNext(lines, n - 1, iqn, matches, x);
      LineGives(lines, n - 1, iqn, matches, x);
    }
  }

  lemma CollectedIsDisks(lines: seq<string>, iqn: string, matches: string -> bool)
    ensures Collected(lines, |lines|, iqn, matches) == Disks(lines, |lines|, iqn, matches)
  {
    forall x ensures x in Collected(lines, |lines|, iqn, matches) <==> x in Disks(lines, |lines|, iqn, matches) {
      CollectedGives(lines, |lines|, iqn, matches, x);
      DisksByLine(lines, |lines|, iqn, matches, x);
    }
  }

  lemma {:induction false} CollectedGrows(lines: seq<string>, n: nat, m: nat, iqn: string, matches: string -> bool)
    requires n <= m <= |lines|
    ensures Collected(lines, n, iqn, matches) <= Collected(lines, m, iqn, matches)
  {
    if n < m { CollectedGrows(lines, n, m - 1, iqn, matches); }
  }

  // The scan of all lines, against the one-line-at-a-time state.
  method Scan(raw: seq<string>, ghost lines: seq<string>, iqn: string, matches: string -> bool)
    returns (r: Result<string>)
    requires lines == Trimmed(raw)
    ensures Picks(Collected(lines, |lines|, iqn, matches), r, Ok(""))
  {
    var selected, inTarget, onPortal := "", false, false;
    for i := 0 to |raw|
      invariant inTarget == Section(lines, i, iqn)
      invariant onPortal == Portal(lines, i, iqn, matches)
      invariant Collected(lines, i, iqn, matches) == if selected == "" then {} else {selected}
    {
      var line := Trim(raw[i]);
      assert line == lines[i];
      var inTarget', onPortal', d := ReadLine(line, iqn, matches, inTarget, onPortal);
      inTarget, onPortal := inTarget', onPortal';
      if d.Some? {
        if selected != "" && selected != d.value {
          CollectedGrows(lines, i + 1, |lines|, iqn, matches);
          PickMany(Collected(lines, |lines|, iqn, matches), selected, d.value, Ok(""));
          return Err(FailedPrecondition);
        }
        selected := d.value;
      }
    }
    if selected == "" {
      PickNone(Collected(lines, |lines|, iqn, matches), Ok(""));
    } else {
      PickOne(Collected(lines, |lines|, iqn, matches), selected, Ok(""));
    }
    r := Ok(selected);
  }

  // parseISCSISessionDeviceForPortal: the disk if there is one, "" if there is none, and an
  // error if there are two.
  method SessionDisk(output: string, iqn: string, matches: string -> bool) returns (r: Result<string>)
    ensures var lines := Trimmed(Split(output, '\n'));
      Picks(Disks(lines, |lines|, iqn, matches), r, Ok(""))
  {
    var raw := Split(output, '\n');
    ghost var lines := Trimmed(raw);
    CollectedIsDisks(lines, iqn, matches);
    r := Scan(raw, lines, iqn, matches);
  }

  // The field loop of one line.
  method DiskField(line: string) returns (d: Option<string>)
    ensures d == AfterDisk(Fields(line))
    ensures d.Some? ==> d.value != ""
  {
    var fields := Fields(line);
    for i := 0 to |fields|
      invariant AfterDisk(fields) == AfterDisk(fields[i..])
    {
      if fields[i] == "disk" && i + 1 < |fields| {
        assert fields[i + 1] in fields;
        return Some(fields[i + 1]);
      }
      assert fields[i..][1..] == fields[i + 1..];
    }
    d := None;
  }

  // ---------------------------------------------------------------- What lines look like

  lemma AfterTag(tag: string, word: string, c: char, rest: string)
    requires IsWord(word) && IsSpace(c)
    ensures Fields(Trim(TrimPrefix(tag + " " + word + [c] + rest, tag))) == [word] + Fields(rest)
  {
    var line := tag + " " + word + [c] + rest;
    assert line == tag + (" " + word + [c] + rest);
    var tail := " " + word + [c] + rest;
    assert TrimPrefix(line, tag) == tail;
    TrimKeepsFields(tail);
    assert tail == [' '] + (word + [c] + rest);
    FieldsAre("", word + [c] + rest, ' ');
    FieldsAre(word, rest, c);
  }

  lemma TargetLine(target: string, c: char, rest: string, iqn: string)
    requires IsWord(target) && IsSpace(c)
    ensures var line := "Target: " + target + [c] + rest;
      IsTarget(line) && (Names(line, TARGET, iqn) <==> target == iqn)
  {
    AfterTag(TARGET, target, c, rest);
    assert "Target: " == TARGET + " ";
  }

  lemma PortalLine(portal: string, c: char, rest: string, matches: string -> bool)
    requires IsWord(portal) && IsSpace(c)
    ensures var line := "Current Portal: " + portal + [c] + rest;
      IsPortal(line) && (OnServer(line, matches) <==> matches(portal))
  {
    AfterTag(PORTAL, portal, c, rest);
    assert ("Current Portal: " + portal + [c] + rest)[0] == 'C' && TARGET[0] == 'T';
    assert "Current Portal: " == PORTAL + " ";
  }

  lemma NextField(w: string, c: char, rest: string)
    requires IsWord(w) && IsSpace(c)
    ensures Fields(w + [c] + rest) == [w] + Fields(rest)
  {
    FieldsAre(w, rest, c);
  }

  lemma FourFields(u: string, v: string, w: string, x: string, c: char, rest: string, line: string)
    requires IsWord(u) && IsWord(v) && IsWord(w) && IsWord(x) && IsSpace(c)
    requires line == u + [' '] + (v + [' '] + (w + [' '] + (x + [c] + rest)))
    ensures Fields(line) == [u] + ([v] + ([w] + ([x] + Fields(rest))))
  {
    var r2 := x + [c] + rest;
    var r1 := w + [' '] + r2;
    var r0 := v + [' '] + r1;
    NextField(u, ' ', r0);
    NextField(v, ' ', r1);
    NextField(w, ' ', r2);
    NextField(x, c, rest);
  }

  lemma Regroup(u: string, v: string, w: string, x: string, c: char, rest: string)
    ensures u + [' '] + v + [' '] + w + [' '] + x + [c] + rest
      == u + [' '] + (v + [' '] + (w + [' '] + (x + [c] + rest)))
  {
    assert w + [' '] + x + [c] + rest == w + [' '] + (x + [c] + rest);
  }

  lemma AttachedFields(disk: string, c: char, rest: string)
    requires IsWord(disk) && IsSpace(c)
    ensures Fields("Attached scsi disk " + disk + [c] + rest)
      == ["Attached"] + (["scsi"] + (["disk"] + ([disk] + Fields(rest))))
  {
    assert "Attached scsi disk " == "Attached" + [' '] + "scsi" + [' '] + "disk" + [' '];
    Regroup("Attached", "scsi", "disk", disk, c, rest);
    FourFields("Attached", "scsi", "disk", disk, c, rest, "Attached scsi disk " + disk + [c] + rest);
  }

  lemma DiskLine(disk: string, c: char, rest: string)
    requires IsWord(disk) && IsSpace(c)
    ensures var line := "Attached scsi disk " + disk + [c] + rest;
      !IsTarget(line) && !IsPortal(line) && DiskOf(line) == Some(disk)
  {
    var line := "Attached scsi disk " + disk + [c] + rest;
    AttachedFields(disk, c, rest);
    AttachedDisk(disk, rest, Fields(line));
    assert line[0] == 'A' && TARGET[0] == 'T' && PORTAL[0] == 'C';
    assert Contains(line, ATTACHED) by { IsAttached(" " + disk + [c] + rest, line); }
  }

  lemma IsAttached(after: string, line: string)
    requires line == ATTACHED + after
    ensures Contains(line, ATTACHED)
  {
    ContainsIs(line, ATTACHED, "", after);
    assert "" + ATTACHED + after == line;
  }

  lemma AttachedDisk(disk: string, rest: string, fields: seq<string>)
    requires fields == ["Attached"] + (["scsi"] + (["disk"] + ([disk] + Fields(rest))))
    ensures AfterDisk(fields) == Some(disk)
  {
    assert FirstDisk(fields, 2);
  }

  // A session as iscsiadm prints it gives its disk exactly if it is for the wanted target and
  // on the server's portal.
  lemma SessionInWords(target: string, portal: string, disk: string, c: char, a: string, b: string, d: string,
          iqn: string, matches: string -> bool, lines: seq<string>)
    requires IsWord(target) && IsWord(portal) && IsWord(disk) && IsSpace(c)
    requires lines == ["Target: " + target + [c] + a, "Current Portal: " + portal + [c] + b,
                       "Attached scsi disk " + disk + [c] + d]
    ensures Collected(lines, 3, iqn, matches) == if target == iqn && matches(portal) then {disk} else {}
  {
    TargetLine(target, c, a, iqn);
    PortalLine(portal, c, b, matches);
    DiskLine(disk, c, d);
    CollectedThree(lines, iqn, matches);
  }

  lemma CollectedThree(lines: seq<string>, iqn: string, matches: string -> bool)
    requires |lines| == 3 && IsTarget(lines[0]) && IsPortal(lines[1]) && !IsTarget(lines[2]) && !IsPortal(lines[2])
    ensures Collected(lines, 3, iqn, matches)
      == AsSet(Found(lines[2], Names(lines[0], TARGET, iqn),
                     Names(lines[0], TARGET, iqn) && OnServer(lines[1], matches)))
  {
    assert Section(lines, 1, iqn) == Section(lines, 2, iqn) == Names(lines[0], TARGET, iqn);
    assert !Portal(lines, 0, iqn, matches) && !Portal(lines, 1, iqn, matches);
    assert Collected(lines, 0, iqn, matches) == {};
    assert Collected(lines, 1, iqn, matches) == {};
    assert Collected(lines, 2, iqn, matches) == {};
  }
}
