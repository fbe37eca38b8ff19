// Whether a block device may be formatted: nested retry loops over probes that may answer
// anything, recorded as a trace of checks, waits, probes and formats.
module FormatDecision {
  import opened Results
  import opened Text

  // ---------------------------------------------------------------- Probes

  // How blkid ended: with an exit code, or killed before it had one.
  datatype Exit = Exited(code: nat) | Killed

  // What one probe sees: lsblk, then blkid, and whether the probe's deadline has passed.
  datatype Reading = Reading(lsblkOk: bool, lsblkOut: string, exit: Exit, blkidOut: string, expired: bool)

  datatype Outcome = Outcome(needsFormat: bool, output: string, failed: bool)

  // interpretEmptyFilesystemProbe.
  function Interpret(output: string, exit: Exit): Outcome {
    if exit == Exited(2) && Blank(output) then Outcome(true, "", false)
    else if exit != Exited(0) then Outcome(false, output, true)
    else if Blank(output) then Outcome(false, output, true)
    else Outcome(false, output, false)
  }

  // checkDeviceFilesystemWithProbe.
  function Check(r: Reading): Outcome {
    if !r.lsblkOk then Outcome(false, r.lsblkOut, true)
    else if Blank(r.lsblkOut) then
      if r.expired then Outcome(false, r.blkidOut, true) else Interpret(r.blkidOut, r.exit)
    else if r.exit == Exited(0) then Outcome(false, r.blkidOut, false)
    else Outcome(false, r.lsblkOut, false)
  }

  // The one answer that says a device is blank: no file system known to lsblk, and blkid,
  // in time, found no signature (exit 2) and printed nothing.
  predicate ConfirmsBlank(r: Reading) {
    r.lsblkOk && Blank(r.lsblkOut) && !r.expired && r.exit == Exited(2) && Blank(r.blkidOut)
  }

  // lsblk names a file system, yet blkid succeeds and prints nothing at all.
  predicate Hollow(r: Reading) {
    r.lsblkOk && !Blank(r.lsblkOut) && r.exit == Exited(0) && r.blkidOut == ""
  }

  predicate SawSignature(r: Reading) { !Check(r).failed && Check(r).output != "" }

  // What handleFinalResult takes for a blank device.
  predicate Authorizes(r: Reading) { !Check(r).failed && Check(r).output == "" }

  // An empty answer without error is the explicit no-signature answer, or a hollow one.
  lemma AuthorizesIff(r: Reading)
    ensures Authorizes(r) <==> ConfirmsBlank(r) || Hollow(r)
    ensures Check(r).needsFormat <==> ConfirmsBlank(r)
  {
    assert Blank("");
  }

  // What a probe has to read to have seen a signature, ...
  predicate NamesSignature(r: Reading) {
    && r.lsblkOk
    && if Blank(r.lsblkOut) then !r.expired && r.exit == Exited(0) && !Blank(r.blkidOut)
       else !(r.exit == Exited(0) && r.blkidOut == "")
  }

  // ... and when it says nothing: lsblk failed, or it names no file system and blkid is late,
  // fails otherwise than by finding nothing, or succeeds and prints nothing.
  predicate SaysNothing(r: Reading) {
    || !r.lsblkOk
    || (Blank(r.lsblkOut) && (r.expired || (if Blank(r.blkidOut) then r.exit != Exited(2) else r.exit != Exited(0))))
  }

  // Every probe is one of four: it saw a signature, confirmed the device blank, is hollow, or
  // says nothing.
  lemma ReadingsAre(r: Reading)
    ensures SawSignature(r) <==> NamesSignature(r)
    ensures Check(r).failed <==> SaysNothing(r)
    ensures !SaysNothing(r) ==>
      (NamesSignature(r) || ConfirmsBlank(r) || Hollow(r)) && !(NamesSignature(r) && (ConfirmsBlank(r) || Hollow(r)))
      && !(ConfirmsBlank(r) && Hollow(r))
  {
    assert Blank("");
    if !Blank(r.lsblkOut) { assert r.lsblkOut != ""; }
    if !Blank(r.blkidOut) { assert r.blkidOut != ""; }
  }

  // A file system that lsblk reports is formatted over if blkid then prints nothing.
  lemma HollowExists() returns (r: Reading)
    ensures Authorizes(r) && !ConfirmsBlank(r) && !Blank(r.lsblkOut)
  {
    r := Reading(true, "ext4", Exited(0), "", false);
    assert 'e' in r.lsblkOut;
  }

  // ---------------------------------------------------------------- Trace

  datatype FormatResult = Done | Busy | Broken

  // Waited(ms) is a wait of at most ms milliseconds within a check, BackedOff(ms) one
  // between a busy format and the check after it.
  datatype Event =
    | Checking
    | Waited(ms: nat)
    | Probed(reading: Reading)
    | Formatted(result: FormatResult)
    | BackedOff(ms: nat)

  datatype Tally = Tally(checks: nat, waited: nat, probes: nat, formats: nat, backedOff: nat)

  // t with one more event.
  function Counted(t: Tally, e: Event): Tally {
    match e
    case Checking => t.(checks := t.checks + 1)
    case Waited(ms) => t.(waited := t.waited + ms)
    case Probed(_) => t.(probes := t.probes + 1)
    case Formatted(_) => t.(formats := t.formats + 1)
    case BackedOff(ms) => t.(backedOff := t.backedOff + ms)
  }

  function Count(log: seq<Event>): Tally {
    if log == [] then Tally(0, 0, 0, 0, 0) else Counted(Count(log[..|log| - 1]), log[|log| - 1])
  }

  // The events log has beyond the first n.
  predicate Quiet(log: seq<Event>, n: nat) {
    forall i :: n <= i < |log| ==> !log[i].Formatted?
  }

  // A probe that settles nothing: it failed, or found a clone blank.
  predicate Open(e: Event, isClone: bool) {
    e.Probed? ==> Check(e.reading).failed || (isClone && Check(e.reading).needsFormat)
  }

  predicate AllOpen(log: seq<Event>, n: nat, isClone: bool) {
    forall i :: n <= i < |log| ==> Open(log[i], isClone)
  }

  predicate OpenButLast(log: seq<Event>, n: nat, isClone: bool) {
    forall i :: n <= i < |log| - 1 ==> Open(log[i], isClone)
  }

  // log1 is log0 and further events, none of them a format.
  predicate Probing(log0: seq<Event>, log1: seq<Event>) {
    log0 <= log1 && Quiet(log1, |log0|)
  }

  // t with so many more probes, and waits of so many more milliseconds.
  function More(t: Tally, probes: nat, ms: nat): Tally {
    t.(probes := t.probes + probes, waited := t.waited + ms)
  }

  // log1 is log0 and further events, none of them a format, and all but the last open.
  predicate Goes(log0: seq<Event>, log1: seq<Event>, isClone: bool) {
    Probing(log0, log1) && |log1| > |log0| && OpenButLast(log1, |log0|, isClone)
  }

  lemma Append(log0: seq<Event>, log: seq<Event>, e: Event, isClone: bool)
    requires Probing(log0, log) && !e.Formatted?
    ensures Probing(log0, log + [e])
    ensures (log + [e])[..|log|] == log
    ensures AllOpen(log, |log0|, isClone) && Open(e, isClone) ==> AllOpen(log + [e], |log0|, isClone)
  {
  }

  lemma OpenChain(a: seq<Event>, b: seq<Event>, c: seq<Event>, isClone: bool)
    requires Probing(a, b) && AllOpen(b, |a|, isClone)
    requires Goes(b, c, isClone)
    ensures Goes(a, c, isClone)
  {
  }

  // ---------------------------------------------------------------- Discipline

  // Every format since event n follows, with nothing in between, a probe that authorizes
  // it, and no clone is formatted.
  predicate Disciplined(log: seq<Event>, n: nat, isClone: bool) {
    forall i :: n <= i < |log| ==> Rightful(log, n, i, isClone)
  }

  predicate Rightful(log: seq<Event>, n: nat, i: int, isClone: bool)
    requires n <= i < |log|
  {
    log[i].Formatted? ==> !isClone && i > n && log[i - 1].Probed? && Authorizes(log[i - 1].reading)
  }

  // Nothing follows a probe that saw a signature, nor a format that did not fail as busy.
  predicate Final(log: seq<Event>, n: nat) {
    forall i :: n <= i < |log| && Settles(log[i]) ==> i == |log| - 1
  }

  predicate Settles(e: Event) {
    (e.Probed? && SawSignature(e.reading)) || e == Formatted(Done) || e == Formatted(Broken)
  }

  predicate Busies(log: seq<Event>, n: nat) {
    forall i :: n <= i < |log| ==> !Settles(log[i])
  }

  // The next event may be a format.
  predicate Ready(log: seq<Event>, n: nat, isClone: bool) {
    && n < |log| && Disciplined(log, n, isClone) && Busies(log, n)
    && !isClone && log[|log| - 1].Probed? && Authorizes(LastReading(log))
  }

  // How a run that began with event n ends: the device is reported formatted exactly when
  // the last event is a format that succeeded, and kept only when the last is a signature.
  predicate Finished(log: seq<Event>, n: nat, isClone: bool, r: Result<bool>) {
    && n < |log| && Disciplined(log, n, isClone) && Final(log, n)
    && (r == Ok(true) <==> log[|log| - 1] == Formatted(Done))
    && (r == Ok(false) <==> log[|log| - 1].Probed? && SawSignature(LastReading(log)))
  }

  // A format runs on no clone, follows at once a probe that confirmed the device blank
  // unless that probe was hollow, and follows no probe that saw a signature.
  lemma FormatIsConfirmed(log: seq<Event>, n: nat, isClone: bool, r: Result<bool>, i: nat)
    requires Finished(log, n, isClone, r) && n <= i < |log| && log[i].Formatted?
    ensures !isClone && i > n && log[i - 1].Probed?
    ensures ConfirmsBlank(log[i - 1].reading) <==> !Hollow(log[i - 1].reading)
    ensures forall j :: n <= j < i && log[j].Probed? ==> !SawSignature(log[j].reading)
  {
    assert Rightful(log, n, i, isClone);
    AuthorizesIff(log[i - 1].reading);
    forall j | n <= j < i && log[j].Probed? ensures !SawSignature(log[j].reading) {
      assert Settles(log[j]) ==> j == |log| - 1;
    }
  }

  // A probe that names a signature ends the run: the device is kept, and if it is the first
  // probe nothing was formatted.
  lemma SignatureIsKept(log: seq<Event>, n: nat, isClone: bool, r: Result<bool>, i: nat)
    requires Finished(log, n, isClone, r) && n <= i < |log| && log[i].Probed? && NamesSignature(log[i].reading)
    ensures i == |log| - 1 && r == Ok(false)
    ensures (forall j :: n <= j < i ==> !log[j].Probed?) ==> Quiet(log, n)
  {
    ReadingsAre(log[i].reading);
    assert Settles(log[i]);
    forall j | n <= j < i && log[j].Formatted? ensures exists k :: n <= k < i && log[k].Probed? {
      assert Rightful(log, n, j, isClone) && log[j - 1].Probed?;
    }
  }

  // What comes before the first probe of a run that began after log0.
  function Opening(log0: seq<Event>, nvme: bool): seq<Event> {
    log0 + if nvme then [Checking, Waited(3000)] else [Checking]
  }

  // The run has begun a check, has waited for an NVMe device, and goes on to its first probe
  // unless that wait was its end.
  predicate Opens(log0: seq<Event>, log: seq<Event>, nvme: bool) {
    var start := Opening(log0, nvme);
    start <= log && if |log| > |start| then log[|start|].Probed? else nvme
  }

  // A device whose first probe reads a file system is kept after that one check: nothing
  // follows, so nothing is formatted.
  lemma FirstSignatureDecides(log0: seq<Event>, log: seq<Event>, isClone: bool, nvme: bool, r: Result<bool>,
          fs: string, blkid: string)
    requires Finished(log, |log0|, isClone, r) && Opens(log0, log, nvme) && |log| > |Opening(log0, nvme)|
    requires !Blank(fs) && blkid != ""
    requires log[|Opening(log0, nvme)|].reading == Reading(true, fs, Exited(0), blkid, false)
    ensures r == Ok(false)
    ensures |log| == |log0| + if nvme then 3 else 2
  {
    SignatureIsKept(log, |log0|, isClone, r, |Opening(log0, nvme)|);
  }

  // Why there is no answer: a wait was cut short, the format broke, or the last probe
  // failed or found a clone blank.
  predicate Excused(log: seq<Event>, isClone: bool) {
    log != [] &&
    match log[|log| - 1]
    case Checking => false
    case Waited(_) => true
    case BackedOff(_) => true
    case Probed(r) => Check(r).failed || (isClone && Check(r).output == "")
    case Formatted(f) => f.Broken?
  }

  predicate Grew(t: Tally, t': Tally, formats: nat, checks: nat, waited: nat, backedOff: nat) {
    && t'.formats <= t.formats + formats && t'.checks <= t.checks + checks
    && t'.waited <= t.waited + waited && t'.backedOff <= t.backedOff + backedOff
  }

  // An event that is rightful in its place does not disturb those before it.
  lemma AppendKeeps(log: seq<Event>, n: nat, isClone: bool, e: Event)
    requires n < |log| && Disciplined(log, n, isClone) && Rightful(log + [e], n, |log|, isClone)
    ensures Disciplined(log + [e], n, isClone)
  {
    forall i | n <= i < |log + [e]| ensures Rightful(log + [e], n, i, isClone) {
      if i < |log| { assert Rightful(log, n, i, isClone); }
    }
  }

  lemma FormatKeeps(log: seq<Event>, n: nat, isClone: bool, f: FormatResult)
    requires Ready(log, n, isClone)
    ensures var log1 := log + [Formatted(f)];
      && Disciplined(log1, n, isClone) && Final(log1, n) && (f.Busy? ==> Busies(log1, n))
      && (f.Done? ==> Finished(log1, n, isClone, Ok(true))) && (f.Broken? ==> Finished(log1, n, isClone, Err(Internal)))
  {
    AppendKeeps(log, n, isClone, Formatted(f));
  }

  lemma WaitKeeps(log: seq<Event>, n: nat, isClone: bool, ms: nat)
    requires n < |log| && Disciplined(log, n, isClone) && Busies(log, n)
    ensures var log1 := log + [BackedOff(ms)];
      Disciplined(log1, n, isClone) && Busies(log1, n) && Finished(log1, n, isClone, Err(Cancelled))
  {
    AppendKeeps(log, n, isClone, BackedOff(ms));
  }

  lemma ReadyFinishes(log: seq<Event>, n: nat, isClone: bool)
    requires Ready(log, n, isClone)
    ensures Finished(log, n, isClone, Err(Internal))
  {
    assert !Settles(log[|log| - 1]);
  }

  // The backoffs before format attempt n; they double from 2 s.
  function Backoffs(n: nat): nat {
    if n <= 1 then 0 else Backoffs(n - 1) + 2000 * Pow2(n - 2)
  }

  // Between t and t' each format but a last one is followed by its whole backoff.
  predicate BacksOff(log: seq<Event>, t: Tally, t': Tally) {
    && log != [] && t.formats <= t'.formats
    && var waits := t'.formats - t.formats + (if log[|log| - 1].Formatted? then 0 else 1);
       t'.backedOff == t.backedOff + Backoffs(waits)
  }

  // What n checks wait, each at most c.
  function Times(n: nat, c: nat): nat {
    if n == 0 then 0 else Times(n - 1, c) + c
  }

  lemma {:induction false} BoundsGrow(m: nat, n: nat, c: nat)
    requires m <= n
    ensures Backoffs(m) <= Backoffs(n) && Times(m, c) <= Times(n, c)
  {
    if m < n { BoundsGrow(m, n - 1, c); }
  }

  lemma {:induction false} TimesIs(n: nat, c: nat)
    ensures Times(n, c) == n * c
  {
    if n > 0 {
      TimesIs(n - 1, c);
      assert n * c == (n - 1) * c + c;
    }
  }

  // The backoffs of all attempts add up to 62 s.
  lemma BoundsAre(c: nat)
    ensures Backoffs(6) == 62000 && Times(5, c) == 5 * c
  {
    TimesIs(5, c);
    assert Backoffs(2) == 2000 && Backoffs(4) == 14000;
    assert Pow2(4) == 16 && Pow2(3) == 8;
  }

  // t' is t after n busy formats, each with its backoff and a check of at most c.
  predicate Tried(t: Tally, t': Tally, n: nat, c: nat) {
    && t'.formats == t.formats + n && t'.checks <= t.checks + n && t'.waited <= t.waited + Times(n, c)
    && t'.backedOff == t.backedOff + Backoffs(n + 1)
  }

  // t2 is t1 after one more format, which was the last event or was backed off from.
  predicate Tries(log: seq<Event>, t1: Tally, t2: Tally, backoff: nat, c: nat) {
    && log != [] && t2.formats == t1.formats + 1 && t2.checks <= t1.checks + 1 && t2.waited <= t1.waited + c
    && t2.backedOff == t1.backedOff + if log[|log| - 1].Formatted? then 0 else backoff
  }

  lemma TriedOnce(log: seq<Event>, t: Tally, t1: Tally, t2: Tally, n: nat, c: nat)
    requires n < 5 && Tried(t, t1, n, c) && Tries(log, t1, t2, 2000 * Pow2(n), c)
    ensures !log[|log| - 1].Formatted? ==> Tried(t, t2, n + 1, c)
    ensures Grew(t, t2, 5, 5, 5 * c, 62000) && BacksOff(log, t, t2)
  {
    BoundsGrow(n + 2, 6, c);
    BoundsGrow(n + 1, 6, c);
    BoundsGrow(n + 1, 5, c);
    BoundsAre(c);
  }

  lemma TriedAll(log: seq<Event>, t: Tally, t1: Tally, c: nat)
    requires Tried(t, t1, 5, c) && log != [] && !log[|log| - 1].Formatted?
    ensures Grew(t, t1, 5, 5, 5 * c, 62000) && BacksOff(log, t, t1)
  {
    BoundsAre(c);
  }

  // The first check and the formats after it.
  lemma FirstAndFormats(log: seq<Event>, t: Tally, t1: Tally, t2: Tally, probes: nat, c: nat)
    requires CheckedOnce(t, t1, probes, c) && Grew(t1, t2, 5, 5, 5 * c, 62000) && BacksOff(log, t1, t2)
    ensures Grew(t, t2, 5, 6, 6 * c, 62000) && BacksOff(log, t, t2)
  {
  }

  lemma FirstAlone(log: seq<Event>, t: Tally, t1: Tally, probes: nat, c: nat)
    requires log != [] && !log[|log| - 1].Formatted?
    requires CheckedOnce(t, t1, probes, c)
    ensures Grew(t, t1, 5, 6, 6 * c, 62000) && BacksOff(log, t, t1)
  {
    assert 6 * c >= c;
  }

  // A check added to a disciplined log.
  lemma ProbingKeeps(log: seq<Event>, log1: seq<Event>, n: nat, isClone: bool)
    requires n <= |log| && Disciplined(log, n, isClone) && Busies(log, n)
    requires Goes(log, log1, isClone)
    ensures Disciplined(log1, n, isClone) && Final(log1, n)
    ensures !Settles(log1[|log1| - 1]) ==> Busies(log1, n)
  {
    forall i | n <= i < |log1| - 1 ensures !Settles(log1[i]) {
      if i < |log| { assert log1[i] == log[i]; } else { assert Open(log1[..|log1| - 1][i], isClone); }
    }
    forall i | n <= i < |log1| ensures Rightful(log1, n, i, isClone) {
      if i < |log| { assert Rightful(log, n, i, isClone) && log1[i] == log[i]; }
    }
  }

  predicate EndsWithProbe(log: seq<Event>, n: nat) {
    n < |log| && log[|log| - 1].Probed?
  }

  function LastReading(log: seq<Event>): Reading
    requires log != [] && log[|log| - 1].Probed?
  {
    log[|log| - 1].reading
  }

  // The last event is a probe that came to this.
  predicate LastSays(log: seq<Event>, output: string, failed: bool) {
    && log != [] && log[|log| - 1].Probed?
    && Check(LastReading(log)).output == output && Check(LastReading(log)).failed == failed
  }

  // ---------------------------------------------------------------- Backoff

  // The wait before check i, doubling from 200 ms up to 10 s.
  function Backoff(i: nat): nat {
    if i <= 1 then 200 else if 2 * Backoff(i - 1) > 10000 then 10000 else 2 * Backoff(i - 1)
  }

  // The waits between n checks together.
  function Waits(n: nat): nat {
    if n <= 1 then 0 else Waits(n - 1) + Backoff(n - 1)
  }

  function Pow2(n: nat): nat { if n == 0 then 1 else 2 * Pow2(n - 1) }

  lemma {:induction false} BackoffIsCappedDoubling(i: nat)
    requires i >= 1
    ensures Backoff(i) == if 200 * Pow2(i - 1) < 10000 then 200 * Pow2(i - 1) else 10000
  {
    if i > 1 { BackoffIsCappedDoubling(i - 1); }
  }

  lemma {:induction false} CappedWaits(n: nat)
    requires n >= 7
    ensures Backoff(n) == 10000 && Waits(n) == 12600 + 10000 * (n - 7)
  {
    if n == 7 {
      assert Backoff(4) == 1600 && Waits(4) == 1400;
      assert Backoff(6) == 6400 && Waits(6) == 6200;
    } else {
      CappedWaits(n - 1);
    }
  }

  lemma {:induction false} WaitsGrow(m: nat, n: nat)
    requires m <= n
    ensures Waits(m) <= Waits(n)
  {
    if m < n { WaitsGrow(m, n - 1); }
  }

  const CLONE_CHECKS := 25
  const NEW_CHECKS := 3

  function MaxChecks(isClone: bool): nat { if isClone then CLONE_CHECKS else NEW_CHECKS }

  // The longest a whole check can wait, settling of NVMe devices included.
  function CheckWaits(isClone: bool, nvme: bool): nat {
    (if nvme then 3000 else 0) + if isClone then 192600 else 600
  }

  function Started(t: Tally, nvme: bool): Tally {
    t.(checks := t.checks + 1, waited := t.waited + if nvme then 3000 else 0)
  }

  // The waits are just those between the probes made, at most max of them; if the last wait
  // was cut short, one probe is missing.
  predicate Paced(t: Tally, t': Tally, cut: bool, max: nat) {
    && t.probes <= t'.probes
    && var rounds := t'.probes - t.probes + (if cut then 1 else 0);
       rounds <= max && t' == More(t, t'.probes - t.probes, Waits(rounds))
  }

  // One more round: it was cut short, or made a probe.
  lemma RoundIsPaced(t: Tally, t1: Tally, t2: Tally, attempt: nat, cut: bool, max: nat)
    requires attempt < max && (cut ==> attempt > 0) && t1 == More(t, attempt, Waits(attempt))
    requires t2 == More(t1, if cut then 0 else 1, if attempt > 0 then Backoff(attempt) else 0)
    ensures Paced(t, t2, cut, max)
    ensures !cut ==> t2 == More(t, attempt + 1, Waits(attempt + 1))
  {
  }

  lemma AllRoundsPaced(t: Tally, t': Tally, max: nat)
    requires t' == More(t, max, Waits(max))
    ensures Paced(t, t', false, max)
  {
  }

  // One whole check, with waits of at most so many milliseconds.
  predicate CheckedOnce(t: Tally, t': Tally, probes: nat, ms: nat) {
    && t'.checks == t.checks + 1 && t'.formats == t.formats && t'.backedOff == t.backedOff
    && t'.probes <= t.probes + probes && t'.waited <= t.waited + ms
  }

  // A whole check stays within its bounds.
  lemma PacedWithin(t: Tally, t': Tally, cut: bool, max: nat, nvme: bool)
    requires Paced(Started(t, nvme), t', cut, max)
    ensures CheckedOnce(t, t', max, (if nvme then 3000 else 0) + Waits(max))
  {
    WaitsGrow(t'.probes - t.probes + (if cut then 1 else 0), max);
  }

  lemma CheckWaitsAre(isClone: bool, nvme: bool)
    ensures CheckWaits(isClone, nvme) == (if nvme then 3000 else 0) + Waits(MaxChecks(isClone))
    ensures MaxChecks(isClone) == if isClone then 25 else 3
  {
    CappedWaits(25);
    assert Waits(3) == Waits(2) + Backoff(2);
  }

  lemma CheckIsBounded(t: Tally, t': Tally, cut: bool, isClone: bool, nvme: bool)
    requires Paced(Started(t, nvme), t', cut, MaxChecks(isClone))
    ensures CheckedOnce(t, t', MaxChecks(isClone), CheckWaits(isClone, nvme))
  {
    PacedWithin(t, t', cut, MaxChecks(isClone), nvme);
    CheckWaitsAre(isClone, nvme);
  }

  // ---------------------------------------------------------------- Decision

  // shouldStopRetrying.
  predicate StopRetrying(o: Outcome, attempt: nat, max: nat, isClone: bool) {
    if o.failed then false
    else if o.needsFormat && isClone then attempt + 1 >= max
    else true
  }

  // handleFinalResult.
  function FinalResult(output: string, failed: bool, isClone: bool): Result<bool> {
    if failed || (isClone && output == "") then Err(Internal) else Ok(output == "")
  }

  // The last event is a probe that settles nothing.
  predicate EndsOpen(log: seq<Event>, isClone: bool) {
    log != [] && log[|log| - 1].Probed? && Open(log[|log| - 1], isClone)
  }

  // A check answers what its last probe comes to; an error if a wait was cut short.
  predicate Answers(log: seq<Event>, isClone: bool, r: Result<bool>) {
    && log != []
    && if log[|log| - 1].Probed?
       then r == FinalResult(Check(LastReading(log)).output, Check(LastReading(log)).failed, isClone)
       else r.Err? && log[|log| - 1].Waited?
  }

  class Node {
    var log: seq<Event>
    // What the log amounts to.
    ghost var tally: Tally

    constructor ()
      ensures log == [] && Tallied()
    {
      log, tally := [], Tally(0, 0, 0, 0, 0);
    }

    ghost predicate Tallied()
      reads this
    {
      tally == Count(log)
    }

    method Note(e: Event)
      requires Tallied()
      modifies this
      ensures Tallied() && log == old(log) + [e] && tally == Counted(old(tally), e)
    {
      log := log + [e];
      tally := Counted(tally, e);
      assert log[..|log| - 1] == old(log);
    }

    // A wait; false when the context ends first.
    method Wait(ms: nat) returns (ok: bool)
      requires Tallied()
      modifies this
      ensures Tallied()
      ensures log == old(log) + [Waited(ms)]
      ensures tally == old(tally).(waited := old(tally).waited + ms)
    {
      Note(Waited(ms));
      ok := *;
    }

    method BackOff(ms: nat) returns (ok: bool)
      requires Tallied()
      modifies this
      ensures Tallied()
      ensures log == old(log) + [BackedOff(ms)]
      ensures tally == old(tally).(backedOff := old(tally).backedOff + ms)
    {
      Note(BackedOff(ms));
      ok := *;
    }

    method Probe() returns (o: Outcome)
      requires Tallied()
      modifies this
      ensures Tallied()
      ensures |log| == |old(log)| + 1 && log[..|log| - 1] == old(log) && log[|log| - 1].Probed?
      ensures o == Check(LastReading(log))
      ensures tally == old(tally).(probes := old(tally).probes + 1)
    {
      var r: Reading := *;
      Note(Probed(r));
      o := Check(r);
    }

    // One round of retryFilesystemCheck: the wait before every check but the first, then
    // the check. None: the context ended during the wait.
    method Round(attempt: nat, backoff: nat, ghost log0: seq<Event>, ghost isClone: bool) returns (o: Option<Outcome>)
      requires Probing(log0, log) && AllOpen(log, |log0|, isClone)
      requires Tallied()
      modifies this
      ensures Tallied()
      ensures |log| > |log0| && Probing(log0, log) && OpenButLast(log, |log0|, isClone)
      ensures Open(log[|log| - 1], isClone) ==> AllOpen(log, |log0|, isClone)
      ensures if o.Some? then log[|log| - 1].Probed? && Check(LastReading(log)) == o.value else log[|log| - 1].Waited?
      ensures o.None? ==> attempt > 0
      ensures old(log) <= log && (attempt == 0 ==> |log| == |old(log)| + 1)
      ensures tally == More(old(tally), if o.Some? then 1 else 0, if attempt > 0 then backoff else 0)
    {
      if attempt > 0 {
        Append(log0, log, Waited(backoff), isClone);
        var ok := Wait(backoff);
        if !ok { return None; }
      }
      ghost var log1 := log;
      var checked := Probe();
      assert log == log1 + [log[|log| - 1]];
      Append(log0, log1, log[|log| - 1], isClone);
      o := Some(checked);
    }

    // retryFilesystemCheck: its answer is the last round's. It goes on while the checks
    // settle nothing, for max rounds unless the context ends.
    method RetryCheck(max: nat, isClone: bool) returns (output: string, failed: bool)
      requires max > 0
      requires Tallied()
      modifies this
      ensures Tallied()
      ensures Goes(old(log), log, isClone) && log[|old(log)|].Probed?
      ensures Paced(old(tally), tally, !log[|log| - 1].Probed?, max)
      ensures if log[|log| - 1].Probed? then LastSays(log, output, failed) else failed && log[|log| - 1].Waited?
      ensures EndsOpen(log, isClone) ==> tally.probes == old(tally).probes + max
    {
      ghost var log0 := log;
      output, failed := "", false;
      var backoff := 200;
      var attempt := 0;
      while attempt < max
        invariant Tallied() && attempt <= max && backoff == Backoff(attempt)
        invariant Probing(log0, log) && AllOpen(log, |log0|, isClone)
        invariant tally == More(old(tally), attempt, Waits(attempt))
        invariant if attempt == 0 then log == log0 else EndsWithProbe(log, |log0|) && log[|log0|].Probed?
        invariant attempt > 0 ==> LastSays(log, output, failed)
      {
        ghost var t1 := tally;
        var o := Round(attempt, backoff, log0, isClone);
        RoundIsPaced(old(tally), t1, tally, attempt, o.None?, max);
        if o.None? { return output, true; }
        if attempt > 0 { backoff := if 2 * backoff > 10000 then 10000 else 2 * backoff; }
        output, failed := o.value.output, o.value.failed;
        if StopRetrying(o.value, attempt, max, isClone) { return; }
        attempt := attempt + 1;
      }
      AllRoundsPaced(old(tally), tally, max);
    }

    // A check begins; an NVMe device is first given time to settle.
    method Begin(isClone: bool, nvme: bool) returns (ok: bool)
      requires Tallied()
      modifies this
      ensures Tallied()
      ensures Probing(old(log), log) && |log| > |old(log)| && AllOpen(log, |old(log)|, isClone)
      ensures log == Opening(old(log), nvme)
      ensures !ok ==> nvme
      ensures tally == Started(old(tally), nvme)
    {
      ghost var log0 := log;
      Append(log0, log0, Checking, isClone);
      Note(Checking);
      ok := true;
      if nvme {
        Append(log0, log, Waited(3000), isClone);
        ok := Wait(3000);
      }
    }

    // A whole check of at most max rounds.
    method CheckUpTo(max: nat, isClone: bool, nvme: bool) returns (r: Result<bool>)
      requires max > 0 && Tallied()
      modifies this
      ensures Tallied()
      ensures Goes(old(log), log, isClone)
      ensures Opens(old(log), log, nvme)
      ensures Answers(log, isClone, r)
      ensures EndsOpen(log, isClone) ==> tally.probes == old(tally).probes + max
      ensures Paced(Started(old(tally), nvme), tally, !log[|log| - 1].Probed?, max)
    {
      ghost var log0 := log;
      var ok := Begin(isClone, nvme);
      ghost var log1 := log;
      if !ok { return Err(Cancelled); }
      var output, failed := RetryCheck(max, isClone);
      OpenChain(log0, log1, log, isClone);
      r := FinalResult(output, failed, isClone);
    }

    // needsFormatWithRetries. nvme: the device path contains "/dev/nvme".
    method NeedsFormat(isClone: bool, nvme: bool) returns (r: Result<bool>)
      requires Tallied()
      modifies this
      ensures Tallied()
      ensures Goes(old(log), log, isClone)
      ensures Opens(old(log), log, nvme)
      ensures Answers(log, isClone, r)
      ensures EndsOpen(log, isClone) ==> tally.probes == old(tally).probes + MaxChecks(isClone)
      ensures Paced(Started(old(tally), nvme), tally, !log[|log| - 1].Probed?, MaxChecks(isClone))
      ensures CheckedOnce(old(tally), tally, MaxChecks(isClone), CheckWaits(isClone, nvme))
    {
      r := CheckUpTo(MaxChecks(isClone), isClone, nvme);
      CheckIsBounded(old(tally), tally, !log[|log| - 1].Probed?, isClone, nvme);
    }

    // After a format that found the device busy: wait, and check again. None: try again.
    method CheckAgain(isClone: bool, nvme: bool, backoff: nat, ghost n: nat) returns (r: Option<Result<bool>>)
      requires n < |log| && Disciplined(log, n, isClone) && Busies(log, n) && !isClone
      requires Tallied()
      modifies this
      ensures Tallied()
      ensures old(log) <= log
      ensures if r.None? then Ready(log, n, isClone) else Finished(log, n, isClone, r.value)
      ensures r.Some? && r.value.Err? ==> Excused(log, isClone)
      ensures Grew(old(tally), tally, 0, 1, CheckWaits(isClone, nvme), backoff)
      ensures tally.formats == old(tally).formats
      ensures tally.backedOff == old(tally).backedOff + backoff && !log[|log| - 1].Formatted?
    {
      WaitKeeps(log, n, isClone, backoff);
      var ok := BackOff(backoff);
      if !ok { return Some(Err(Cancelled)); }
      ghost var log1 := log;
      var again := NeedsFormat(isClone, nvme);
      ProbingKeeps(log1, log, n, isClone);
      r := if again.Err? then Some(Err(Internal)) else if !again.value then Some(Ok(false)) else None;
    }

    // One format and, when the device was busy, the wait and the check after it.
    method FormatOnce(isClone: bool, nvme: bool, backoff: nat, ghost n: nat) returns (r: Option<Result<bool>>)
      requires Ready(log, n, isClone)
      requires Tallied()
      modifies this
      ensures Tallied()
      ensures old(log) <= log
      ensures if r.None? then Ready(log, n, isClone) else Finished(log, n, isClone, r.value)
      ensures r.Some? && r.value.Err? ==> Excused(log, isClone)
      ensures Tries(log, old(tally), tally, backoff, CheckWaits(isClone, nvme))
      ensures r.None? ==> !log[|log| - 1].Formatted?
    {
      var f := Format();
      FormatKeeps(old(log), n, isClone, f);
      if f.Done? { return Some(Ok(true)); }
      if f.Broken? { return Some(Err(Internal)); }
      r := CheckAgain(isClone, nvme, backoff, n);
    }

    // At most five formats, each but the first after a busy failure, a wait and a new check.
    method FormatBusy(isClone: bool, nvme: bool, ghost n: nat) returns (r: Result<bool>)
      requires Ready(log, n, isClone)
      requires Tallied()
      modifies this
      ensures Tallied()
      ensures old(log) <= log && Finished(log, n, isClone, r)
      ensures r.Err? ==> Excused(log, isClone) || tally.formats == old(tally).formats + 5
      ensures Grew(old(tally), tally, 5, 5, 5 * CheckWaits(isClone, nvme), 62000)
      ensures BacksOff(log, old(tally), tally)
    {
      ghost var t := tally;
      ghost var log0 := log;
      ghost var c := CheckWaits(isClone, nvme);
      var backoff := 2000;
      for attempt := 1 to 6
        invariant Tallied() && backoff == 2000 * Pow2(attempt - 1)
        invariant log0 <= log && Ready(log, n, isClone)
        invariant Tried(t, tally, attempt - 1, c)
      {
        ghost var t1 := tally;
        var done := FormatOnce(isClone, nvme, backoff, n);
        TriedOnce(log, t, t1, tally, attempt - 1, c);
        if done.Some? { return done.value; }
        backoff := 2 * backoff;
      }
      ReadyFinishes(log, n, isClone);
      TriedAll(log, t, tally, c);
      r := Err(Internal);
    }

    // handleDeviceFormatting: Ok(true) if the device was formatted, Ok(false) if what is on
    // it was kept.
    method HandleFormatting(isClone: bool, nvme: bool) returns (r: Result<bool>)
      requires Tallied()
      modifies this
      ensures Tallied()
      ensures old(log) <= log && Finished(log, |old(log)|, isClone, r)
      ensures r.Err? ==> Excused(log, isClone) || tally.formats == old(tally).formats + 5
      ensures Opens(old(log), log, nvme)
      ensures Grew(old(tally), tally, 5, 6, 6 * CheckWaits(isClone, nvme), 62000)
      ensures BacksOff(log, old(tally), tally)
    {
      ghost var n := |log|;
      ghost var log0 := log;
      ghost var c := CheckWaits(isClone, nvme);
      var first := NeedsFormat(isClone, nvme);
      ProbingKeeps(log0, log, n, isClone);
      ghost var t1 := tally;
      FirstAlone(log, old(tally), t1, MaxChecks(isClone), c);
      if first.Err? { return Err(Internal); }
      if !first.value { return Ok(false); }
      r := FormatBusy(isClone, nvme, n);
      FirstAndFormats(log, old(tally), t1, tally, MaxChecks(isClone), c);
    }

    method Format() returns (f: FormatResult)
      requires Tallied()
      modifies this
      ensures Tallied()
      ensures log == old(log) + [Formatted(f)]
      ensures tally == old(tally).(formats := old(tally).formats + 1)
    {
      f := *;
      Note(Formatted(f));
    }
  }
}
