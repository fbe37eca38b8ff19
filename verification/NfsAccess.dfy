// Client restrictions of an NFS share: parsing the requested lists, and comparing them with
// what an existing share has.
module NfsAccess {
  import opened Results
  import opened Text

  // ---------------------------------------------------------------- Parsing

  // One entry, trimmed; normalize is the host or network check, which may rewrite it.
  function Entry(part: string, normalize: string -> Option<string>): Option<string> {
    if Trim(part) == "" then None else normalize(Trim(part))
  }

  function Entries(parts: seq<string>, normalize: string -> Option<string>): Option<seq<string>> {
    if parts == [] then Some([])
    else
      var init := Entries(parts[..|parts| - 1], normalize);
      var last := Entry(parts[|parts| - 1], normalize);
      if init.None? || last.None? then None else Some(init.value + [last.value])
  }

  // Every entry is normalized in its place, and one that is blank or not normalized refuses all.
  lemma {:induction false} EntriesAre(parts: seq<string>, normalize: string -> Option<string>)
    ensures Entries(parts, normalize).None? <==>
      exists i :: 0 <= i < |parts| && (Blank(parts[i]) || normalize(Trim(parts[i])).None?)
    ensures Entries(parts, normalize).Some? ==>
      var entries := Entries(parts, normalize).value;
      |entries| == |parts| && forall i :: 0 <= i < |parts| ==> Some(entries[i]) == normalize(Trim(parts[i]))
  {
    if parts != [] {
      var n := |parts| - 1;
      EntriesAre(parts[..n], normalize);
      var left, right := TrimIs(parts[n]);
      assert forall i :: 0 <= i < n ==> parts[..n][i] == parts[i];
      if Entries(parts[..n], normalize).None? {
        var i :| 0 <= i < n && (Blank(parts[..n][i]) || normalize(Trim(parts[..n][i])).None?);
        assert parts[i] == parts[..n][i];
      }
    }
  }

  // xs without every element that occurs earlier.
  function Distinct(xs: seq<string>): (r: seq<string>)
    ensures forall x :: x in r <==> x in xs
  {
    if xs == [] then []
    else
      var r := Distinct(xs[..|xs| - 1]);
      assert xs == xs[..|xs| - 1] + [xs[|xs| - 1]];
      if xs[|xs| - 1] in r then r else r + [xs[|xs| - 1]]
  }

  lemma EntriesNext(parts: seq<string>, n: nat, normalize: string -> Option<string>)
    requires n < |parts| && Entries(parts[..n], normalize).Some?
    ensures Entries(parts[..n + 1], normalize) ==
      if Entry(parts[n], normalize).None? then None
      else Some(Entries(parts[..n], normalize).value + [Entry(parts[n], normalize).value])
  {
    assert parts[..n + 1][..n] == parts[..n];
  }

  lemma DistinctNext(xs: seq<string>, x: string)
    ensures Distinct(xs + [x]) == if x in Distinct(xs) then Distinct(xs) else Distinct(xs) + [x]
  {
    assert (xs + [x])[..|xs|] == xs;
  }

  method ParseEntry(part: string, normalize: string -> Option<string>) returns (entry: Option<string>)
    ensures entry == Entry(part, normalize)
  {
    var value := Trim(part);
    if value == "" { return None; }
    entry := normalize(value);
  }

  // parseNFSAccessList: nothing for an empty parameter, an error for any bad entry.
  method ParseAccessList(raw: string, normalize: string -> Option<string>) returns (r: Result<seq<string>>)
    ensures var entries := if raw == "" then Some([]) else Entries(Split(raw, ','), normalize);
      r == if entries.None? then Err(InvalidArgument) else Ok(Distinct(entries.value))
  {
    if raw == "" { return Ok([]); }
    var parts := Split(raw, ',');
    var values, seen := [], {};
    ghost var entries := [];
    for i := 0 to |parts|
      invariant Entries(parts[..i], normalize) == Some(entries)
      invariant values == Distinct(entries) && forall v :: v in seen <==> v in values
    {
      EntriesNext(parts, i, normalize);
      var entry := ParseEntry(parts[i], normalize);
      if entry.None? {
        BadEntry(parts, i + 1, normalize);
        return Err(InvalidArgument);
      }
      DistinctNext(entries, entry.value);
      entries := entries + [entry.value];
      if entry.value !in seen {
        values := values + [entry.value];
        seen := seen + {entry.value};
      }
    }
    assert parts[..|parts|] == parts;
    r := Ok(values);
  }

  lemma {:induction false} BadEntry(parts: seq<string>, n: nat, normalize: string -> Option<string>)
    requires n <= |parts| && Entries(parts[..n], normalize).None?
    ensures Entries(parts, normalize).None?
    decreases |parts| - n
  {
    if n < |parts| {
      assert parts[..n + 1][..n] == parts[..n];
      BadEntry(parts, n + 1, normalize);
    } else {
      assert parts[..n] == parts;
    }
  }

  // Position of the first x.
  function First(xs: seq<string>, x: string): (i: nat)
    requires x in xs
    ensures i < |xs| && xs[i] == x && forall j :: 0 <= j < i ==> xs[j] != x
  {
    if xs[0] == x then 0 else 1 + First(xs[1..], x)
  }

  lemma FirstInPrefix(xs: seq<string>, n: nat, x: string)
    requires n <= |xs| && x in xs[..n]
    ensures x in xs && First(xs, x) == First(xs[..n], x)
  {
    var i := First(xs[..n], x);
    assert xs[i] == x && forall j :: 0 <= j < i ==> xs[..n][j] == xs[j];
  }

  // The parsed list has no duplicates and keeps the order of first occurrence.
  lemma {:induction false} DistinctKeepsOrder(xs: seq<string>, i: nat, j: nat)
    requires i < j < |Distinct(xs)|
    ensures Distinct(xs)[i] != Distinct(xs)[j]
    ensures Distinct(xs)[i] in xs && Distinct(xs)[j] in xs
    ensures First(xs, Distinct(xs)[i]) < First(xs, Distinct(xs)[j])
  {
    var n := |xs| - 1;
    var r := Distinct(xs[..n]);
    assert Distinct(xs)[i] in Distinct(xs) && Distinct(xs)[j] in Distinct(xs);
    assert r[i] in r;
    FirstInPrefix(xs, n, r[i]);
    if j < |r| {
      DistinctKeepsOrder(xs[..n], i, j);
      FirstInPrefix(xs, n, r[j]);
    } else {
      assert xs[n] !in xs[..n];
      assert forall k :: 0 <= k < n ==> xs[..n][k] == xs[k];
    }
  }

  // ---------------------------------------------------------------- Sorting

  // Go's order on strings.
  predicate Leq(s: string, t: string) {
    s == "" || (t != "" && (s[0] < t[0] || (s[0] == t[0] && Leq(s[1..], t[1..]))))
  }

  lemma {:induction false} LeqTotal(s: string, t: string)
    ensures Leq(s, t) || Leq(t, s)
  {
    if s != "" && t != "" { LeqTotal(s[1..], t[1..]); }
  }

  lemma {:induction false} LeqAntisymmetric(s: string, t: string)
    requires Leq(s, t) && Leq(t, s)
    ensures s == t
  {
    if s != "" {
      LeqAntisymmetric(s[1..], t[1..]);
      assert s == [s[0]] + s[1..] && t == [t[0]] + t[1..];
    }
  }

  lemma {:induction false} LeqTransitive(s: string, t: string, u: string)
    requires Leq(s, t) && Leq(t, u)
    ensures Leq(s, u)
  {
    if s != "" && s[0] == t[0] && t[0] == u[0] { LeqTransitive(s[1..], t[1..], u[1..]); }
  }

  predicate Ordered(xs: seq<string>) {
    forall i, j :: 0 <= i < j < |xs| ==> Leq(xs[i], xs[j])
  }

  function Insert(x: string, xs: seq<string>): (r: seq<string>)
    ensures multiset(r) == multiset([x]) + multiset(xs)
  {
    if xs == [] then [x]
    else
      assert xs == [xs[0]] + xs[1..];
      if Leq(x, xs[0]) then [x] + xs else [xs[0]] + Insert(x, xs[1..])
  }

  // What slices.Sort makes of its argument.
  function Sort(xs: seq<string>): (r: seq<string>)
    ensures multiset(r) == multiset(xs)
  {
    if xs == [] then []
    else
      assert xs == [xs[0]] + xs[1..];
      Insert(xs[0], Sort(xs[1..]))
  }

  lemma {:induction false} InsertOrdered(x: string, xs: seq<string>)
    requires Ordered(xs)
    ensures Ordered(Insert(x, xs))
  {
    if xs != [] {
      if Leq(x, xs[0]) {
        forall j | 0 <= j < |xs| ensures Leq(x, xs[j]) { if j > 0 { LeqTransitive(x, xs[0], xs[j]); } }
      } else {
        LeqTotal(x, xs[0]);
        InsertOrdered(x, xs[1..]);
        var r := Insert(x, xs[1..]);
        forall j | 0 <= j < |r| ensures Leq(xs[0], r[j]) {
          assert r[j] in multiset(r) && r[j] in multiset([x]) + multiset(xs[1..]);
          assert r[j] == x || r[j] in xs[1..];
        }
      }
    }
  }

  lemma {:induction false} SortOrdered(xs: seq<string>)
    ensures Ordered(Sort(xs))
  {
    if xs != [] {
      SortOrdered(xs[1..]);
      InsertOrdered(xs[0], Sort(xs[1..]));
    }
  }

  lemma LeastIsFirst(xs: seq<string>, y: string)
    requires Ordered(xs) && y in xs
    ensures Leq(xs[0], y)
  {
    LeqTotal(y, y);
  }

  lemma SameHead(xs: seq<string>, ys: seq<string>)
    requires xs != [] && ys != [] && Ordered(xs) && Ordered(ys) && multiset(xs) == multiset(ys)
    ensures xs[0] == ys[0]
  {
    assert xs[0] in multiset(ys) && ys[0] in multiset(xs);
    LeastIsFirst(xs, ys[0]);
    LeastIsFirst(ys, xs[0]);
    LeqAntisymmetric(xs[0], ys[0]);
  }

  // Two ordered lists with the same elements are the same list.
  lemma {:induction false} OrderedIsUnique(xs: seq<string>, ys: seq<string>)
    requires Ordered(xs) && Ordered(ys) && multiset(xs) == multiset(ys)
    ensures xs == ys
  {
    assert |multiset(xs)| == |xs| && |multiset(ys)| == |ys|;
    if xs != [] {
      SameHead(xs, ys);
      assert xs == [xs[0]] + xs[1..] && ys == [ys[0]] + ys[1..];
      assert multiset(xs[1..]) == multiset(xs) - multiset{xs[0]};
      assert multiset(ys[1..]) == multiset(ys) - multiset{xs[0]};
      OrderedIsUnique(xs[1..], ys[1..]);
    }
  }

  // ---------------------------------------------------------------- Comparing

  // sameNFSAccessEntries, on sorted copies.
  predicate SameEntries(expected: seq<string>, actual: seq<string>) {
    Sort(expected) == Sort(actual)
  }

  // The lists are the same exactly if one is a permutation of the other.
  lemma SameIffPermutation(expected: seq<string>, actual: seq<string>)
    ensures SameEntries(expected, actual) <==> multiset(expected) == multiset(actual)
  {
    SortOrdered(expected);
    SortOrdered(actual);
    if multiset(expected) == multiset(actual) { OrderedIsUnique(Sort(expected), Sort(actual)); }
    assert multiset(Sort(expected)) == multiset(expected) && multiset(Sort(actual)) == multiset(actual);
  }

  datatype Access = Access(hosts: seq<string>, networks: seq<string>)

  // checkExistingNFSShareAccess.
  function CheckExisting(access: Access, share: Access): Result<()> {
    if access.hosts == [] && access.networks == [] then Ok(())
    else if !SameEntries(access.hosts, share.hosts)
         || !SameEntries(access.networks, share.networks) then Err(FailedPrecondition)
    else Ok(())
  }

  // An explicit restriction is accepted on an existing share exactly if both of its lists
  // are permutations of the requested ones; without one any share is accepted.
  lemma RestrictionIsHonoured(access: Access, share: Access)
    ensures CheckExisting(access, share).Ok? <==>
      (access.hosts == [] && access.networks == [])
      || (multiset(access.hosts) == multiset(share.hosts) && multiset(access.networks) == multiset(share.networks))
  {
    SameIffPermutation(access.hosts, share.hosts);
    SameIffPermutation(access.networks, share.networks);
  }
}
