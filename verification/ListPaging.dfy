// Paging by tokens: ListVolumes continues after a volume ID, ListSnapshots of one volume
// at a decimal offset.
module ListPaging {
  import opened Results
  import opened Text
  import SnapshotId

  datatype Page = Page(items: seq<string>, next: string)

  function Flat(pages: seq<Page>): seq<string> {
    if pages == [] then [] else pages[0].items + Flat(pages[1..])
  }

  // ---------------------------------------------------------------- ListVolumes

  function Min(a: int, b: int): int { if a < b then a else b }

  // Where a page begins: after the first entry with the token's ID.
  function After(ids: seq<string>, token: string): (r: Option<nat>)
    ensures r.Some? ==> 0 < r.value <= |ids| && ids[r.value - 1] == token
    ensures r.Some? ==> forall j :: 0 <= j < r.value - 1 ==> ids[j] != token
    ensures r.None? ==> forall j :: 0 <= j < |ids| ==> ids[j] != token
  {
    if ids == [] then None
    else if ids[0] == token then Some(1)
    else
      var r := After(ids[1..], token);
      if r.None? then None else Some(r.value + 1)
  }

  function StartOf(ids: seq<string>, token: string): Option<nat> {
    if token == "" then Some(0) else After(ids, token)
  }

  function PageAt(ids: seq<string>, max: int, start: nat): Page
    requires start <= |ids|
  {
    if max > 0 && start + max < |ids| then Page(ids[start..start + max], ids[start + max - 1])
    else Page(ids[start..], "")
  }

  // The volumes are given by their IDs.
  method ListVolumes(ids: seq<string>, max: int, token: string) returns (r: Result<Page>)
    ensures var start := StartOf(ids, token);
      r == if start.None? then Err(Aborted) else Ok(PageAt(ids, max, start.value))
  {
    var startIdx := 0;
    if token != "" {
      var found := false;
      for i := 0 to |ids|
        invariant !found && startIdx == 0 && forall j :: 0 <= j < i ==> ids[j] != token
      {
        if ids[i] == token {
          startIdx := i + 1;
          found := true;
          assert After(ids, token) == Some(startIdx);
          break;
        }
      }
      assert !found ==> After(ids, token).None?;
      if !found { return Err(Aborted); }
    }
    var endIdx, next := |ids|, "";
    if max > 0 && startIdx + max < |ids| {
      endIdx := startIdx + max;
      if endIdx < |ids| { next := ids[endIdx - 1]; }
    }
    assert ids[startIdx..|ids|] == ids[startIdx..];
    r := Ok(Page(ids[startIdx..endIdx], next));
  }

  // A page has at most max entries, and all of them if max is not positive.
  lemma PageIsBounded(ids: seq<string>, max: int, start: nat)
    requires start <= |ids|
    ensures var page := PageAt(ids, max, start);
      && (max <= 0 ==> page == Page(ids[start..], ""))
      && (max > 0 ==> |page.items| == Min(max, |ids| - start) && page.items == ids[start..start + |page.items|])
      && (max > 0 && start + max < |ids| ==> page.next == ids[start + max - 1])
      && (max > 0 && start + max >= |ids| ==> page.next == "")
  {
  }

  // pages are what a client gets that follows the tokens until one is empty.
  ghost predicate Walk(ids: seq<string>, max: int, token: string, pages: seq<Page>)
    decreases |pages|
  {
    && pages != [] && StartOf(ids, token).Some?
    && pages[0] == PageAt(ids, max, StartOf(ids, token).value)
    && if pages[0].next == "" then |pages| == 1 else Walk(ids, max, pages[0].next, pages[1..])
  }

  // No entry before the one at a page end from p on has the same ID.
  predicate Unambiguous(ids: seq<string>, max: nat, p: nat)
    requires max > 0 && p <= |ids|
    decreases |ids| - p
  {
    p + max < |ids| ==>
      (forall j :: 0 <= j < p + max - 1 ==> ids[j] != ids[p + max - 1]) && Unambiguous(ids, max, p + max)
  }

  lemma {:induction false} DistinctIsUnambiguous(ids: seq<string>, max: nat, p: nat)
    requires max > 0 && p <= |ids|
    requires forall i, j :: 0 <= i < j < |ids| ==> ids[i] != ids[j]
    ensures Unambiguous(ids, max, p)
    decreases |ids| - p
  {
    if p + max < |ids| { DistinctIsUnambiguous(ids, max, p + max); }
  }

  // A walk that ends delivers no less than what is left where it begins.
  lemma {:induction false} WalkDelivers(ids: seq<string>, max: nat, token: string, pages: seq<Page>)
    requires max > 0 && "" !in ids && Walk(ids, max, token, pages)
    ensures |Flat(pages)| >= |ids| - StartOf(ids, token).value
    decreases |pages|
  {
    var p := StartOf(ids, token).value;
    if p + max < |ids| {
      assert pages[0].next in ids;
      WalkDelivers(ids, max, pages[0].next, pages[1..]);
    }
  }

  lemma Cancel(a: seq<string>, b: seq<string>, c: seq<string>)
    ensures a + b == a + c <==> b == c
  {
    assert (a + b)[|a|..] == b && (a + c)[|a|..] == c;
  }

  // One page in front of a walk from where its token leads.
  lemma WalkStep(ids: seq<string>, max: nat, p: nat, q: nat, rest: seq<string>)
    requires max > 0 && p + max < |ids| && After(ids, ids[p + max - 1]) == Some(q)
    requires |rest| >= |ids| - q
    requires rest == ids[q..] <==> Unambiguous(ids, max, q)
    ensures ids[p..p + max] + rest == ids[p..] <==> Unambiguous(ids, max, p)
  {
    var n := p + max;
    FirstBefore(ids, n, q);
    assert q != n ==> |rest| > |ids[n..]|;
    assert rest == ids[n..] <==> q == n && Unambiguous(ids, max, n);
    assert ids[p..n] + rest == ids[p..] <==> rest == ids[n..] by {
      assert ids[p..] == ids[p..n] + ids[n..];
      Cancel(ids[p..n], rest, ids[n..]);
    }
  }

  // A token leads to the end of its page or to before it, and there if its ID is new.
  lemma FirstBefore(ids: seq<string>, n: nat, q: nat)
    requires 0 < n < |ids| && After(ids, ids[n - 1]) == Some(q)
    ensures q <= n
    ensures q == n <==> forall j :: 0 <= j < n - 1 ==> ids[j] != ids[n - 1]
  {
  }

  lemma {:induction false} WalkFrom(ids: seq<string>, max: nat, token: string, pages: seq<Page>)
    requires max > 0 && "" !in ids && Walk(ids, max, token, pages)
    ensures Flat(pages) == ids[StartOf(ids, token).value..] <==> Unambiguous(ids, max, StartOf(ids, token).value)
    decreases |pages|
  {
    var p := StartOf(ids, token).value;
    var rest := pages[1..];
    if p + max < |ids| {
      var next := ids[p + max - 1];
      assert next in ids && pages[0] == Page(ids[p..p + max], next);
      WalkFrom(ids, max, next, rest);
      WalkDelivers(ids, max, next, rest);
      WalkStep(ids, max, p, StartOf(ids, next).value, Flat(rest));
    } else {
      assert rest == [] && Flat(rest) == [];
    }
  }

  // Following the tokens from the empty one ends with every volume once and in order
  // exactly if the ID at each page end is the first of its kind.
  lemma VolumeWalkIsComplete(ids: seq<string>, max: nat, pages: seq<Page>)
    requires max > 0 && "" !in ids && Walk(ids, max, "", pages)
    ensures Flat(pages) == ids <==> Unambiguous(ids, max, 0)
  {
    WalkFrom(ids, max, "", pages);
    assert ids[0..] == ids;
  }

  // Such a walk always ends.
  lemma {:induction false} VolumeWalkEnds(ids: seq<string>, max: nat, token: string) returns (pages: seq<Page>)
    requires max > 0 && "" !in ids && StartOf(ids, token).Some? && Unambiguous(ids, max, StartOf(ids, token).value)
    ensures Walk(ids, max, token, pages)
    decreases |ids| - StartOf(ids, token).value
  {
    var p := StartOf(ids, token).value;
    var page := PageAt(ids, max, p);
    if p + max < |ids| {
      assert page.next in ids;
      var rest := VolumeWalkEnds(ids, max, page.next);
      pages := [page] + rest;
      assert pages[1..] == rest;
    } else {
      pages := [page];
    }
  }

  // ---------------------------------------------------------------- Offsets

  function Digit(n: nat): char
    requires n < 10
  {
    '0' + n as char
  }

  // strconv.Itoa of a natural number.
  function Itoa(n: nat): string {
    if n < 10 then [Digit(n)] else Itoa(n / 10) + [Digit(n % 10)]
  }

  predicate IsDigit(c: char) { '0' <= c <= '9' }

  function DigitValue(c: char): nat
    requires IsDigit(c)
  {
    c as int - '0' as int
  }

  const MAX_INT := 9223372036854775807

  // The leading digits of s after those read so far.
  function ReadDigits(s: string, sofar: nat): nat {
    if s == "" || !IsDigit(s[0]) then sofar else ReadDigits(s[1..], 10 * sofar + DigitValue(s[0]))
  }

  // fmt.Sscanf with %d: blanks, a sign, and at least one digit; what follows is ignored.
  function Parse(s: string): Option<int> {
    if s != "" && IsSpace(s[0]) && s[0] != '\n' then Parse(s[1..])
    else
      var signed := s != "" && (s[0] == '-' || s[0] == '+');
      var digits := if signed then s[1..] else s;
      if digits == "" || !IsDigit(digits[0]) then None
      else
        var n: int := ReadDigits(digits, 0);
        var value: int := if signed && s[0] == '-' then -n else n;
        if -MAX_INT - 1 <= value <= MAX_INT then Some(value) else None
  }

  lemma {:induction false} ReadAppend(s: string, c: char, sofar: nat)
    requires IsDigit(c) && forall i :: 0 <= i < |s| ==> IsDigit(s[i])
    ensures ReadDigits(s + [c], sofar) == 10 * ReadDigits(s, sofar) + DigitValue(c)
  {
    if s == "" {
      assert ([c])[1..] == "";
    } else {
      assert (s + [c])[1..] == s[1..] + [c];
      ReadAppend(s[1..], c, 10 * sofar + DigitValue(s[0]));
    }
  }

  lemma {:induction false} ItoaReads(n: nat)
    ensures Itoa(n) != "" && (forall i :: 0 <= i < |Itoa(n)| ==> IsDigit(Itoa(n)[i]))
    ensures ReadDigits(Itoa(n), 0) == n
  {
    if n < 10 {
      assert Itoa(n)[1..] == "";
    } else {
      ItoaReads(n / 10);
      ReadAppend(Itoa(n / 10), Digit(n % 10), 0);
    }
  }

  // Every offset a token can hold is read back from it.
  lemma TokenRoundTrip(n: nat)
    requires n <= MAX_INT
    ensures Parse(Itoa(n)) == Some(n) && Itoa(n) != ""
  {
    ItoaReads(n);
    assert IsDigit(Itoa(n)[0]);
  }

  // Tokens are decimal.
  lemma ItoaIsDecimal(n: nat)
    ensures Itoa(10 * n + 7) == (if n == 0 then "" else Itoa(n)) + "7"
    ensures Itoa(0) == "0" && Itoa(120) == "120"
  {
    assert Itoa(12) == Itoa(1) + "2" && Itoa(1) == "1";
  }

  // ---------------------------------------------------------------- ListSnapshots

  datatype Source = Source(volume: string, protocol: string) {
    // The ID under which a snapshot of this volume is listed, if it can be encoded.
    function IdOf(snap: string): Result<string> {
      SnapshotId.Encode(SnapshotId.Meta(snap, volume, "", protocol, 0, false))
    }
  }

  function Listed(src: Source, snaps: seq<string>): seq<string> {
    if snaps == [] then []
    else
      var r := src.IdOf(snaps[|snaps| - 1]);
      Listed(src, snaps[..|snaps| - 1]) + if r.Ok? then [r.value] else []
  }

  lemma ListedNext(src: Source, snaps: seq<string>, n: nat)
    requires n < |snaps|
    ensures Listed(src, snaps[..n + 1]) ==
      Listed(src, snaps[..n]) + if src.IdOf(snaps[n]).Ok? then [src.IdOf(snaps[n]).value] else []
  {
    assert snaps[..n + 1][..n] == snaps[..n];
  }

  lemma {:induction false} ListedJoins(src: Source, a: seq<string>, b: seq<string>)
    ensures Listed(src, a + b) == Listed(src, a) + Listed(src, b)
  {
    if b == [] {
      assert a + b == a;
    } else {
      assert (a + b)[..|a + b| - 1] == a + b[..|b| - 1];
      ListedJoins(src, a, b[..|b| - 1]);
    }
  }

  lemma ListedSplit(src: Source, snaps: seq<string>, n: nat, end: nat)
    requires n <= end <= |snaps|
    ensures Listed(src, snaps[n..]) == Listed(src, snaps[n..end]) + Listed(src, snaps[end..])
    ensures end == |snaps| ==> Listed(src, snaps[end..]) == []
  {
    ListedJoins(src, snaps[n..end], snaps[end..]);
    assert snaps[n..] == snaps[n..end] + snaps[end..];
  }

  // listSnapshotsBySourceVolume once the snapshots are known.
  function SnapshotPage(src: Source, snaps: seq<string>, max: int, token: string): Result<Page> {
    var size := if max <= 0 then |snaps| else max;
    var start := if token == "" then Some(0) else Parse(token);
    if start.None? then Err(Aborted)
    else if token != "" && (start.value < 0 || start.value >= |snaps|) then Ok(Page([], ""))
    else
      var end := Min(start.value + size, |snaps|);
      Ok(Page(Listed(src, snaps[start.value..end]), if end < |snaps| then Itoa(end) else ""))
  }

  // The entries of one page; what cannot be encoded is skipped.
  method EncodeAll(src: Source, snaps: seq<string>) returns (items: seq<string>)
    ensures items == Listed(src, snaps)
  {
    items := [];
    for i := 0 to |snaps|
      invariant items == Listed(src, snaps[..i])
    {
      ListedNext(src, snaps, i);
      var id := src.IdOf(snaps[i]);
      if id.Err? { continue; }
      items := items + [id.value];
    }
    assert snaps[..|snaps|] == snaps;
  }

  method ListSnapshots(src: Source, snaps: seq<string>, max: int, token: string) returns (r: Result<Page>)
    ensures r == SnapshotPage(src, snaps, max, token)
  {
    var size := if max <= 0 then |snaps| else max;
    var startIndex := 0;
    if token != "" {
      var parsed := Parse(token);
      if parsed.None? { return Err(Aborted); }
      startIndex := parsed.value;
      if startIndex < 0 || startIndex >= |snaps| { return Ok(Page([], "")); }
    }
    var endIndex := startIndex + size;
    if endIndex > |snaps| { endIndex := |snaps|; }
    var items := EncodeAll(src, snaps[startIndex..endIndex]);
    r := Ok(Page(items, if endIndex < |snaps| then Itoa(endIndex) else ""));
  }

  ghost predicate SnapshotWalk(src: Source, snaps: seq<string>, max: int, token: string, pages: seq<Page>)
    decreases |pages|
  {
    && pages != [] && SnapshotPage(src, snaps, max, token) == Ok(pages[0])
    && if pages[0].next == "" then |pages| == 1 else SnapshotWalk(src, snaps, max, pages[0].next, pages[1..])
  }

  lemma PageAtOffset(src: Source, snaps: seq<string>, max: nat, token: string, n: nat)
    requires max > 0 && n <= |snaps|
    requires if token == "" then n == 0 else Parse(token) == Some(n) && n < |snaps|
    ensures var end := Min(n + max, |snaps|);
      SnapshotPage(src, snaps, max, token) ==
        Ok(Page(Listed(src, snaps[n..end]), if end < |snaps| then Itoa(end) else ""))
  {
  }

  lemma WalkPrepend(src: Source, snaps: seq<string>, max: nat, token: string, page: Page, rest: seq<Page>)
    requires SnapshotPage(src, snaps, max, token) == Ok(page)
    requires if page.next == "" then rest == [] else SnapshotWalk(src, snaps, max, page.next, rest)
    ensures SnapshotWalk(src, snaps, max, token, [page] + rest) && Flat([page] + rest) == page.items + Flat(rest)
  {
    assert ([page] + rest)[1..] == rest;
  }

  // From offset n on, the walk ends and lists what can be encoded, once and in order.
  lemma {:induction false} WalkFromOffset(src: Source, snaps: seq<string>, max: nat, token: string, n: nat)
    returns (pages: seq<Page>)
    requires max > 0 && |snaps| <= MAX_INT && n <= |snaps|
    requires if token == "" then n == 0 else Parse(token) == Some(n) && n < |snaps|
    ensures SnapshotWalk(src, snaps, max, token, pages) && Flat(pages) == Listed(src, snaps[n..])
    decreases |snaps| - n
  {
    var end: nat := Min(n + max, |snaps|);
    PageAtOffset(src, snaps, max, token, n);
    var page := Page(Listed(src, snaps[n..end]), if end < |snaps| then Itoa(end) else "");
    var rest := [];
    if end < |snaps| {
      TokenRoundTrip(end);
      rest := WalkFromOffset(src, snaps, max, Itoa(end), end);
    }
    WalkPrepend(src, snaps, max, token, page, rest);
    ListedSplit(src, snaps, n, end);
    pages := [page] + rest;
  }

  lemma {:induction false} WalkIsUnique(src: Source, snaps: seq<string>, max: int, token: string, pages: seq<Page>,
          pages': seq<Page>)
    requires SnapshotWalk(src, snaps, max, token, pages) && SnapshotWalk(src, snaps, max, token, pages')
    ensures pages == pages'
    decreases |pages|
  {
    if pages[0].next == "" {
      assert pages == [pages[0]] && pages' == [pages[0]];
    } else {
      WalkIsUnique(src, snaps, max, pages[0].next, pages[1..], pages'[1..]);
      assert pages == [pages[0]] + pages[1..] && pages' == [pages'[0]] + pages'[1..];
    }
  }

  // Without a page size there is one page, of all that can be encoded; an offset that is no
  // number is refused, and one outside the list gives nothing.
  lemma UnpagedIsAll(src: Source, snaps: seq<string>, max: int, token: string)
    ensures max <= 0 ==> SnapshotPage(src, snaps, max, "") == Ok(Page(Listed(src, snaps), ""))
    ensures token != "" && Parse(token).None? ==> SnapshotPage(src, snaps, max, token) == Err(Aborted)
    ensures token != "" && Parse(token).Some? && !(0 <= Parse(token).value < |snaps|) ==>
      SnapshotPage(src, snaps, max, token) == Ok(Page([], ""))
  {
    assert snaps[0..|snaps|] == snaps;
  }

  // What is listed of one snapshot is its encoded ID, if it has one.
  lemma ListedOne(src: Source, snap: string)
    ensures var id := SnapshotId.Encode(SnapshotId.Meta(snap, src.volume, "", src.protocol, 0, false));
      Listed(src, [snap]) == if id.Ok? then [id.value] else []
  {
    assert [snap][..0] == [] && Listed(src, []) == [];
  }

  // Following the tokens from the empty one over a fixed list yields every snapshot that
  // can be encoded exactly once and in order, for any page size.
  lemma SnapshotWalkIsComplete(src: Source, snaps: seq<string>, max: nat, pages: seq<Page>)
    requires max > 0 && |snaps| <= MAX_INT && SnapshotWalk(src, snaps, max, "", pages)
    ensures Flat(pages) == Listed(src, snaps)
  {
    var walk := WalkFromOffset(src, snaps, max, "", 0);
    WalkIsUnique(src, snaps, max, "", pages, walk);
    assert snaps[0..] == snaps;
  }
}
