// The compact snapshot ID: {protocol}:{volume}@{name}, with the prefix "detached:" for a
// detached snapshot.
module SnapshotId {
  import opened Results
  import opened Text

  datatype Meta = Meta(snapshotName: string, sourceVolume: string, datasetName: string, protocol: string,
                       createdAt: int, detached: bool)

  const PREFIX := "detached:"

  predicate Supported(protocol: string) {
    protocol in {"nfs", "nvmeof", "iscsi", "smb"}
  }

  // ---------------------------------------------------------------- Searching

  lemma CutAt(s: string, i: nat)
    requires i < |s|
    ensures s == s[..i] + [s[i]] + s[i + 1..]
  {
  }

  // In x + c + y the first c is the middle one if x has none, the last if y has none.
  lemma Separated(x: string, c: char, y: string)
    ensures c !in x ==> Index(x + [c] + y, c) == |x|
    ensures c !in y ==> LastIndex(x + [c] + y, c) == |x|
    ensures (x + [c] + y)[..|x|] == x && (x + [c] + y)[|x| + 1..] == y
  {
    var s := x + [c] + y;
    assert s[|x|] == c;
    assert forall j :: 0 <= j < |x| ==> s[j] == x[j];
    assert forall j :: |x| < j < |s| ==> s[j] == y[j - |x| - 1];
  }

  // ---------------------------------------------------------------- Encoding

  // The name after the last '@', all of it if there is none.
  function Short(name: string): string {
    var i := LastIndex(name, '@');
    if i == -1 then name else name[i + 1..]
  }

  function Compact(protocol: string, volume: string, name: string): string {
    protocol + [':'] + (volume + ['@'] + name)
  }

  function Encode(m: Meta): Result<string> {
    if m.protocol == "" || m.sourceVolume == "" || Short(m.snapshotName) == "" then Err(InvalidArgument)
    else
      var id := Compact(m.protocol, m.sourceVolume, Short(m.snapshotName));
      Ok(if m.detached then PREFIX + id else id)
  }

  function DecodeCompact(id: string): Result<Meta> {
    var colon := Index(id, ':');
    if colon == -1 then Err(InvalidArgument)
    else
      var protocol, rest := id[..colon], id[colon + 1..];
      if !Supported(protocol) then Err(InvalidArgument)
      else
        var at := LastIndex(rest, '@');
        if at == -1 || rest[..at] == "" || rest[at + 1..] == "" then Err(InvalidArgument)
        else Ok(Meta(rest[at + 1..], rest[..at], "", protocol, 0, false))
  }

  function Decode(id: string): Result<Meta> {
    if PREFIX <= id then
      var r := DecodeCompact(id[|PREFIX|..]);
      if r.Ok? then Ok(r.value.(detached := true)) else r
    else DecodeCompact(id)
  }

  // What an ID keeps of a snapshot's metadata.
  function Canonical(m: Meta): Meta {
    m.(snapshotName := Short(m.snapshotName), datasetName := "", createdAt := 0)
  }

  // ---------------------------------------------------------------- Round trips

  lemma SupportedIsPlain(protocol: string)
    requires Supported(protocol)
    ensures ':' !in protocol && protocol != "" && protocol != "detached"
  {
  }

  lemma ShortIsPlain(name: string)
    ensures '@' !in Short(name) && Short(Short(name)) == Short(name)
  {
  }

  lemma PrefixIsFirstWord(id: string)
    requires PREFIX <= id
    ensures Index(id, ':') == 8 && id[..8] == "detached"
  {
    assert id == "detached" + [':'] + id[9..];
    Separated("detached", ':', id[9..]);
  }

  // A volume may hold ':', '@' and '/'; only the last '@' separates.
  lemma CompactRoundTrip(protocol: string, volume: string, name: string)
    requires Supported(protocol) && volume != "" && name != "" && '@' !in name
    ensures DecodeCompact(Compact(protocol, volume, name)) == Ok(Meta(name, volume, "", protocol, 0, false))
    ensures !(PREFIX <= Compact(protocol, volume, name))
  {
    var id := Compact(protocol, volume, name);
    var rest := volume + ['@'] + name;
    SupportedIsPlain(protocol);
    Separated(protocol, ':', rest);
    Separated(volume, '@', name);
    if PREFIX <= id { PrefixIsFirstWord(id); }
  }

  // The format, in plain words.
  lemma FormatInWords(protocol: string, volume: string, dataset: string, name: string, detached: bool)
    requires protocol != "" && volume != "" && name != "" && '@' !in name
    ensures Encode(Meta(dataset + "@" + name, volume, dataset, protocol, 0, detached))
      == Ok((if detached then "detached:" else "") + (protocol + ":" + volume + "@" + name))
    ensures Supported(protocol) <==>
      protocol == "nfs" || protocol == "nvmeof" || protocol == "iscsi" || protocol == "smb"
  {
    Separated(dataset, '@', name);
    assert dataset + "@" + name == dataset + ['@'] + name;
    assert protocol + ":" + volume + "@" + name == Compact(protocol, volume, name);
    assert "" + Compact(protocol, volume, name) == Compact(protocol, volume, name);
  }

  // Whatever Encode accepts decodes to the same protocol, volume, short name and detached
  // flag exactly if the protocol is one of the four.
  lemma RoundTrip(m: Meta)
    requires Encode(m).Ok?
    ensures Decode(Encode(m).value) == Ok(Canonical(m)) <==> Supported(m.protocol)
  {
    var name := Short(m.snapshotName);
    ShortIsPlain(m.snapshotName);
    var id := Compact(m.protocol, m.sourceVolume, name);
    if Supported(m.protocol) {
      CompactRoundTrip(m.protocol, m.sourceVolume, name);
      assert (PREFIX + id)[|PREFIX|..] == id;
    }
  }

  lemma DecodedIsCompact(id: string)
    requires DecodeCompact(id).Ok?
    ensures var m := DecodeCompact(id).value;
      && id == Compact(m.protocol, m.sourceVolume, m.snapshotName)
      && Short(m.snapshotName) == m.snapshotName && m.protocol != "" && m.sourceVolume != "" && m.snapshotName != ""
  {
    var colon := Index(id, ':');
    var rest := id[colon + 1..];
    var at := LastIndex(rest, '@');
    CutAt(id, colon);
    CutAt(rest, at);
    SupportedIsPlain(id[..colon]);
  }

  lemma EncodesTo(m: Meta, id: string)
    requires id == Compact(m.protocol, m.sourceVolume, m.snapshotName) && Short(m.snapshotName) == m.snapshotName
    requires m.protocol != "" && m.sourceVolume != "" && m.snapshotName != ""
    ensures Encode(m) == Ok(if m.detached then PREFIX + id else id)
  {
  }

  lemma Prefixed(id: string)
    requires PREFIX <= id
    ensures id == PREFIX + id[|PREFIX|..]
  {
  }

  // Every accepted ID is the encoding of what it decodes to.
  lemma DecodedEncodesBack(id: string)
    requires Decode(id).Ok?
    ensures Encode(Decode(id).value) == Ok(id)
  {
    var m := Decode(id).value;
    if PREFIX <= id {
      Prefixed(id);
      DecodedIsCompact(id[|PREFIX|..]);
      EncodesTo(m, id[|PREFIX|..]);
    } else {
      DecodedIsCompact(id);
      EncodesTo(m, id);
    }
  }

  // Two snapshots share an ID only if they agree in everything an ID keeps: so a detached
  // and a plain snapshot never do.
  lemma EncodeInjective(m: Meta, n: Meta)
    requires Supported(m.protocol) && Supported(n.protocol)
    requires Encode(m).Ok? && Encode(m) == Encode(n)
    ensures Canonical(m) == Canonical(n) && m.detached == n.detached
  {
    RoundTrip(m);
    RoundTrip(n);
  }

  lemma DecodeInjective(id: string, id': string)
    requires Decode(id).Ok? && Decode(id) == Decode(id')
    ensures id == id'
  {
    DecodedEncodesBack(id);
    DecodedEncodesBack(id');
  }

  // Of an unsupported protocol's IDs some are read as another snapshot's.
  lemma UnsupportedMayCollide() returns (m: Meta, n: Meta)
    ensures !Supported(m.protocol) && Supported(n.protocol) && Encode(m).Ok? && Encode(m) == Encode(n)
    ensures Canonical(m) != Canonical(n)
  {
    m := Meta("s", "nfs:v", "", "detached", 0, false);
    n := Meta("s", "v", "", "nfs", 0, true);
    assert Short("s") == "s";
    assert Compact("detached", "nfs:v", "s") == PREFIX + Compact("nfs", "v", "s");
  }
}
