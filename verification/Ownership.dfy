// What DeleteVolume reads from a volume's properties before it deletes anything, and how
// presentation objects are recognised as the volume's own.
module Ownership {
  import opened Results
  import opened Text
  import opened Zfs
  import opened Nas

  function StripSlashes(s: string): (r: string)
    ensures r != "" ==> r[|r| - 1] != '/'
  {
    if s != "" && s[|s| - 1] == '/' then StripSlashes(s[..|s| - 1]) else s
  }

  function AfterSlash(s: string): (r: string)
    ensures '/' !in r && EndsWith(s, r)
    ensures |r| < |s| ==> s[|s| - |r| - 1] == '/'
  {
    if s == "" || s[|s| - 1] == '/' then "" else AfterSlash(s[..|s| - 1]) + [s[|s| - 1]]
  }

  // path.Base.
  function Base(s: string): string {
    if s == "" then "."
    else if StripSlashes(s) == "" then "/"
    else AfterSlash(StripSlashes(s))
  }

  // The properties allow volume name to delete the dataset they are set on.
  predicate Belongs(name: string, props: Props) {
    && (props.managedBy.Some? ==> props.managedBy.value == "tns-csi")
    && (props.volume.Some? ==>
          props.volume.value == name || ('/' in name && EndsWith(name, "/" + props.volume.value)))
  }

  function FromEnd(s: string, k: int): char
    requires 0 < k <= |s|
  {
    s[|s| - k]
  }

  // t is what follows the last slash of s, or all of s if there is none.
  predicate IsBase(s: string, t: string) {
    && EndsWith(s, t)
    && (forall k :: 0 < k <= |t| ==> FromEnd(s, k) != '/')
    && (|t| < |s| ==> FromEnd(s, |t| + 1) == '/')
  }

  lemma BaseIsUnique(s: string, t: string, u: string)
    requires IsBase(s, t) && IsBase(s, u)
    ensures t == u
  {
  }

  lemma TailIsBase(s: string, t: string)
    requires EndsWith(s, t) && '/' !in t && (|t| < |s| ==> FromEnd(s, |t| + 1) == '/')
    ensures IsBase(s, t)
  {
    forall k | 0 < k <= |t| ensures FromEnd(s, k) != '/' { assert FromEnd(s, k) == t[|t| - k] && t[|t| - k] in t; }
  }

  // A dataset that names its volume is deleted for no other volume than that one.
  lemma BelongsToItsVolume(name: string, props: Props)
    requires Belongs(name, props) && props.volume.Some?
    requires props.volume.value != "" && '/' !in props.volume.value
    ensures Base(name) == props.volume.value
  {
    var v := props.volume.value;
    assert EndsWith(name, "/" + v) ==> ("/" + v)[1..] == v && ("/" + v)[0] == '/';
    assert EndsWith(name, v) && (|v| < |name| ==> FromEnd(name, |v| + 1) == '/');
    TailIsBase(name, v);
    assert FromEnd(name, 1) != '/';
    assert StripSlashes(name) == name;
    TailIsBase(name, AfterSlash(name));
    BaseIsUnique(name, v, AfterSlash(name));
  }

  // A volume ID that is a path names the volume of its last part.
  lemma PathBelongs(path: string, name: string, props: Props)
    requires props.managedBy == Some("tns-csi") && props.volume == Some(name)
    ensures Belongs(path + "/" + name, props)
  {
    assert EndsWith(path + "/" + name, "/" + name) by { assert path + "/" + name == path + ("/" + name); }
  }

  // An absent or cleared identifier reads as 0.
  function IdOf(id: Option<int>): int { if id.Some? then id.value else 0 }

  predicate Retained(props: Props) { props.strategy == "retain" }

  // How the checks before any change end a delete, if they do: the lookup of the volume and
  // the snapshot guard take the first two calls of the schedule.
  ghost function Verdict(s: Store, name: string, zvol: string, f: Schedule): Option<Result<()>> {
    if zvol !in s.pool then None
    else if !Head(f).Fine? then Some(Err(Unavailable))
    else if !Belongs(name, s.pool[zvol].props) then Some(Err(FailedPrecondition))
    else if Retained(s.pool[zvol].props) then Some(Ok(()))
    else if !Head(Tail(f)).Fine? then Some(Err(Unavailable))
    else if !NoneProtectedOn(s.pool, zvol) then Some(Err(FailedPrecondition))
    else None
  }

  // What the verdict says of a volume whose name has no slash, in plain words.
  lemma VerdictInWords(s: Store, name: string, zvol: string, f: Schedule)
    requires zvol in s.pool && '/' !in name && f != [] && f[0] == Fine
    ensures var props := s.pool[zvol].props;
      var foreign := (props.managedBy != None && props.managedBy != Some("tns-csi"))
                     || (props.volume != None && props.volume != Some(name));
      var guarded := exists t :: t in s.pool[zvol].snaps && t.csi && !t.deferred;
      Verdict(s, name, zvol, f)
        == if foreign then Some(Err(FailedPrecondition))
           else if props.strategy == "retain" then Some(Ok(()))
           else if |f| > 1 && f[1] != Fine then Some(Err(Unavailable))
           else if guarded then Some(Err(FailedPrecondition))
           else None
  {
    assert Head(Tail(f)) == if |f| == 1 then Fine else f[1];
    assert forall t :: Protected(s.pool, zvol, t) <==> t in s.pool[zvol].snaps && t.csi && !t.deferred;
  }

  function WithProps(s: Store, d: string, props: Props): Store
    requires d in s.pool
  {
    s.(pool := s.pool[d := s.pool[d].(props := props)])
  }

  // readVolumeOwnership; None: the dataset is gone.
  method ReadOwnership(nas: Client, name: string, d: string) returns (r: Result<Option<Props>>)
    modifies nas`faults
    ensures nas.faults == Tail(old(nas.faults))
    ensures r == if !Head(old(nas.faults)).Fine? then Err(Unavailable)
                 else if d !in nas.st.pool then Ok(None)
                 else if Belongs(name, nas.st.pool[d].props) then Ok(Some(nas.st.pool[d].props))
                 else Err(FailedPrecondition)
  {
    var q := nas.GetProps(d);
    if q.Err? { return if q.error == NotFound then Ok(None) else Err(Unavailable); }
    if q.value.managedBy.Some? && q.value.managedBy.value != "tns-csi" { return Err(FailedPrecondition); }
    if q.value.volume.Some? {
      var stored := q.value.volume.value;
      if stored != name && ('/' !in name || !EndsWith(name, "/" + stored)) { return Err(FailedPrecondition); }
    }
    r := Ok(Some(q.value));
  }
}
