// NFS mount options: the user's merged with the defaults, and with shared caches kept off
// when an SELinux context is given.
module NfsOptions {

  const CONTEXT := "context"
  const SHARE := "sharecache"
  const NOSHARE := "nosharecache"
  const DEFAULTS := ["vers=4.2", "nolock"]

  // extractOptionKey: what precedes the first '='.
  function Key(option: string): (k: string)
    ensures '=' !in k && k <= option
    ensures |k| < |option| ==> option[|k|] == '='
  {
    if option == "" || option[0] == '=' then "" else [option[0]] + Key(option[1..])
  }

  predicate HasKey(options: seq<string>, key: string) {
    exists i :: 0 <= i < |options| && Key(options[i]) == key
  }

  // options without those whose key is dropped.
  function Without(options: seq<string>, key: string): seq<string> {
    if options == [] then []
    else Without(options[..|options| - 1], key) +
         if Key(options[|options| - 1]) == key then [] else [options[|options| - 1]]
  }

  // The defaults for which the user has no option of the same key.
  function Missing(defaults: seq<string>, user: seq<string>): seq<string> {
    if defaults == [] then []
    else Missing(defaults[..|defaults| - 1], user) +
         if HasKey(user, Key(defaults[|defaults| - 1])) then [] else [defaults[|defaults| - 1]]
  }

  function Kept(user: seq<string>): seq<string> {
    if HasKey(user, CONTEXT) then Without(user, SHARE) else user
  }

  function Extra(user: seq<string>): seq<string> {
    if HasKey(user, CONTEXT) && !HasKey(user, NOSHARE) then [NOSHARE] else []
  }

  function Merged(user: seq<string>): seq<string> {
    if user == [] then DEFAULTS
    else Kept(user) + Missing(DEFAULTS, user) + Extra(user)
  }

  // getNFSMountOptions, one loop after another.
  method MountOptions(user: seq<string>) returns (result: seq<string>)
    ensures result == Merged(user)
  {
    if |user| == 0 { return DEFAULTS; }
    var keys := CollectKeys(user);
    var selinux := CONTEXT in keys;
    result := KeepOptions(user, selinux);
    result := AddMissing(result, DEFAULTS, user, keys);
    if selinux && NOSHARE !in keys { result := result + [NOSHARE]; }
  }

  method CollectKeys(user: seq<string>) returns (keys: set<string>)
    ensures forall k :: k in keys <==> HasKey(user, k)
  {
    keys := {};
    for i := 0 to |user|
      invariant forall k :: k in keys <==> exists j :: 0 <= j < i && Key(user[j]) == k
    {
      keys := keys + {Key(user[i])};
    }
  }

  lemma WithoutNext(user: seq<string>, i: nat)
    requires i < |user|
    ensures user[..i + 1] == user[..i] + [user[i]]
    ensures Without(user[..i + 1], SHARE) ==
            Without(user[..i], SHARE) + if Key(user[i]) == SHARE then [] else [user[i]]
  {
    assert user[..i + 1][..i] == user[..i];
  }

  method KeepOptions(user: seq<string>, selinux: bool) returns (result: seq<string>)
    ensures result == if selinux then Without(user, SHARE) else user
  {
    result := [];
    for i := 0 to |user|
      invariant result == if selinux then Without(user[..i], SHARE) else user[..i]
    {
      WithoutNext(user, i);
      if selinux && Key(user[i]) == SHARE { continue; }
      result := result + [user[i]];
    }
    assert user[..|user|] == user;
  }

  method AddMissing(kept: seq<string>, defaults: seq<string>, ghost user: seq<string>, keys: set<string>)
    returns (result: seq<string>)
    requires forall k :: k in keys <==> HasKey(user, k)
    ensures result == kept + Missing(defaults, user)
  {
    result := kept;
    for i := 0 to |defaults|
      invariant result == kept + Missing(defaults[..i], user)
    {
      assert defaults[..i + 1][..i] == defaults[..i];
      if Key(defaults[i]) !in keys { result := result + [defaults[i]]; }
    }
    assert defaults[..|defaults|] == defaults;
  }

  // ---------------------------------------------------------------- Properties

  lemma HasKeyJoin(a: seq<string>, b: seq<string>, key: string)
    ensures HasKey(a + b, key) <==> HasKey(a, key) || HasKey(b, key)
  {
    if i :| 0 <= i < |a| && Key(a[i]) == key { assert (a + b)[i] == a[i]; }
    if i :| 0 <= i < |b| && Key(b[i]) == key { assert (a + b)[|a| + i] == b[i]; }
    if i :| 0 <= i < |a + b| && Key((a + b)[i]) == key {
      assert if i < |a| then (a + b)[i] == a[i] else (a + b)[i] == b[i - |a|];
    }
  }

  lemma HasKeyOne(option: string, key: string)
    ensures HasKey([option], key) <==> Key(option) == key
  {
    assert [option][0] == option;
  }

  lemma {:induction false} WithoutKeys(options: seq<string>, dropped: string, key: string)
    ensures HasKey(Without(options, dropped), key) <==> key != dropped && HasKey(options, key)
  {
    if options != [] {
      var last := options[|options| - 1];
      var init := options[..|options| - 1];
      WithoutKeys(init, dropped, key);
      assert options == init + [last];
      HasKeyJoin(init, [last], key);
      HasKeyOne(last, key);
      HasKeyJoin(Without(init, dropped), if Key(last) == dropped then [] else [last], key);
    }
  }

  lemma {:induction false} WithoutNothing(options: seq<string>, dropped: string)
    requires !HasKey(options, dropped)
    ensures Without(options, dropped) == options
  {
    if options != [] {
      var last := options[|options| - 1];
      var init := options[..|options| - 1];
      assert options == init + [last];
      HasKeyJoin(init, [last], dropped);
      HasKeyOne(last, dropped);
      WithoutNothing(init, dropped);
    }
  }

  lemma {:induction false} PlainKey(option: string)
    requires '=' !in option
    ensures Key(option) == option
  {
    if option != "" {
      assert option[0] in option;
      PlainKey(option[1..]);
    }
  }

  lemma {:induction false} MissingKeys(defaults: seq<string>, user: seq<string>, key: string)
    ensures HasKey(Missing(defaults, user), key) <==> HasKey(defaults, key) && !HasKey(user, key)
  {
    if defaults != [] {
      var last := defaults[|defaults| - 1];
      var init := defaults[..|defaults| - 1];
      MissingKeys(init, user, key);
      assert defaults == init + [last];
      HasKeyJoin(init, [last], key);
      HasKeyOne(last, key);
      HasKeyJoin(Missing(init, user), if HasKey(user, Key(last)) then [] else [last], key);
    }
  }

  lemma {:induction false} MissingMember(defaults: seq<string>, user: seq<string>, d: string)
    ensures d in Missing(defaults, user) <==> d in defaults && !HasKey(user, Key(d))
  {
    if defaults != [] {
      assert defaults == defaults[..|defaults| - 1] + [defaults[|defaults| - 1]];
      MissingMember(defaults[..|defaults| - 1], user, d);
    }
  }

  lemma {:induction false} MissingNothing(defaults: seq<string>, user: seq<string>)
    requires forall d :: d in defaults ==> HasKey(user, Key(d))
    ensures Missing(defaults, user) == []
  {
    if defaults != [] {
      assert defaults[|defaults| - 1] in defaults;
      MissingNothing(defaults[..|defaults| - 1], user);
    }
  }

  // Options that begin differently have different keys.
  lemma OtherKey(option: string, key: string)
    requires option != "" && key != "" && option[0] != key[0]
    ensures Key(option) != key
  {
    assert Key(option) <= option;
  }

  lemma DefaultsLack(key: string)
    requires key != "" && key[0] != 'v' && key[0] != 'n'
    ensures !HasKey(DEFAULTS, key)
  {
    forall option | option in DEFAULTS ensures Key(option) != key { OtherKey(option, key); }
  }

  // The defaults set neither of the cache flags.
  lemma DefaultsShareNothing()
    ensures !HasKey(DEFAULTS, SHARE) && NOSHARE !in DEFAULTS
  {
    DefaultsLack(SHARE);
    assert |"vers=4.2"| != |NOSHARE| && |"nolock"| != |NOSHARE|;
  }

  // Which keys the result has: the user's, except sharecache beside a context; every
  // default's; and nosharecache if there is a context.
  lemma ResultKeys(user: seq<string>, key: string)
    ensures HasKey(Merged(user), key) <==>
      || (HasKey(user, key) && !(HasKey(user, CONTEXT) && key == SHARE))
      || HasKey(DEFAULTS, key)
      || (HasKey(user, CONTEXT) && key == NOSHARE)
  {
    if user != [] {
      KeptKeys(user, key);
      MissingKeys(DEFAULTS, user, key);
      ExtraKeys(user, key);
      HasKeyJoin(Kept(user), Missing(DEFAULTS, user), key);
      HasKeyJoin(Kept(user) + Missing(DEFAULTS, user), Extra(user), key);
      assert Merged(user) == Kept(user) + Missing(DEFAULTS, user) + Extra(user);
    }
  }

  lemma KeptKeys(user: seq<string>, key: string)
    ensures HasKey(Kept(user), key) <==> HasKey(user, key) && !(HasKey(user, CONTEXT) && key == SHARE)
  {
    WithoutKeys(user, SHARE, key);
  }

  lemma ExtraKeys(user: seq<string>, key: string)
    ensures HasKey(Extra(user), key) <==> HasKey(user, CONTEXT) && !HasKey(user, NOSHARE) && key == NOSHARE
  {
    PlainKey(NOSHARE);
    HasKeyOne(NOSHARE, key);
  }

  // With an SELinux context the cache is never shared.
  lemma ContextIsNeverShared(user: seq<string>)
    requires HasKey(user, "context")
    ensures HasKey(Merged(user), "nosharecache") && !HasKey(Merged(user), "sharecache")
  {
    DefaultsShareNothing();
    ResultKeys(user, NOSHARE);
    ResultKeys(user, SHARE);
  }

  lemma NoDefaultIsExtra(user: seq<string>, d: string)
    requires d in DEFAULTS
    ensures d !in Extra(user)
  {
    DefaultsShareNothing();
  }

  lemma JoinedHere(xs: seq<string>, ys: seq<string>)
    ensures xs <= xs + ys && (xs + ys)[|xs|..] == ys
  {
  }

  // The user's options come first and in order; a default follows exactly if the user has
  // no option of its key.
  lemma UserOptionsWin(user: seq<string>, d: string)
    requires user != [] && d in ["vers=4.2", "nolock"]
    ensures Kept(user) <= Merged(user)
    ensures !HasKey(user, CONTEXT) ==> Kept(user) == user
    ensures d in Merged(user)[|Kept(user)|..] <==> !HasKey(user, Key(d))
  {
    MissingMember(DEFAULTS, user, d);
    NoDefaultIsExtra(user, d);
    var rest := Missing(DEFAULTS, user) + Extra(user);
    assert Merged(user) == Kept(user) + rest;
    JoinedHere(Kept(user), rest);
    assert d in rest <==> d in Missing(DEFAULTS, user) || d in Extra(user);
  }

  lemma HasOwnKey(options: seq<string>, option: string)
    requires option in options
    ensures HasKey(options, Key(option))
  {
  }

  // Merging again changes nothing.
  lemma MergeIsIdempotent(user: seq<string>)
    ensures Merged(Merged(user)) == Merged(user)
  {
    var result := Merged(user);
    forall d | d in DEFAULTS ensures HasKey(result, Key(d)) {
      HasOwnKey(DEFAULTS, d);
      ResultKeys(user, Key(d));
    }
    MissingNothing(DEFAULTS, result);
    DefaultsShareNothing();
    ResultKeys(user, CONTEXT);
    ResultKeys(user, NOSHARE);
    ResultKeys(user, SHARE);
    HasOwnKey(DEFAULTS, DEFAULTS[0]);
    ResultKeys(user, Key(DEFAULTS[0]));
    assert !HasKey(DEFAULTS, CONTEXT) by { DefaultsHaveNoContext(); }
    if HasKey(result, CONTEXT) { WithoutNothing(result, SHARE); }
  }

  lemma DefaultsHaveNoContext()
    ensures !HasKey(DEFAULTS, CONTEXT)
  {
    DefaultsLack(CONTEXT);
  }
}
