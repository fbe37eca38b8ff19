// String operations the modules share.
module Text {

  predicate IsSpace(c: char) {
    || c == ' ' || '\t' <= c <= '\r'
    || c as int in {0x85, 0xA0, 0x1680, 0x2028, 0x2029, 0x202F, 0x205F, 0x3000}
    || 0x2000 <= c as int <= 0x200A
  }

  // strings.TrimSpace leaves nothing.
  predicate Blank(s: string) { forall c :: c in s ==> IsSpace(c) }

  predicate EndsWith(s: string, t: string) {
    |t| <= |s| && s[|s| - |t|..] == t
  }

  predicate Contains(s: string, t: string) {
    exists i {:trigger s[i..]} :: 0 <= i <= |s| && t <= s[i..]
  }

  function Trim(s: string): string {
    if s == "" then ""
    else if IsSpace(s[0]) then Trim(s[1..])
    else if IsSpace(s[|s| - 1]) then Trim(s[..|s| - 1])
    else s
  }

  // s without the prefix, if it has it.
  function TrimPrefix(s: string, prefix: string): string {
    if prefix <= s then s[|prefix|..] else s
  }

  function SplitFrom(s: string, c: char, part: string): (r: seq<string>)
    ensures r != []
  {
    if s == "" then [part]
    else if s[0] == c then [part] + SplitFrom(s[1..], c, "")
    else SplitFrom(s[1..], c, part + [s[0]])
  }

  // strings.Split at a single character.
  function Split(s: string, c: char): (r: seq<string>)
    ensures r != []
  {
    SplitFrom(s, c, "")
  }

  function WordsFrom(s: string, word: string): (r: seq<string>)
    requires forall c :: c in word ==> !IsSpace(c)
    ensures forall w, c :: w in r && c in w ==> !IsSpace(c)
    ensures "" !in r
  {
    var done := if word == "" then [] else [word];
    if s == "" then done
    else if IsSpace(s[0]) then done + WordsFrom(s[1..], "")
    else WordsFrom(s[1..], word + [s[0]])
  }

  // strings.Fields: the maximal runs without white space.
  function Fields(s: string): (r: seq<string>)
    ensures forall w, c :: w in r && c in w ==> !IsSpace(c)
    ensures "" !in r
  {
    WordsFrom(s, "")
  }

  // strings.Join at a single character.
  function Join(parts: seq<string>, c: char): string
    requires parts != []
  {
    if |parts| == 1 then parts[0] else parts[0] + [c] + Join(parts[1..], c)
  }

  lemma {:induction false} SplitFromIs(s: string, c: char, part: string)
    requires c !in part
    ensures Join(SplitFrom(s, c, part), c) == part + s
    ensures forall w :: w in SplitFrom(s, c, part) ==> c !in w
  {
    if s != "" {
      if s[0] == c {
        SplitFromIs(s[1..], c, "");
        assert part + s == part + [c] + ("" + s[1..]);
      } else {
        SplitFromIs(s[1..], c, part + [s[0]]);
        assert part + s == part + [s[0]] + s[1..];
      }
    }
  }

  // The parts are what lies between the occurrences of c, in order.
  lemma SplitIs(s: string, c: char)
    ensures Join(Split(s, c), c) == s
    ensures forall w :: w in Split(s, c) ==> c !in w
  {
    SplitFromIs(s, c, "");
  }

  // What trimming takes away is white space, and what it leaves neither begins nor ends with it.
  lemma {:induction false} TrimIs(s: string) returns (left: string, right: string)
    ensures s == left + Trim(s) + right && Blank(left) && Blank(right)
    ensures Trim(s) != "" ==> !IsSpace(Trim(s)[0]) && !IsSpace(Trim(s)[|Trim(s)| - 1])
    ensures Trim(s) == "" <==> Blank(s)
  {
    left, right := "", "";
    if s == "" {
    } else if IsSpace(s[0]) {
      var l, r := TrimIs(s[1..]);
      left, right := [s[0]] + l, r;
      assert s == [s[0]] + s[1..];
    } else if IsSpace(s[|s| - 1]) {
      var l, r := TrimIs(s[..|s| - 1]);
      left, right := l, r + [s[|s| - 1]];
      assert s == s[..|s| - 1] + [s[|s| - 1]];
    }
  }

  predicate IsWord(w: string) { w != "" && forall c :: c in w ==> !IsSpace(c) }

  lemma {:induction false} WordsAppend(s: string, t: string, word: string)
    requires forall c :: c in word ==> !IsSpace(c)
    requires t != "" && IsSpace(t[0])
    ensures WordsFrom(s + t, word) == WordsFrom(s, word) + Fields(t)
  {
    if s == "" {
      assert s + t == t;
      assert Fields(t) == WordsFrom(t[1..], "");
    } else if IsSpace(s[0]) {
      WordsAppend(s[1..], t, "");
      assert (s + t)[1..] == s[1..] + t;
    } else {
      WordsAppend(s[1..], t, word + [s[0]]);
      assert (s + t)[1..] == s[1..] + t;
    }
  }

  lemma {:induction false} WordGrows(w: string, word: string)
    requires forall c :: c in w || c in word ==> !IsSpace(c)
    ensures WordsFrom(w, word) == if word + w == "" then [] else [word + w]
  {
    if w == "" {
      assert word + w == word;
    } else {
      assert w[0] in w;
      WordGrows(w[1..], word + [w[0]]);
      assert word + w == word + [w[0]] + w[1..];
    }
  }

  // A word is its own only field, and white space divides fields.
  lemma FieldsAre(w: string, s: string, c: char)
    requires IsSpace(c)
    ensures IsWord(w) ==> Fields(w) == [w]
    ensures Fields(w + [c] + s) == Fields(w) + Fields(s)
    ensures Fields("") == [] && Fields([c] + s) == Fields(s)
  {
    if IsWord(w) {
      WordGrows(w, "");
      assert "" + w == w;
    }
    WordsAppend(w, [c] + s, "");
    assert w + [c] + s == w + ([c] + s);
    assert ([c] + s)[1..] == s;
  }

  lemma {:induction false} TrimKeepsFields(s: string)
    ensures Fields(Trim(s)) == Fields(s)
  {
    if s != "" {
      if IsSpace(s[0]) {
        TrimKeepsFields(s[1..]);
      } else if IsSpace(s[|s| - 1]) {
        TrimKeepsFields(s[..|s| - 1]);
        FieldsAre(s[..|s| - 1], "", s[|s| - 1]);
        assert s == s[..|s| - 1] + [s[|s| - 1]] + "";
      }
    }
  }

  lemma ContainsIs(s: string, t: string, before: string, after: string)
    ensures Contains(before + t + after, t) && EndsWith(before + t, t)
    ensures Contains(s, t) ==> exists p, q :: s == p + t + q
    ensures EndsWith(s, t) ==> exists p :: s == p + t
  {
    var all := before + t + after;
    assert all[|before|..] == t + after && t <= all[|before|..];
    if Contains(s, t) {
      var i :| 0 <= i <= |s| && t <= s[i..];
      assert s == s[..i] + t + s[i + |t|..];
    }
    if EndsWith(s, t) { assert s == s[..|s| - |t|] + t; }
  }

  // Position of the first c, -1 if there is none.
  function Index(s: string, c: char): (i: int)
    ensures -1 <= i < |s|
    ensures i == -1 <==> c !in s
    ensures i >= 0 ==> s[i] == c && forall j :: 0 <= j < i ==> s[j] != c
  {
    if s == "" then -1
    else if s[0] == c then 0
    else
      var i := Index(s[1..], c);
      if i == -1 then -1 else i + 1
  }

  function LastIndex(s: string, c: char): (i: int)
    ensures -1 <= i < |s|
    ensures i == -1 <==> c !in s
    ensures i >= 0 ==> s[i] == c && forall j :: i < j < |s| ==> s[j] != c
  {
    if s == "" then -1
    else if s[|s| - 1] == c then |s| - 1
    else
      var i := LastIndex(s[..|s| - 1], c);
      assert s == s[..|s| - 1] + [s[|s| - 1]];
      i
  }
}
