/** The string operations that identity parsing relies on, and their laws. */
module Text {
  import opened Words

  /** The characters with the Unicode White_Space property. */
  predicate IsSpace(c: char) {
    var u := c as int;
    || 0x09 <= u <= 0x0D || u == 0x20 || u == 0x85 || u == 0xA0 || u == 0x1680
    || 0x2000 <= u <= 0x200A || u == 0x2028 || u == 0x2029 || u == 0x202F || u == 0x205F || u == 0x3000
  }

  predicate IsAlnum(c: char) {
    '0' <= c <= '9' || 'a' <= c <= 'z' || 'A' <= c <= 'Z'
  }

  predicate AllAlnum(s: string) {
    forall i :: 0 <= i < |s| ==> IsAlnum(s[i])
  }

  function TrimStart(s: string): string {
    if s != [] && IsSpace(s[0]) then TrimStart(s[1..]) else s
  }

  function TrimEnd(s: string): string {
    if s != [] && IsSpace(s[|s| - 1]) then TrimEnd(s[..|s| - 1]) else s
  }

  function Trim(s: string): string {
    TrimEnd(TrimStart(s))
  }

  /** No white space at either end. */
  predicate Trimmed(s: string) {
    s == [] || (!IsSpace(s[0]) && !IsSpace(s[|s| - 1]))
  }

  predicate StartsWith(s: string, prefix: string) {
    prefix <= s
  }

  /** The parts of `s` between occurrences of `sep`; never empty. */
  function Split(s: string, sep: char): (parts: seq<string>)
    ensures |parts| >= 1
  {
    if s == [] then [[]]
    else
      var rest := Split(s[1..], sep);
      if s[0] == sep then [[]] + rest else [[s[0]] + rest[0]] + rest[1..]
  }

  function Join(parts: seq<string>, sep: char): string {
    if parts == [] then []
    else if |parts| == 1 then parts[0]
    else parts[0] + [sep] + Join(parts[1..], sep)
  }

  /** The index of the first `c`, or the length. */
  function IndexOf(s: string, c: char): (i: nat)
    ensures i <= |s|
    ensures forall j :: 0 <= j < i ==> s[j] != c
    ensures i < |s| ==> s[i] == c
  {
    if s == [] || s[0] == c then 0 else 1 + IndexOf(s[1..], c)
  }

  /** Splits at the first `c`, if there is one. */
  function SplitOnce(s: string, c: char): Option<(string, string)> {
    var i := IndexOf(s, c);
    if i == |s| then None else Some((s[..i], s[i + 1..]))
  }

  // ----- Trimming -----

  lemma {:induction false} TrimEndIsTrimmed(s: string)
    ensures TrimEnd(s) == [] || !IsSpace(TrimEnd(s)[|TrimEnd(s)| - 1])
    ensures TrimEnd(s) <= s
  {
    if s != [] && IsSpace(s[|s| - 1]) {
      TrimEndIsTrimmed(s[..|s| - 1]);
    }
  }

  lemma {:induction false} TrimStartIsTrimmed(s: string)
    ensures TrimStart(s) == [] || !IsSpace(TrimStart(s)[0])
  {
    if s != [] && IsSpace(s[0]) {
      TrimStartIsTrimmed(s[1..]);
    }
  }

  lemma TrimIsTrimmed(s: string)
    ensures Trimmed(Trim(s))
  {
    TrimStartIsTrimmed(s);
    TrimEndIsTrimmed(TrimStart(s));
  }

  predicate AllSpace(s: string) {
    forall i :: 0 <= i < |s| ==> IsSpace(s[i])
  }

  lemma SpaceCons(c: char, lead: string, s: string)
    requires IsSpace(c) && AllSpace(lead)
    ensures AllSpace([c] + lead) && [c] + (lead + s) == [c] + lead + s
  {
  }

  lemma TrimStartDrops(s: string) returns (lead: string)
    ensures s == lead + TrimStart(s) && AllSpace(lead)
  {
    if s != [] && IsSpace(s[0]) {
      var rest := TrimStartDrops(s[1..]);
      lead := [s[0]] + rest;
      SpaceCons(s[0], rest, TrimStart(s[1..]));
      assert s == [s[0]] + s[1..];
    } else {
      lead := [];
    }
  }

  lemma TrimEndDrops(s: string) returns (trail: string)
    ensures s == TrimEnd(s) + trail && AllSpace(trail)
  {
    if s != [] && IsSpace(s[|s| - 1]) {
      var rest := TrimEndDrops(s[..|s| - 1]);
      trail := rest + [s[|s| - 1]];
      assert s == s[..|s| - 1] + [s[|s| - 1]];
    } else {
      trail := [];
    }
  }

  /** Trimming removes white space from both ends, all of it there and nothing else. */
  lemma TrimDropsSpace(s: string) returns (lead: string, trail: string)
    ensures s == lead + Trim(s) + trail && AllSpace(lead) && AllSpace(trail) && Trimmed(Trim(s))
  {
    TrimIsTrimmed(s);
    lead := TrimStartDrops(s);
    trail := TrimEndDrops(TrimStart(s));
  }

  lemma TrimmedStays(s: string)
    requires Trimmed(s)
    ensures Trim(s) == s
  {
  }

  /** Trimming the end stops at a character that is no space, whatever precedes it. */
  lemma {:induction false} TrimEndAfter(a: string, s: string)
    requires a != [] && !IsSpace(a[|a| - 1])
    ensures TrimEnd(a + s) == a + TrimEnd(s)
  {
    if s == [] {
      assert a + s == a;
    } else if IsSpace(s[|s| - 1]) {
      assert (a + s)[..|a + s| - 1] == a + s[..|s| - 1];
      TrimEndAfter(a, s[..|s| - 1]);
    }
  }

  lemma {:induction false} TrimStartOfTrimEnd(s: string)
    ensures TrimStart(TrimEnd(s)) == TrimEnd(TrimStart(s))
  {
    if s == [] {
    } else if IsSpace(s[0]) {
      TrimStartOfTrimEnd(s[1..]);
      TrimEndCons(s[0], s[1..]);
      assert s == [s[0]] + s[1..];
      var rest := TrimEnd(s[1..]);
      if rest != [] {
        assert TrimEnd(s) == [s[0]] + rest;
        assert TrimEnd(s)[1..] == rest;
      }
    } else {
      assert s == [s[0]] + s[1..];
      TrimEndAfter([s[0]], s[1..]);
    }
  }

  lemma {:induction false} TrimEndCons(c: char, s: string)
    ensures TrimEnd([c] + s) == if TrimEnd(s) == [] then (if IsSpace(c) then [] else [c]) else [c] + TrimEnd(s)
  {
    if s == [] {
      assert [c] + s == [c];
      assert [c][..0] == [];
    } else if IsSpace(s[|s| - 1]) {
      assert ([c] + s)[..|[c] + s| - 1] == [c] + s[..|s| - 1];
      TrimEndCons(c, s[..|s| - 1]);
    }
  }

  lemma {:induction false} TrimEndTwice(s: string)
    ensures TrimEnd(TrimEnd(s)) == TrimEnd(s)
  {
    TrimEndIsTrimmed(s);
  }

  /** Removing trailing space first makes no difference to a full trim. */
  lemma {:induction false} TrimOfTrimEnd(s: string)
    ensures Trim(TrimEnd(s)) == Trim(s)
  {
    TrimStartOfTrimEnd(s);
    TrimEndTwice(TrimStart(s));
  }

  // ----- Splitting -----

  /** Splitting and joining again recovers the text. */
  lemma {:induction false} JoinOfSplit(s: string, sep: char)
    ensures Join(Split(s, sep), sep) == s
  {
    if s == [] {
    } else {
      JoinOfSplit(s[1..], sep);
      var rest := Split(s[1..], sep);
      assert s == [s[0]] + s[1..];
      if s[0] == sep {
        assert ([[]] + rest)[1..] == rest;
      } else {
        var parts := [[s[0]] + rest[0]] + rest[1..];
        assert parts[1..] == rest[1..];
      }
    }
  }

  /** The first part is what precedes the separator, the others are the parts of what follows it. */
  lemma {:induction false} SplitAfter(a: string, s: string, sep: char)
    requires sep !in a
    ensures Split(a + [sep] + s, sep) == [a] + Split(s, sep)
  {
    if a == [] {
      assert a + [sep] + s == [sep] + s;
      assert ([sep] + s)[1..] == s;
    } else {
      SplitAfter(a[1..], s, sep);
      assert (a + [sep] + s)[1..] == a[1..] + [sep] + s;
      assert [a[0]] + a[1..] == a;
      assert ([a[1..]] + Split(s, sep))[1..] == Split(s, sep);
    }
  }

  lemma SplitOnceAfter(a: string, s: string, c: char)
    requires c !in a
    ensures SplitOnce(a + [c] + s, c) == Some((a, s))
  {
    var t := a + [c] + s;
    var i := IndexOf(t, c);
    assert t[|a|] == c;
    assert forall j :: 0 <= j < |a| ==> t[j] in a;
    assert i == |a|;
    assert t[..i] == a && t[i + 1..] == s;
  }

  /** Two strings put together with a separator that the first parts lack come apart the same way. */
  lemma SeparatorIsInjective(a: string, s: string, b: string, t: string, c: char)
    requires c !in a && c !in b
    requires a + [c] + s == b + [c] + t
    ensures a == b && s == t
  {
    SplitOnceAfter(a, s, c);
    SplitOnceAfter(b, t, c);
  }

  // ----- Lexicographic order -----

  /** The order of strings by code points, a prefix before its extensions. */
  predicate StringLeq(s: string, t: string) {
    s == [] || (t != [] && (s[0] < t[0] || (s[0] == t[0] && StringLeq(s[1..], t[1..]))))
  }

  lemma {:induction false} StringLeqIsTotal(s: string, t: string)
    ensures StringLeq(s, t) || StringLeq(t, s)
    ensures StringLeq(s, t) && StringLeq(t, s) ==> s == t
  {
    if s != [] && t != [] {
      StringLeqIsTotal(s[1..], t[1..]);
      assert s == [s[0]] + s[1..] && t == [t[0]] + t[1..];
    }
  }

  /** The strings differ first at `k`, and `s` has the smaller character there. */
  predicate DiffersAt(s: string, t: string, k: nat) {
    k < |s| && k < |t| && s[..k] == t[..k] && s[k] < t[k]
  }

  lemma DiffersCons(s: string, t: string, k: nat)
    requires s != [] && t != []
    ensures s[0] == t[0] ==> (DiffersAt(s, t, k + 1) <==> DiffersAt(s[1..], t[1..], k))
    ensures DiffersAt(s, t, 0) <==> s[0] < t[0]
    ensures DiffersAt(s, t, k + 1) ==> s[0] == t[0]
  {
    if k + 1 < |s| && k + 1 < |t| {
      assert s[..k + 1] == [s[0]] + s[1..][..k] && t[..k + 1] == [t[0]] + t[1..][..k];
      assert s[..k + 1][0] == s[0] && t[..k + 1][0] == t[0];
      assert s[..k + 1][1..] == s[1..][..k] && t[..k + 1][1..] == t[1..][..k];
    }
  }

  lemma DiffersIff(s: string, t: string)
    requires s != [] && t != []
    ensures (exists k: nat :: DiffersAt(s, t, k))
            <==> s[0] < t[0] || (s[0] == t[0] && exists k: nat :: DiffersAt(s[1..], t[1..], k))
  {
    DiffersCons(s, t, 0);
    if k: nat :| DiffersAt(s, t, k) {
      if k > 0 {
        DiffersCons(s, t, k - 1);
        assert DiffersAt(s[1..], t[1..], k - 1);
      }
    }
    if k: nat :| DiffersAt(s[1..], t[1..], k) {
      DiffersCons(s, t, k);
      assert s[0] == t[0] ==> DiffersAt(s, t, k + 1);
    }
  }

  lemma PrefixIff(s: string, t: string)
    requires s != [] && t != []
    ensures s <= t <==> s[0] == t[0] && s[1..] <= t[1..]
  {
    assert s == [s[0]] + s[1..] && t == [t[0]] + t[1..];
  }

  /** The first difference decides, and without one the shorter text comes first. */
  lemma {:induction false} StringLeqIff(s: string, t: string)
    ensures StringLeq(s, t) <==> s <= t || exists k: nat :: DiffersAt(s, t, k)
  {
    if s != [] && t != [] {
      StringLeqIff(s[1..], t[1..]);
      DiffersIff(s, t);
      PrefixIff(s, t);
    }
  }

  lemma {:induction false} StringLeqIsTransitive(s: string, t: string, u: string)
    requires StringLeq(s, t) && StringLeq(t, u)
    ensures StringLeq(s, u)
  {
    if s != [] && t[0] == s[0] == u[0] {
      StringLeqIsTransitive(s[1..], t[1..], u[1..]);
    }
  }
}
