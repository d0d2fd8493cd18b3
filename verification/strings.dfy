/** Text helpers: decimal rendering of integers, separator joins as the
    StringBuilder loops produce them, and substring search. */
module Strings {

  /** The decimal digit character for `d`. */
  function Digit(d: nat): (c: char)
    requires d < 10
    ensures '0' <= c <= '9'
    ensures c as int - '0' as int == d
  {
    (48 + d) as char
  }

  /** `n.ToString()` for a non-negative integer: most significant digit first,
      no leading zeros. */
  function NatToString(n: nat): (s: string)
    ensures 1 <= |s|
    ensures forall i :: 0 <= i < |s| ==> '0' <= s[i] <= '9'
    ensures n < 10 <==> |s| == 1
    decreases n
  {
    if n < 10 then [Digit(n)] else NatToString(n / 10) + [Digit(n % 10)]
  }

  /** `i.ToString()` for any integer (invariant culture: a leading '-'). */
  function IntToString(i: int): (s: string)
    ensures 1 <= |s|
    ensures (s[0] == '-') <==> i < 0
  {
    if i < 0 then "-" + NatToString(-i) else NatToString(i)
  }

  /** Distinct numbers render as distinct strings. */
  lemma {:induction false} NatToStringInjective(a: nat, b: nat)
    requires NatToString(a) == NatToString(b)
    ensures a == b
    decreases a
  {
    var s := NatToString(a);
    if a < 10 || b < 10 {
      assert a < 10 && b < 10;
      assert Digit(a) == s[0] == Digit(b);
    } else {
      assert Digit(a % 10) == s[|s| - 1] == Digit(b % 10);
      assert NatToString(a / 10) == s[..|s| - 1] == NatToString(b / 10);
      NatToStringInjective(a / 10, b / 10);
    }
  }

  /** `xs` joined with `sep` between consecutive elements (`string.Join`).
      Separated and Prefixed below are the StringBuilder loops that build it. */
  function Join(sep: string, xs: seq<string>): string
    decreases |xs|
  {
    if |xs| == 0 then ""
    else if |xs| == 1 then xs[0]
    else Join(sep, xs[..|xs| - 1]) + sep + xs[|xs| - 1]
  }

  /** Joining two non-empty lists is joining each and putting `sep` between. */
  lemma {:induction false} JoinAppend(sep: string, xs: seq<string>, ys: seq<string>)
    requires |xs| > 0 && |ys| > 0
    ensures Join(sep, xs + ys) == Join(sep, xs) + sep + Join(sep, ys)
    decreases |ys|
  {
    var zs := xs + ys;
    if |ys| == 1 {
      assert zs[..|zs| - 1] == xs;
    } else {
      var init := ys[..|ys| - 1];
      assert zs[..|zs| - 1] == xs + init;
      JoinAppend(sep, xs, init);
    }
  }

  /** What a StringBuilder loop from position `i` on appends when it appends
      `xs[i]` and then, if `i < Count - 1`, appends `sep`. */
  function SeparatedFrom(sep: string, xs: seq<string>, i: nat): string
    requires i <= |xs|
    decreases |xs| - i
  {
    if i == |xs| then ""
    else xs[i] + (if i < |xs| - 1 then sep else "") + SeparatedFrom(sep, xs, i + 1)
  }

  /** Joining `x` in front of a non-empty list puts `sep` between them. */
  lemma JoinCons(sep: string, x: string, ys: seq<string>)
    requires |ys| > 0
    ensures Join(sep, [x] + ys) == x + sep + Join(sep, ys)
  {
    JoinAppend(sep, [x], ys);
  }

  /** The separator-after-all-but-the-last loop builds the join of what it
      has not yet visited. */
  lemma {:induction false} SeparatedFromIsJoin(sep: string, xs: seq<string>, i: nat)
    requires i <= |xs|
    ensures SeparatedFrom(sep, xs, i) == Join(sep, xs[i..])
    decreases |xs| - i
  {
    if i < |xs| {
      SeparatedFromIsJoin(sep, xs, i + 1);
      assert xs[i..] == [xs[i]] + xs[i + 1..];
      if i < |xs| - 1 {
        JoinCons(sep, xs[i], xs[i + 1..]);
      } else {
        assert xs[i + 1..] == [];
      }
    }
  }

  /** The whole separator-after-all-but-the-last loop. */
  function Separated(sep: string, xs: seq<string>): (r: string)
    ensures r == Join(sep, xs)
  {
    SeparatedFromIsJoin(sep, xs, 0);
    assert xs[0..] == xs;
    SeparatedFrom(sep, xs, 0)
  }

  /** What a loop with a `first` flag builds when it appends `sep` before
      every element but the first, and then the element. */
  function Prefixed(sep: string, xs: seq<string>, first: bool): string
    decreases |xs|
  {
    if |xs| == 0 then "" else (if first then "" else sep) + xs[0] + Prefixed(sep, xs[1..], false)
  }

  /** The `first`-flag loop builds the join, preceded by `sep` when it is
      entered after an element was already written. */
  lemma {:induction false} PrefixedIsJoin(sep: string, xs: seq<string>, first: bool)
    ensures Prefixed(sep, xs, first) == (if first || |xs| == 0 then "" else sep) + Join(sep, xs)
    decreases |xs|
  {
    if |xs| > 0 {
      PrefixedIsJoin(sep, xs[1..], false);
      assert xs == [xs[0]] + xs[1..];
      if |xs| > 1 {
        JoinCons(sep, xs[0], xs[1..]);
      }
    }
  }

  /** Every element followed by `sep`: what a loop that appends `xs[i]` and
      then always appends `sep` builds. */
  function Terminated(sep: string, xs: seq<string>): string
    decreases |xs|
  {
    if |xs| == 0 then "" else Terminated(sep, xs[..|xs| - 1]) + xs[|xs| - 1] + sep
  }

  /** A terminated list is the joined list plus one trailing separator. */
  lemma {:induction false} TerminatedIsJoinedPlusSeparator(sep: string, xs: seq<string>)
    requires |xs| > 0
    ensures Terminated(sep, xs) == Join(sep, xs) + sep
    decreases |xs|
  {
    if |xs| > 1 {
      var init := xs[..|xs| - 1];
      TerminatedIsJoinedPlusSeparator(sep, init);
      calc {
        Terminated(sep, xs);
        Terminated(sep, init) + xs[|xs| - 1] + sep;
        Join(sep, init) + sep + xs[|xs| - 1] + sep;
        Join(sep, xs) + sep;
      }
    }
  }

  /** A terminated list is empty exactly when there is nothing to list. */
  lemma {:induction false} TerminatedEmpty(sep: string, xs: seq<string>)
    requires |sep| > 0
    ensures |Terminated(sep, xs)| == 0 <==> |xs| == 0
  {
    if |xs| > 0 {
      TerminatedIsJoinedPlusSeparator(sep, xs);
    }
  }

  /** `s.Contains(t)` with ordinal comparison: `t` occurs in `s` at some position. */
  function ContainsText(s: string, t: string): (b: bool)
    ensures b <==> exists i :: OccursAt(s, t, i)
  {
    OccursFrom(s, t, 0)
  }

  /** `t` occurs in `s` starting at position `i`. */
  predicate OccursAt(s: string, t: string, i: int) {
    0 <= i && i + |t| <= |s| && s[i..i + |t|] == t
  }

  /** `t` occurs in `s` at some position `from` or later. */
  function OccursFrom(s: string, t: string, from: nat): (b: bool)
    ensures b <==> exists i :: from <= i && OccursAt(s, t, i)
    decreases |s| - from
  {
    if from + |t| > |s| then false
    else if OccursAt(s, t, from) then true
    else OccursFrom(s, t, from + 1)
  }

  /** `name` ends with `_` followed by the decimal rendering of `k`. */
  predicate HasIndex(name: string, k: nat) {
    var tail := "_" + NatToString(k);
    |tail| <= |name| && name[|name| - |tail|..] == tail
  }

  /** The index suffix of a name is unique: the last `_` of the name starts it,
      because a decimal rendering holds no `_`. */
  lemma IndexOfNameIsUnique(name: string, k1: nat, k2: nat)
    requires HasIndex(name, k1) && HasIndex(name, k2)
    ensures k1 == k2
  {
    var t1, t2 := "_" + NatToString(k1), "_" + NatToString(k2);
    var n := |name|;
    assert t1 == name[n - |t1|..];
    assert t2 == name[n - |t2|..];
    assert name[n - |t1|] == '_' && name[n - |t2|] == '_';
    assert forall i :: n - |t1| < i < n ==> name[i] == t1[i - (n - |t1|)] != '_';
    assert forall i :: n - |t2| < i < n ==> name[i] == t2[i - (n - |t2|)] != '_';
    assert t1 == t2;
    assert NatToString(k1) == t1[1..] == t2[1..] == NatToString(k2);
    NatToStringInjective(k1, k2);
  }

  /** A name with an index suffix ends in a decimal digit after at least one
      other character. */
  lemma HasIndexEndsInDigit(name: string, k: nat)
    requires HasIndex(name, k)
    ensures 2 <= |name| && '0' <= name[|name| - 1] <= '9'
  {
    var t := "_" + NatToString(k);
    assert name[|name| - 1] == t[|t| - 1] == NatToString(k)[|NatToString(k)| - 1];
  }
}
