/** Overwriting part of a sequence in place, the abstract meaning of every write into a bus buffer. */
module Sequences {

  /** `s` with the `|m|` elements from `at` on replaced by `m`. */
  function Splice<T>(s: seq<T>, at: nat, m: seq<T>): (r: seq<T>)
    requires at + |m| <= |s|
    ensures |r| == |s|
  {
    seq(|s|, i requires 0 <= i < |s| => if at <= i < at + |m| then m[i - at] else s[i])
  }

  /** Two writes, the second starting where the first stopped, are one write. */
  lemma SpliceTwice<T>(s: seq<T>, at: nat, m: seq<T>, n: seq<T>)
    requires at + |m| + |n| <= |s|
    ensures Splice(Splice(s, at, m), at + |m|, n) == Splice(s, at, m + n)
  {
  }

  /** Overwriting the middle of `a + x + b` leaves both ends alone. */
  lemma SpliceMiddle<T>(a: seq<T>, x: seq<T>, b: seq<T>, y: seq<T>)
    requires |x| == |y|
    ensures Splice(a + x + b, |a|, y) == a + y + b
  {
  }

  /** A write inside the middle of `a + x + b` is a write inside `x`. */
  lemma SpliceInside<T>(a: seq<T>, x: seq<T>, b: seq<T>, at: nat, m: seq<T>)
    requires at + |m| <= |x|
    ensures Splice(a + x + b, |a| + at, m) == a + Splice(x, at, m) + b
  {
    assert (a + x + b)[..|a| + at] == a + x[..at];
    assert (a + x + b)[|a| + at + |m|..] == x[at + |m|..] + b;
  }

  /** The written prefix grows by what is written at its end. */
  lemma SplicePrefix<T>(s: seq<T>, at: nat, m: seq<T>)
    requires at + |m| <= |s|
    ensures Splice(s, at, m)[..at + |m|] == s[..at] + m
  {
  }

  /** All parts one after another. */
  function Flatten<T>(parts: seq<seq<T>>): seq<T> {
    if parts == [] then [] else parts[0] + Flatten(parts[1..])
  }

  lemma FlattenOne<T>(part: seq<T>)
    ensures Flatten([part]) == part
  {
    assert [part][1..] == [];
  }

  lemma {:induction false} FlattenConcat<T>(a: seq<seq<T>>, b: seq<seq<T>>)
    ensures Flatten(a + b) == Flatten(a) + Flatten(b)
  {
    if a == [] {
      assert a + b == b;
    } else {
      assert (a + b)[1..] == a[1..] + b;
      FlattenConcat(a[1..], b);
    }
  }

  /** Where part `k` starts. */
  function Offset<T>(parts: seq<seq<T>>, k: nat): nat
    requires k <= |parts|
  {
    if k == 0 then 0 else Offset(parts, k - 1) + |parts[k - 1]|
  }

  lemma {:induction false} OffsetIs<T>(parts: seq<seq<T>>, k: nat)
    requires k <= |parts|
    ensures Offset(parts, k) == |Flatten(parts[..k])|
  {
    if k > 0 {
      OffsetIs(parts, k - 1);
      assert parts[..k] == parts[..k - 1] + [parts[k - 1]];
      FlattenConcat(parts[..k - 1], [parts[k - 1]]);
      FlattenOne(parts[k - 1]);
    }
  }

  /** A write inside part `k`. */
  lemma FlattenPatch<T>(parts: seq<seq<T>>, k: nat, at: nat, m: seq<T>)
    requires k < |parts| && at + |m| <= |parts[k]|
    ensures Offset(parts, k) + at + |m| <= |Flatten(parts)|
    ensures Splice(Flatten(parts), Offset(parts, k) + at, m) == Flatten(parts[k := Splice(parts[k], at, m)])
  {
    var a, x, b := parts[..k], parts[k], parts[k + 1..];
    OffsetIs(parts, k);
    FlattenAt(parts, k);
    FlattenAt(parts[k := Splice(x, at, m)], k);
    SpliceInside(Flatten(a), x, Flatten(b), at, m);
  }

  lemma FlattenAt<T>(parts: seq<seq<T>>, k: nat)
    requires k < |parts|
    ensures Flatten(parts) == Flatten(parts[..k]) + parts[k] + Flatten(parts[k + 1..])
  {
    var a, b := parts[..k], parts[k..];
    assert Flatten(parts) == Flatten(a) + Flatten(b) by {
      hide Flatten;
      assert parts == a + b;
      FlattenConcat(a, b);
    }
    assert b[0] == parts[k] && b[1..] == parts[k + 1..];
    Assoc(Flatten(a), parts[k], Flatten(parts[k + 1..]));
  }

  lemma Assoc<T>(a: seq<T>, b: seq<T>, c: seq<T>)
    ensures a + b + c == a + (b + c)
  {
  }

  /** Occurrences of `x` in `s`. */
  function Count<T(==)>(s: seq<T>, x: T): (n: nat)
    ensures n <= |s|
  {
    if s == [] then 0 else (if s[0] == x then 1 else 0) + Count(s[1..], x)
  }

  lemma {:induction false} CountConcat<T>(s: seq<T>, t: seq<T>, x: T)
    ensures Count(s + t, x) == Count(s, x) + Count(t, x)
  {
    if s == [] {
      assert s + t == t;
    } else {
      assert (s + t)[1..] == s[1..] + t;
      CountConcat(s[1..], t, x);
    }
  }

  lemma {:induction false} CountAbsent<T>(s: seq<T>, x: T)
    requires x !in s
    ensures Count(s, x) == 0
  {
    if s != [] {
      CountAbsent(s[1..], x);
    }
  }
}
