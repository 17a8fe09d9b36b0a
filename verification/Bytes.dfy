/** Byte sequences and the few sequence operations every component shares. */
module Bytes {

  type byte = b: int | 0 <= b < 256

  datatype Option<+T> = None | Some(value: T)

  function Min(a: int, b: int): int {
    if a < b then a else b
  }

  function Max(a: int, b: int): int {
    if a < b then b else a
  }

  /** The last n elements of s: all of them when s is shorter, none when n is not positive. */
  function Last<T>(s: seq<T>, n: int): (r: seq<T>)
    ensures |r| == Max(0, Min(n, |s|))
  {
    if n <= 0 then [] else if n >= |s| then s else s[|s| - n..]
  }

  /** What follows the first n elements. */
  function Drop<T>(s: seq<T>, n: int): seq<T> {
    if 0 <= n <= |s| then s[n..] else []
  }

  /** Some element: what is iterated in an order the language leaves open. */
  method AnyOf<T>(s: set<T>) returns (x: T)
    requires s != {}
    ensures x in s
  {
    x :| x in s;
  }

  /** What is left when every x at the end is dropped. */
  function TrimTrailing<T(==)>(s: seq<T>, x: T): seq<T> {
    if s != [] && s[|s| - 1] == x then TrimTrailing(s[..|s| - 1], x) else s
  }

  /** What follows the last x, or everything. */
  function AfterLast<T(==)>(s: seq<T>, x: T): (r: seq<T>)
    ensures |r| <= |s|
  {
    if s == [] || s[|s| - 1] == x then [] else AfterLast(s[..|s| - 1], x) + [s[|s| - 1]]
  }

  function Flatten<T>(ss: seq<seq<T>>): seq<T> {
    if ss == [] then [] else ss[0] + Flatten(ss[1..])
  }

  lemma {:induction false} FlattenAppend<T>(xs: seq<seq<T>>, ys: seq<seq<T>>)
    ensures Flatten(xs + ys) == Flatten(xs) + Flatten(ys)
  {
    if xs == [] {
      assert xs + ys == ys;
    } else {
      assert (xs + ys)[1..] == xs[1..] + ys;
      FlattenAppend(xs[1..], ys);
    }
  }

  lemma FlattenOne<T>(x: seq<T>)
    ensures Flatten([x]) == x
  {
    assert [x][1..] == [];
  }

  lemma FlattenSnoc<T>(xs: seq<seq<T>>, x: seq<T>)
    ensures Flatten(xs + [x]) == Flatten(xs) + x
  {
    FlattenAppend(xs, [x]);
    FlattenOne(x);
  }

  /** A prefix of the chunks is a prefix of the bytes. */
  lemma FlattenSplit<T>(xs: seq<seq<T>>, k: nat)
    requires k <= |xs|
    ensures Flatten(xs) == Flatten(xs[..k]) + Flatten(xs[k..])
  {
    assert xs == xs[..k] + xs[k..];
    FlattenAppend(xs[..k], xs[k..]);
  }

  ghost predicate IsSuffix<T>(r: seq<T>, s: seq<T>) {
    |r| <= |s| && r == s[|s| - |r|..]
  }

  lemma SuffixTransitive<T>(r: seq<T>, s: seq<T>, t: seq<T>)
    requires IsSuffix(r, s) && IsSuffix(s, t)
    ensures IsSuffix(r, t)
  {
  }

  lemma AppendedIsSuffix<T>(a: seq<T>, b: seq<T>)
    ensures IsSuffix(b, a + b)
  {
    assert (a + b)[|a|..] == b;
  }

  lemma LastIsSuffix<T>(s: seq<T>, n: int)
    ensures IsSuffix(Last(s, n), s)
  {
  }

  /** The first part of what follows position o is the stretch of that length from o on. */
  lemma PrefixIsStretch<T>(s: seq<T>, o: nat, r: seq<T>, q: seq<T>)
    requires o <= |s| && r + q <= s[o..]
    ensures o + |r| <= |s| && r == s[o..o + |r|]
  {
    assert r == (r + q)[..|r|];
    assert s[o..o + |r|] == s[o..][..|r|];
  }
}
