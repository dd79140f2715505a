// Small shared vocabulary: an option type, and the order-independent view of a sequence.
module Prelude {
  datatype Option<+T> = None | Some(value: T)

  function Max(a: int, b: int): int {
    if a < b then b else a
  }

  function Min(a: int, b: int): int {
    if a < b then a else b
  }

  // The elements of `s` as a set.
  function Elements<T>(s: seq<T>): set<T> {
    set x | x in s
  }

  ghost predicate Distinct<T>(s: seq<T>) {
    forall i, j :: 0 <= i < j < |s| ==> s[i] != s[j]
  }

  // The elements of `s` that are not `x`, in order: Python's `remove` on a list without repeats.
  function Without<T(==)>(s: seq<T>, x: T): seq<T> {
    if s == [] then [] else (if s[0] == x then [] else [s[0]]) + Without(s[1..], x)
  }

  lemma {:induction false} WithoutElements<T>(s: seq<T>, x: T)
    ensures Elements(Without(s, x)) == Elements(s) - {x}
    ensures Distinct(s) ==> Distinct(Without(s, x))
  {
    if s != [] {
      WithoutElements(s[1..], x);
      var rest := Without(s[1..], x);
      assert s == [s[0]] + s[1..];
      assert Elements(s) == {s[0]} + Elements(s[1..]);
      if s[0] != x {
        assert Elements(Without(s, x)) == {s[0]} + Elements(rest);
        if Distinct(s) {
          assert s[0] !in s[1..];
          assert forall k :: 0 <= k < |rest| ==> rest[k] in Elements(rest);
          assert Distinct([s[0]] + rest);
        }
      }
    }
  }

  lemma {:induction false} WithoutAbsent<T>(s: seq<T>, x: T)
    requires x !in s
    ensures Without(s, x) == s
  {
    if s != [] {
      WithoutAbsent(s[1..], x);
      assert s == [s[0]] + s[1..];
    }
  }

  // ---- reordering ----

  lemma TakeOut<T>(s: seq<T>, j: nat)
    requires j < |s|
    ensures multiset(s) == multiset{s[j]} + multiset(s[..j] + s[j + 1..])
  {
    assert s == s[..j] + [s[j]] + s[j + 1..];
  }

  lemma HeadOff<T>(s: seq<T>)
    requires s != []
    ensures multiset(s[1..]) == multiset(s) - multiset{s[0]}
  {
    assert s == [s[0]] + s[1..];
  }

  lemma TakenOut<T>(s: seq<T>, j: nat)
    requires j < |s|
    ensures multiset(s[..j] + s[j + 1..]) == multiset(s) - multiset{s[j]}
  {
    TakeOut(s, j);
  }

  // The second of two reorderings, with its copy of the first's head taken out.
  lemma PermutedTail<T>(a: seq<T>, b: seq<T>) returns (j: nat)
    requires multiset(a) == multiset(b) && a != []
    ensures j < |b| && b[j] == a[0] && multiset(a[1..]) == multiset(b[..j] + b[j + 1..])
  {
    assert a[0] in multiset(b);
    j :| 0 <= j < |b| && b[j] == a[0];
    HeadOff(a);
    TakenOut(b, j);
  }

  function Mapped<A, B>(f: A -> B, s: seq<A>): (t: seq<B>)
    ensures |t| == |s| && forall k :: 0 <= k < |s| ==> t[k] == f(s[k])
  {
    seq(|s|, i requires 0 <= i < |s| => f(s[i]))
  }

  lemma MappedCons<A, B>(f: A -> B, x: A, s: seq<A>)
    ensures Mapped(f, [x] + s) == [f(x)] + Mapped(f, s)
  {}

  // Mapping there and back again.
  lemma MappedBack<A, B>(f: A -> B, g: B -> A, s: seq<A>)
    requires forall x :: x in s ==> g(f(x)) == x
    ensures Mapped(g, Mapped(f, s)) == s
  {}

  // Mapping, said by recursion: nothing is known of an element until `EachAt` is called on.
  function Each<A, B>(f: A -> B, s: seq<A>): seq<B> {
    if s == [] then [] else [f(s[0])] + Each(f, s[1..])
  }

  lemma {:induction false} EachAt<A, B>(f: A -> B, s: seq<A>)
    ensures |Each(f, s)| == |s| && forall k :: 0 <= k < |s| ==> Each(f, s)[k] == f(s[k])
  {
    if s != [] { EachAt(f, s[1..]); }
  }

  lemma EachCons<A, B>(f: A -> B, x: A, s: seq<A>)
    ensures Each(f, [x] + s) == [f(x)] + Each(f, s)
  {
    assert ([x] + s)[1..] == s;
  }

  lemma {:induction false} EachConcat<A, B>(f: A -> B, a: seq<A>, b: seq<A>)
    ensures Each(f, a + b) == Each(f, a) + Each(f, b)
  {
    if a == [] {
      assert a + b == b;
    } else {
      assert (a + b)[1..] == a[1..] + b;
      EachConcat(f, a[1..], b);
    }
  }

  // Mapping a reordering is reordering the mapping.
  lemma {:induction false} MappedPermute<A, B>(f: A -> B, a: seq<A>, b: seq<A>)
    requires multiset(a) == multiset(b)
    ensures multiset(Mapped(f, a)) == multiset(Mapped(f, b))
    decreases |a|
  {
    if a == [] {
      assert |b| == |multiset(b)| == 0;
    } else {
      var j := PermutedTail(a, b);
      var left := b[..j] + b[j + 1..];
      MappedPermute(f, a[1..], left);
      assert Mapped(f, a) == [f(a[0])] + Mapped(f, a[1..]);
      TakeOut(Mapped(f, b), j);
      assert Mapped(f, b)[..j] + Mapped(f, b)[j + 1..] == Mapped(f, left);
    }
  }

  // ---- filtering ----

  function Filtered<T>(p: T -> bool, s: seq<T>): seq<T> {
    if s == [] then [] else (if p(s[0]) then [s[0]] else []) + Filtered(p, s[1..])
  }

  lemma {:induction false} FilteredEmpty<T>(p: T -> bool, s: seq<T>)
    ensures Filtered(p, s) == [] <==> forall x :: x in s ==> !p(x)
  {
    if s != [] {
      FilteredEmpty(p, s[1..]);
      assert s == [s[0]] + s[1..];
    }
  }

  // How many elements lead before the first false one.
  function Leading(flags: seq<bool>): (n: nat)
    ensures n <= |flags| && (forall k :: 0 <= k < n ==> flags[k]) && (n < |flags| ==> !flags[n])
  {
    if flags == [] || !flags[0] then 0 else 1 + Leading(flags[1..])
  }
}
