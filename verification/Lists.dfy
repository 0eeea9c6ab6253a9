/** Linked lists of distinct nodes, as sequences. */
module Lists {

  ghost predicate Distinct<T>(s: seq<T>) { forall i, j :: 0 <= i < j < |s| ==> s[i] != s[j] }

  /** Unlink a node. */
  function Without<T(==)>(s: seq<T>, x: T): seq<T> {
    if s == [] then [] else if s[0] == x then s[1..] else [s[0]] + Without(s[1..], x)
  }

  lemma {:induction false} WithoutIs<T>(s: seq<T>, x: T)
    requires Distinct(s)
    ensures Distinct(Without(s, x)) && forall y :: y in Without(s, x) <==> y in s && y != x
    ensures |Without(s, x)| == if x in s then |s| - 1 else |s|
  {
    if s != [] {
      var t := s[1..];
      assert s == [s[0]] + t && s[0] !in t;
      WithoutIs(t, x);
    }
  }

  function IndexIn<T(==)>(s: seq<T>, x: T): (k: nat)
    requires x in s
    ensures k < |s| && s[k] == x
  {
    if s[0] == x then 0 else 1 + IndexIn(s[1..], x)
  }

  lemma WithoutFirst<T>(s: seq<T>)
    requires s != []
    ensures Without(s, s[0]) == s[1..]
  {
  }

  lemma {:induction false} WithoutShorter<T>(s: seq<T>, x: T)
    ensures |Without(s, x)| <= |s|
  {
    if s != [] { WithoutShorter(s[1..], x); }
  }

  lemma ConsWithout<T>(s: seq<T>, i: nat)
    requires i + 1 < |s|
    ensures [s[0]] + (s[1..][..i] + s[1..][i + 1..]) == s[..i + 1] + s[i + 2..]
  {
    assert s[..i + 1] == [s[0]] + s[1..][..i] && s[i + 2..] == s[1..][i + 1..];
  }

  /** Where the node was. */
  lemma {:induction false} WithoutAt<T>(s: seq<T>, x: T) returns (k: nat)
    ensures k <= |s|
    ensures k < |s| ==> s[k] == x && Without(s, x) == s[..k] + s[k + 1..]
    ensures k == |s| ==> x !in s && Without(s, x) == s
  {
    if s == [] || s[0] == x {
      k := 0;
    } else {
      var t := s[1..];
      assert s == [s[0]] + t;
      var i := WithoutAt(t, x);
      k := i + 1;
      if i < |t| { ConsWithout(s, i); }
    }
  }

  lemma WithoutAbsent<T>(s: seq<T>, x: T)
    requires x !in s
    ensures Without(s, x) == s
  {
    var k := WithoutAt(s, x);
  }

  ghost function Elements<T>(s: seq<T>): set<T> { set x | x in s }

  lemma {:induction false} ElementsSize<T>(s: seq<T>)
    ensures |Elements(s)| <= |s|
    ensures Distinct(s) ==> |Elements(s)| == |s|
  {
    if s != [] {
      var t := s[1..];
      assert s == [s[0]] + t;
      ElementsSize(t);
      assert Elements(s) == Elements(t) + {s[0]};
      if Distinct(s) { assert s[0] !in t; }
    }
  }

  lemma SubsetSize<T>(a: set<T>, b: set<T>)
    requires a <= b
    ensures |a| <= |b|
    ensures |a| == |b| <==> a == b
  {
    assert b == a + (b - a);
  }

  lemma Assoc<T>(a: seq<T>, b: seq<T>, c: seq<T>)
    ensures a + (b + c) == (a + b) + c
  {
  }
}
