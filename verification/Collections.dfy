/** Counting facts about sequences of numbers and finite sets. */
module Collections {
  datatype Option<T> = None | Some(value: T)

  ghost predicate Distinct<T>(s: seq<T>) {
    forall i, j | 0 <= i < j < |s| :: s[i] != s[j]
  }

  ghost predicate Below(s: seq<nat>, n: nat) {
    forall i | 0 <= i < |s| :: s[i] < n
  }

  ghost function Elems<T>(s: seq<T>): set<T> {
    set x | x in s
  }

  ghost function Upto(n: nat): (r: set<nat>)
    ensures |r| == n
    ensures forall x: nat :: x in r <==> x < n
  {
    if n == 0 then {} else Upto(n - 1) + {n - 1}
  }

  lemma {:induction false} SubsetSize<T>(a: set<T>, b: set<T>)
    requires a <= b
    ensures |a| <= |b|
  {
    if a != {} {
      var x :| x in a;
      SubsetSize(a - {x}, b - {x});
    }
  }

  lemma {:induction false} UnionSize<T>(a: set<T>, b: set<T>)
    ensures |a + b| <= |a| + |b|
  {
    if a == {} {
      assert a + b == b;
    } else {
      var x :| x in a;
      UnionSize(a - {x}, b);
      assert a + b == (a - {x}) + b + {x};
    }
  }

  lemma {:induction false} ElemsSize<T>(s: seq<T>)
    requires Distinct(s)
    ensures |Elems(s)| == |s|
  {
    if s != [] {
      ElemsSize(s[1..]);
      assert Elems(s) == Elems(s[1..]) + {s[0]};
    }
  }

  lemma DistinctBelow(s: seq<nat>, n: nat)
    requires Distinct(s) && Below(s, n)
    ensures |s| <= n
  {
    ElemsSize(s);
    SubsetSize(Elems(s), Upto(n));
  }

  /** n distinct numbers below n are all the numbers below n. */
  lemma DistinctCovers(s: seq<nat>, n: nat, x: nat)
    requires Distinct(s) && Below(s, n) && |s| == n && x < n
    ensures x in s
  {
    ElemsSize(s);
    if x !in s {
      SubsetSize(Elems(s), Upto(n) - {x});
    }
  }

  /** Fewer than n numbers leave one below n out. */
  lemma SomeoneMissing(s: seq<nat>, n: nat) returns (x: nat)
    requires |s| < n
    ensures x < n && x !in s
  {
    if forall y | y in Upto(n) :: y in s {
      SubsetSize(Upto(n), Elems(s));
      ElemsAtMost(s);
      assert false;
    }
    x :| x in Upto(n) && x !in s;
  }

  lemma {:induction false} ElemsAtMost<T>(s: seq<T>)
    ensures |Elems(s)| <= |s|
  {
    if s != [] {
      ElemsAtMost(s[1..]);
      assert Elems(s) == Elems(s[1..]) + {s[0]};
    }
  }
}
