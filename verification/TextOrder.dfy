/** Python's ordering of strings (code point by code point) and what `sorted` yields on a set of them.
    Used wherever the system sorts ids, nonces or JSON keys. */
module TextOrder {
  import opened Common

  predicate Leq(a: string, b: string) {
    a == [] || (b != [] && (a[0] < b[0] || (a[0] == b[0] && Leq(a[1..], b[1..]))))
  }

  predicate Less(a: string, b: string) {
    a != b && Leq(a, b)
  }

  lemma {:induction false} LeqRefl(a: string)
    ensures Leq(a, a)
  {
    if a == [] {
    } else {
      LeqRefl(a[1..]);
    }
  }

  lemma {:induction false} LeqTotal(a: string, b: string)
    ensures Leq(a, b) || Leq(b, a)
  {
    if a == [] || b == [] {
    } else {
      LeqTotal(a[1..], b[1..]);
    }
  }

  lemma {:induction false} LeqAntisym(a: string, b: string)
    requires Leq(a, b) && Leq(b, a)
    ensures a == b
  {
    if a == [] || b == [] {
    } else {
      LeqAntisym(a[1..], b[1..]);
      assert a == [a[0]] + a[1..] && b == [b[0]] + b[1..];
    }
  }

  lemma {:induction false} LeqTrans(a: string, b: string, c: string)
    requires Leq(a, b) && Leq(b, c)
    ensures Leq(a, c)
  {
    if a != [] && b != [] && c != [] && a[0] == b[0] == c[0] {
      LeqTrans(a[1..], b[1..], c[1..]);
    }
  }

  lemma LessTrans(a: string, b: string, c: string)
    requires (Less(a, b) && Leq(b, c)) || (Leq(a, b) && Less(b, c))
    ensures Less(a, c)
  {
    LeqTrans(a, b, c);
    if a == c { LeqAntisym(a, b); }
  }

  predicate IsMax(S: set<string>, m: string) {
    m in S && forall x :: x in S ==> Leq(x, m)
  }

  lemma MaxExists(S: set<string>) returns (m: string)
    requires S != {}
    ensures IsMax(S, m)
  {
    var x :| x in S;
    LeqRefl(x);
    if S == {x} {
      m := x;
    } else {
      var rest := S - {x};
      assert S == rest + {x};
      var r := MaxExists(rest);
      LeqTotal(x, r);
      if Leq(x, r) {
        m := r;
      } else {
        m := x;
        forall y | y in S ensures Leq(y, x) { if y != x { LeqTrans(y, r, x); } }
      }
    }
  }

  lemma MaxUnique(S: set<string>)
    ensures forall m, n :: IsMax(S, m) && IsMax(S, n) ==> m == n
  {
    forall m, n | IsMax(S, m) && IsMax(S, n) ensures m == n { LeqAntisym(m, n); }
  }

  function Max(S: set<string>): (m: string)
    requires S != {}
    ensures IsMax(S, m)
  {
    assert exists m :: IsMax(S, m) by { var m := MaxExists(S); }
    MaxUnique(S);
    var m :| m in S && IsMax(S, m);
    m
  }

  /** `sorted(S)` for a Python set of strings. */
  function Sorted(S: set<string>): (r: seq<string>)
    ensures Increasing(r) && Elements(r) == S && |r| == |S|
    decreases |S|
  {
    if S == {} then []
    else
      var m := Max(S);
      var r := Sorted(S - {m});
      SortedStep(S, m, r);
      r + [m]
  }

  ghost predicate Increasing(s: seq<string>) {
    forall i, j :: 0 <= i < j < |s| ==> Less(s[i], s[j])
  }

  lemma SortedStep(S: set<string>, m: string, r: seq<string>)
    requires IsMax(S, m)
    requires Increasing(r) && Elements(r) == S - {m} && |r| == |S - {m}|
    ensures Increasing(r + [m]) && Elements(r + [m]) == S && |r + [m]| == |S|
  {
    forall x | x in r ensures Leq(x, m) && x != m { assert x in Elements(r); }
    AppendMax(r, m);
    assert S == (S - {m}) + {m};
  }

  lemma AppendMax(r: seq<string>, m: string)
    requires Increasing(r)
    requires forall x :: x in r ==> Leq(x, m) && x != m
    ensures Increasing(r + [m]) && Elements(r + [m]) == Elements(r) + {m}
  {
    forall i, j | 0 <= i < j < |r + [m]| ensures Less((r + [m])[i], (r + [m])[j]) {
      if j == |r| { assert r[i] in r; }
    }
  }

  /** A strictly increasing sequence is determined by its elements. */
  lemma {:induction false} IncreasingUnique(s: seq<string>, t: seq<string>)
    requires Increasing(s) && Increasing(t) && Elements(s) == Elements(t)
    ensures s == t
    decreases |s|
  {
    assert |s| == |t| by {
      SizeOfIncreasing(s);
      SizeOfIncreasing(t);
    }
    if s != [] {
      var m, n := s[|s|-1], t[|t|-1];
      LastIsMax(s);
      LastIsMax(t);
      MaxUnique(Elements(s));
      assert m == n;
      var s', t' := s[..|s|-1], t[..|t|-1];
      assert s == s' + [m] && t == t' + [n];
      forall x ensures x in Elements(s') <==> x in Elements(s) && x != m {
        if x in Elements(s') { var i :| 0 <= i < |s'| && s'[i] == x; assert Less(s[i], s[|s|-1]); }
      }
      forall x ensures x in Elements(t') <==> x in Elements(t) && x != n {
        if x in Elements(t') { var i :| 0 <= i < |t'| && t'[i] == x; assert Less(t[i], t[|t|-1]); }
      }
      IncreasingUnique(s', t');
    }
  }

  lemma LastIsMax(s: seq<string>)
    requires Increasing(s) && s != []
    ensures IsMax(Elements(s), s[|s|-1])
  {
    LeqRefl(s[|s|-1]);
    forall x | x in Elements(s) ensures Leq(x, s[|s|-1]) {
      var i :| 0 <= i < |s| && s[i] == x;
    }
  }

  // ---- The k largest members of a set ----

  /** The members of S strictly above x. */
  function Above(S: set<string>, x: string): (r: set<string>) {
    set y | y in S && Less(x, y)
  }

  /** Python's `s[-k:]`. */
  function LastK<T>(s: seq<T>, k: nat): seq<T> {
    if |s| <= k then s else s[|s| - k..]
  }

  /** The k largest members: those with fewer than k members above them. */
  function Top(k: nat, S: set<string>): (r: set<string>) {
    set x | x in S && |Above(S, x)| < k
  }

  lemma SubsetSize<T>(a: set<T>, b: set<T>)
    requires a <= b
    ensures |a| <= |b|
  {
    if a != {} {
      var x :| x in a;
      SubsetSize(a - {x}, b - {x});
    }
  }

  lemma {:induction false} SizeOfIncreasing(s: seq<string>)
    requires Increasing(s)
    ensures |Elements(s)| == |s|
  {
    if s == [] {
    } else {
      var s', m := s[..|s|-1], s[|s|-1];
      SizeOfIncreasing(s');
      forall x | x in s' ensures x != m {
        var i :| 0 <= i < |s'| && s'[i] == x;
        assert Less(s[i], s[|s|-1]);
      }
      assert s == s' + [m];
      assert Elements(s) == Elements(s') + {m};
    }
  }

  lemma AboveInSorted(s: seq<string>, i: nat)
    requires Increasing(s) && i < |s|
    ensures |Above(Elements(s), s[i])| == |s| - 1 - i
  {
    var t := s[i+1..];
    forall x ensures x in Above(Elements(s), s[i]) <==> x in Elements(t) {
      if x in Above(Elements(s), s[i]) {
        var j :| 0 <= j < |s| && s[j] == x;
        if j < i { assert Less(s[j], s[i]); LeqAntisym(s[j], s[i]); }
        assert j > i;
        assert t[j - i - 1] == x;
      }
      if x in Elements(t) {
        var j :| 0 <= j < |t| && t[j] == x;
        assert Less(s[i], s[i + 1 + j]);
      }
    }
    assert Above(Elements(s), s[i]) == Elements(t);
    SizeOfIncreasing(t);
  }

  lemma InLastKIff(s: seq<string>, k: nat, x: string)
    requires Increasing(s)
    ensures x in LastK(s, k) <==> x in Elements(s) && |Above(Elements(s), x)| < k
  {
    var t := LastK(s, k);
    if x in Elements(s) {
      var i :| 0 <= i < |s| && s[i] == x;
      AboveInSorted(s, i);
      if |s| - 1 - i < k {
        assert t[if |s| <= k then i else i - (|s| - k)] == x;
      }
    }
  }

  /** Slicing the last k of the sorted list keeps exactly the k largest members. */
  lemma LastKIsTop(S: set<string>, k: nat)
    ensures Elements(LastK(Sorted(S), k)) == Top(k, S)
    ensures Increasing(LastK(Sorted(S), k))
    ensures |Top(k, S)| == if |S| <= k then |S| else k
  {
    var s := Sorted(S);
    var t := LastK(s, k);
    forall x ensures x in Elements(t) <==> x in Top(k, S) { InLastKIff(s, k, x); }
    assert Elements(t) == Top(k, S);
    SizeOfIncreasing(t);
  }

  /** Keeping the k largest of "the k largest of E, plus n" is keeping the k largest of E plus n. */
  lemma TopInsert(k: nat, E: set<string>, n: string)
    ensures Top(k, Top(k, E) + {n}) == Top(k, E + {n})
  {
    var T := Top(k, E);
    forall x ensures x in Top(k, T + {n}) <==> x in Top(k, E + {n}) {
      SubsetSize(Above(T + {n}, x), Above(E + {n}, x));
      SubsetSize(Above(E, x), Above(E + {n}, x));
      if x in Top(k, T + {n}) && x !in Top(k, E + {n}) {
        assert exists y :: y in Above(E + {n}, x) && y !in Above(T + {n}, x) by {
          if Above(E + {n}, x) <= Above(T + {n}, x) { SubsetSize(Above(E + {n}, x), Above(T + {n}, x)); }
        }
        var y :| y in Above(E + {n}, x) && y !in Above(T + {n}, x);
        DroppedBelowTop(k, E, y);
        forall t | t in T ensures t in Above(T + {n}, x) { LessTrans(x, y, t); }
        SubsetSize(T, Above(T + {n}, x));
        LastKIsTop(E, k);
        SubsetSize(Above(E, y), E);
      }
    }
  }

  /** A member that did not make the top k lies below every one that did. */
  lemma DroppedBelowTop(k: nat, E: set<string>, y: string)
    requires y in E && y !in Top(k, E)
    ensures forall t :: t in Top(k, E) ==> Less(y, t)
  {
    forall t | t in Top(k, E) ensures Less(y, t) {
      LeqTotal(y, t);
      if !Leq(y, t) {
        forall z | z in Above(E, y) ensures z in Above(E, t) { LessTrans(t, y, z); }
        SubsetSize(Above(E, y), Above(E, t));
      }
    }
  }

  /** Maintaining the last k of the sorted list one insertion at a time. */
  lemma LastKInsert(k: nat, p: seq<string>, E: set<string>, n: string)
    requires p == LastK(Sorted(E), k)
    ensures LastK(Sorted(Elements(p) + {n}), k) == LastK(Sorted(E + {n}), k)
  {
    var S := Elements(p) + {n};
    assert Elements(p) == Top(k, E) by { LastKIsTop(E, k); }
    assert Top(k, S) == Top(k, E + {n}) by { TopInsert(k, E, n); }
    LastKIsTop(S, k);
    LastKIsTop(E + {n}, k);
    IncreasingUnique(LastK(Sorted(S), k), LastK(Sorted(E + {n}), k));
  }
}
