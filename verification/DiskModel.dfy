/** Disks of a scan (disk/disk.h) and the byte order of names. */
module DiskModel {
  datatype Interface = Sata | Nvme | U2

  datatype Disk = Disk(name: string, device: string, serial: string, wwn: string, topology: string, pci: string,
                       interface: Interface, slot: nat, mapped: bool, slotName: string,
                       ledSupported: bool, ledId: string)

  /** `strcmp(a, b) < 0`. */
  predicate Less(a: string, b: string) {
    if b == "" then false
    else if a == "" then true
    else a[0] < b[0] || (a[0] == b[0] && Less(a[1..], b[1..]))
  }

  /** Byte by byte: the first difference decides, and a name comes before its continuations. */
  lemma {:induction false} LessExactly(a: string, b: string)
    ensures Less(a, b) <==>
      exists n: nat :: n <= |a| && n < |b| && a[..n] == b[..n] && (n == |a| || a[n] < b[n])
  {
    if a == "" || b == "" || a[0] != b[0] {
      if b != "" && (a == "" || a[0] < b[0]) { assert a[..0] == b[..0]; }
    } else {
      LessExactly(a[1..], b[1..]);
      if n: nat :| n <= |a[1..]| && n < |b[1..]| && a[1..][..n] == b[1..][..n] && (n == |a[1..]| || a[1..][n] < b[1..][n]) {
        assert a[..n + 1] == [a[0]] + a[1..][..n] && b[..n + 1] == [b[0]] + b[1..][..n];
      }
      if n: nat :| n <= |a| && n < |b| && a[..n] == b[..n] && (n == |a| || a[n] < b[n]) {
        assert n > 0;
        assert a[1..][..n - 1] == a[..n][1..] && b[1..][..n - 1] == b[..n][1..];
      }
    }
  }

  lemma {:induction false} LessTransitive(a: string, b: string, c: string)
    requires Less(a, b) && Less(b, c)
    ensures Less(a, c)
  {
    if a != "" && a[0] == b[0] == c[0] { LessTransitive(a[1..], b[1..], c[1..]); }
  }

  lemma {:induction false} LessTotal(a: string, b: string)
    ensures a == b || Less(a, b) || Less(b, a)
    ensures !(Less(a, b) && Less(b, a)) && !Less(a, a)
  {
    if a != "" && b != "" {
      LessTotal(a[1..], b[1..]);
      LessTotal(a[1..], a[1..]);
      assert a == [a[0]] + a[1..] && b == [b[0]] + b[1..];
    } else if a != "" {
      LessTotal(a[1..], a[1..]);
    }
  }

  ghost predicate Distinct<T>(s: seq<T>) {
    forall i, j :: 0 <= i < j < |s| ==> s[i] != s[j]
  }

  function Elements<T>(s: seq<T>): set<T> { set x | x in s }

  /** A sequence has no more members than positions, and exactly as many when nothing repeats. */
  lemma {:induction false} ElementsSize<T>(s: seq<T>)
    ensures |Elements(s)| <= |s|
    ensures |Elements(s)| == |s| <==> Distinct(s)
  {
    if s == [] {
      assert Elements(s) == {};
    } else {
      var n := |s| - 1;
      var init, last := s[..n], s[n];
      ElementsSize(init);
      assert Elements(s) == Elements(init) + {last};
      if last in init {
        assert Elements(s) == Elements(init);
        var k :| 0 <= k < n && init[k] == last;
        assert s[k] == s[n];
      } else {
        assert forall i :: 0 <= i < n ==> s[i] == init[i];
      }
    }
  }

  lemma MiddleOut<T>(left: seq<T>, middle: seq<T>, right: seq<T>)
    ensures multiset(left + middle + right) == multiset(left + right) + multiset(middle)
  {
  }

  /** What stands around the last of `a` in a reordering of `a`. */
  lemma AroundLast<T>(a: seq<T>, b: seq<T>) returns (left: seq<T>, right: seq<T>)
    requires multiset(a) == multiset(b) && a != []
    ensures b == left + [a[|a| - 1]] + right
    ensures multiset(a[..|a| - 1]) == multiset(left + right)
  {
    var n := |a| - 1;
    assert a == a[..n] + [a[n]];
    assert a[n] in multiset(b);
    var k :| 0 <= k < |b| && b[k] == a[n];
    left, right := b[..k], b[k + 1..];
    assert b == left + [b[k]] + right;
    MiddleOut(left, [b[k]], right);
    assert multiset(left + right) == multiset(b) - multiset{a[n]};
  }

  lemma OnlyEmpty<T>(b: seq<T>)
    requires multiset(b) == multiset([])
    ensures b == []
  {
    assert |multiset(b)| == |b|;
  }

  /** What each of a list contributes, in order. */
  function Flat<T, U>(f: T -> seq<U>, s: seq<T>): seq<U> {
    if s == [] then [] else Flat(f, s[..|s| - 1]) + f(s[|s| - 1])
  }

  lemma FlatSnoc<T, U>(f: T -> seq<U>, left: seq<T>, x: T)
    ensures Flat(f, left + [x]) == Flat(f, left) + f(x)
  {
    assert (left + [x])[..|left|] == left;
  }

  lemma {:induction false} FlatConcat<T, U>(f: T -> seq<U>, a: seq<T>, b: seq<T>)
    ensures Flat(f, a + b) == Flat(f, a) + Flat(f, b)
  {
    if b == [] {
      assert a + b == a;
    } else {
      var front, last := b[..|b| - 1], b[|b| - 1];
      FlatConcat(f, a, front);
      FlatConcatNext(f, a, front, last);
      assert b == front + [last];
    }
  }

  lemma FlatConcatNext<T, U>(f: T -> seq<U>, a: seq<T>, front: seq<T>, last: T)
    requires Flat(f, a + front) == Flat(f, a) + Flat(f, front)
    ensures Flat(f, a + (front + [last])) == Flat(f, a) + Flat(f, front + [last])
  {
    AppendInTurn(a, front, [last]);
    FlatSnoc(f, a + front, last);
    FlatSnoc(f, front, last);
    AppendInTurn(Flat(f, a), Flat(f, front), f(last));
  }

  lemma AppendInTurn<T>(a: seq<T>, b: seq<T>, c: seq<T>)
    ensures a + b + c == a + (b + c)
  {
  }

  lemma FlatAround<T, U>(f: T -> seq<U>, left: seq<T>, x: T, right: seq<T>)
    ensures multiset(Flat(f, left + [x] + right)) == multiset(Flat(f, left + right)) + multiset(f(x))
  {
    FlatConcat(f, left + [x], right);
    FlatConcat(f, left, right);
    FlatSnoc(f, left, x);
    MiddleOut(Flat(f, left), f(x), Flat(f, right));
  }

  /** Reordering a list reorders what it contributes. */
  lemma {:induction false} FlatInAnyOrder<T, U>(f: T -> seq<U>, a: seq<T>, b: seq<T>)
    requires multiset(a) == multiset(b)
    ensures multiset(Flat(f, a)) == multiset(Flat(f, b))
    decreases |a|
  {
    if a == [] {
      OnlyEmpty(b);
    } else {
      var front, last := a[..|a| - 1], a[|a| - 1];
      var left, right := AroundLast(a, b);
      FlatInAnyOrder(f, front, left + right);
      FlatAround(f, left, last, right);
      assert a == front + [last];
      FlatSnoc(f, front, last);
    }
  }

  /** Lists without repeats that have the same members are reorderings of each other. */
  lemma SameMembers<T>(a: seq<T>, b: seq<T>)
    requires Distinct(a) && Distinct(b) && Elements(a) == Elements(b)
    ensures multiset(a) == multiset(b)
  {
    forall x ensures multiset(a)[x] == multiset(b)[x] {
      OnceInDistinct(a, x);
      OnceInDistinct(b, x);
      assert x in Elements(a) <==> x in Elements(b);
    }
  }

  lemma {:induction false} OnceInDistinct<T>(s: seq<T>, x: T)
    requires Distinct(s)
    ensures multiset(s)[x] == if x in s then 1 else 0
  {
    if s != [] {
      var n := |s| - 1;
      OnceInDistinct(s[..n], x);
      assert s == s[..n] + [s[n]];
    }
  }
}
