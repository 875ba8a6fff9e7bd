/** Port inventories of SATA controllers and the conversion from a controller-local port to the
    firmware's bay index (disk/disk.c). Directory listings come in any order. */
module DiskPorts {
  import opened Base

  /** What `controller_ports` makes of one entry of class/ata_port. */
  datatype PortEntry =
    | Elsewhere  // belongs to another controller
    | Broken  // unresolvable, misnamed, misplaced, or without a readable number
    | Port(number: nat)

  /** The port numbers of a listing. */
  function Numbers(entries: seq<PortEntry>): multiset<nat> {
    if entries == [] then multiset{}
    else
      var e := entries[|entries| - 1];
      Numbers(entries[..|entries| - 1]) + (if e.Port? then multiset{e.number} else multiset{})
  }

  function UpTo(n: nat): (r: set<nat>)
    ensures |r| == n && forall i: nat :: i in r <==> 1 <= i <= n
  {
    if n == 0 then {} else UpTo(n - 1) + {n}
  }

  /** The ports listed are a permutation of 1..n, and nothing is broken. */
  ghost predicate Complete(entries: seq<PortEntry>, n: nat) {
    1 <= n <= 8 && Broken !in entries && Numbers(entries) == multiset(UpTo(n))
  }

  /** One bit per port. */
  function PortBit(p: nat): bv8
    requires 1 <= p <= 8
  {
    if p == 1 then 1 else if p == 2 then 2 else if p == 3 then 4 else if p == 4 then 8
    else if p == 5 then 16 else if p == 6 then 32 else if p == 7 then 64 else 128
  }

  function BitIf(b: bool, p: nat): bv8
    requires 1 <= p <= 8
  {
    if b then PortBit(p) else 0
  }

  /** The mask of the ports up to k in a set. */
  function MaskUpTo(s: set<nat>, k: nat): bv8
    requires k <= 8
  {
    if k == 0 then 0 else MaskUpTo(s, k - 1) | BitIf(k in s, k)
  }

  function MaskOf(s: set<nat>): bv8 { MaskUpTo(s, 8) }

  /** (1 << n) - 1 */
  function FullMask(n: nat): bv8
    requires 1 <= n <= 8
  {
    if n == 8 then 255 else PortBit(n + 1) - 1
  }

  lemma MaskBits(s: set<nat>)
    ensures MaskOf(s) == BitIf(1 in s, 1) | BitIf(2 in s, 2) | BitIf(3 in s, 3) | BitIf(4 in s, 4) |
                         BitIf(5 in s, 5) | BitIf(6 in s, 6) | BitIf(7 in s, 7) | BitIf(8 in s, 8)
  {
    assert MaskUpTo(s, 0) == 0;
    assert MaskUpTo(s, 1) == BitIf(1 in s, 1);
    assert MaskUpTo(s, 2) == MaskUpTo(s, 1) | BitIf(2 in s, 2);
    assert MaskUpTo(s, 3) == MaskUpTo(s, 2) | BitIf(3 in s, 3);
    assert MaskUpTo(s, 4) == MaskUpTo(s, 3) | BitIf(4 in s, 4);
    assert MaskUpTo(s, 5) == MaskUpTo(s, 4) | BitIf(5 in s, 5);
    assert MaskUpTo(s, 6) == MaskUpTo(s, 5) | BitIf(6 in s, 6);
    assert MaskUpTo(s, 7) == MaskUpTo(s, 6) | BitIf(7 in s, 7);
  }

  lemma MaskTest(s: set<nat>, p: nat)
    requires 1 <= p <= 8
    ensures MaskOf(s) & PortBit(p) != 0 <==> p in s
  {
    MaskBits(s);
  }

  lemma OrFacts(m: bv8, a: bv8, b: bv8)
    ensures (m | a) | b == (m | b) | a
    ensures (m | a) | a == m | a && (m | 0) == m
  {
  }

  lemma {:induction false} MaskSet(s: set<nat>, p: nat, k: nat)
    requires 1 <= p <= 8 && k <= 8
    ensures MaskUpTo(s + {p}, k) == if p <= k then MaskUpTo(s, k) | PortBit(p) else MaskUpTo(s, k)
  {
    if k > 0 {
      MaskSet(s, p, k - 1);
      OrFacts(MaskUpTo(s, k - 1), PortBit(p), BitIf(k in s, k));
      if k == p {
        assert BitIf(k in s + {p}, k) == PortBit(p);
      } else {
        assert k in s + {p} <==> k in s;
      }
    }
  }

  lemma MaskFull(n: nat)
    requires 1 <= n <= 8
    ensures MaskOf(UpTo(n)) == FullMask(n)
  {
    MaskBits(UpTo(n));
  }

  /** A set of ports within 1..n with n members is all of them. */
  lemma FullByCount(s: set<nat>, n: nat)
    requires s <= UpTo(n) && |s| == n
    ensures s == UpTo(n)
  {
    var rest := UpTo(n) - s;
    assert s + rest == UpTo(n);
    assert |s + rest| == |s| + |rest|;
  }

  lemma {:induction false} NumbersPrefix(entries: seq<PortEntry>, i: nat)
    requires i <= |entries|
    ensures Numbers(entries[..i]) <= Numbers(entries)
    decreases |entries|
  {
    if i < |entries| {
      assert entries[..|entries| - 1][..i] == entries[..i];
      NumbersPrefix(entries[..|entries| - 1], i);
    } else {
      assert entries[..i] == entries;
    }
  }

  /** The first i entries are sound and list exactly the ports in `seen`, once each. */
  ghost predicate Tracked(entries: seq<PortEntry>, i: nat, seen: set<nat>, wanted: nat)
    requires i <= |entries|
  {
    seen <= UpTo(wanted) && Broken !in entries[..i] && Numbers(entries[..i]) == multiset(seen)
  }

  /** What the next entry means for the verdict. */
  lemma TrackEntry(entries: seq<PortEntry>, i: nat, seen: set<nat>, wanted: nat)
    requires i < |entries| && Tracked(entries, i, seen, wanted)
    ensures match entries[i]
      case Elsewhere => Tracked(entries, i + 1, seen, wanted)
      case Broken => !Complete(entries, wanted)
      case Port(p) =>
        if p in UpTo(wanted) && p !in seen then Tracked(entries, i + 1, seen + {p}, wanted)
        else !Complete(entries, wanted)
  {
    var e := entries[i];
    assert entries[..i + 1][..i] == entries[..i] && entries[..i + 1] == entries[..i] + [e];
    NumbersPrefix(entries, i + 1);
    if e.Port? {
      assert Numbers(entries[..i + 1]) == multiset(seen) + multiset{e.number};
      assert Numbers(entries)[e.number] >= Numbers(entries[..i + 1])[e.number];
      if e.number !in seen { assert multiset(seen + {e.number}) == multiset(seen) + multiset{e.number}; }
    }
  }

  /** Test a port's bit and set it. */
  method TakeBit(mask: bv8, p: nat, ghost seen: set<nat>) returns (wasClear: bool, next: bv8)
    requires 1 <= p <= 8 && mask == MaskOf(seen)
    ensures wasClear <==> p !in seen
    ensures wasClear ==> next == MaskOf(seen + {p})
  {
    MaskTest(seen, p);
    MaskSet(seen, p, 8);
    wasClear := mask & PortBit(p) == 0;
    next := mask | PortBit(p);
  }

  /** The counting loop's state after i entries. */
  ghost predicate Counted(entries: seq<PortEntry>, i: nat, mask: bv8, count: nat, seen: set<nat>, wanted: nat) {
    i <= |entries| && mask == MaskOf(seen) && count == |seen| && Tracked(entries, i, seen, wanted)
  }

  lemma NothingCounted(entries: seq<PortEntry>, wanted: nat)
    ensures Counted(entries, 0, 0, 0, {}, wanted)
  {
    MaskBits({});
  }

  /** One more numbered port. */
  method CountPort(entries: seq<PortEntry>, i: nat, mask: bv8, count: nat, ghost seen: set<nat>, wanted: nat)
    returns (valid: bool, next: bv8, ghost now: set<nat>)
    requires 1 <= wanted <= 8 && i < |entries| && entries[i].Port? && Counted(entries, i, mask, count, seen, wanted)
    ensures !valid ==> !Complete(entries, wanted)
    ensures valid ==> Counted(entries, i + 1, next, count + 1, now, wanted)
  {
    TrackEntry(entries, i, seen, wanted);
    var p := entries[i].number;
    valid, next, now := false, mask, seen + {p};
    if p == 0 || p > wanted { return; }
    valid, next := TakeBit(mask, p, seen);
  }

  /** One more entry: counted, passed over, or ruling `wanted` out. */
  method CountEntry(entries: seq<PortEntry>, i: nat, mask: bv8, count: nat, ghost seen: set<nat>, wanted: nat)
    returns (valid: bool, next: bv8, total: nat, ghost now: set<nat>)
    requires 1 <= wanted <= 8 && i < |entries| && Counted(entries, i, mask, count, seen, wanted)
    ensures !valid ==> !Complete(entries, wanted)
    ensures valid ==> Counted(entries, i + 1, next, total, now, wanted)
  {
    valid, next, total, now := true, mask, count, seen;
    if entries[i].Port? {
      valid, next, now := CountPort(entries, i, mask, count, seen, wanted);
      total := count + 1;
    } else {
      TrackEntry(entries, i, seen, wanted);
      valid := entries[i].Elsewhere?;
    }
  }

  /** The counting loop of `controller_ports`; it stops at the first entry that rules `wanted` out. */
  method ScanPorts(entries: seq<PortEntry>, wanted: nat) returns (valid: bool, mask: bv8, count: nat, ghost seen: set<nat>)
    requires 1 <= wanted <= 8
    ensures !valid ==> !Complete(entries, wanted)
    ensures valid ==> Counted(entries, |entries|, mask, count, seen, wanted)
  {
    valid, mask, count, seen := true, 0, 0, {};
    NothingCounted(entries, wanted);
    var i := 0;
    while i < |entries|
      invariant i <= |entries| && valid && Counted(entries, i, mask, count, seen, wanted)
    {
      valid, mask, count, seen := CountEntry(entries, i, mask, count, seen, wanted);
      if !valid { return; }
      i := i + 1;
    }
  }

  /** When the scan went through, the ports are complete exactly if all were counted. */
  lemma CompleteByCount(entries: seq<PortEntry>, seen: set<nat>, wanted: nat)
    requires 1 <= wanted <= 8 && Tracked(entries, |entries|, seen, wanted)
    ensures Complete(entries, wanted) <==> |seen| == wanted
    ensures |seen| == wanted ==> MaskOf(seen) == FullMask(wanted)
  {
    assert entries[..|entries|] == entries;
    assert |multiset(seen)| == |seen| && |multiset(UpTo(wanted))| == wanted;
    if |seen| == wanted {
      FullByCount(seen, wanted);
      MaskFull(wanted);
    }
  }

  /** `controller_ports`: bitmask, range and count together accept exactly the permutations of 1..n. */
  method ControllerPorts(ahci: bool, entries: seq<PortEntry>, wanted: nat) returns (accepted: bool)
    ensures accepted <==> ahci && Complete(entries, wanted)
  {
    if wanted == 0 || wanted > 8 || !ahci { return false; }
    ghost var seen;
    var valid, mask, count;
    valid, mask, count, seen := ScanPorts(entries, wanted);
    if valid { CompleteByCount(entries, seen, wanted); }
    accepted := valid && count == wanted && mask == FullMask(wanted);
  }

  /** At most one port count is accepted, so trying 1 to 8 in turn finds the only one. */
  lemma OnlyOneCount(entries: seq<PortEntry>, m: nat, n: nat)
    requires Complete(entries, m) && Complete(entries, n)
    ensures m == n
  {
    assert |multiset(UpTo(m))| == m && |multiset(UpTo(n))| == n;
  }

  lemma {:induction false} NumbersCount(entries: seq<PortEntry>, p: nat)
    ensures Numbers(entries)[p] == multiset(entries)[Port(p)]
  {
    if entries != [] {
      var n := |entries| - 1;
      NumbersCount(entries[..n], p);
      assert entries == entries[..n] + [entries[n]];
    }
  }

  /** That is: nothing is broken, and each of the ports 1 to n, and no other, is listed exactly once. */
  lemma CompleteMeans(entries: seq<PortEntry>, n: nat)
    ensures Complete(entries, n) <==>
      1 <= n <= 8 && Broken !in entries && forall p: nat :: multiset(entries)[Port(p)] == if 1 <= p <= n then 1 else 0
  {
    forall p: nat ensures Numbers(entries)[p] == multiset(entries)[Port(p)] { NumbersCount(entries, p); }
    assert forall p: nat :: multiset(UpTo(n))[p] == if 1 <= p <= n then 1 else 0;
    if forall p: nat :: multiset(entries)[Port(p)] == (if 1 <= p <= n then 1 else 0) {
      forall p: nat ensures Numbers(entries)[p] == multiset(UpTo(n))[p] {}
      assert Numbers(entries) == multiset(UpTo(n));
    }
  }

  /** Reordering the directory changes neither the ports found nor the verdict. */
  lemma CompleteInAnyOrder(a: seq<PortEntry>, b: seq<PortEntry>, n: nat)
    requires multiset(a) == multiset(b)
    ensures Complete(a, n) <==> Complete(b, n)
  {
    assert Broken in a <==> Broken in multiset(a);
    assert Broken in b <==> Broken in multiset(b);
    forall p: nat ensures Numbers(a)[p] == Numbers(b)[p] {
      NumbersCount(a, p);
      NumbersCount(b, p);
    }
    assert Numbers(a) == Numbers(b);
  }
}
