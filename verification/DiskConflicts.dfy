/** Slot assignment, the elimination of conflicting claims, and selector resolution (disk/disk.c). */
module DiskConflicts {
  import opened Base
  import opened DiskModel
  import opened DiskNamespaces

  function Digit(d: nat): char
    requires d < 10
  {
    "0123456789"[d]
  }

  function Decimal(n: nat): string {
    if n < 10 then [Digit(n)] else Decimal(n / 10) + [Digit(n % 10)]
  }

  /** What every disk of a scan satisfies before conflicts are looked at: an unmapped disk claims
      nothing, and a mapped bay disk claims the slot name and the LED of its slot number. */
  ghost predicate Shaped(d: Disk) {
    if d.mapped then
      && d.slot > 0 && d.slotName != ""
      && (d.interface != Nvme ==> d.slotName == "ata" + Decimal(d.slot))
      && d.ledId == (if d.ledSupported then "disk" + Decimal(d.slot) else "")
    else d.slot == 0 && d.slotName == "" && d.ledId == "" && !d.ledSupported
  }

  /** A freshly read disk (`read_one`). */
  ghost predicate Fresh(d: Disk) {
    !d.mapped && d.slot == 0 && d.slotName == "" && d.ledId == "" && !d.ledSupported && d.interface != U2
  }

  /** A slot from the calibration file or a verified single controller, for a SATA disk; 0 is none. */
  function AssignSlot(d: Disk, slot: nat): Disk {
    if slot == 0 then d
    else d.(slot := slot, mapped := true, ledId := "disk" + Decimal(slot), ledSupported := true,
            slotName := "ata" + Decimal(slot))
  }

  /** A firmware rule: SATA and U.2 bays are named ataN, the other connectors nvmeN. */
  datatype RuleKind = SataRule | U2Rule | ConnectorRule
  datatype Rule = Rule(kind: RuleKind, number: nat, hasLed: bool)

  function RuleSlot(r: Rule): string {
    (if r.kind == ConnectorRule then "nvme" else "ata") + Decimal(r.number)
  }

  /** `apply_firmware_rule`. */
  function ApplyRule(d: Disk, r: Rule): Disk {
    if r.number == 0 then d
    else d.(slot := r.number, mapped := true, slotName := RuleSlot(r),
            interface := if r.kind == U2Rule then U2 else d.interface,
            ledSupported := r.hasLed, ledId := if r.hasLed then "disk" + Decimal(r.number) else "")
  }

  /** Give up every claim. */
  function Unmap(d: Disk): Disk {
    d.(mapped := false, ledSupported := false, slot := 0, ledId := "", slotName := "")
  }

  /** The firmware's LED record of a mapped SATA bay overrides the assumption that it has an LED. */
  function WithCapability(d: Disk, hasLed: Option<bool>): Disk {
    if d.mapped && d.interface == Sata && hasLed.Some? then
      d.(ledSupported := hasLed.value, ledId := if hasLed.value then d.ledId else "")
    else d
  }

  /** The mapping of one disk during enumeration: the calibrated or single-controller slot, then the
      firmware rules that match it, then the LED record of the bay it ended up in. */
  function MapDisk(d: Disk, slot: nat, matched: seq<Rule>, calibrated: bool, hasLed: Option<bool>): Disk {
    var a := if d.interface == Sata then AssignSlot(d, slot) else d;
    var b := if |matched| == 1 && !calibrated then ApplyRule(a, matched[0])
             else if |matched| > 1 then Unmap(a)
             else a;
    WithCapability(b, hasLed)
  }

  /** Whatever a disk's rules and slot are, its claims are consistent with its slot number. (A SATA rule
      matches SATA disks only, every other rule NVMe disks only, and a bay has one LED record.) */
  lemma MappingIsShaped(d: Disk, slot: nat, matched: seq<Rule>, calibrated: bool, hasLed: Option<bool>)
    requires Fresh(d)
    requires forall k :: 0 <= k < |matched| ==> (matched[k].kind == SataRule <==> d.interface == Sata)
    requires forall k :: 0 <= k < |matched| ==> matched[k].number > 0
    requires |matched| == 1 && !calibrated ==> hasLed.None? || hasLed.value == matched[0].hasLed
    ensures Shaped(MapDisk(d, slot, matched, calibrated, hasLed))
  {
  }

  /** How a disk is mapped: to its assigned slot; by the one firmware rule that matches, unless the slot was
      calibrated; to nothing when several rules match or nothing says where it is. */
  lemma MappingMeans(d: Disk, slot: nat, matched: seq<Rule>, calibrated: bool, hasLed: Option<bool>)
    requires Fresh(d)
    ensures var m := MapDisk(d, slot, matched, calibrated, hasLed);
      && (|matched| > 1 || (matched == [] && (slot == 0 || d.interface != Sata)) ==>
            !m.mapped && m.slot == 0 && m.slotName == m.ledId == "" && !m.ledSupported && m.interface == d.interface)
      && (d.interface == Sata && slot > 0 && (matched == [] || (|matched| == 1 && calibrated)) ==>
            && m.mapped && m.slot == slot && m.slotName == "ata" + Decimal(slot) && m.interface == Sata
            && m.ledSupported == (hasLed != Some(false)) && m.ledId == (if hasLed == Some(false) then "" else "disk" + Decimal(slot)))
      && (|matched| == 1 && !calibrated && matched[0].number > 0 ==>
            var r := matched[0];
            && m.mapped && m.slot == r.number && m.interface == (if r.kind == U2Rule then U2 else d.interface)
            && m.slotName == (if r.kind == ConnectorRule then "nvme" else "ata") + Decimal(r.number)
            && (m.interface != Sata || hasLed.None? ==>
                  m.ledSupported == r.hasLed && m.ledId == (if r.hasLed then "disk" + Decimal(r.number) else "")))
      && m == d.(mapped := m.mapped, slot := m.slot, slotName := m.slotName, ledId := m.ledId,
                 ledSupported := m.ledSupported, interface := m.interface)
  {
  }

  /** Two disks that cannot both be right. */
  predicate Clash(a: Disk, b: Disk) {
    || (a.topology != "" && a.topology == b.topology)
    || (a.slotName != "" && a.slotName == b.slotName)
    || (a.ledId != "" && a.ledId == b.ledId)
  }

  ghost predicate HasClash(disks: seq<Disk>, i: nat)
    requires i < |disks|
  {
    exists j :: 0 <= j < |disks| && j != i && Clash(disks[i], disks[j])
  }

  /** On a model whose SATA routing is unverified, an unmapped SATA disk makes every U.2 claim unsafe. */
  predicate Ambiguous(disks: seq<Disk>, unverified: bool) {
    unverified && exists k :: 0 <= k < |disks| && !disks[k].mapped && disks[k].interface == Sata
  }

  ghost predicate Loses(disks: seq<Disk>, unverified: bool, i: nat)
    requires i < |disks|
  {
    HasClash(disks, i) || (Ambiguous(disks, unverified) && disks[i].interface == U2)
  }

  /** The conflict pass keeps each disk's claims, or drops them all. */
  ghost predicate Cleared(before: seq<Disk>, unverified: bool, after: seq<Disk>) {
    && |after| == |before|
    && forall i :: 0 <= i < |before| ==>
         after[i] == if Loses(before, unverified, i) then Unmap(before[i]) else before[i]
  }

  /** A disk keeps its mapping exactly when no other disk shares its topology, slot name or LED, and its U.2
      bay is not in doubt; otherwise it gives up slot, slot name and LED, and nothing else. */
  lemma ClearedMeans(before: seq<Disk>, unverified: bool, after: seq<Disk>, i: nat)
    requires Cleared(before, unverified, after) && i < |before|
    ensures
      if || (exists j :: 0 <= j < |before| && j != i &&
               ((before[i].topology != "" && before[j].topology == before[i].topology) ||
                (before[i].slotName != "" && before[j].slotName == before[i].slotName) ||
                (before[i].ledId != "" && before[j].ledId == before[i].ledId)))
         || (unverified && before[i].interface == U2 && exists k :: 0 <= k < |before| && !before[k].mapped && before[k].interface == Sata)
      then after[i] == before[i].(mapped := false, ledSupported := false, slot := 0, ledId := "", slotName := "")
      else after[i] == before[i]
  {
    if j :| 0 <= j < |before| && j != i &&
            ((before[i].topology != "" && before[j].topology == before[i].topology) ||
             (before[i].slotName != "" && before[j].slotName == before[i].slotName) ||
             (before[i].ledId != "" && before[j].ledId == before[i].ledId)) {
      assert Clash(before[i], before[j]);
    }
    if HasClash(before, i) {
      var j :| 0 <= j < |before| && j != i && Clash(before[i], before[j]);
      assert before[j] == before[j];
    }
  }

  /** All pairs are compared before any claim is dropped. */
  method FindConflicts(disks: seq<Disk>, unverified: bool) returns (conflicts: array<bool>)
    ensures fresh(conflicts) && conflicts.Length == |disks|
    ensures forall i :: 0 <= i < |disks| ==> conflicts[i] == Loses(disks, unverified, i)
  {
    var ambiguous := Ambiguous(disks, unverified);
    conflicts := new bool[|disks|](i requires 0 <= i < |disks| => ambiguous && disks[i].interface == U2);
    var i := 0;
    while i < |disks|
      invariant 0 <= i <= |disks|
      invariant forall k :: 0 <= k < |disks| ==>
        conflicts[k] == ((ambiguous && disks[k].interface == U2) || ClashesSoFar(disks, k, i, 0))
    {
      var j := i + 1;
      while j < |disks|
        invariant i < j <= |disks|
        invariant forall k :: 0 <= k < |disks| ==>
          conflicts[k] == ((ambiguous && disks[k].interface == U2) || ClashesSoFar(disks, k, i, j))
      {
        if Clash(disks[i], disks[j]) { conflicts[i], conflicts[j] := true, true; }
        CompareNext(disks, i, j);
        j := j + 1;
      }
      RowDone(disks, i);
      i := i + 1;
    }
    forall k | 0 <= k < |disks| ensures ClashesSoFar(disks, k, |disks|, 0) <==> HasClash(disks, k) {
      if j :| 0 <= j < |disks| && j != k && Clash(disks[k], disks[j]) {
        assert Compared(k, j, |disks|, 0);
      }
    }
  }

  /** The unordered pair {a, b} was compared before row i, or in row i before column j. */
  predicate Compared(a: int, b: int, i: int, j: int) {
    var low, high := if a < b then a else b, if a < b then b else a;
    low < i || (low == i && high < j)
  }

  ghost predicate ClashesSoFar(disks: seq<Disk>, k: nat, i: nat, j: nat)
    requires k < |disks|
  {
    exists m :: 0 <= m < |disks| && m != k && Compared(k, m, i, j) && Clash(disks[k], disks[m])
  }

  lemma CompareNext(disks: seq<Disk>, i: nat, j: nat)
    requires i < j < |disks|
    ensures forall k :: 0 <= k < |disks| ==>
      (ClashesSoFar(disks, k, i, j + 1) <==>
       ClashesSoFar(disks, k, i, j) || ((k == i || k == j) && Clash(disks[i], disks[j])))
  {
    forall k | 0 <= k < |disks|
      ensures ClashesSoFar(disks, k, i, j + 1) <==>
              ClashesSoFar(disks, k, i, j) || ((k == i || k == j) && Clash(disks[i], disks[j]))
    {
      if m :| 0 <= m < |disks| && m != k && Compared(k, m, i, j) && Clash(disks[k], disks[m]) {
        assert Compared(k, m, i, j + 1);
      }
      if k == i && Clash(disks[i], disks[j]) { assert Compared(k, j, i, j + 1); }
      if k == j && Clash(disks[i], disks[j]) { assert Compared(k, i, i, j + 1) && Clash(disks[k], disks[i]); }
      if m :| 0 <= m < |disks| && m != k && Compared(k, m, i, j + 1) && Clash(disks[k], disks[m]) {
        assert Compared(k, m, i, j) || (k == i && m == j) || (k == j && m == i);
      }
    }
  }

  lemma RowDone(disks: seq<Disk>, i: nat)
    requires i < |disks|
    ensures forall k :: 0 <= k < |disks| ==>
      (ClashesSoFar(disks, k, i, |disks|) <==> ClashesSoFar(disks, k, i + 1, 0))
  {
    forall k | 0 <= k < |disks|
      ensures ClashesSoFar(disks, k, i, |disks|) <==> ClashesSoFar(disks, k, i + 1, 0)
    {
      if m :| 0 <= m < |disks| && m != k && Compared(k, m, i, |disks|) && Clash(disks[k], disks[m]) {
        assert Compared(k, m, i + 1, 0);
      }
      if m :| 0 <= m < |disks| && m != k && Compared(k, m, i + 1, 0) && Clash(disks[k], disks[m]) {
        assert Compared(k, m, i, |disks|);
      }
    }
  }

  /** The conflict pass of `ugreenctl_disk_scan_at`, in place. */
  method ClearConflicts(disks: array<Disk>, count: nat, unverified: bool)
    requires count <= disks.Length
    modifies disks
    ensures Cleared(old(disks[..count]), unverified, disks[..count])
    ensures disks[count..] == old(disks[count..])
  {
    ghost var before := disks[..count];
    var conflicts := FindConflicts(disks[..count], unverified);
    var i := 0;
    while i < count
      invariant 0 <= i <= count && disks[count..] == old(disks[count..])
      invariant forall k :: 0 <= k < i ==>
        disks[k] == if Loses(before, unverified, k) then Unmap(before[k]) else before[k]
      invariant forall k :: i <= k < count ==> disks[k] == before[k]
      invariant forall k :: 0 <= k < count ==> conflicts[k] == Loses(before, unverified, k)
    {
      if conflicts[i] { disks[i] := Unmap(disks[i]); }
      i := i + 1;
    }
  }

  /** No two mapped disks share a slot name, an LED or a topology. */
  ghost predicate Exclusive(disks: seq<Disk>) {
    forall i, j :: 0 <= i < |disks| && 0 <= j < |disks| && i != j && disks[i].mapped && disks[j].mapped ==>
      && disks[i].slotName != disks[j].slotName
      && (disks[i].ledId == "" || disks[i].ledId != disks[j].ledId)
      && (disks[i].topology == "" || disks[i].topology != disks[j].topology)
  }

  lemma ClearedIsExclusive(before: seq<Disk>, unverified: bool, after: seq<Disk>)
    requires Cleared(before, unverified, after) && forall i :: 0 <= i < |before| ==> Shaped(before[i])
    ensures Exclusive(after) && forall i :: 0 <= i < |after| ==> Shaped(after[i])
    ensures forall i :: 0 <= i < |after| ==>
      (after[i].mapped <==> before[i].mapped && !Loses(before, unverified, i)) &&
      (after[i].mapped ==> after[i] == before[i])
  {
    forall i, j | 0 <= i < |after| && 0 <= j < |after| && i != j && after[i].mapped && after[j].mapped
      ensures !Clash(after[i], after[j]) && after[i].slotName != ""
    {
      assert after[i] == before[i] && after[j] == before[j];
      assert !HasClash(before, i);
    }
  }

  /** Whether a disk loses its claims depends on the other disks, not on the order they were listed in. */
  lemma LosesInAnyOrder(a: seq<Disk>, b: seq<Disk>, unverified: bool, i: nat, k: nat)
    requires multiset(a) == multiset(b) && Distinct(a) && Distinct(b)
    requires i < |a| && k < |b| && a[i] == b[k]
    ensures Loses(a, unverified, i) ==> Loses(b, unverified, k)
  {
    assert forall x :: x in a <==> x in multiset(a);
    assert forall x :: x in b <==> x in multiset(b);
    if HasClash(a, i) {
      var j :| 0 <= j < |a| && j != i && Clash(a[i], a[j]);
      assert a[j] in b;
      var m :| 0 <= m < |b| && b[m] == a[j];
      assert m != k && Clash(b[k], b[m]);
    }
    if Ambiguous(a, unverified) {
      var j :| 0 <= j < |a| && !a[j].mapped && a[j].interface == Sata;
      assert a[j] in b;
      var m :| 0 <= m < |b| && b[m] == a[j];
    }
  }
}
