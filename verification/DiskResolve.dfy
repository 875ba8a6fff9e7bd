/** Which disk, and so which LED, a selector means (`ugreenctl_disk_resolve` in disk/disk.c). */
module DiskResolve {
  import opened Base
  import opened DiskModel
  import opened DiskNamespaces
  import opened DiskConflicts

  const UINT_MAX := 0xffff_ffff

  predicate IsDigit(c: char) { '0' <= c <= '9' }

  function DigitsValue(s: string): nat
    requires forall i :: 0 <= i < |s| ==> IsDigit(s[i])
  {
    if s == "" then 0
    else
      var c := s[|s| - 1];
      assert IsDigit(c);
      DigitsValue(s[..|s| - 1]) * 10 + (c as int - '0' as int)
  }

  /** `parse_number`. */
  function ParseNumber(s: string): Option<nat> {
    if s != "" && (forall i :: 0 <= i < |s| ==> IsDigit(s[i])) && DigitsValue(s) <= UINT_MAX then Some(DigitsValue(s))
    else None
  }

  /** The printed form of a number is read back as that number. */
  lemma {:induction false} DecimalRoundTrip(n: nat)
    requires n <= UINT_MAX
    ensures ParseNumber(Decimal(n)) == Some(n)
  {
    DecimalDigits(n);
  }

  lemma {:induction false} DecimalDigits(n: nat)
    ensures var s := Decimal(n);
      s != "" && (forall i :: 0 <= i < |s| ==> IsDigit(s[i])) && DigitsValue(s) == n
  {
    var s := Decimal(n);
    if n >= 10 {
      DecimalDigits(n / 10);
      assert s[..|s| - 1] == Decimal(n / 10);
      DigitValue(n % 10);
    } else {
      assert s[..|s| - 1] == "";
      DigitValue(n);
    }
  }

  lemma DigitValue(d: nat)
    requires d < 10
    ensures IsDigit(Digit(d)) && Digit(d) as int - '0' as int == d
  {
    assert d == 0 || d == 1 || d == 2 || d == 3 || d == 4 || d == 5 || d == 6 || d == 7 || d == 8 || d == 9;
  }

  /** `selector_slot`: the bay number of slotN or diskN, or 0. */
  function SelectorSlot(selector: string): nat {
    if "slot" <= selector || "disk" <= selector then
      var n := ParseNumber(selector[4..]);
      if n.Some? && n.value <= 8 then n.value else 0
    else 0
  }

  predicate AliasMatches(alias: Alias, selector: string) {
    || ("wwn:" <= selector && alias.wwn != "" && selector[4..] == alias.wwn)
    || selector == alias.name
    || ("/dev/" <= selector && selector[5..] == alias.name)
  }

  /** The test of the loop body for one disk. */
  predicate Selects(selector: string, d: Disk, aliases: seq<Alias>) {
    var slot := SelectorSlot(selector);
    if slot != 0 then d.mapped && d.slot == slot && d.interface != Nvme
    else
      || (if "nvme" <= selector && d.slotName != "" && selector == d.slotName then true
          else if "serial:" <= selector then d.serial != "" && selector[7..] == d.serial
          else if "wwn:" <= selector then d.wwn != "" && selector[4..] == d.wwn
          else selector == d.name || selector == d.device || (d.serial != "" && selector == d.serial))
      || exists k :: 0 <= k < |aliases| && aliases[k].diskName == d.name && AliasMatches(aliases[k], selector)
  }

  datatype Resolution =
    | Resolved(index: nat)
    | NoMatch
    | ManyMatches
    | NotMapped(index: nat)
    | NoLed(index: nat)

  /** The answer to a selector, with the exact cause of each refusal. */
  ghost predicate Resolves(disks: seq<Disk>, aliases: seq<Alias>, selector: string, r: Resolution) {
    && (r.NoMatch? <==> forall i :: 0 <= i < |disks| ==> !Selects(selector, disks[i], aliases))
    && (r.ManyMatches? <==>
          exists i, j :: 0 <= i < j < |disks| && Selects(selector, disks[i], aliases) && Selects(selector, disks[j], aliases))
    && (!r.NoMatch? && !r.ManyMatches? ==>
          && r.index < |disks|
          && (forall i :: 0 <= i < |disks| ==> (Selects(selector, disks[i], aliases) <==> i == r.index))
          && var d := disks[r.index];
             && (r.NotMapped? <==> !d.mapped)
             && (r.NoLed? <==> d.mapped && (!d.ledSupported || d.ledId == "")))
  }

  /** What diskN and slotN select: the SATA and U.2 disks mapped to bay N. */
  lemma BaySelects(n: nat, d: Disk, aliases: seq<Alias>)
    requires 1 <= n <= 8
    ensures Selects("disk" + Decimal(n), d, aliases) <==> d.mapped && d.slot == n && (d.interface == Sata || d.interface == U2)
    ensures Selects("slot" + Decimal(n), d, aliases) <==> d.mapped && d.slot == n && (d.interface == Sata || d.interface == U2)
  {
    BaySelectors(n);
  }

  /** A namespace alias matches by name, by path or by WWN. */
  lemma AliasSelects(selector: string, name: string, aliases: seq<Alias>)
    ensures (exists k :: 0 <= k < |aliases| && aliases[k].diskName == name && AliasMatches(aliases[k], selector)) <==>
      exists a :: a in aliases && a.diskName == name &&
        (selector == a.name || selector == "/dev/" + a.name || (a.wwn != "" && selector == "wwn:" + a.wwn))
  {
    assert "wwn:" <= selector ==> selector == "wwn:" + selector[4..];
    assert "/dev/" <= selector ==> selector == "/dev/" + selector[5..];
    if k :| 0 <= k < |aliases| && aliases[k].diskName == name && AliasMatches(aliases[k], selector) {
      assert aliases[k] in aliases;
    }
    if a :| a in aliases && a.diskName == name &&
            (selector == a.name || selector == "/dev/" + a.name || (a.wwn != "" && selector == "wwn:" + a.wwn)) {
      var k :| 0 <= k < |aliases| && aliases[k] == a;
      assert AliasMatches(aliases[k], selector);
    }
  }

  /** What every other selector selects: the disks that carry it as their NVMe slot name, after "serial:" or
      "wwn:" as that, otherwise as name, device or serial, and the disks of the namespaces that carry it. */
  lemma CarrierSelects(selector: string, d: Disk, aliases: seq<Alias>)
    requires !("disk" <= selector) && !("slot" <= selector)
    ensures Selects(selector, d, aliases) <==>
      || ("nvme" <= selector && selector == d.slotName)
      || (d.serial != "" && selector == "serial:" + d.serial)
      || (d.wwn != "" && selector == "wwn:" + d.wwn)
      || (!("serial:" <= selector) && !("wwn:" <= selector) && selector in {d.name, d.device})
      || (!("serial:" <= selector) && !("wwn:" <= selector) && d.serial != "" && selector == d.serial)
      || exists a :: a in aliases && a.diskName == d.name &&
           (selector == a.name || selector == "/dev/" + a.name || (a.wwn != "" && selector == "wwn:" + a.wwn))
  {
    assert "serial:" <= selector ==> selector == "serial:" + selector[7..];
    assert "wwn:" <= selector ==> selector == "wwn:" + selector[4..];
    AliasSelects(selector, d.name, aliases);
  }

  /** The only disk that a selector selects is its answer, or the cause of its refusal. */
  lemma OnlyCarrierIsFound(disks: seq<Disk>, aliases: seq<Alias>, selector: string, i: nat, r: Resolution)
    requires Resolves(disks, aliases, selector, r) && i < |disks|
    requires forall j :: 0 <= j < |disks| ==> (Selects(selector, disks[j], aliases) <==> j == i)
    ensures r == if !disks[i].mapped then NotMapped(i)
                 else if !disks[i].ledSupported || disks[i].ledId == "" then NoLed(i)
                 else Resolved(i)
  {
    assert Selects(selector, disks[i], aliases);
  }

  /** The only SATA or U.2 disk mapped to bay N, if it has an LED, is what diskN and slotN resolve to. */
  lemma BayIsFound(disks: seq<Disk>, aliases: seq<Alias>, selector: string, n: nat, i: nat, r: Resolution)
    requires 1 <= n <= 8 && (selector == "disk" + Decimal(n) || selector == "slot" + Decimal(n))
    requires Resolves(disks, aliases, selector, r) && AloneInBay(disks, n, i)
    ensures r == Resolved(i)
  {
    forall j | 0 <= j < |disks| ensures Selects(selector, disks[j], aliases) <==> j == i { BaySelects(n, disks[j], aliases); }
    OnlyCarrierIsFound(disks, aliases, selector, i, r);
  }

  ghost predicate AloneInBay(disks: seq<Disk>, n: nat, i: nat) {
    && i < |disks| && disks[i].mapped && disks[i].slot == n && disks[i].ledSupported && disks[i].ledId != ""
    && (disks[i].interface == Sata || disks[i].interface == U2)
    && forall j :: 0 <= j < |disks| && j != i ==> !(disks[j].mapped && disks[j].slot == n && disks[j].interface != Nvme)
  }

  /** `ugreenctl_disk_resolve` for a nonempty selector: a disk is named only if it is the only match,
      and only if it is mapped to an LED. A bay's only disk is found. */
  method Resolve(disks: seq<Disk>, aliases: seq<Alias>, selector: string) returns (r: Resolution)
    requires selector != ""
    ensures Resolves(disks, aliases, selector, r)
    ensures forall n, i :: 1 <= n <= 8 && (selector == "disk" + Decimal(n) || selector == "slot" + Decimal(n)) && AloneInBay(disks, n, i) ==>
      r == Resolved(i)
  {
    r := FindMatch(disks, aliases, selector);
    forall n, i | 1 <= n <= 8 && (selector == "disk" + Decimal(n) || selector == "slot" + Decimal(n)) && AloneInBay(disks, n, i)
      ensures r == Resolved(i)
    {
      BayIsFound(disks, aliases, selector, n, i, r);
    }
  }

  /** The loop over the disks and what follows it. */
  method FindMatch(disks: seq<Disk>, aliases: seq<Alias>, selector: string) returns (r: Resolution)
    requires selector != ""
    ensures Resolves(disks, aliases, selector, r)
  {
    var matches, found := 0, 0;
    ghost var other := 0;
    var i := 0;
    while i < |disks|
      invariant 0 <= i <= |disks|
      invariant matches == 0 ==> forall k :: 0 <= k < i ==> !Selects(selector, disks[k], aliases)
      invariant matches > 0 ==> found < i && Selects(selector, disks[found], aliases)
      invariant matches == 1 ==> forall k :: 0 <= k < i ==> (Selects(selector, disks[k], aliases) <==> k == found)
      invariant matches > 1 ==> 0 <= other < found && Selects(selector, disks[other], aliases)
    {
      if Selects(selector, disks[i], aliases) {
        other := found;
        found := i;
        matches := matches + 1;
      }
      i := i + 1;
    }
    if matches == 0 { return NoMatch; }
    if matches != 1 { return ManyMatches; }
    if !disks[found].mapped { return NotMapped(found); }
    if !disks[found].ledSupported || disks[found].ledId == "" { return NoLed(found); }
    r := Resolved(found);
  }

  /** On the disks of a successful scan, a bay selector matches at most one disk, and the disk it matches
      is the only one that owns that bay's LED. */
  lemma BaySelectorIsExclusive(disks: seq<Disk>, aliases: seq<Alias>, selector: string, i: nat, j: nat)
    requires Exclusive(disks) && (forall k :: 0 <= k < |disks| ==> Shaped(disks[k]))
    requires SelectorSlot(selector) != 0 && i < |disks| && j < |disks| && Selects(selector, disks[i], aliases)
    ensures Selects(selector, disks[j], aliases) ==> j == i
    ensures disks[i].ledSupported ==> disks[i].ledId == "disk" + Decimal(SelectorSlot(selector))
    ensures disks[i].ledSupported && j != i ==> disks[j].ledId != disks[i].ledId
  {
  }

  /** The bay selectors diskN and slotN, for N from 1 to 8, name bay N. */
  lemma BaySelectors(n: nat)
    requires 1 <= n <= 8
    ensures SelectorSlot("disk" + Decimal(n)) == n && SelectorSlot("slot" + Decimal(n)) == n
  {
    DecimalRoundTrip(n);
    assert ("disk" + Decimal(n))[4..] == Decimal(n) && ("slot" + Decimal(n))[4..] == Decimal(n);
  }

  /** A bay selector is never ambiguous among cleared disks. */
  lemma BayIsUnambiguous(before: seq<Disk>, unverified: bool, after: seq<Disk>, aliases: seq<Alias>, selector: string)
    requires Cleared(before, unverified, after) && (forall k :: 0 <= k < |before| ==> Shaped(before[k]))
    requires SelectorSlot(selector) != 0
    ensures forall i, j :: 0 <= i < j < |after| && Selects(selector, after[i], aliases) ==> !Selects(selector, after[j], aliases)
  {
    ClearedIsExclusive(before, unverified, after);
    forall i, j | 0 <= i < j < |after| && Selects(selector, after[i], aliases) ensures !Selects(selector, after[j], aliases) {
      BaySelectorIsExclusive(after, aliases, selector, i, j);
    }
  }

  /** The disk a bay selector finds, when mapped to an LED, kept its own mapping and owns that LED alone. */
  ghost predicate OwnsBay(before: seq<Disk>, unverified: bool, after: seq<Disk>, selector: string, index: nat) {
    && |after| == |before| && index < |after| && !Loses(before, unverified, index)
    && after[index] == before[index] && after[index].mapped && after[index].interface != Nvme
    && after[index].ledId == "disk" + Decimal(SelectorSlot(selector))
    && forall k :: 0 <= k < |after| && k != index ==> after[k].ledId != after[index].ledId
  }

  lemma BayIsOwned(before: seq<Disk>, unverified: bool, after: seq<Disk>, aliases: seq<Alias>, selector: string, index: nat)
    requires Cleared(before, unverified, after) && (forall k :: 0 <= k < |before| ==> Shaped(before[k]))
    requires SelectorSlot(selector) != 0 && index < |after| && Selects(selector, after[index], aliases)
    requires after[index].ledSupported
    ensures OwnsBay(before, unverified, after, selector, index)
  {
    ClearedIsExclusive(before, unverified, after);
    BaySelectorIsExclusive(after, aliases, selector, index, index);
    forall k | 0 <= k < |after| && k != index ensures after[k].ledId != after[index].ledId {
      BaySelectorIsExclusive(after, aliases, selector, index, k);
    }
  }

  /** From scanned disks to a located LED: conflicts cleared, then resolved by bay. The bay selector is
      never ambiguous, and what it resolves to is mapped, lit by the bay's own LED, and kept its mapping
      because no other disk of the scan clashed with it. */
  method LocateBay(disks: array<Disk>, count: nat, unverified: bool, aliases: seq<Alias>, selector: string)
    returns (r: Resolution)
    requires count <= disks.Length && SelectorSlot(selector) != 0
    requires forall k :: 0 <= k < count ==> Shaped(disks[k])
    modifies disks
    ensures Cleared(old(disks[..count]), unverified, disks[..count])
    ensures !r.ManyMatches?
    ensures r.Resolved? ==> OwnsBay(old(disks[..count]), unverified, disks[..count], selector, r.index)
  {
    ghost var before := disks[..count];
    ClearConflicts(disks, count, unverified);
    var after := disks[..count];
    BayIsUnambiguous(before, unverified, after, aliases, selector);
    r := Resolve(after, aliases, selector);
    if r.Resolved? { BayIsOwned(before, unverified, after, aliases, selector, r.index); }
  }
}
