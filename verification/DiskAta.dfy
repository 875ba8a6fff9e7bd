/** Recognition of the factory SATA controllers and the bay index of a disk (`firmware_ata_index` in
    disk/disk.c). Neither may depend on the order in which sysfs lists the controllers. */
module DiskAta {
  import opened Base
  import opened DiskModel
  import opened DiskPorts

  const INTEL := 0x8086
  const ASMEDIA := 0x1b21

  /** Which of the two known upstream bridges a controller sits under. */
  datatype Bridge = NoBridge | Bridge51bc | Bridge51be

  datatype Controller = Controller(pci: string, vendor: nat, device: nat, ports: nat, bridge: Bridge)

  /** One entry of bus/pci/devices. */
  datatype Device =
    | Other
    | Unusable  // unreadable attributes, a SATA class that is not AHCI, or a misnamed entry
    | Sata(pci: string, vendor: nat, device: nat, under51bc: bool, under51be: bool, entries: seq<PortEntry>)

  /** The number of ports of a complete listing; 0 when there is no such number. */
  ghost function PortCount(entries: seq<PortEntry>): nat {
    if exists n: nat :: Complete(entries, n) then var n: nat :| Complete(entries, n); n else 0
  }

  /** The second bridge test overrides the first. */
  function BridgeOf(d: Device): Bridge
    requires d.Sata?
  {
    if d.under51be then Bridge51be else if d.under51bc then Bridge51bc else NoBridge
  }

  ghost function Collected(d: Device): Controller
    requires d.Sata?
  {
    Controller(d.pci, d.vendor, d.device, PortCount(d.entries), BridgeOf(d))
  }

  ghost function Controllers(devices: seq<Device>): seq<Controller> {
    if devices == [] then []
    else Controllers(devices[..|devices| - 1]) +
         (if devices[|devices| - 1].Sata? then [Collected(devices[|devices| - 1])] else [])
  }

  ghost predicate Usable(d: Device) { !d.Unusable? && (d.Sata? ==> PortCount(d.entries) != 0) }

  ghost predicate Collectable(devices: seq<Device>) {
    (forall i :: 0 <= i < |devices| ==> Usable(devices[i])) && |Controllers(devices)| <= 4
  }

  /** The search for the port count tries 1 to 8 in turn. */
  method FindPortCount(entries: seq<PortEntry>) returns (ports: nat)
    ensures ports == PortCount(entries)
  {
    ports := 1;
    while ports <= 8
      invariant 1 <= ports <= 9 && forall n :: 0 <= n < ports ==> !Complete(entries, n)
    {
      var accepted := ControllerPorts(true, entries, ports);
      if accepted {
        OnlyOneCount(entries, ports, PortCount(entries));
        return;
      }
      ports := ports + 1;
    }
    ports := 0;
  }

  lemma {:induction false} ControllersPrefix(devices: seq<Device>, i: nat)
    requires i <= |devices|
    ensures |Controllers(devices[..i])| <= |Controllers(devices)|
  {
    if i == |devices| {
      assert devices[..i] == devices;
    } else {
      assert devices[..|devices| - 1][..i] == devices[..i];
      ControllersPrefix(devices[..|devices| - 1], i);
    }
  }

  /** The first i devices are usable and hold these controllers. */
  ghost predicate CollectedUpTo(devices: seq<Device>, i: nat, found: seq<Controller>) {
    i <= |devices| && found == Controllers(devices[..i]) && |found| <= 4
      && forall j :: 0 <= j < i ==> Usable(devices[j])
  }

  lemma CollectNext(devices: seq<Device>, i: nat, found: seq<Controller>)
    requires CollectedUpTo(devices, i, found) && i < |devices|
    ensures Usable(devices[i]) && !devices[i].Sata? ==> CollectedUpTo(devices, i + 1, found)
    ensures Usable(devices[i]) && devices[i].Sata? && |found| < 4 ==>
      CollectedUpTo(devices, i + 1, found + [Collected(devices[i])])
    ensures devices[i].Sata? && |found| == 4 ==> !Collectable(devices)
    ensures !Usable(devices[i]) ==> !Collectable(devices)
  {
    assert devices[..i + 1][..i] == devices[..i];
    ControllersPrefix(devices, i + 1);
  }

  lemma CollectedAll(devices: seq<Device>, found: seq<Controller>)
    requires CollectedUpTo(devices, |devices|, found)
    ensures Collectable(devices) && found == Controllers(devices)
  {
    assert devices[..|devices|] == devices;
  }

  /** One device: its controller is collected, it is passed over, or the inventory is refused. */
  method CollectOne(devices: seq<Device>, i: nat, found: seq<Controller>) returns (ok: bool, next: seq<Controller>)
    requires i < |devices| && CollectedUpTo(devices, i, found)
    ensures if ok then CollectedUpTo(devices, i + 1, next) else !Collectable(devices)
  {
    var d := devices[i];
    CollectNext(devices, i, found);
    if d.Unusable? { return false, found; }
    if !d.Sata? { return true, found; }
    if |found| == 4 { return false, found; }
    var ports := FindPortCount(d.entries);
    if ports == 0 { return false, found; }
    return true, found + [Controller(d.pci, d.vendor, d.device, ports, BridgeOf(d))];
  }

  /** The collecting loop: it succeeds exactly on usable inventories with at most four controllers. */
  method Collect(devices: seq<Device>) returns (r: Option<seq<Controller>>)
    ensures r.Some? <==> Collectable(devices)
    ensures r.Some? ==> r.value == Controllers(devices)
  {
    var found: seq<Controller> := [];
    var i := 0;
    while i < |devices|
      invariant i <= |devices| && CollectedUpTo(devices, i, found)
    {
      var ok;
      ok, found := CollectOne(devices, i, found);
      if !ok { return None; }
      i := i + 1;
    }
    CollectedAll(devices, found);
    r := Some(found);
  }

  function TotalPorts(cs: seq<Controller>): nat {
    if cs == [] then 0 else TotalPorts(cs[..|cs| - 1]) + cs[|cs| - 1].ports
  }

  predicate SecondAsmedia(c: Controller, expected: nat) {
    && c.vendor == ASMEDIA && c.ports == expected - 2
    && ((expected == 4 && (c.device == 0x0612 || c.device == 0x1062)) || (expected == 6 && c.device == 0x1164))
  }

  predicate Bridged(c: Controller) {
    c.vendor == ASMEDIA && c.device == 0x1164 && c.ports == 4 && c.bridge != NoBridge
  }

  /** The role test of the loop body for controller i: the base of its ports, if it has a role. */
  function Role(cs: seq<Controller>, expected: nat, i: nat): (r: Option<nat>)
    requires i < |cs|
  {
    var c := cs[i];
    if |cs| == 1 then
      if (c.vendor == INTEL && c.ports == 2 && expected == 2) ||
         (c.vendor == ASMEDIA && ((expected == 4 && c.device == 0x1164) || (expected == 6 && c.device == 0x1166)))
      then Some(0) else None
    else if |cs| == 2 && (expected == 4 || expected == 6) then
      var other := cs[1 - i];
      if c.vendor == INTEL && c.ports == 2 && SecondAsmedia(other, expected) then Some(0)
      else if SecondAsmedia(c, expected) && other.vendor == INTEL && other.ports == 2 then Some(2)
      else None
    else if |cs| == 2 && expected == 8 then
      var other := cs[1 - i];
      if Bridged(c) && Bridged(other) && other.bridge != c.bridge then Some(if c.bridge == Bridge51bc then 0 else 4) else None
    else None
  }

  /** The final loop of `firmware_ata_index`, from controller i on. */
  function IndexFrom(cs: seq<Controller>, expected: nat, pci: string, port: nat, i: nat): nat
    requires i <= |cs|
    decreases |cs| - i
  {
    if i == |cs| then 0
    else match Role(cs, expected, i)
      case None => 0
      case Some(base) => if cs[i].pci == pci then base + port else IndexFrom(cs, expected, pci, port, i + 1)
  }

  /** The whole conversion of a SATA disk at a controller-local port; 0 when the layout is not the
      factory one. `ataEntries` counts all of class/ata_port. */
  function AtaIndex(cs: seq<Controller>, ataEntries: nat, expected: nat, pci: string, port: nat): nat {
    if port == 0 || expected == 0 || TotalPorts(cs) != expected || ataEntries != expected then 0
    else IndexFrom(cs, expected, pci, port, 0)
  }

  /** If one controller has a role, so has the other: recognition does not favour either. */
  lemma RoleIsMutual(cs: seq<Controller>, expected: nat)
    requires |cs| == 2
    ensures Role(cs, expected, 0).Some? <==> Role(cs, expected, 1).Some?
    ensures forall i :: 0 <= i < 2 ==> Role([cs[1], cs[0]], expected, 1 - i) == Role(cs, expected, i)
  {
  }

  /** A controller found in the inventory with a port it really has. */
  predicate Present(cs: seq<Controller>, k: nat, port: nat) {
    k < |cs| && 1 <= port <= cs[k].ports
  }

  ghost predicate DistinctPci(cs: seq<Controller>) {
    forall i, j :: 0 <= i < j < |cs| ==> cs[i].pci != cs[j].pci
  }

  ghost predicate Recognized(cs: seq<Controller>, expected: nat) {
    |cs| > 0 && TotalPorts(cs) == expected && Role(cs, expected, 0).Some?
  }

  lemma TotalOfFew(cs: seq<Controller>)
    ensures |cs| == 1 ==> TotalPorts(cs) == cs[0].ports
    ensures |cs| == 2 ==> TotalPorts(cs) == cs[0].ports + cs[1].ports
  {
    if |cs| == 2 { assert cs[..1][..0] == []; }
  }

  /** In a recognized layout a present port gets its controller's base plus the port. */
  lemma IndexOfPresent(cs: seq<Controller>, expected: nat, k: nat, port: nat)
    requires DistinctPci(cs) && Recognized(cs, expected) && Present(cs, k, port)
    ensures Role(cs, expected, k).Some?
    ensures AtaIndex(cs, expected, expected, cs[k].pci, port) == Role(cs, expected, k).value + port
    ensures Role(cs, expected, k).value + cs[k].ports <= expected
  {
    TotalOfFew(cs);
    if |cs| == 2 { RoleIsMutual(cs, expected); }
    if k == 1 { assert IndexFrom(cs, expected, cs[1].pci, port, 0) == IndexFrom(cs, expected, cs[1].pci, port, 1); }
  }

  /** Distinct (controller, port) pairs get distinct indices in 1..expected. */
  lemma IndexIsInjective(cs: seq<Controller>, expected: nat, k: nat, port: nat, k': nat, port': nat)
    requires DistinctPci(cs) && Recognized(cs, expected) && Present(cs, k, port) && Present(cs, k', port')
    ensures 1 <= AtaIndex(cs, expected, expected, cs[k].pci, port) <= expected
    ensures AtaIndex(cs, expected, expected, cs[k].pci, port) == AtaIndex(cs, expected, expected, cs[k'].pci, port')
            ==> k == k' && port == port'
  {
    IndexOfPresent(cs, expected, k, port);
    IndexOfPresent(cs, expected, k', port');
    TotalOfFew(cs);
  }

  /** Every bay index has a port: the conversion is onto as well. */
  lemma IndexIsOnto(cs: seq<Controller>, expected: nat, index: nat) returns (k: nat, port: nat)
    requires DistinctPci(cs) && Recognized(cs, expected) && 1 <= index <= expected
    ensures Present(cs, k, port) && AtaIndex(cs, expected, expected, cs[k].pci, port) == index
  {
    TotalOfFew(cs);
    if |cs| == 2 { RoleIsMutual(cs, expected); }
    var base0 := Role(cs, expected, 0).value;
    if base0 < index <= base0 + cs[0].ports {
      k, port := 0, index - base0;
    } else {
      k, port := 1, index - Role(cs, expected, 1).value;
    }
    IndexOfPresent(cs, expected, k, port);
  }

  lemma {:induction false} NoIndexFrom(cs: seq<Controller>, expected: nat, pci: string, port: nat, i: nat)
    requires i <= |cs| && forall k :: i <= k < |cs| ==> cs[k].pci != pci
    ensures IndexFrom(cs, expected, pci, port, i) == 0
    decreases |cs| - i
  {
    if i < |cs| { NoIndexFrom(cs, expected, pci, port, i + 1); }
  }

  /** A disk on a controller outside the inventory, or in any layout that is not recognized, gets no bay. */
  lemma NoIndexOtherwise(cs: seq<Controller>, ataEntries: nat, expected: nat, pci: string, port: nat)
    requires !Recognized(cs, expected) || forall k :: 0 <= k < |cs| ==> cs[k].pci != pci
    ensures AtaIndex(cs, ataEntries, expected, pci, port) == 0
  {
    if forall k :: 0 <= k < |cs| ==> cs[k].pci != pci { NoIndexFrom(cs, expected, pci, port, 0); }
  }

  lemma SwapOfTwo(a: seq<Controller>, b: seq<Controller>)
    requires |a| == 2 && multiset(a) == multiset(b)
    ensures b == a || b == [a[1], a[0]]
  {
    assert |multiset(b)| == |b| == 2;
    assert a == [a[0], a[1]] && b == [b[0], b[1]];
    assert multiset(a) == multiset{a[0], a[1]} && multiset(b) == multiset{b[0], b[1]};
    assert a[0] in multiset(b) && b[0] in multiset(a) && b[1] in multiset(a);
    assert multiset{a[0], a[1]} - multiset{a[0]} == multiset{a[1]};
    if b[0] == a[0] {
      assert multiset{b[0], b[1]} - multiset{b[0]} == multiset{b[1]};
      assert multiset{b[1]} == multiset{a[1]} && b[1] in multiset{a[1]};
    } else {
      assert b[0] == a[1] && a[0] == b[1];
    }
  }

  /** The index of a disk is the same for every order of the controllers. */
  lemma IndexInAnyOrder(a: seq<Controller>, b: seq<Controller>, ataEntries: nat, expected: nat, pci: string, port: nat)
    requires multiset(a) == multiset(b) && DistinctPci(a)
    ensures AtaIndex(a, ataEntries, expected, pci, port) == AtaIndex(b, ataEntries, expected, pci, port)
  {
    assert |multiset(a)| == |a| && |multiset(b)| == |b|;
    if |a| == 1 {
      assert a == [a[0]] && b == [b[0]] && b[0] in multiset(b);
    } else if |a| == 2 {
      SwapOfTwo(a, b);
      if b != a {
        TotalOfFew(a);
        TotalOfFew(b);
        RoleIsMutual(a, expected);
        assert IndexFrom(a, expected, pci, port, 2) == IndexFrom(b, expected, pci, port, 2) == 0;
        assert IndexFrom(a, expected, pci, port, 0) == IndexFrom(b, expected, pci, port, 0);
      }
    } else {
      NoRoleForMany(a, expected, pci, port);
      NoRoleForMany(b, expected, pci, port);
    }
  }

  lemma NoRoleForMany(cs: seq<Controller>, expected: nat, pci: string, port: nat)
    requires |cs| == 0 || |cs| > 2
    ensures IndexFrom(cs, expected, pci, port, 0) == 0
  {
  }

  lemma PortCountInAnyOrder(a: seq<PortEntry>, b: seq<PortEntry>)
    requires multiset(a) == multiset(b)
    ensures PortCount(a) == PortCount(b)
  {
    forall n: nat ensures Complete(a, n) <==> Complete(b, n) { CompleteInAnyOrder(a, b, n); }
    if n: nat :| Complete(a, n) {
      OnlyOneCount(a, n, PortCount(a));
      OnlyOneCount(b, n, PortCount(b));
    }
  }

  /** What one entry of bus/pci/devices contributes, whatever the order of its ports. */
  datatype Class = Bad | Skip | Found(controller: Controller)

  ghost function Classify(d: Device): Class {
    if !Usable(d) then Bad else if d.Sata? then Found(Collected(d)) else Skip
  }

  ghost function Classes(devices: seq<Device>): (cs: seq<Class>)
    ensures |cs| == |devices| && forall i :: 0 <= i < |devices| ==> cs[i] == Classify(devices[i])
  {
    seq(|devices|, i requires 0 <= i < |devices| => Classify(devices[i]))
  }

  function FoundAt(c: Class): seq<Controller> { if c.Found? then [c.controller] else [] }

  function FoundIn(classes: seq<Class>): seq<Controller> { Flat(FoundAt, classes) }

  lemma {:induction false} ControllersAreFound(devices: seq<Device>)
    requires Bad !in Classes(devices)
    ensures Controllers(devices) == FoundIn(Classes(devices))
  {
    if devices != [] {
      var n := |devices| - 1;
      assert Classes(devices)[..n] == Classes(devices[..n]);
      ControllersAreFound(devices[..n]);
      assert Classes(devices)[n] != Bad;
    }
  }

  /** The classes alone decide whether the inventory is collectable. */
  lemma CollectableByClass(devices: seq<Device>)
    ensures Collectable(devices) <==> Bad !in Classes(devices) && |FoundIn(Classes(devices))| <= 4
  {
    if Bad in Classes(devices) {
      var i :| 0 <= i < |devices| && Classes(devices)[i] == Bad;
      assert !Usable(devices[i]);
    } else {
      ControllersAreFound(devices);
      forall i | 0 <= i < |devices| ensures Usable(devices[i]) { assert Classes(devices)[i] != Bad; }
    }
  }

  lemma ClassesConcat(left: seq<Device>, right: seq<Device>)
    ensures Classes(left + right) == Classes(left) + Classes(right)
  {
  }

  lemma ClassesSnoc(left: seq<Device>, d: Device)
    ensures Classes(left + [d]) == Classes(left) + [Classify(d)]
  {
  }

  lemma ClassesAround(left: seq<Device>, d: Device, right: seq<Device>)
    ensures multiset(Classes(left + [d] + right)) == multiset(Classes(left + right)) + multiset{Classify(d)}
  {
    ClassesConcat(left + [d], right);
    ClassesConcat(left, right);
    ClassesSnoc(left, d);
    MiddleOut(Classes(left), [Classify(d)], Classes(right));
  }

  lemma {:induction false} ClassesInAnyOrder(a: seq<Device>, b: seq<Device>)
    requires multiset(a) == multiset(b)
    ensures multiset(Classes(a)) == multiset(Classes(b))
    decreases |a|
  {
    if a == [] {
      OnlyEmpty(b);
    } else {
      var front, last := a[..|a| - 1], a[|a| - 1];
      var left, right := AroundLast(a, b);
      ClassesInAnyOrder(front, left + right);
      ClassesAround(left, last, right);
      assert a == front + [last];
      ClassesSnoc(front, last);
    }
  }

  /** The bay index of a disk as the raw inventory defines it. */
  ghost function FirmwareIndex(devices: seq<Device>, ataEntries: nat, expected: nat, pci: string, port: nat): nat {
    if Collectable(devices) then AtaIndex(Controllers(devices), ataEntries, expected, pci, port) else 0
  }

  /** Inventories with the same classes give the same index. */
  lemma IndexByClass(a: seq<Device>, b: seq<Device>, ataEntries: nat, expected: nat, pci: string, port: nat)
    requires multiset(Classes(a)) == multiset(Classes(b)) && DistinctPci(Controllers(a))
    ensures FirmwareIndex(a, ataEntries, expected, pci, port) == FirmwareIndex(b, ataEntries, expected, pci, port)
  {
    var f, g := FoundIn(Classes(a)), FoundIn(Classes(b));
    FlatInAnyOrder(FoundAt, Classes(a), Classes(b));
    assert |multiset(f)| == |f| && |multiset(g)| == |g|;
    assert Bad in Classes(a) <==> Bad in multiset(Classes(a));
    assert Bad in Classes(b) <==> Bad in multiset(Classes(b));
    CollectableByClass(a);
    CollectableByClass(b);
    if Collectable(a) {
      ControllersAreFound(a);
      ControllersAreFound(b);
      IndexInAnyOrder(f, g, ataEntries, expected, pci, port);
    }
  }

  /** The same device with its ports listed in another order. */
  ghost predicate Relisted(d: Device, e: Device) {
    d == e || (d.Sata? && e.Sata? && e == d.(entries := e.entries) && multiset(d.entries) == multiset(e.entries))
  }

  lemma RelistedSameClass(d: Device, e: Device)
    requires Relisted(d, e)
    ensures Classify(d) == Classify(e)
  {
    if d != e { PortCountInAnyOrder(d.entries, e.entries); }
  }

  /** Whatever the order in which bus/pci/devices lists the controllers and class/ata_port their ports, a
      disk gets the same index: `b` is `a` reordered to `c`, with every port listing reordered too. */
  lemma FirmwareIndexInAnyOrder(a: seq<Device>, c: seq<Device>, b: seq<Device>, ataEntries: nat, expected: nat, pci: string, port: nat)
    requires multiset(a) == multiset(c) && |c| == |b| && (forall i :: 0 <= i < |c| ==> Relisted(c[i], b[i]))
    requires DistinctPci(Controllers(a))
    ensures FirmwareIndex(a, ataEntries, expected, pci, port) == FirmwareIndex(b, ataEntries, expected, pci, port)
  {
    ClassesInAnyOrder(a, c);
    forall i | 0 <= i < |c| ensures Classify(c[i]) == Classify(b[i]) { RelistedSameClass(c[i], b[i]); }
    assert Classes(c) == Classes(b);
    IndexByClass(a, b, ataEntries, expected, pci, port);
  }

  /** Devices other than SATA controllers contribute nothing. */
  lemma {:induction false} NoControllers(devices: seq<Device>)
    requires forall k :: 0 <= k < |devices| ==> devices[k] == Other
    ensures Controllers(devices) == []
  {
    if devices != [] { NoControllers(devices[..|devices| - 1]); }
  }

  lemma {:induction false} OneController(devices: seq<Device>, i: nat)
    requires i < |devices| && devices[i].Sata?
    requires forall k :: 0 <= k < |devices| && k != i ==> devices[k] == Other
    ensures Controllers(devices) == [Collected(devices[i])]
  {
    var n := |devices| - 1;
    if i == n { NoControllers(devices[..n]); } else { OneController(devices[..n], i); }
  }

  lemma {:induction false} TwoControllers(devices: seq<Device>, i: nat, j: nat)
    requires i < j < |devices| && devices[i].Sata? && devices[j].Sata?
    requires forall k :: 0 <= k < |devices| && k != i && k != j ==> devices[k] == Other
    ensures Controllers(devices) == [Collected(devices[i]), Collected(devices[j])]
  {
    var n := |devices| - 1;
    if j == n { OneController(devices[..n], i); } else { TwoControllers(devices[..n], i, j); }
  }

  /** A SATA controller with a complete listing of n ports. */
  ghost predicate HasPorts(d: Device, vendor: nat, device: nat, n: nat) {
    d.Sata? && d.vendor == vendor && d.device == device && Complete(d.entries, n)
  }

  lemma CountOfPorts(d: Device, vendor: nat, device: nat, n: nat)
    requires HasPorts(d, vendor, device, n)
    ensures Usable(d) && Collected(d) == Controller(d.pci, vendor, device, n, BridgeOf(d))
  {
    OnlyOneCount(d.entries, n, PortCount(d.entries));
  }

  /** Nothing on the PCI bus but these controllers, at different addresses. */
  ghost predicate OnlyThese(devices: seq<Device>, i: nat, j: nat) {
    && i < |devices| && j < |devices| && i != j && devices[i].Sata? && devices[j].Sata? && devices[i].pci != devices[j].pci
    && forall k :: 0 <= k < |devices| && k != i && k != j ==> devices[k] == Other
  }

  lemma IndexOfControllers(devices: seq<Device>, cs: seq<Controller>, expected: nat, pci: string, port: nat)
    requires Controllers(devices) == cs && |cs| <= 4 && forall k :: 0 <= k < |devices| ==> Usable(devices[k])
    ensures FirmwareIndex(devices, expected, expected, pci, port) == AtaIndex(cs, expected, expected, pci, port)
  {
  }

  /** Of two controllers, each port gets its controller's base plus its number, or none does. */
  lemma IndexOfPair(cs: seq<Controller>, k: nat, expected: nat, port: nat)
    requires |cs| == 2 && k < 2 && DistinctPci(cs) && expected == cs[0].ports + cs[1].ports && port > 0
    ensures AtaIndex(cs, expected, expected, cs[k].pci, port) ==
      if expected > 0 && Role(cs, expected, k).Some? then Role(cs, expected, k).value + port else 0
  {
    TotalOfFew(cs);
    RoleIsMutual(cs, expected);
    if k == 1 && Role(cs, expected, 0).Some? {
      assert IndexFrom(cs, expected, cs[1].pci, port, 0) == IndexFrom(cs, expected, cs[1].pci, port, 1);
    }
  }

  lemma IndexOfTwo(devices: seq<Device>, i: nat, j: nat, expected: nat, port: nat)
    requires OnlyThese(devices, i, j) && Usable(devices[i]) && Usable(devices[j]) && port > 0
    requires expected == PortCount(devices[i].entries) + PortCount(devices[j].entries)
    ensures var role := Role([Collected(devices[i]), Collected(devices[j])], expected, 0);
      FirmwareIndex(devices, expected, expected, devices[i].pci, port) == if role.Some? then role.value + port else 0
  {
    var cs := [Collected(devices[i]), Collected(devices[j])];
    if i < j {
      TwoControllers(devices, i, j);
      IndexOfPair(cs, 0, expected, port);
    } else {
      TwoControllers(devices, j, i);
      RoleIsMutual(cs, expected);
      IndexOfPair([cs[1], cs[0]], 1, expected, port);
    }
    IndexOfControllers(devices, if i < j then cs else [cs[1], cs[0]], expected, devices[i].pci, port);
  }

  /** Four and six bays: Intel's two ports come first, at whatever address, then the ASMedia's. */
  lemma IntelThenAsmedia(devices: seq<Device>, i: nat, j: nat, expected: nat, intel: nat, asmedia: nat, port: nat)
    requires OnlyThese(devices, i, j) && expected in {4, 6}
    requires HasPorts(devices[i], 0x8086, intel, 2) && HasPorts(devices[j], 0x1b21, asmedia, expected - 2)
    requires (expected == 4 && asmedia in {0x0612, 0x1062}) || (expected == 6 && asmedia == 0x1164)
    ensures 1 <= port <= 2 ==> FirmwareIndex(devices, expected, expected, devices[i].pci, port) == port
    ensures 1 <= port <= expected - 2 ==> FirmwareIndex(devices, expected, expected, devices[j].pci, port) == 2 + port
  {
    CountOfPorts(devices[i], 0x8086, intel, 2);
    CountOfPorts(devices[j], 0x1b21, asmedia, expected - 2);
    if port > 0 {
      IndexOfTwo(devices, i, j, expected, port);
      IndexOfTwo(devices, j, i, expected, port);
    }
  }

  /** Eight bays: the four ports under bridge 51bc come first, then the four under 51be. */
  lemma BridgeDecides(devices: seq<Device>, i: nat, j: nat, port: nat)
    requires OnlyThese(devices, i, j) && HasPorts(devices[i], 0x1b21, 0x1164, 4) && HasPorts(devices[j], 0x1b21, 0x1164, 4)
    requires devices[i].under51bc && !devices[i].under51be && devices[j].under51be
    requires 1 <= port <= 4
    ensures FirmwareIndex(devices, 8, 8, devices[i].pci, port) == port
    ensures FirmwareIndex(devices, 8, 8, devices[j].pci, port) == 4 + port
  {
    CountOfPorts(devices[i], 0x1b21, 0x1164, 4);
    CountOfPorts(devices[j], 0x1b21, 0x1164, 4);
    IndexOfTwo(devices, i, j, 8, port);
    IndexOfTwo(devices, j, i, 8, port);
  }

  /** A lone factory controller numbers its own ports. */
  lemma LoneController(devices: seq<Device>, i: nat, vendor: nat, device: nat, expected: nat, port: nat)
    requires i < |devices| && HasPorts(devices[i], vendor, device, expected) && 1 <= port <= expected
    requires forall k :: 0 <= k < |devices| && k != i ==> devices[k] == Other
    requires (vendor == 0x8086 && expected == 2) || (vendor == 0x1b21 && ((device == 0x1164 && expected == 4) || (device == 0x1166 && expected == 6)))
    ensures FirmwareIndex(devices, expected, expected, devices[i].pci, port) == port
  {
    CountOfPorts(devices[i], vendor, device, expected);
    OneController(devices, i);
    LoneIndex(Collected(devices[i]), port);
    IndexOfControllers(devices, [Collected(devices[i])], expected, devices[i].pci, port);
  }

  lemma LoneIndex(c: Controller, port: nat)
    requires port > 0
    requires (c.vendor == 0x8086 && c.ports == 2) || (c.vendor == 0x1b21 && ((c.device == 0x1164 && c.ports == 4) || (c.device == 0x1166 && c.ports == 6)))
    ensures AtaIndex([c], c.ports, c.ports, c.pci, port) == port
  {
    TotalOfFew([c]);
    assert Role([c], c.ports, 0) == Some(0);
  }

  predicate IntelAsmedia(c: Controller, d: Controller, expected: nat) {
    && c.vendor == 0x8086 && c.ports == 2 && d.vendor == 0x1b21 && d.ports == expected - 2
    && ((expected == 4 && d.device in {0x0612, 0x1062}) || (expected == 6 && d.device == 0x1164))
  }

  /** No other inventory is recognized: these are all the layouts in which some port has a bay. */
  lemma RecognizedExactly(cs: seq<Controller>, expected: nat)
    ensures Recognized(cs, expected) <==>
      || (|cs| == 1 && cs[0].vendor == 0x8086 && expected == cs[0].ports == 2)
      || (|cs| == 1 && cs[0].vendor == 0x1b21 && expected == cs[0].ports &&
            ((expected == 4 && cs[0].device == 0x1164) || (expected == 6 && cs[0].device == 0x1166)))
      || (|cs| == 2 && (IntelAsmedia(cs[0], cs[1], expected) || IntelAsmedia(cs[1], cs[0], expected)))
      || (|cs| == 2 && expected == 8 && cs[0].bridge != cs[1].bridge && (forall c :: c in cs ==>
            c.vendor == 0x1b21 && c.device == 0x1164 && c.ports == 4 && c.bridge != NoBridge))
  {
    TotalOfFew(cs);
  }

  /** `firmware_ata_index` for the PCI models, from the raw inventory to the bay index. */
  method FirmwareAtaIndex(devices: seq<Device>, ataEntries: nat, expected: nat, pci: string, port: nat) returns (index: nat)
    ensures index == FirmwareIndex(devices, ataEntries, expected, pci, port)
  {
    if port == 0 || expected == 0 { return 0; }
    var collected := Collect(devices);
    if collected.None? { return 0; }
    var cs := collected.value;
    if TotalPorts(cs) != expected || ataEntries != expected { return 0; }
    var i := 0;
    while i < |cs|
      invariant 0 <= i <= |cs| && IndexFrom(cs, expected, pci, port, 0) == IndexFrom(cs, expected, pci, port, i)
    {
      var role := Role(cs, expected, i);
      if role.None? { return 0; }
      if cs[i].pci == pci { return role.value + port; }
      i := i + 1;
    }
    index := 0;
  }
}
