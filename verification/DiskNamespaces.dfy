/** NVMe namespaces of one controller become one disk with aliases, in place
    (`coalesce_nvme_namespaces` in disk/disk.c). */
module DiskNamespaces {
  import opened DiskModel

  /** A scanned disk with its NVMe controller path; the path is empty for SATA disks. */
  datatype Item = Item(disk: Disk, controller: string)

  datatype Alias = Alias(name: string, wwn: string, diskName: string)

  /** The fields in which namespaces of one controller must agree. */
  predicate Agree(a: Disk, b: Disk) {
    && a.pci == b.pci && a.serial == b.serial && a.interface == b.interface && a.mapped == b.mapped
    && a.slot == b.slot && a.ledSupported == b.ledSupported && a.slotName == b.slotName && a.ledId == b.ledId
  }

  predicate SameController(a: Item, b: Item) {
    a.controller != "" && a.controller == b.controller
  }

  ghost predicate AgreesWithAll(items: seq<Item>, x: Item) {
    forall k :: 0 <= k < |items| && SameController(items[k], x) ==> Agree(items[k].disk, x.disk)
  }

  /** Each namespace agrees with the earlier ones of its controller. */
  ghost predicate Consistent(items: seq<Item>) {
    items == [] || (Consistent(items[..|items| - 1]) && AgreesWithAll(items[..|items| - 1], items[|items| - 1]))
  }

  /** That is: any two namespaces of one controller agree. */
  lemma {:induction false} ConsistentMeans(items: seq<Item>, i: nat, j: nat)
    requires Consistent(items) && i < |items| && j < |items| && SameController(items[i], items[j])
    ensures Agree(items[i].disk, items[j].disk)
  {
    var n := |items| - 1;
    if i < n && j < n { ConsistentMeans(items[..n], i, j); }
    else if i < n { assert SameController(items[..n][i], items[n]); }
    else if j < n { assert SameController(items[..n][j], items[n]); }
  }

  lemma {:induction false} ConsistentPrefix(items: seq<Item>, i: nat)
    requires Consistent(items) && i <= |items|
    ensures Consistent(items[..i])
  {
    if i < |items| {
      assert items[..|items| - 1][..i] == items[..i];
      ConsistentPrefix(items[..|items| - 1], i);
    } else {
      assert items[..i] == items;
    }
  }

  /** The group of a controller path: its position, or the number of groups when it has none. */
  function Group(groups: seq<Item>, controller: string): (g: nat)
    ensures g <= |groups|
    ensures g < |groups| ==> controller != "" && groups[g].controller == controller
    ensures g == |groups| && controller != "" ==> forall k :: 0 <= k < |groups| ==> groups[k].controller != controller
  {
    if groups == [] then 0
    else
      var g := Group(groups[..|groups| - 1], controller);
      if g < |groups| - 1 || (controller != "" && groups[|groups| - 1].controller == controller) then g else |groups|
  }

  /** Add one item: start a group, or take over its group when its name is smaller. */
  function Add(groups: seq<Item>, item: Item): seq<Item> {
    var g := Group(groups, item.controller);
    if g == |groups| then groups + [item]
    else if Less(item.disk.name, groups[g].disk.name) then groups[g := item]
    else groups
  }

  function Groups(items: seq<Item>): seq<Item> {
    if items == [] then [] else Add(Groups(items[..|items| - 1]), items[|items| - 1])
  }

  /** No item of the same controller has a smaller name. */
  ghost predicate Least(items: seq<Item>, x: Item) {
    forall k :: 0 <= k < |items| && SameController(x, items[k]) ==> !Less(items[k].disk.name, x.disk.name)
  }

  ghost predicate OnePerController(groups: seq<Item>) {
    forall i, j :: 0 <= i < j < |groups| ==> !SameController(groups[i], groups[j])
  }

  /** Every controller of the input has a group. */
  ghost predicate Covers(groups: seq<Item>, items: seq<Item>) {
    forall k :: 0 <= k < |items| && items[k].controller != "" ==> Group(groups, items[k].controller) < |groups|
  }

  lemma GroupIsFound(groups: seq<Item>, k: nat)
    requires k < |groups| && groups[k].controller != ""
    ensures Group(groups, groups[k].controller) < |groups|
  {
  }

  ghost predicate AllLeast(groups: seq<Item>, items: seq<Item>) {
    forall g :: 0 <= g < |groups| ==> groups[g] in items && Least(items, groups[g])
  }

  ghost predicate Grouped(groups: seq<Item>, items: seq<Item>) {
    OnePerController(groups) && Covers(groups, items) && AllLeast(groups, items)
  }

  lemma AddKeepsCovers(groups: seq<Item>, before: seq<Item>, x: Item)
    requires Covers(groups, before)
    ensures Covers(Add(groups, x), before + [x])
  {
    var items, next := before + [x], Add(groups, x);
    forall k | 0 <= k < |items| && items[k].controller != "" ensures Group(next, items[k].controller) < |next| {
      if k < |before| && items[k].controller != x.controller {
        var h := Group(groups, before[k].controller);
        assert next[h].controller == items[k].controller;
        GroupIsFound(next, h);
      } else {
        GroupIsFound(next, Group(groups, x.controller));
      }
    }
  }

  lemma AddKeepsLeast(groups: seq<Item>, before: seq<Item>, x: Item)
    requires Grouped(groups, before)
    ensures AllLeast(Add(groups, x), before + [x])
  {
    var items, next, g := before + [x], Add(groups, x), Group(groups, x.controller);
    LessTotal(x.disk.name, x.disk.name);
    forall h | 0 <= h < |next| ensures next[h] in items && Least(items, next[h]) {
      if h < |groups| && next[h] == groups[h] {
        if SameController(next[h], x) { assert h == g; }
        LeastExtends(before, x, next[h]);
      } else {
        LeastAfter(before, groups, x);
        LeastExtends(before, x, x);
      }
    }
  }

  lemma LeastExtends(before: seq<Item>, x: Item, y: Item)
    requires Least(before, y) && (SameController(y, x) ==> !Less(x.disk.name, y.disk.name))
    ensures Least(before + [x], y)
  {
  }

  lemma AddKeepsOne(groups: seq<Item>, x: Item)
    requires OnePerController(groups)
    ensures OnePerController(Add(groups, x))
  {
  }

  /** There is one group per controller of the input, represented by the disk with the least name of
      its controller; each disk without a controller stays on its own. */
  lemma {:induction false} GroupsAreLeast(items: seq<Item>)
    ensures Grouped(Groups(items), items)
  {
    if items != [] {
      var n := |items| - 1;
      GroupsAreLeast(items[..n]);
      assert items == items[..n] + [items[n]];
      AddKeepsOne(Groups(items[..n]), items[n]);
      AddKeepsCovers(Groups(items[..n]), items[..n], items[n]);
      AddKeepsLeast(Groups(items[..n]), items[..n], items[n]);
    }
  }

  /** A name smaller than the representative's is smaller than every name of the group. */
  lemma LeastAfter(before: seq<Item>, groups: seq<Item>, x: Item)
    requires Covers(groups, before) && forall g :: 0 <= g < |groups| ==> Least(before, groups[g])
    requires var g := Group(groups, x.controller); g < |groups| ==> Less(x.disk.name, groups[g].disk.name)
    ensures Least(before, x)
  {
    forall k | 0 <= k < |before| && SameController(x, before[k]) ensures !Less(before[k].disk.name, x.disk.name) {
      var g := Group(groups, x.controller);
      var y := before[k].disk.name;
      assert SameController(groups[g], before[k]) && !Less(y, groups[g].disk.name);
      if Less(y, x.disk.name) { LessTransitive(y, x.disk.name, groups[g].disk.name); }
    }
  }

  /** The items with, or without, a controller, in order. */
  function Filter(items: seq<Item>, namespaced: bool): seq<Item> {
    if items == [] then []
    else
      var x := items[|items| - 1];
      Filter(items[..|items| - 1], namespaced) + (if (x.controller != "") == namespaced then [x] else [])
  }

  lemma {:induction false} FilterUpdate(items: seq<Item>, g: nat, x: Item)
    requires g < |items| && items[g].controller != "" && x.controller != ""
    ensures Filter(items[g := x], false) == Filter(items, false)
  {
    var n := |items| - 1;
    if g < n {
      FilterUpdate(items[..n], g, x);
      assert items[g := x][..n] == items[..n][g := x];
    } else {
      assert items[g := x][..n] == items[..n];
    }
  }

  /** Disks without a controller all stay, in their order. */
  lemma {:induction false} SataDisksStay(items: seq<Item>)
    ensures Filter(Groups(items), false) == Filter(items, false)
  {
    if items != [] {
      var n := |items| - 1;
      var groups, x := Groups(items[..n]), items[n];
      SataDisksStay(items[..n]);
      var g := Group(groups, x.controller);
      if g == |groups| {
        assert (groups + [x])[..|groups|] == groups;
      } else if Less(x.disk.name, groups[g].disk.name) {
        FilterUpdate(groups, g, x);
      }
    }
  }

  lemma {:induction false} FilterHas(items: seq<Item>, x: Item, namespaced: bool)
    ensures x in Filter(items, namespaced) <==> x in items && (x.controller != "") == namespaced
  {
    if items != [] {
      var n := |items| - 1;
      FilterHas(items[..n], x, namespaced);
      assert items == items[..n] + [items[n]];
    }
  }

  ghost predicate DistinctNames(items: seq<Item>) {
    forall i, j :: 0 <= i < j < |items| ==> items[i].disk.name != items[j].disk.name
  }

  /** The simple specification of the grouping: with distinct block-device names, the disks that remain
      are exactly those that no namespace of their own controller undercuts. */
  lemma GroupsAreExactlyTheLeast(items: seq<Item>, x: Item)
    requires DistinctNames(items)
    ensures x in Groups(items) <==> x in items && Least(items, x)
  {
    var groups := Groups(items);
    GroupsAreLeast(items);
    if x in items && Least(items, x) {
      if x.controller == "" {
        SataDisksStay(items);
        FilterHas(items, x, false);
        FilterHas(groups, x, false);
      } else {
        var k :| 0 <= k < |items| && items[k] == x;
        var y := groups[Group(groups, items[k].controller)];
        assert y in items && SameController(x, y) && SameController(y, x);
        var j :| 0 <= j < |items| && items[j] == y;
        LessTotal(x.disk.name, y.disk.name);
        assert x.disk.name == y.disk.name && j == k;
      }
    }
  }

  /** The order of the directory does not matter: the same disks remain. */
  lemma GroupsInAnyOrder(a: seq<Item>, b: seq<Item>)
    requires multiset(a) == multiset(b) && DistinctNames(a) && DistinctNames(b)
    ensures Elements(Groups(a)) == Elements(Groups(b))
  {
    assert forall x :: x in a <==> x in multiset(a);
    assert forall x :: x in b <==> x in multiset(b);
    forall x ensures x in Groups(a) <==> x in Groups(b) {
      GroupsAreExactlyTheLeast(a, x);
      GroupsAreExactlyTheLeast(b, x);
      if Least(a, x) { LeastTransfers(a, b, x); }
      if Least(b, x) { LeastTransfers(b, a, x); }
    }
  }

  lemma LeastTransfers(a: seq<Item>, b: seq<Item>, x: Item)
    requires Least(a, x) && forall y :: y in b ==> y in a
    ensures Least(b, x)
  {
    forall k | 0 <= k < |b| && SameController(x, b[k]) ensures !Less(b[k].disk.name, x.disk.name) {
      assert b[k] in a;
    }
  }

  /** Conversely, pairwise agreement makes the items consistent. */
  lemma {:induction false} PairwiseConsistent(items: seq<Item>)
    requires forall i, j :: 0 <= i < |items| && 0 <= j < |items| && SameController(items[i], items[j]) ==> Agree(items[i].disk, items[j].disk)
    ensures Consistent(items)
  {
    if items != [] {
      var n := |items| - 1;
      forall i, j | 0 <= i < n && 0 <= j < n && SameController(items[..n][i], items[..n][j])
        ensures Agree(items[..n][i].disk, items[..n][j].disk)
      {
        assert SameController(items[i], items[j]);
      }
      PairwiseConsistent(items[..n]);
      forall k | 0 <= k < n && SameController(items[..n][k], items[n]) ensures Agree(items[..n][k].disk, items[n].disk) {
        assert SameController(items[k], items[n]);
      }
    }
  }

  /** So an inventory is accepted exactly when any two namespaces of one controller have the same PCI address,
      serial, interface, mapping, slot, slot name and LED. */
  lemma ConsistentExactly(items: seq<Item>)
    ensures Consistent(items) <==>
      forall i, j :: 0 <= i < |items| && 0 <= j < |items| && items[i].controller != "" && items[i].controller == items[j].controller ==>
        var a, b := items[i].disk, items[j].disk;
        && a.pci == b.pci && a.serial == b.serial && a.interface == b.interface && a.mapped == b.mapped && a.slot == b.slot
        && a.slotName == b.slotName && a.ledSupported == b.ledSupported && a.ledId == b.ledId
  {
    if Consistent(items) {
      forall i, j | 0 <= i < |items| && 0 <= j < |items| && SameController(items[i], items[j])
        ensures Agree(items[i].disk, items[j].disk)
      {
        ConsistentMeans(items, i, j);
      }
    } else if forall i, j :: 0 <= i < |items| && 0 <= j < |items| && SameController(items[i], items[j]) ==> Agree(items[i].disk, items[j].disk) {
      PairwiseConsistent(items);
    }
  }

  /** Nor does the verdict depend on the order: a reordered inventory fails exactly when the original does. */
  lemma ConsistentInAnyOrder(a: seq<Item>, b: seq<Item>)
    requires multiset(a) == multiset(b)
    ensures Consistent(a) <==> Consistent(b)
  {
    if Consistent(a) { ReorderedConsistent(a, b); }
    if Consistent(b) { ReorderedConsistent(b, a); }
  }

  lemma ReorderedConsistent(a: seq<Item>, b: seq<Item>)
    requires multiset(a) == multiset(b) && Consistent(a)
    ensures Consistent(b)
  {
    forall i, j | 0 <= i < |b| && 0 <= j < |b| && SameController(b[i], b[j]) ensures Agree(b[i].disk, b[j].disk) {
      assert b[i] in multiset(a) && b[j] in multiset(a);
      var k :| 0 <= k < |a| && a[k] == b[i];
      var m :| 0 <= m < |a| && a[m] == b[j];
      ConsistentMeans(a, k, m);
    }
    PairwiseConsistent(b);
  }

  function Zip(disks: seq<Disk>, controllers: seq<string>): seq<Item>
    requires |disks| == |controllers|
  {
    seq(|disks|, i requires 0 <= i < |disks| => Item(disks[i], controllers[i]))
  }

  /** The representative of a controller. */
  function Representative(groups: seq<Item>, controller: string): Disk
    requires Group(groups, controller) < |groups|
  {
    groups[Group(groups, controller)].disk
  }

  /** Each namespace once, in order, naming its own controller's final representative. */
  ghost predicate AliasesFor(aliases: seq<Alias>, items: seq<Item>) {
    var named, groups := Filter(items, true), Groups(items);
    && |aliases| == |named|
    && forall k :: 0 <= k < |named| ==>
         && Group(groups, named[k].controller) < |groups|
         && aliases[k] == Alias(named[k].disk.name, named[k].disk.wwn, Representative(groups, named[k].controller).name)
  }

  /** The front of the arrays holds the groups so far, and beyond i they still hold the input. */
  ghost predicate Halfway(disks: seq<Disk>, controllers: seq<string>, groups: seq<Item>, items: seq<Item>, i: nat) {
    && |groups| <= i <= |items| <= |disks| == |controllers|
    && (forall k :: 0 <= k < |groups| ==> disks[k] == groups[k].disk && controllers[k] == groups[k].controller)
    && (forall k :: i <= k < |items| ==> disks[k] == items[k].disk && controllers[k] == items[k].controller)
  }

  /** The search loop: the position of the controller's group among the first `physical` entries. */
  method FindGroup(controllers: array<string>, physical: nat, controller: string, ghost groups: seq<Item>) returns (group: nat)
    requires physical == |groups| <= controllers.Length
    requires forall k :: 0 <= k < physical ==> controllers[k] == groups[k].controller
    requires OnePerController(groups)
    ensures group == Group(groups, controller)
  {
    group := 0;
    while group < physical
      invariant 0 <= group <= physical
      invariant controller != "" ==> forall k :: 0 <= k < group ==> groups[k].controller != controller
    {
      if controller != "" && controllers[group] == controller { return; }
      group := group + 1;
    }
  }

  /** One step of the first loop, in place: entry i joins the groups at the front, or is rejected. */
  method PlaceDisk(disks: array<Disk>, controllers: array<string>, ghost groups: seq<Item>, ghost items: seq<Item>,
                   i: nat, physical: nat)
    returns (ok: bool, group: nat, count: nat)
    requires i < |items| && disks.Length == controllers.Length && physical == |groups| && OnePerController(groups)
    requires Halfway(disks[..], controllers[..], groups, items, i)
    modifies disks, controllers
    ensures group == Group(groups, items[i].controller)
    ensures ok <==> group == |groups| || Agree(groups[group].disk, items[i].disk)
    ensures ok ==> Halfway(disks[..], controllers[..], Add(groups, items[i]), items, i + 1) && count == |Add(groups, items[i])|
  {
    var disk, controller := disks[i], controllers[i];
    assert disks[..][i] == items[i].disk && controllers[..][i] == items[i].controller;
    assert forall k :: 0 <= k < physical ==> disks[..][k] == groups[k].disk && controllers[..][k] == groups[k].controller;
    ok, count := true, physical;
    group := FindGroup(controllers, physical, controller, groups);
    if group < physical {
      if !Agree(disks[group], disk) { ok := false; return; }
      if Less(disk.name, disks[group].name) { disks[group] := disk; }
    } else {
      disks[group], controllers[group] := disk, controller;
      count := physical + 1;
    }
  }

  /** Comparing with the representative decides whether one more item agrees with its whole group. */
  lemma CheckDecides(before: seq<Item>, groups: seq<Item>, x: Item)
    requires Grouped(groups, before) && Consistent(before)
    ensures var g := Group(groups, x.controller);
      (g == |groups| || Agree(groups[g].disk, x.disk)) <==> AgreesWithAll(before, x)
  {
    var g := Group(groups, x.controller);
    forall k | 0 <= k < |before| && SameController(before[k], x)
      ensures g < |groups| && Agree(before[k].disk, groups[g].disk)
    {
      assert Group(groups, before[k].controller) < |groups| && groups[g] in before;
      var r :| 0 <= r < |before| && before[r] == groups[g];
      ConsistentMeans(before, k, r);
    }
    if g < |groups| {
      var r :| 0 <= r < |before| && before[r] == groups[g];
      assert SameController(before[r], x);
    }
  }

  /** A group keeps its position as more items arrive. */
  lemma GroupIsStable(groups: seq<Item>, x: Item, controller: string)
    requires Group(groups, controller) < |groups| && OnePerController(groups)
    ensures Group(Add(groups, x), controller) == Group(groups, controller)
  {
    AddKeepsOne(groups, x);
    var next, h := Add(groups, x), Group(groups, controller);
    assert next[h].controller == controller;
    GroupIsFound(next, h);
  }

  /** The recorded positions of the namespaces so far are those of their groups. */
  ghost predicate Placed(slots: seq<nat>, named: seq<Item>, groups: seq<Item>) {
    |slots| == |named| && forall k :: 0 <= k < |named| ==> slots[k] == Group(groups, named[k].controller) < |groups|
  }

  lemma PlacedStays(slots: seq<nat>, named: seq<Item>, groups: seq<Item>, x: Item)
    requires Placed(slots, named, groups) && OnePerController(groups)
    ensures Placed(slots, named, Add(groups, x))
  {
    var next := Add(groups, x);
    assert |groups| <= |next|;
    forall k | 0 <= k < |named| ensures slots[k] == Group(next, named[k].controller) < |next| {
      GroupIsStable(groups, x, named[k].controller);
    }
  }

  /** A namespace joins its controller's group, or starts it at the end. */
  lemma GroupOfAdded(groups: seq<Item>, x: Item)
    requires OnePerController(groups) && x.controller != ""
    ensures Group(Add(groups, x), x.controller) == Group(groups, x.controller) < |Add(groups, x)|
  {
    var next, g := Add(groups, x), Group(groups, x.controller);
    AddKeepsOne(groups, x);
    assert next[g].controller == x.controller;
    GroupIsFound(next, g);
  }

  lemma PlacedAppend(slots: seq<nat>, named: seq<Item>, groups: seq<Item>, x: Item)
    requires Placed(slots, named, groups) && Group(groups, x.controller) < |groups|
    ensures Placed(slots + [Group(groups, x.controller)], named + [x], groups)
  {
  }

  lemma PlacedExtends(slots: seq<nat>, named: seq<Item>, groups: seq<Item>, x: Item)
    requires Placed(slots, named, groups) && OnePerController(groups)
    ensures Placed(slots, named, Add(groups, x))
    ensures x.controller != "" ==> Placed(slots + [Group(groups, x.controller)], named + [x], Add(groups, x))
  {
    PlacedStays(slots, named, groups, x);
    if x.controller != "" {
      GroupOfAdded(groups, x);
      PlacedAppend(slots, named, Add(groups, x), x);
    }
  }

  /** The name and WWN recorded for each namespace. */
  ghost predicate Labels(labels: seq<(string, string)>, named: seq<Item>) {
    |labels| == |named| && forall k :: 0 <= k < |named| ==> labels[k] == (named[k].disk.name, named[k].disk.wwn)
  }

  /** The second loop: name each namespace's representative, now that the groups are final. */
  method NameAliases(disks: array<Disk>, slots: seq<nat>, labels: seq<(string, string)>, ghost items: seq<Item>)
    returns (aliases: seq<Alias>)
    requires Placed(slots, Filter(items, true), Groups(items)) && Labels(labels, Filter(items, true))
    requires |Groups(items)| <= disks.Length
    requires forall k :: 0 <= k < |Groups(items)| ==> disks[k] == Groups(items)[k].disk
    ensures AliasesFor(aliases, items)
  {
    ghost var groups, named := Groups(items), Filter(items, true);
    aliases := [];
    var i := 0;
    while i < |slots|
      invariant 0 <= i <= |slots| && |aliases| == i
      invariant forall k :: 0 <= k < i ==>
        aliases[k] == Alias(named[k].disk.name, named[k].disk.wwn, groups[slots[k]].disk.name)
    {
      aliases := aliases + [Alias(labels[i].0, labels[i].1, disks[slots[i]].name)];
      i := i + 1;
    }
  }

  /** What the first loop has established after i items. */
  ghost predicate Book(items: seq<Item>, i: nat, groups: seq<Item>, slots: seq<nat>, labels: seq<(string, string)>) {
    && i <= |items| && groups == Groups(items[..i]) && Consistent(items[..i])
    && Placed(slots, Filter(items[..i], true), groups) && Labels(labels, Filter(items[..i], true))
  }

  /** One more item is consistent with the others exactly if it agrees with its group's representative. */
  lemma ConsistentNext(items: seq<Item>, i: nat, groups: seq<Item>)
    requires i < |items| && groups == Groups(items[..i]) && Consistent(items[..i])
    ensures var g := Group(groups, items[i].controller);
      (g == |groups| || Agree(groups[g].disk, items[i].disk)) <==> Consistent(items[..i + 1])
  {
    assert items[..i + 1] == items[..i] + [items[i]];
    ConsistentSnoc(items[..i], items[i]);
    GroupsAreLeast(items[..i]);
    CheckDecides(items[..i], groups, items[i]);
  }

  lemma ConsistentSnoc(before: seq<Item>, x: Item)
    ensures Consistent(before + [x]) <==> Consistent(before) && AgreesWithAll(before, x)
  {
    var all := before + [x];
    assert all[..|before|] == before && all[|before|] == x;
  }

  lemma BookAppend(items: seq<Item>, i: nat, groups: seq<Item>, slots: seq<nat>, labels: seq<(string, string)>)
    requires i < |items| && Book(items, i, groups, slots, labels) && Consistent(items[..i + 1])
    ensures var x, g := items[i], Group(groups, items[i].controller);
      if x.controller == "" then Book(items, i + 1, Add(groups, x), slots, labels)
      else Book(items, i + 1, Add(groups, x), slots + [g], labels + [(x.disk.name, x.disk.wwn)])
  {
    assert items[..i + 1][..i] == items[..i];
    GroupsAreLeast(items[..i]);
    PlacedExtends(slots, Filter(items[..i], true), groups, items[i]);
  }

  lemma BookNext(items: seq<Item>, i: nat, groups: seq<Item>, slots: seq<nat>, labels: seq<(string, string)>)
    requires i < |items| && Book(items, i, groups, slots, labels)
    ensures OnePerController(groups)
    ensures var x, g := items[i], Group(groups, items[i].controller);
      if g == |groups| || Agree(groups[g].disk, x.disk)
      then if x.controller == "" then Book(items, i + 1, Add(groups, x), slots, labels)
           else Book(items, i + 1, Add(groups, x), slots + [g], labels + [(x.disk.name, x.disk.wwn)])
      else !Consistent(items)
  {
    GroupsAreLeast(items[..i]);
    ConsistentNext(items, i, groups);
    if Consistent(items[..i + 1]) {
      BookAppend(items, i, groups, slots, labels);
    } else if Consistent(items) {
      ConsistentPrefix(items, i + 1);
    }
  }

  /** The first loop: group the disks in place, or stop at a disagreement. */
  method GroupInPlace(disks: array<Disk>, controllers: array<string>, count: nat, ghost items: seq<Item>)
    returns (ok: bool, physical: nat, slots: seq<nat>, labels: seq<(string, string)>)
    requires count == |items| <= disks.Length == controllers.Length
    requires Halfway(disks[..], controllers[..], [], items, 0)
    modifies disks, controllers
    ensures ok <==> Consistent(items)
    ensures ok ==> Book(items, count, Groups(items), slots, labels)
    ensures ok ==> physical == |Groups(items)| && Halfway(disks[..], controllers[..], Groups(items), items, count)
  {
    ghost var groups: seq<Item> := [];
    physical, slots, labels := 0, [], [];
    var i := 0;
    while i < count
      invariant 0 <= i <= count && Halfway(disks[..], controllers[..], groups, items, i) && physical == |groups|
      invariant Book(items, i, groups, slots, labels)
    {
      var disk, controller := disks[i], controllers[i];
      assert disks[..][i] == items[i].disk && controllers[..][i] == items[i].controller;
      BookNext(items, i, groups, slots, labels);
      var placed, group, next := PlaceDisk(disks, controllers, groups, items, i, physical);
      if !placed { ok := false; return; }
      groups := Add(groups, items[i]);
      if controller != "" { slots, labels := slots + [group], labels + [(disk.name, disk.wwn)]; }
      physical, i := next, i + 1;
    }
    assert items[..i] == items;
    ok := true;
  }

  /** `coalesce_nvme_namespaces`: fails exactly when namespaces of one controller disagree; otherwise the
      front of the array holds the groups and every namespace is an alias of its representative. */
  method Coalesce(disks: array<Disk>, controllers: array<string>, count: nat)
    returns (ok: bool, physical: nat, aliases: seq<Alias>)
    requires count <= disks.Length == controllers.Length
    modifies disks, controllers
    ensures var items := Zip(old(disks[..count]), old(controllers[..count]));
      && (ok <==> Consistent(items))
      && (ok ==> physical == |Groups(items)| <= count && AliasesFor(aliases, items))
      && (ok ==> forall k :: 0 <= k < physical ==> Item(disks[k], controllers[k]) == Groups(items)[k])
  {
    ghost var items := Zip(disks[..count], controllers[..count]);
    assert forall k :: 0 <= k < count ==> disks[..][k] == items[k].disk && controllers[..][k] == items[k].controller;
    var slots, labels;
    aliases := [];
    ok, physical, slots, labels := GroupInPlace(disks, controllers, count, items);
    if ok {
      assert items[..count] == items;
      assert forall k :: 0 <= k < physical ==> disks[..][k] == Groups(items)[k].disk && controllers[..][k] == Groups(items)[k].controller;
      aliases := NameAliases(disks, slots, labels, items);
    }
  }
}
