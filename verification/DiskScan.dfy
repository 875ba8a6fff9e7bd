/** A whole disk scan (`ugreenctl_disk_scan_at` in disk/disk.c): enumeration, inventory recheck, namespaces,
    conflicts and the final order. What it returns does not depend on how the directory lists its entries. */
module DiskScan {
  import opened Base
  import opened DiskModel
  import opened DiskInventory
  import opened DiskNamespaces
  import opened DiskConflicts
  import opened DiskResolve

  datatype Identity = Identity(serial: string, wwn: string, topology: string, controller: string)

  /** A disk that could be read, with what decides its mapping: the calibrated or single-controller slot, the
      firmware rules that match it, and the LED record of the bay. Once the enumeration is complete it is read
      again; `moved` when its controllers then no longer give it the same bay. */
  datatype Reading = Reading(disk: Disk, controller: string, slot: nat, matched: seq<Rule>, calibrated: bool,
                             hasLed: Option<bool>, again: Option<Identity>, moved: bool) {
    predicate Unchanged() { again == Some(Identity(disk.serial, disk.wwn, disk.topology, controller)) }

    /** The disk with the mapping it keeps. */
    function Mapped(): Disk {
      var d := MapDisk(disk, slot, matched, calibrated, hasLed);
      if moved && d.mapped then Unmap(d) else d
    }
  }

  /** An entry of class/block: whether it is a whole disk or namespace, and what was read of it. */
  datatype BlockEntry = BlockEntry(name: string, candidate: bool, found: Option<Reading>)

  /** What reading and the rule tables guarantee of an entry. */
  ghost predicate Readable(e: BlockEntry) {
    e.found.Some? ==>
      var r := e.found.value;
      && e.candidate && r.disk.name == e.name && Fresh(r.disk)
      && (forall k :: 0 <= k < |r.matched| ==> (r.matched[k].kind == SataRule <==> r.disk.interface == Sata))
      && (forall k :: 0 <= k < |r.matched| ==> r.matched[k].number > 0)
      && (|r.matched| == 1 && !r.calibrated ==> r.hasLed.None? || r.hasLed.value == r.matched[0].hasLed)
  }

  /** One directory lists no name twice. */
  ghost predicate Directory(entries: seq<BlockEntry>) {
    && (forall k :: 0 <= k < |entries| ==> Readable(entries[k]))
    && (forall i, j :: 0 <= i < j < |entries| ==> entries[i].name != entries[j].name)
  }

  function MemberOf(e: BlockEntry): seq<string> { if e.candidate then [e.name] else [] }

  function ItemOf(e: BlockEntry): seq<Item> {
    match e.found
    case None => []
    case Some(r) => [Item(r.Mapped(), r.controller)]
  }

  function Members(entries: seq<BlockEntry>): seq<string> { Flat(MemberOf, entries) }

  function Items(entries: seq<BlockEntry>): seq<Item> { Flat(ItemOf, entries) }

  /** The members can all be recorded. */
  ghost predicate Recordable(entries: seq<BlockEntry>) {
    |Members(entries)| <= DISK_MAX && forall k :: 0 <= k < |Members(entries)| ==> |Members(entries)[k]| < NAME_SIZE
  }

  /** Every disk was read again as it was. */
  ghost predicate Stable(entries: seq<BlockEntry>) {
    forall k :: 0 <= k < |entries| && entries[k].found.Some? ==> entries[k].found.value.Unchanged()
  }

  lemma {:induction false} FlatPrefix<T, U>(f: T -> seq<U>, s: seq<T>, i: nat)
    requires i < |s|
    ensures Flat(f, s[..i + 1]) == Flat(f, s[..i]) + f(s[i]) && Flat(f, s[..i + 1]) <= Flat(f, s)
  {
    assert s[..i + 1] == s[..i] + [s[i]] && s == s[..i + 1] + s[i + 1..];
    FlatSnoc(f, s[..i], s[i]);
    FlatConcat(f, s[..i + 1], s[i + 1..]);
  }

  /** There are no more disks than members. */
  lemma {:induction false} FewerItems(entries: seq<BlockEntry>)
    requires forall k :: 0 <= k < |entries| ==> Readable(entries[k])
    ensures |Items(entries)| <= |Members(entries)|
  {
    if entries != [] {
      var n := |entries| - 1;
      FewerItems(entries[..n]);
      assert Readable(entries[n]);
    }
  }

  /** The enumeration loop: members and disks, or a refusal when the members cannot all be recorded. */
  method Enumerate(entries: seq<BlockEntry>) returns (ok: bool, members: seq<string>, items: seq<Item>)
    requires forall k :: 0 <= k < |entries| ==> Readable(entries[k])
    ensures ok <==> Recordable(entries)
    ensures ok <==> |Members(entries)| <= 128 && forall k :: 0 <= k < |Members(entries)| ==> |Members(entries)[k]| < 64
    ensures ok ==> members == Members(entries) && items == Items(entries) && |items| <= DISK_MAX
  {
    members, items := [], [];
    var i := 0;
    while i < |entries|
      invariant i <= |entries| && members == Members(entries[..i]) && items == Items(entries[..i])
      invariant |members| <= DISK_MAX && forall k :: 0 <= k < |members| ==> |members[k]| < NAME_SIZE
    {
      var e := entries[i];
      EnumerateNext(entries, i);
      if e.candidate && (|members| == DISK_MAX || |e.name| >= NAME_SIZE) { return false, members, items; }
      members, items := members + MemberOf(e), items + ItemOf(e);
      i := i + 1;
    }
    assert entries[..i] == entries;
    FewerItems(entries);
    ok := true;
  }

  /** One more entry; one that cannot be recorded refuses the scan. */
  lemma EnumerateNext(entries: seq<BlockEntry>, i: nat)
    requires i < |entries|
    ensures Members(entries[..i + 1]) == Members(entries[..i]) + MemberOf(entries[i])
    ensures Items(entries[..i + 1]) == Items(entries[..i]) + ItemOf(entries[i])
    ensures entries[i].candidate && (|Members(entries[..i])| >= DISK_MAX || |entries[i].name| >= NAME_SIZE) ==> !Recordable(entries)
  {
    FlatPrefix(MemberOf, entries, i);
    FlatPrefix(ItemOf, entries, i);
    if entries[i].candidate { assert Members(entries)[|Members(entries[..i])|] == entries[i].name; }
  }

  /** The recheck of every disk after the enumeration. */
  method Recheck(entries: seq<BlockEntry>) returns (ok: bool)
    ensures ok <==> Stable(entries)
  {
    var i := 0;
    while i < |entries|
      invariant i <= |entries| && forall k :: 0 <= k < i && entries[k].found.Some? ==> entries[k].found.value.Unchanged()
    {
      if entries[i].found.Some? && !entries[i].found.value.Unchanged() { return false; }
      i := i + 1;
    }
    ok := true;
  }

  function DisksOf(items: seq<Item>): (ds: seq<Disk>)
    ensures |ds| == |items| && forall k :: 0 <= k < |items| ==> ds[k] == items[k].disk
  {
    seq(|items|, k requires 0 <= k < |items| => items[k].disk)
  }

  /** The disks after the conflict pass. */
  ghost function Kept(disks: seq<Disk>, unverified: bool): (after: seq<Disk>)
    ensures Cleared(disks, unverified, after)
  {
    seq(|disks|, k requires 0 <= k < |disks| => if Loses(disks, unverified, k) then Unmap(disks[k]) else disks[k])
  }

  /** `qsort` by name, as the list it ends with. */
  function InsertByName(d: Disk, s: seq<Disk>): seq<Disk> {
    if s == [] then [d] else if Less(s[0].name, d.name) then [s[0]] + InsertByName(d, s[1..]) else [d] + s
  }

  function SortByName(s: seq<Disk>): seq<Disk> {
    if s == [] then [] else InsertByName(s[|s| - 1], SortByName(s[..|s| - 1]))
  }

  ghost predicate ByName(s: seq<Disk>) {
    forall i, j :: 0 <= i < j < |s| ==> Less(s[i].name, s[j].name)
  }

  ghost predicate NamesDiffer(s: seq<Disk>) {
    forall i, j :: 0 <= i < j < |s| ==> s[i].name != s[j].name
  }

  lemma {:induction false} InsertMembers(d: Disk, s: seq<Disk>)
    ensures multiset(InsertByName(d, s)) == multiset(s) + multiset{d}
  {
    if s != [] {
      assert s == [s[0]] + s[1..];
      if Less(s[0].name, d.name) { InsertMembers(d, s[1..]); }
    }
  }

  lemma InsertHas(d: Disk, s: seq<Disk>, x: Disk)
    requires x in InsertByName(d, s)
    ensures x == d || x in s
  {
    InsertMembers(d, s);
    assert x in multiset(s) + multiset{d};
  }

  lemma {:induction false} InsertKeepsOrder(d: Disk, s: seq<Disk>)
    requires ByName(s) && forall k :: 0 <= k < |s| ==> s[k].name != d.name
    ensures ByName(InsertByName(d, s))
  {
    if s != [] {
      if Less(s[0].name, d.name) {
        InsertKeepsOrder(d, s[1..]);
        var rest := InsertByName(d, s[1..]);
        forall j | 0 <= j < |rest| ensures Less(s[0].name, rest[j].name) { InsertHas(d, s[1..], rest[j]); }
      } else {
        LessTotal(s[0].name, d.name);
        forall j | 0 <= j < |s| ensures Less(d.name, s[j].name) {
          if j > 0 { LessTransitive(d.name, s[0].name, s[j].name); }
        }
      }
    }
  }

  lemma {:induction false} SortMembers(s: seq<Disk>)
    ensures multiset(SortByName(s)) == multiset(s)
  {
    if s != [] {
      var front, last := s[..|s| - 1], s[|s| - 1];
      SortMembers(front);
      InsertMembers(last, SortByName(front));
      assert s == front + [last];
    }
  }

  lemma {:induction false} SortOrders(s: seq<Disk>)
    requires NamesDiffer(s)
    ensures ByName(SortByName(s))
  {
    if s != [] {
      var front, last := s[..|s| - 1], s[|s| - 1];
      var sorted := SortByName(front);
      SortOrders(front);
      SortMembers(front);
      forall k | 0 <= k < |sorted| ensures sorted[k].name != last.name {
        assert sorted[k] in multiset(front);
        var m :| 0 <= m < |front| && front[m] == sorted[k];
        assert s[m].name != last.name;
      }
      InsertKeepsOrder(last, sorted);
    }
  }

  lemma FirstIsLeast(s: seq<Disk>, x: Disk)
    requires ByName(s) && s != [] && x in multiset(s)
    ensures x == s[0] || Less(s[0].name, x.name)
  {
    var k :| 0 <= k < |s| && s[k] == x;
  }

  lemma SameFirst(a: seq<Disk>, b: seq<Disk>)
    requires ByName(a) && ByName(b) && a != [] && b != [] && multiset(a) == multiset(b)
    ensures a[0] == b[0]
  {
    assert a[0] in multiset(a) && b[0] in multiset(b);
    FirstIsLeast(a, b[0]);
    FirstIsLeast(b, a[0]);
    LessTotal(a[0].name, b[0].name);
  }

  lemma TailMembers<T>(s: seq<T>)
    requires s != []
    ensures multiset(s[1..]) == multiset(s) - multiset{s[0]}
  {
    assert s == [s[0]] + s[1..];
  }

  /** There is only one list by name. */
  lemma {:induction false} ByNameIsUnique(a: seq<Disk>, b: seq<Disk>)
    requires ByName(a) && ByName(b) && multiset(a) == multiset(b)
    ensures a == b
  {
    assert |multiset(a)| == |a| && |multiset(b)| == |b|;
    if a != [] {
      SameFirst(a, b);
      TailMembers(a);
      TailMembers(b);
      ByNameIsUnique(a[1..], b[1..]);
      assert a == [a[0]] + a[1..] && b == [b[0]] + b[1..];
    }
  }

  ghost predicate Lists(entries: seq<BlockEntry>, name: string) {
    exists i :: 0 <= i < |entries| && entries[i].name == name
  }

  /** Every disk of the enumeration has its entry's name and consistent claims. */
  ghost predicate Named(items: seq<Item>, entries: seq<BlockEntry>) {
    forall k :: 0 <= k < |items| ==> Shaped(items[k].disk) && Lists(entries, items[k].disk.name)
  }

  lemma {:induction false} ItemsAreNamed(entries: seq<BlockEntry>)
    requires Directory(entries)
    ensures Named(Items(entries), entries) && DistinctNames(Items(entries))
  {
    if entries != [] {
      var n := |entries| - 1;
      var before, e := entries[..n], entries[n];
      assert Directory(before) by {
        forall k | 0 <= k < n ensures Readable(before[k]) { assert Readable(entries[k]); }
      }
      ItemsAreNamed(before);
      assert Readable(e);
      if e.found.Some? {
        var r := e.found.value;
        ReadingIsShaped(e);
        NamedAppend(Items(before), before, e, Item(r.Mapped(), r.controller));
      } else {
        NamedWiden(Items(before), before, e);
      }
      assert before + [e] == entries;
    }
  }

  lemma ReadingIsShaped(e: BlockEntry)
    requires Readable(e) && e.found.Some?
    ensures Shaped(e.found.value.Mapped()) && e.found.value.Mapped().name == e.name
  {
    var r := e.found.value;
    MappingIsShaped(r.disk, r.slot, r.matched, r.calibrated, r.hasLed);
  }

  lemma NamedWiden(items: seq<Item>, before: seq<BlockEntry>, e: BlockEntry)
    requires Named(items, before)
    ensures Named(items, before + [e])
  {
    forall k | 0 <= k < |items| ensures Lists(before + [e], items[k].disk.name) {
      var i :| 0 <= i < |before| && before[i].name == items[k].disk.name;
      assert (before + [e])[i] == before[i];
    }
  }

  lemma NamedAppend(items: seq<Item>, before: seq<BlockEntry>, e: BlockEntry, x: Item)
    requires Named(items, before) && DistinctNames(items) && Shaped(x.disk) && x.disk.name == e.name
    requires forall i :: 0 <= i < |before| ==> before[i].name != e.name
    ensures Named(items + [x], before + [e]) && DistinctNames(items + [x])
  {
    NamedWiden(items, before, e);
    assert (before + [e])[|before|] == e;
    assert Lists(before + [e], x.disk.name);
    forall k | 0 <= k < |items| ensures items[k].disk.name != x.disk.name { assert Lists(before, items[k].disk.name); }
  }

  /** Grouping keeps names apart, and takes every disk from the input. */
  lemma {:induction false} GroupsStayDistinct(items: seq<Item>)
    requires DistinctNames(items)
    ensures DistinctNames(Groups(items)) && forall g :: 0 <= g < |Groups(items)| ==> Groups(items)[g] in items
  {
    GroupsAreLeast(items);
    if items != [] {
      var n := |items| - 1;
      var before, x := items[..n], items[n];
      GroupsStayDistinct(before);
      forall g | 0 <= g < |Groups(before)| ensures Groups(before)[g].disk.name != x.disk.name {
        var k :| 0 <= k < |before| && before[k] == Groups(before)[g];
        assert items[k] == before[k];
      }
    }
  }

  /** The disks that remain after grouping. */
  ghost function Physical(entries: seq<BlockEntry>): seq<Disk> { DisksOf(Groups(Items(entries))) }

  lemma PhysicalIsSound(entries: seq<BlockEntry>)
    requires Directory(entries)
    ensures NamesDiffer(Physical(entries)) && forall k :: 0 <= k < |Physical(entries)| ==> Shaped(Physical(entries)[k])
  {
    var items := Items(entries);
    ItemsAreNamed(entries);
    GroupsStayDistinct(items);
    forall k | 0 <= k < |Groups(items)| ensures Shaped(Groups(items)[k].disk) {
      assert Groups(items)[k] in items;
    }
  }

  lemma NamesSurvive(disks: seq<Disk>, unverified: bool)
    requires NamesDiffer(disks)
    ensures NamesDiffer(Kept(disks, unverified))
  {
  }

  /** What a scan accepts. */
  ghost predicate Accepts(entries: seq<BlockEntry>, listed: bool, opens: bool, recheck: seq<DirEntry>, readError: bool) {
    && Recordable(entries) && listed && Stable(entries) && opens && !readError
    && SameNames(Candidates(recheck), Members(entries)) && Consistent(Items(entries))
  }

  /** The disks of an accepted scan. */
  ghost function Outcome(entries: seq<BlockEntry>, unverified: bool): seq<Disk> {
    SortByName(Kept(Physical(entries), unverified))
  }

  lemma ExclusiveInOrder(a: seq<Disk>, b: seq<Disk>)
    requires Exclusive(a) && multiset(a) == multiset(b) && NamesDiffer(b)
    ensures Exclusive(b)
  {
    forall i, j | 0 <= i < |b| && 0 <= j < |b| && i != j && b[i].mapped && b[j].mapped
      ensures b[i].slotName != b[j].slotName && (b[i].ledId == "" || b[i].ledId != b[j].ledId) &&
              (b[i].topology == "" || b[i].topology != b[j].topology)
    {
      assert b[i] in multiset(a) && b[j] in multiset(a);
      var k :| 0 <= k < |a| && a[k] == b[i];
      var m :| 0 <= m < |a| && a[m] == b[j];
      assert b[i].name != b[j].name;
    }
  }

  /** In an accepted scan no two mapped disks share a slot, an LED or a topology. */
  lemma OutcomeIsSound(entries: seq<BlockEntry>, unverified: bool)
    requires Directory(entries)
    ensures Exclusive(Outcome(entries, unverified)) && ByName(Outcome(entries, unverified))
    ensures forall k :: 0 <= k < |Outcome(entries, unverified)| ==> Shaped(Outcome(entries, unverified)[k])
  {
    var before := Physical(entries);
    var after := Kept(before, unverified);
    PhysicalIsSound(entries);
    ClearedIsExclusive(before, unverified, after);
    NamesSurvive(before, unverified);
    SortMembers(after);
    SortOrders(after);
    var sorted := SortByName(after);
    assert NamesDiffer(sorted) by {
      forall i, j | 0 <= i < j < |sorted| ensures sorted[i].name != sorted[j].name { LessTotal(sorted[i].name, sorted[i].name); }
    }
    ExclusiveInOrder(after, sorted);
    forall k | 0 <= k < |sorted| ensures Shaped(sorted[k]) {
      assert sorted[k] in multiset(after);
      var m :| 0 <= m < |after| && after[m] == sorted[k];
    }
  }

  datatype Scanned = Scanned(disks: seq<Disk>, aliases: seq<Alias>)

  lemma ZipUnzips(items: seq<Item>, controllers: seq<string>)
    requires |controllers| == |items| && forall k :: 0 <= k < |items| ==> controllers[k] == items[k].controller
    ensures Zip(DisksOf(items), controllers) == items
  {
  }

  /** Coalescing and the conflict pass, on the scan's own arrays. */
  method Settle(items: seq<Item>, unverified: bool) returns (ok: bool, disks: seq<Disk>, aliases: seq<Alias>)
    ensures ok <==> Consistent(items)
    ensures ok ==> disks == Kept(DisksOf(Groups(items)), unverified) && AliasesFor(aliases, items)
  {
    var table := new Disk[|items|](k requires 0 <= k < |items| => items[k].disk);
    var controllers := new string[|items|](k requires 0 <= k < |items| => items[k].controller);
    assert table[..|items|] == DisksOf(items);
    ZipUnzips(items, controllers[..|items|]);
    var physical;
    ok, physical, aliases := Coalesce(table, controllers, |items|);
    disks := [];
    if ok {
      assert table[..physical] == DisksOf(Groups(items));
      ClearConflicts(table, physical, unverified);
      disks := table[..physical];
    }
  }

  /** `ugreenctl_disk_scan_at`. It fails exactly when the directory cannot be listed or its members recorded,
      when a disk changed meanwhile, when the directory read again does not name exactly the members, or when
      namespaces of one controller disagree. */
  method Scan(entries: seq<BlockEntry>, listed: bool, unverified: bool, opens: bool, recheck: seq<DirEntry>, readError: bool)
    returns (r: Option<Scanned>)
    requires Directory(entries)
    ensures r.Some? <==> Accepts(entries, listed, opens, recheck, readError)
    ensures r.Some? ==> r.value.disks == Outcome(entries, unverified) && AliasesFor(r.value.aliases, Items(entries))
    ensures r.Some? ==> Exclusive(r.value.disks) && forall k :: 0 <= k < |r.value.disks| ==> Shaped(r.value.disks[k])
  {
    var ok, members, items := Enumerate(entries);
    if !ok || !listed { return None; }
    ok := Recheck(entries);
    if !ok { return None; }
    ok := VerifyMemberSet(members, opens, recheck, readError);
    if !ok { return None; }
    var disks, aliases;
    ok, disks, aliases := Settle(items, unverified);
    if !ok { return None; }
    OutcomeIsSound(entries, unverified);
    r := Some(Scanned(SortByName(disks), aliases));
  }

  lemma DirectoryReordered(a: seq<BlockEntry>, b: seq<BlockEntry>)
    requires Directory(a) && multiset(a) == multiset(b)
    ensures Directory(b)
  {
    forall k | 0 <= k < |b| ensures Readable(b[k]) {
      assert b[k] in multiset(a);
      var m :| 0 <= m < |a| && a[m] == b[k];
      assert Readable(a[m]);
    }
    assert Distinct(a);
    forall i, j | 0 <= i < j < |b| ensures b[i].name != b[j].name {
      assert b[i] in multiset(a) && b[j] in multiset(a);
      var k :| 0 <= k < |a| && a[k] == b[i];
      var m :| 0 <= m < |a| && a[m] == b[j];
      if k == m { TwiceInList(b, i, j); OnceInDistinct(a, b[i]); }
    }
  }

  lemma TwiceInList<T>(s: seq<T>, i: nat, j: nat)
    requires i < j < |s| && s[i] == s[j]
    ensures multiset(s)[s[i]] >= 2
  {
    var rest := s[i + 1..];
    assert s == s[..i] + [s[i]] + rest;
    assert rest[j - i - 1] == s[j] && s[j] in multiset(rest);
  }

  /** The same members, whatever the order. */
  lemma SameNamesReordered(found: seq<string>, a: seq<string>, b: seq<string>)
    requires multiset(a) == multiset(b) && SameNames(found, a)
    ensures SameNames(found, b)
  {
    forall x ensures x in a <==> x in b { assert x in multiset(a) <==> x in multiset(b); }
    ElementsSize(a);
    ElementsSize(b);
    assert Elements(a) == Elements(b) && |multiset(a)| == |a| && |multiset(b)| == |b|;
  }

  lemma RecordableReordered(a: seq<BlockEntry>, b: seq<BlockEntry>)
    requires multiset(a) == multiset(b) && Recordable(a)
    ensures Recordable(b)
  {
    FlatInAnyOrder(MemberOf, a, b);
    var m, n := Members(a), Members(b);
    assert |multiset(m)| == |m| && |multiset(n)| == |n|;
    forall k | 0 <= k < |n| ensures |n[k]| < NAME_SIZE { assert n[k] in multiset(m); }
  }

  lemma StableReordered(a: seq<BlockEntry>, b: seq<BlockEntry>)
    requires multiset(a) == multiset(b) && Stable(a)
    ensures Stable(b)
  {
    forall k | 0 <= k < |b| && b[k].found.Some? ensures b[k].found.value.Unchanged() { assert b[k] in multiset(a); }
  }

  /** A reordered directory is accepted exactly when the original is. */
  lemma AcceptsInAnyOrder(a: seq<BlockEntry>, b: seq<BlockEntry>, listed: bool, opens: bool, recheck: seq<DirEntry>, readError: bool)
    requires multiset(a) == multiset(b)
    ensures Accepts(a, listed, opens, recheck, readError) <==> Accepts(b, listed, opens, recheck, readError)
  {
    if Stable(a) { StableReordered(a, b); }
    if Stable(b) { StableReordered(b, a); }
    FlatInAnyOrder(MemberOf, a, b);
    FlatInAnyOrder(ItemOf, a, b);
    ConsistentInAnyOrder(Items(a), Items(b));
    if Recordable(a) { RecordableReordered(a, b); }
    if Recordable(b) { RecordableReordered(b, a); }
    if SameNames(Candidates(recheck), Members(a)) { SameNamesReordered(Candidates(recheck), Members(a), Members(b)); }
    if SameNames(Candidates(recheck), Members(b)) { SameNamesReordered(Candidates(recheck), Members(b), Members(a)); }
  }

  lemma KeptTransfers(a: seq<Disk>, b: seq<Disk>, unverified: bool, x: Disk)
    requires multiset(a) == multiset(b) && Distinct(a) && Distinct(b) && x in Kept(a, unverified)
    ensures x in Kept(b, unverified)
  {
    var i :| 0 <= i < |a| && Kept(a, unverified)[i] == x;
    assert a[i] in multiset(b);
    var k :| 0 <= k < |b| && b[k] == a[i];
    LosesInAnyOrder(a, b, unverified, i, k);
    LosesInAnyOrder(b, a, unverified, k, i);
    assert Kept(b, unverified)[k] == x;
  }

  lemma PhysicalInAnyOrder(a: seq<BlockEntry>, b: seq<BlockEntry>)
    requires Directory(a) && Directory(b) && multiset(a) == multiset(b)
    ensures Elements(Groups(Items(a))) == Elements(Groups(Items(b)))
    ensures multiset(Physical(a)) == multiset(Physical(b))
  {
    FlatInAnyOrder(ItemOf, a, b);
    ItemsAreNamed(a);
    ItemsAreNamed(b);
    GroupsInAnyOrder(Items(a), Items(b));
    PhysicalIsSound(a);
    PhysicalIsSound(b);
    SameDisks(Groups(Items(a)), Groups(Items(b)));
    SameDisks(Groups(Items(b)), Groups(Items(a)));
    SameMembers(Physical(a), Physical(b));
  }

  lemma SameDisks(a: seq<Item>, b: seq<Item>)
    requires Elements(a) == Elements(b)
    ensures Elements(DisksOf(a)) <= Elements(DisksOf(b))
  {
    forall x | x in DisksOf(a) ensures x in DisksOf(b) {
      var i :| 0 <= i < |a| && DisksOf(a)[i] == x;
      assert a[i] in Elements(b);
      var k :| 0 <= k < |b| && b[k] == a[i];
      assert DisksOf(b)[k] == x;
    }
  }

  /** An accepted scan ends with the same list of disks whatever the order of the directory. */
  lemma OutcomeInAnyOrder(a: seq<BlockEntry>, b: seq<BlockEntry>, unverified: bool)
    requires Directory(a) && multiset(a) == multiset(b)
    ensures Outcome(a, unverified) == Outcome(b, unverified)
  {
    DirectoryReordered(a, b);
    PhysicalInAnyOrder(a, b);
    PhysicalIsSound(a);
    PhysicalIsSound(b);
    var p, q := Physical(a), Physical(b);
    var after, other := Kept(p, unverified), Kept(q, unverified);
    NamesSurvive(p, unverified);
    NamesSurvive(q, unverified);
    forall x ensures x in after <==> x in other {
      if x in after { KeptTransfers(p, q, unverified, x); }
      if x in other { KeptTransfers(q, p, unverified, x); }
    }
    assert Elements(after) == Elements(other);
    SameMembers(after, other);
    SortMembers(after);
    SortMembers(other);
    SortOrders(after);
    SortOrders(other);
    ByNameIsUnique(SortByName(after), SortByName(other));
  }

  /** A controller has the same representative in both groupings. */
  lemma SameRepresentative(a: seq<Item>, b: seq<Item>, controller: string)
    requires Elements(a) == Elements(b) && OnePerController(a)
    requires Group(a, controller) < |a| && Group(b, controller) < |b|
    ensures Representative(a, controller) == Representative(b, controller)
  {
    var g, h := Group(a, controller), Group(b, controller);
    assert b[h] in Elements(a);
    var k :| 0 <= k < |a| && a[k] == b[h];
    assert SameController(a[k], a[g]) && SameController(a[g], a[k]);
  }

  lemma AliasTransfers(a: seq<Item>, b: seq<Item>, x: seq<Alias>, y: seq<Alias>, alias: Alias)
    requires multiset(a) == multiset(b) && Elements(Groups(a)) == Elements(Groups(b))
    requires AliasesFor(x, a) && AliasesFor(y, b) && alias in x
    ensures alias in y
  {
    var k :| 0 <= k < |x| && x[k] == alias;
    var named := Filter(a, true)[k];
    FilterHas(a, named, true);
    assert named in multiset(b);
    FilterHas(b, named, true);
    var m :| 0 <= m < |y| && Filter(b, true)[m] == named;
    GroupsAreLeast(a);
    SameRepresentative(Groups(a), Groups(b), named.controller);
    assert y[m] == alias;
  }

  lemma AliasesInAnyOrder(a: seq<BlockEntry>, b: seq<BlockEntry>, x: seq<Alias>, y: seq<Alias>)
    requires Directory(a) && multiset(a) == multiset(b)
    requires AliasesFor(x, Items(a)) && AliasesFor(y, Items(b))
    ensures Elements(x) == Elements(y)
  {
    DirectoryReordered(a, b);
    PhysicalInAnyOrder(a, b);
    FlatInAnyOrder(ItemOf, a, b);
    forall alias ensures alias in x <==> alias in y {
      if alias in x { AliasTransfers(Items(a), Items(b), x, y, alias); }
      if alias in y { AliasTransfers(Items(b), Items(a), y, x, alias); }
    }
  }

  /** A selector matches by the set of aliases, not by their order. */
  lemma SelectsByMembers(selector: string, d: Disk, x: seq<Alias>, y: seq<Alias>)
    requires Elements(x) == Elements(y) && Selects(selector, d, x)
    ensures Selects(selector, d, y)
  {
    if k :| 0 <= k < |x| && x[k].diskName == d.name && AliasMatches(x[k], selector) {
      assert x[k] in Elements(y);
      var m :| 0 <= m < |y| && y[m] == x[k];
    }
  }

  lemma OneAnswer(disks: seq<Disk>, x: seq<Alias>, y: seq<Alias>, selector: string, r: Resolution, other: Resolution)
    requires forall k :: 0 <= k < |disks| ==> (Selects(selector, disks[k], x) <==> Selects(selector, disks[k], y))
    requires Resolves(disks, x, selector, r) && Resolves(disks, y, selector, other)
    ensures r == other
  {
  }

  /** What a selector may be answered after an accepted scan. */
  ghost predicate Located(entries: seq<BlockEntry>, unverified: bool, selector: string, r: Resolution) {
    exists aliases :: AliasesFor(aliases, Items(entries)) && Resolves(Outcome(entries, unverified), aliases, selector, r)
  }

  /** A selector has one answer, whatever the order of the directory. */
  lemma LocatedInAnyOrder(a: seq<BlockEntry>, b: seq<BlockEntry>, unverified: bool, selector: string, r: Resolution, other: Resolution)
    requires Directory(a) && multiset(a) == multiset(b)
    requires Located(a, unverified, selector, r) && Located(b, unverified, selector, other)
    ensures r == other
  {
    var disks := Outcome(a, unverified);
    OutcomeInAnyOrder(a, b, unverified);
    var x :| AliasesFor(x, Items(a)) && Resolves(disks, x, selector, r);
    var y :| AliasesFor(y, Items(b)) && Resolves(disks, y, selector, other);
    AliasesInAnyOrder(a, b, x, y);
    forall k | 0 <= k < |disks| ensures Selects(selector, disks[k], x) <==> Selects(selector, disks[k], y) {
      if Selects(selector, disks[k], x) { SelectsByMembers(selector, disks[k], x, y); }
      if Selects(selector, disks[k], y) { SelectsByMembers(selector, disks[k], y, x); }
    }
    OneAnswer(disks, x, y, selector, r, other);
  }

  /** The disk alone owns the LED of the bay. */
  ghost predicate OwnsLed(disks: seq<Disk>, bay: nat, index: nat) {
    && index < |disks| && disks[index].mapped && disks[index].ledId == "disk" + Decimal(bay)
    && forall k :: 0 <= k < |disks| && k != index ==> disks[k].ledId != disks[index].ledId
  }

  lemma BayHasOneOwner(disks: seq<Disk>, aliases: seq<Alias>, selector: string, r: Resolution)
    requires Exclusive(disks) && (forall k :: 0 <= k < |disks| ==> Shaped(disks[k]))
    requires SelectorSlot(selector) != 0 && Resolves(disks, aliases, selector, r)
    ensures !r.ManyMatches? && (r.Resolved? ==> OwnsLed(disks, SelectorSlot(selector), r.index))
  {
    forall i, j | 0 <= i < |disks| && 0 <= j < |disks| && Selects(selector, disks[i], aliases)
      ensures Selects(selector, disks[j], aliases) ==> j == i
      ensures disks[i].ledSupported && j != i ==> disks[j].ledId != disks[i].ledId
      ensures disks[i].ledSupported ==> disks[i].ledId == "disk" + Decimal(SelectorSlot(selector))
    {
      BaySelectorIsExclusive(disks, aliases, selector, i, j);
    }
  }

  /** A scan, then a selector. A bay selector is never ambiguous, and it resolves to the one disk that owns
      the LED of the bay. */
  method Locate(entries: seq<BlockEntry>, listed: bool, unverified: bool, opens: bool, recheck: seq<DirEntry>, readError: bool, selector: string)
    returns (r: Option<Resolution>)
    requires Directory(entries) && selector != ""
    ensures r.Some? <==> Accepts(entries, listed, opens, recheck, readError)
    ensures r.Some? ==> Located(entries, unverified, selector, r.value)
    ensures r.Some? && SelectorSlot(selector) != 0 ==> !r.value.ManyMatches?
    ensures r.Some? && SelectorSlot(selector) != 0 && r.value.Resolved? ==>
      OwnsLed(Outcome(entries, unverified), SelectorSlot(selector), r.value.index)
    ensures r.Some? ==> forall n, i ::
      (1 <= n <= 8 && (selector == "disk" + Decimal(n) || selector == "slot" + Decimal(n)) && AloneInBay(Outcome(entries, unverified), n, i)) ==>
        r.value == Resolved(i)
  {
    var scanned := Scan(entries, listed, unverified, opens, recheck, readError);
    if scanned.None? { return None; }
    var disks, aliases := scanned.value.disks, scanned.value.aliases;
    var answer := Resolve(disks, aliases, selector);
    if SelectorSlot(selector) != 0 { BayHasOneOwner(disks, aliases, selector, answer); }
    r := Some(answer);
  }

  lemma OneItem(e: BlockEntry)
    requires e.found.Some?
    ensures Items([e]) == [Item(e.found.value.Mapped(), e.found.value.controller)]
  {
    FlatSnoc(ItemOf, [], e);
    assert [] + [e] == [e];
  }

  lemma OneGroup(x: Item)
    ensures DisksOf(Groups([x])) == [x.disk]
  {
    assert [x][..0] == [] && Add([], x) == [x];
  }

  lemma OneSettles(d: Disk, unverified: bool)
    requires d.interface == Sata
    ensures SortByName(Kept([d], unverified)) == [d]
  {
    ClearedMeans([d], unverified, Kept([d], unverified), 0);
    assert Kept([d], unverified) == [d];
    assert [d][..0] == [];
  }

  /** A directory with one disk, in bay n of a calibrated or single-controller model: its scan ends with just
      that disk, mapped, and so "diskN" finds it. */
  lemma LoneDiskIsFound(e: BlockEntry, n: nat, unverified: bool)
    requires Readable(e) && e.found.Some? && 1 <= n <= 8
    requires e.found.value.slot == n && e.found.value.matched == [] && e.found.value.disk.interface == Sata
    requires e.found.value.hasLed != Some(false) && !e.found.value.moved
    ensures Directory([e]) && |Outcome([e], unverified)| == 1 && AloneInBay(Outcome([e], unverified), n, 0)
    ensures Outcome([e], unverified)[0].name == e.name && Outcome([e], unverified)[0].ledId == "disk" + Decimal(n)
  {
    var r := e.found.value;
    MappingMeans(r.disk, r.slot, r.matched, r.calibrated, r.hasLed);
    OneItem(e);
    OneGroup(Item(r.Mapped(), r.controller));
    OneSettles(r.Mapped(), unverified);
  }
}
