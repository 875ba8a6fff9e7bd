/** The final inventory recheck of a scan: the re-read directory must name exactly the recorded block
    devices (`verify_inventory_member_set` in disk/disk.c). */
module DiskInventory {
  import opened DiskModel

  const DISK_MAX := 128
  const NAME_SIZE := 64

  /** A directory entry, and whether its name is that of a whole disk or namespace. */
  datatype DirEntry = DirEntry(name: string, candidate: bool)

  function Candidates(entries: seq<DirEntry>): seq<string> {
    if entries == [] then []
    else
      var e := entries[|entries| - 1];
      Candidates(entries[..|entries| - 1]) + (if e.candidate then [e.name] else [])
  }

  /** The same names, none of them twice on either side. */
  ghost predicate SameNames(a: seq<string>, b: seq<string>) {
    Distinct(a) && Distinct(b) && Elements(a) == Elements(b)
  }

  lemma SameNamesSameLength(a: seq<string>, b: seq<string>)
    requires SameNames(a, b)
    ensures |a| == |b|
  {
    ElementsSize(a);
    ElementsSize(b);
  }

  /** Membership, no repeats and equal counts give equal sets, and rule out repeated records. */
  lemma Pigeonhole(found: seq<string>, members: seq<string>)
    requires Distinct(found) && Elements(found) <= Elements(members) && |found| == |members|
    ensures SameNames(found, members)
  {
    ElementsSize(found);
    ElementsSize(members);
    var rest := Elements(members) - Elements(found);
    assert Elements(found) + rest == Elements(members);
    assert |Elements(found) + rest| == |Elements(found)| + |rest|;
  }

  lemma {:induction false} CandidatesPrefix(entries: seq<DirEntry>, i: nat)
    requires i <= |entries|
    ensures Candidates(entries[..i]) <= Candidates(entries)
  {
    if i == |entries| {
      assert entries[..i] == entries;
    } else {
      assert entries[..|entries| - 1][..i] == entries[..i];
      CandidatesPrefix(entries[..|entries| - 1], i);
    }
  }

  /** The first position of a name, or the number of members. */
  method FindMember(members: seq<string>, name: string) returns (member: nat)
    ensures member <= |members| && name !in members[..member]
    ensures member < |members| ==> members[member] == name
  {
    member := 0;
    while member < |members|
      invariant member <= |members| && name !in members[..member]
    {
      if members[member] == name { return; }
      member := member + 1;
    }
  }

  /** What `seen` records after the candidates `found`: each was matched to its first position. */
  ghost predicate Marks(seen: seq<bool>, members: seq<string>, found: seq<string>) {
    && |seen| >= |members|
    && (forall k :: 0 <= k < |members| && seen[k] ==> members[k] in found)
    && (forall name :: name in found ==>
          exists k :: 0 <= k < |members| && seen[k] && members[k] == name && name !in members[..k])
  }

  /** A name's first position is marked exactly when the name was found before. */
  lemma MarkedIffFound(seen: seq<bool>, members: seq<string>, found: seq<string>, member: nat)
    requires Marks(seen, members, found) && member < |members| && members[member] !in members[..member]
    ensures seen[member] <==> members[member] in found
  {
    if members[member] in found {
      var k :| 0 <= k < |members| && seen[k] && members[k] == members[member] && members[member] !in members[..k];
    }
  }

  lemma MarkNext(seen: seq<bool>, members: seq<string>, found: seq<string>, member: nat)
    requires Marks(seen, members, found) && member < |members| && members[member] !in members[..member]
    ensures Marks(seen[member := true], members, found + [members[member]])
  {
    var next, all := seen[member := true], found + [members[member]];
    forall name | name in all
      ensures exists k :: 0 <= k < |members| && next[k] && members[k] == name && name !in members[..k]
    {
      if name in found {
        var k :| 0 <= k < |members| && seen[k] && members[k] == name && name !in members[..k];
        assert next[k];
      } else {
        assert next[member] && members[member] == name;
      }
    }
  }

  /** The state of the recheck after the first i entries: the candidates found so far are members, none twice,
      and marked. */
  ghost predicate Rechecked(members: seq<string>, entries: seq<DirEntry>, i: nat, seen: seq<bool>, found: seq<string>) {
    && i <= |entries| && found == Candidates(entries[..i]) && |found| <= DISK_MAX
    && Distinct(found) && Elements(found) <= Elements(members) && Marks(seen, members, found)
  }

  lemma NextFound(entries: seq<DirEntry>, i: nat)
    requires i < |entries|
    ensures Candidates(entries[..i + 1]) ==
      Candidates(entries[..i]) + (if entries[i].candidate then [entries[i].name] else [])
    ensures Candidates(entries[..i + 1]) <= Candidates(entries)
  {
    assert entries[..i + 1][..i] == entries[..i];
    CandidatesPrefix(entries, i + 1);
  }

  /** A candidate that is no member, or was found before, refutes the inventory. */
  lemma BadCandidate(members: seq<string>, entries: seq<DirEntry>, i: nat, found: seq<string>)
    requires i < |entries| && found == Candidates(entries[..i]) && entries[i].candidate
    requires entries[i].name !in members || entries[i].name in found
    ensures !SameNames(Candidates(entries), members)
  {
    var name, all := entries[i].name, Candidates(entries);
    NextFound(entries, i);
    assert all[|found|] == name && name in Elements(all);
    if name in found {
      var k :| 0 <= k < |found| && found[k] == name;
      assert all[k] == name;
    }
  }

  /** More candidates than can be recorded refute it as well, and so does a name that is too long. */
  lemma TooManyOrLong(members: seq<string>, entries: seq<DirEntry>, i: nat, found: seq<string>)
    requires i < |entries| && found == Candidates(entries[..i]) && entries[i].candidate
    requires |members| <= DISK_MAX && forall k :: 0 <= k < |members| ==> |members[k]| < NAME_SIZE
    requires |found| == DISK_MAX || |entries[i].name| >= NAME_SIZE
    ensures !SameNames(Candidates(entries), members)
  {
    var all := Candidates(entries);
    NextFound(entries, i);
    assert |all| > |found| && all[|found|] == entries[i].name && entries[i].name in Elements(all);
    if SameNames(all, members) { SameNamesSameLength(all, members); }
  }

  /** One candidate: find its member and mark it, or see that the inventory changed. */
  method TakeCandidate(members: seq<string>, name: string, seen: array<bool>, ghost found: seq<string>) returns (ok: bool)
    requires seen.Length >= |members| && Marks(seen[..], members, found)
    modifies seen
    ensures ok <==> name in members && name !in found
    ensures ok ==> Marks(seen[..], members, found + [name])
  {
    var member := FindMember(members, name);
    if member == |members| {
      assert members[..member] == members;
      return false;
    }
    MarkedIffFound(seen[..], members, found, member);
    if seen[member] { return false; }
    MarkNext(seen[..], members, found, member);
    ghost var before := seen[..];
    seen[member] := true;
    assert seen[..] == before[member := true];
    ok := true;
  }

  lemma AddFound(members: seq<string>, found: seq<string>, name: string)
    requires Distinct(found) && Elements(found) <= Elements(members) && name in members && name !in found
    ensures Distinct(found + [name]) && Elements(found + [name]) <= Elements(members)
  {
  }

  /** When all entries were gone through, counting decides. */
  lemma CountDecides(members: seq<string>, entries: seq<DirEntry>, seen: seq<bool>, found: seq<string>)
    requires Rechecked(members, entries, |entries|, seen, found)
    ensures |found| == |members| <==> SameNames(Candidates(entries), members)
  {
    assert entries[..|entries|] == entries;
    if |found| == |members| { Pigeonhole(found, members); }
    if SameNames(found, members) { SameNamesSameLength(found, members); }
  }

  /** `verify_inventory_member_set`: accepts exactly when the directory could be read and its candidates
      are the recorded members, in any order, without repeats on either side. */
  method VerifyMemberSet(members: seq<string>, readable: bool, entries: seq<DirEntry>, readError: bool) returns (ok: bool)
    requires forall k :: 0 <= k < |members| ==> |members[k]| < NAME_SIZE
    ensures ok <==> |members| <= DISK_MAX && readable && !readError && SameNames(Candidates(entries), members)
  {
    if |members| > DISK_MAX || !readable { return false; }
    var seen := new bool[DISK_MAX](_ => false);
    var count := 0;
    ghost var found: seq<string> := [];
    var i := 0;
    while i < |entries|
      invariant count == |found| && Rechecked(members, entries, i, seen[..], found)
    {
      NextFound(entries, i);
      var e := entries[i];
      if e.candidate {
        if count == DISK_MAX || |e.name| >= NAME_SIZE {
          TooManyOrLong(members, entries, i, found);
          return false;
        }
        var taken := TakeCandidate(members, e.name, seen, found);
        if !taken {
          BadCandidate(members, entries, i, found);
          return false;
        }
        AddFound(members, found, e.name);
        count, found := count + 1, found + [e.name];
      }
      i := i + 1;
    }
    CountDecides(members, entries, seen[..], found);
    ok := !readError && count == |members|;
  }
}
