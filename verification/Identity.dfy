/** The device tree's `compatible` string list (section 2.3.1 of the Devicetree Specification), joined
    into one string and searched by token (core/identity.c). */
module Identity {
  import opened Base

  const BAR: byte := 0x7c
  const RAW_SIZE := 512
  const CAPACITY := 512

  /** A byte that may stand in an entry. */
  predicate Printable(b: byte) { 0x21 <= b <= 0x7e && b != BAR }

  ghost predicate LegalEntry(e: seq<byte>) {
    e != [] && forall i :: 0 <= i < |e| ==> Printable(e[i])
  }

  ghost predicate LegalEntries(es: seq<seq<byte>>) {
    es != [] && forall k :: 0 <= k < |es| ==> LegalEntry(es[k])
  }

  /** The property's bytes: each entry followed by a NUL. */
  function Pack(es: seq<seq<byte>>): seq<byte> {
    if es == [] then [] else Pack(es[..|es| - 1]) + es[|es| - 1] + [0]
  }

  /** The complete entries of the first n bytes, and what follows their last NUL. */
  function SplitTo(s: seq<byte>, n: nat): (seq<seq<byte>>, seq<byte>)
    requires n <= |s|
  {
    if n == 0 then ([], [])
    else
      var (es, rest) := SplitTo(s, n - 1);
      if s[n - 1] == 0 then (es + [rest], []) else (es, rest + [s[n - 1]])
  }

  function Split(s: seq<byte>): (seq<seq<byte>>, seq<byte>) { SplitTo(s, |s|) }

  function Join(es: seq<seq<byte>>): seq<byte> {
    if |es| == 0 then []
    else if |es| == 1 then es[0]
    else Join(es[..|es| - 1]) + [BAR] + es[|es| - 1]
  }

  /** The bytes an entry may have, and a list of two entries packed and joined. */
  lemma KnownList(b: byte)
    ensures LegalEntry([b]) <==> 0x21 <= b <= 0x7e && b != 0x7c
    ensures !LegalEntry([])
    ensures Pack([[0x72, 0x6b], [0x75]]) == [0x72, 0x6b, 0, 0x75, 0] && Join([[0x72, 0x6b], [0x75]]) == [0x72, 0x6b, 0x7c, 0x75]
  {
    assert [b][0] == b;
    assert [[0x72, 0x6b], [0x75]][..1] == [[0x72, 0x6b]] && [[0x72, 0x6b]][..0] == [];
    assert Pack([[0x72, 0x6b]]) == [0x72, 0x6b, 0];
  }

  /** Splitting loses nothing. */
  lemma SplitPacks(s: seq<byte>)
    ensures s == Pack(Split(s).0) + Split(s).1
  {
    SplitToPacks(s, |s|);
    assert s[..|s|] == s;
  }

  lemma {:induction false} SplitToPacks(s: seq<byte>, n: nat)
    requires n <= |s|
    ensures s[..n] == Pack(SplitTo(s, n).0) + SplitTo(s, n).1
  {
    if n > 0 {
      SplitToPacks(s, n - 1);
      var (es, rest) := SplitTo(s, n - 1);
      assert s[..n] == s[..n - 1] + [s[n - 1]];
      assert (es + [rest])[..|es|] == es;
    }
  }

  lemma {:induction false} SplitToPrefix(s: seq<byte>, e: seq<byte>, n: nat)
    requires n <= |s|
    ensures SplitTo(s + e, n) == SplitTo(s, n)
  {
    if n > 0 { SplitToPrefix(s, e, n - 1); }
  }

  lemma {:induction false} SplitAppend(s: seq<byte>, e: seq<byte>)
    requires Split(s).1 == [] && 0 !in e
    ensures Split(s + e) == (Split(s).0, e)
  {
    if e == [] {
      assert s + e == s;
    } else {
      var n := |e| - 1;
      SplitAppend(s, e[..n]);
      assert s + e == (s + e[..n]) + [e[n]] && e == e[..n] + [e[n]];
      SplitToPrefix(s + e[..n], [e[n]], |s| + n);
    }
  }

  /** Packing and splitting undo each other. */
  lemma {:induction false} PackSplits(es: seq<seq<byte>>)
    requires forall k :: 0 <= k < |es| ==> 0 !in es[k]
    ensures Split(Pack(es)) == (es, [])
  {
    if es != [] {
      var n := |es| - 1;
      var front := Pack(es[..n]);
      PackSplits(es[..n]);
      SplitAppend(front, es[n]);
      SplitToPrefix(front + es[n], [0], |front + es[n]|);
      assert es == es[..n] + [es[n]];
    }
  }

  lemma {:induction false} JoinLength(es: seq<seq<byte>>)
    requires es != []
    ensures |Join(es)| == |Pack(es)| - 1
  {
    var n := |es| - 1;
    if n == 0 { assert es[..n] == []; } else { JoinLength(es[..n]); }
  }

  lemma {:induction false} JoinGrows(es: seq<seq<byte>>, n: nat)
    requires n <= |es|
    ensures |Join(es[..n])| <= |Join(es)|
  {
    if n == |es| {
      assert es[..n] == es;
    } else {
      assert es[..|es| - 1][..n] == es[..n];
      JoinGrows(es[..|es| - 1], n);
    }
  }

  lemma {:induction false} SplitGrows(s: seq<byte>, n: nat, m: nat)
    requires n <= m <= |s|
    ensures SplitTo(s, n).0 <= SplitTo(s, m).0
  {
    if n < m { SplitGrows(s, n, m - 1); }
  }

  /** What the reader accepts: a list of legal entries, each ended by a NUL, whose join fits. */
  ghost predicate Accepted(raw: seq<byte>, capacity: nat) {
    Split(raw).1 == [] && LegalEntries(Split(raw).0) && |Join(Split(raw).0)| < capacity
  }

  /** With the sizes the program uses, the capacity check never refuses a legal list. */
  lemma CapacityNeverRefuses(raw: seq<byte>)
    requires |raw| <= RAW_SIZE
    ensures Accepted(raw, CAPACITY) <==> Split(raw).1 == [] && LegalEntries(Split(raw).0)
  {
    SplitPacks(raw);
    if LegalEntries(Split(raw).0) { JoinLength(Split(raw).0); }
  }

  /** Exactly the packed lists of legal entries are accepted. */
  lemma AcceptedIffPacked(es: seq<seq<byte>>)
    requires |Pack(es)| <= RAW_SIZE && forall k :: 0 <= k < |es| ==> 0 !in es[k]
    ensures Accepted(Pack(es), CAPACITY) <==> LegalEntries(es)
  {
    PackSplits(es);
    CapacityNeverRefuses(Pack(es));
  }

  /** Copy bytes into the output at a position. */
  method CopyTo(out: array<byte>, at: nat, data: seq<byte>)
    requires at + |data| <= out.Length
    modifies out
    ensures out[..at + |data|] == old(out[..at]) + data
  {
    var k := 0;
    while k < |data|
      invariant 0 <= k <= |data| && out[..at + k] == old(out[..at]) + data[..k]
    {
      out[at + k] := data[k];
      assert out[..at + k + 1] == out[..at + k] + [data[k]];
      assert data[..k + 1] == data[..k] + [data[k]];
      k := k + 1;
    }
    assert data[..k] == data;
  }

  /** Why the reader stops early: no list with this prefix is acceptable. */
  lemma BadByte(raw: seq<byte>, i: nat, capacity: nat)
    requires i < |raw| && raw[i] != 0 && !Printable(raw[i])
    ensures !Accepted(raw, capacity)
  {
    SplitPacks(raw);
    if Accepted(raw, capacity) { PackedBytes(Split(raw).0, i); }
  }

  lemma {:induction false} PackedBytes(es: seq<seq<byte>>, i: nat)
    requires i < |Pack(es)| && forall k :: 0 <= k < |es| ==> LegalEntry(es[k])
    ensures Pack(es)[i] == 0 || Printable(Pack(es)[i])
  {
    var n := |es| - 1;
    var front := Pack(es[..n]);
    if i < |front| { PackedBytes(es[..n], i); }
  }

  /** The first `i` bytes hold the complete entries `es`, and the current one begins at `begin`. */
  ghost predicate Scanned(raw: seq<byte>, begin: nat, i: nat, es: seq<seq<byte>>) {
    begin <= i <= |raw| && SplitTo(raw, i) == (es, raw[begin..i])
      && (forall k :: 0 <= k < |es| ==> LegalEntry(es[k]))
      && (forall k :: begin <= k < i ==> Printable(raw[k]))
  }

  lemma ByteScanned(raw: seq<byte>, begin: nat, i: nat, es: seq<seq<byte>>)
    requires Scanned(raw, begin, i, es) && i < |raw| && Printable(raw[i])
    ensures Scanned(raw, begin, i + 1, es)
  {
    assert raw[begin..i] + [raw[i]] == raw[begin..i + 1];
  }

  lemma EntryScanned(raw: seq<byte>, begin: nat, i: nat, es: seq<seq<byte>>)
    requires Scanned(raw, begin, i, es) && begin < i < |raw| && raw[i] == 0
    ensures Scanned(raw, i + 1, i + 1, es + [raw[begin..i]])
  {
    assert raw[i + 1..i + 1] == [];
    assert LegalEntry(raw[begin..i]);
  }

  /** An entry met on the way is one of the final entries. */
  lemma EntryStays(raw: seq<byte>, begin: nat, i: nat, es: seq<seq<byte>>)
    requires Scanned(raw, begin, i, es) && i < |raw| && raw[i] == 0
    ensures es + [raw[begin..i]] <= Split(raw).0
    ensures |Join(es + [raw[begin..i]])| <= |Join(Split(raw).0)|
  {
    SplitGrows(raw, i + 1, |raw|);
    assert Split(raw).0[..|es| + 1] == es + [raw[begin..i]];
    JoinGrows(Split(raw).0, |es| + 1);
  }

  /** An empty entry refuses the whole list. */
  lemma EmptyEntry(raw: seq<byte>, i: nat, es: seq<seq<byte>>, capacity: nat)
    requires Scanned(raw, i, i, es) && i < |raw| && raw[i] == 0
    ensures !Accepted(raw, capacity)
  {
    EntryStays(raw, i, i, es);
    assert Split(raw).0[|es|] == [];
  }

  lemma AllScanned(raw: seq<byte>, begin: nat, es: seq<seq<byte>>)
    requires Scanned(raw, begin, |raw|, es) && raw != [] && raw[|raw| - 1] == 0
    ensures Split(raw) == (es, []) && LegalEntries(es)
  {
  }

  /** A list that does not end in a NUL is refused. */
  lemma Unterminated(raw: seq<byte>, capacity: nat)
    requires raw == [] || raw[|raw| - 1] != 0
    ensures !Accepted(raw, capacity)
  {
  }

  lemma JoinOneMore(es: seq<seq<byte>>, entry: seq<byte>)
    ensures Join(es + [entry]) == if es == [] then entry else Join(es) + [BAR] + entry
  {
    assert (es + [entry])[..|es|] == es;
  }

  /** Append one entry to the joined output, unless it does not fit with its terminator. */
  method AppendEntry(out: array<byte>, used: nat, entry: seq<byte>, ghost es: seq<seq<byte>>)
    returns (ok: bool, now: nat)
    requires used < out.Length && out[..used] == Join(es) && (used == 0 <==> es == []) && entry != []
    modifies out
    ensures ok <==> |Join(es + [entry])| < out.Length
    ensures ok ==> 0 < now < out.Length && out[..now] == Join(es + [entry])
  {
    now := used;
    JoinOneMore(es, entry);
    if used + (if used > 0 then 1 else 0) + |entry| >= out.Length { return false, now; }
    if used > 0 {
      CopyTo(out, used, [BAR]);
      now := used + 1;
    }
    CopyTo(out, now, entry);
    now := now + |entry|;
    ok := true;
  }

  /** The output holds the joined entries, with room for a terminator. */
  ghost predicate Joined(out: seq<byte>, used: nat, es: seq<seq<byte>>) {
    used < |out| && out[..used] == Join(es) && (used == 0 <==> es == [])
  }

  /** An entry ends at byte i: append it, or see that the whole list is refused. */
  method TakeEntry(raw: seq<byte>, out: array<byte>, begin: nat, i: nat, used: nat, ghost es: seq<seq<byte>>)
    returns (ok: bool, now: nat)
    requires Scanned(raw, begin, i, es) && i < |raw| && raw[i] == 0 && Joined(out[..], used, es)
    modifies out
    ensures !ok ==> !Accepted(raw, out.Length)
    ensures ok ==> Scanned(raw, i + 1, i + 1, es + [raw[begin..i]]) && Joined(out[..], now, es + [raw[begin..i]])
  {
    if i == begin {
      EmptyEntry(raw, i, es, out.Length);
      return false, used;
    }
    EntryStays(raw, begin, i, es);
    EntryScanned(raw, begin, i, es);
    assert out[..][..used] == out[..used];
    ok, now := AppendEntry(out, used, raw[begin..i], es);
    if ok { assert out[..][..now] == out[..now]; }
  }

  /** `compatible_read`, from the raw property on. The indices never leave the output buffer. */
  method CompatibleRead(raw: seq<byte>, out: array<byte>) returns (ok: bool, used: nat)
    requires out.Length > 0
    modifies out
    ensures ok <==> Accepted(raw, out.Length)
    ensures ok ==> used < out.Length && out[..used] == Join(Split(raw).0) && out[used] == 0
  {
    out[0] := 0;
    used := 0;
    if raw == [] || raw[|raw| - 1] != 0 {
      Unterminated(raw, out.Length);
      return false, used;
    }
    var begin, i := 0, 0;
    ghost var es: seq<seq<byte>> := [];
    while i < |raw|
      invariant i <= |raw| && Scanned(raw, begin, i, es) && Joined(out[..], used, es)
    {
      if raw[i] != 0 {
        if !Printable(raw[i]) {
          BadByte(raw, i, out.Length);
          return false, used;
        }
        ByteScanned(raw, begin, i, es);
      } else {
        ok, used := TakeEntry(raw, out, begin, i, used, es);
        if !ok { return; }
        es := es + [raw[begin..i]];
        begin := i + 1;
      }
      i := i + 1;
    }
    AllScanned(raw, begin, es);
    assert out[..][..used] == out[..used];
    out[used] := 0;
    ok := true;
  }

  /** Where the token that begins at a position ends: at the next bar, or with the text. */
  function TokenEnd(text: seq<byte>, begin: nat): (end: nat)
    requires begin <= |text|
    ensures begin <= end <= |text|
    decreases |text| - begin
  {
    if begin == |text| || text[begin] == BAR then begin else TokenEnd(text, begin + 1)
  }

  /** Whether a token is one of those from a position on; nothing stands after a final bar. */
  ghost predicate TokenFrom(text: seq<byte>, begin: nat, token: seq<byte>)
    requires begin <= |text|
    decreases |text| - begin
  {
    && begin < |text|
    && var end := TokenEnd(text, begin);
       text[begin..end] == token || (end < |text| && TokenFrom(text, end + 1, token))
  }

  lemma {:induction false} EndShifts(a: seq<byte>, text: seq<byte>, begin: nat)
    requires begin <= |text|
    ensures TokenEnd(a + text, |a| + begin) == |a| + TokenEnd(text, begin)
    decreases |text| - begin
  {
    if begin < |text| && text[begin] != BAR { EndShifts(a, text, begin + 1); }
  }

  /** What stands before a position does not matter to the tokens after it. */
  lemma {:induction false} TokensShift(a: seq<byte>, text: seq<byte>, begin: nat, token: seq<byte>)
    requires begin <= |text|
    ensures TokenFrom(a + text, |a| + begin, token) <==> TokenFrom(text, begin, token)
    decreases |text| - begin
  {
    if begin < |text| {
      var end := TokenEnd(text, begin);
      EndShifts(a, text, begin);
      assert (a + text)[|a| + begin..|a| + end] == text[begin..end];
      if end < |text| { TokensShift(a, text, end + 1, token); }
    }
  }

  /** A legal entry is one token, whatever follows it. */
  lemma {:induction false} EntryEnds(e: seq<byte>, after: seq<byte>, k: nat)
    requires LegalEntry(e) && k <= |e| && (after != [] ==> after[0] == BAR)
    ensures TokenEnd(e + after, k) == |e|
    decreases |e| - k
  {
    if k < |e| {
      assert Printable(e[k]);
      EntryEnds(e, after, k + 1);
    }
  }

  /** A join, seen from its first entry. */
  lemma {:induction false} JoinFromFront(es: seq<seq<byte>>)
    requires |es| > 1
    ensures Join(es) == es[0] + [BAR] + Join(es[1..])
  {
    var n := |es| - 1;
    if n > 1 {
      JoinFromFront(es[..n]);
      assert es[..n][1..] == es[1..][..n - 1];
    }
  }

  lemma InFront<T>(s: seq<T>, x: T)
    requires s != []
    ensures x in s <==> x == s[0] || x in s[1..]
  {
    assert s == [s[0]] + s[1..];
  }

  lemma LoneToken(e: seq<byte>, token: seq<byte>)
    requires LegalEntry(e)
    ensures TokenFrom(e, 0, token) <==> token == e
  {
    EntryEnds(e, [], 0);
    assert e + [] == e && e[0..|e|] == e;
  }

  /** An entry and a bar in front add exactly that token. */
  lemma TokenInFront(e: seq<byte>, text: seq<byte>, token: seq<byte>)
    requires LegalEntry(e)
    ensures TokenFrom(e + [BAR] + text, 0, token) <==> token == e || TokenFrom(text, 0, token)
  {
    var all := e + [BAR] + text;
    assert all == e + ([BAR] + text);
    EntryEnds(e, [BAR] + text, 0);
    assert all[0..|e|] == e;
    TokensShift(e + [BAR], text, 0, token);
  }

  /** Joining loses no entry and makes none up: the tokens of the joined text are the entries. */
  lemma {:induction false} TokensOfJoin(es: seq<seq<byte>>, token: seq<byte>)
    requires LegalEntries(es)
    ensures TokenFrom(Join(es), 0, token) <==> token in es
  {
    assert LegalEntry(es[0]);
    InFront(es, token);
    if |es| == 1 {
      LoneToken(es[0], token);
    } else {
      JoinFromFront(es);
      TokenInFront(es[0], Join(es[1..]), token);
      TokensOfJoin(es[1..], token);
    }
  }

  /** `ugreenctl_identity_has_compatible`. */
  method HasCompatible(text: seq<byte>, token: seq<byte>) returns (found: bool)
    ensures found <==> token != [] && BAR !in token && TokenFrom(text, 0, token)
  {
    if token == [] || BAR in token { return false; }
    var begin := 0;
    while begin < |text|
      invariant 0 <= begin <= |text|
      invariant TokenFrom(text, 0, token) <==> TokenFrom(text, begin, token)
    {
      var end := TokenEnd(text, begin);
      if end == |text| { return text[begin..end] == token; }
      if text[begin..end] == token { return true; }
      begin := end + 1;
    }
    return false;
  }

  /** For every property the reader accepts, a lookup finds exactly the original entries. */
  method ReadThenLookUp(raw: seq<byte>, token: seq<byte>) returns (ok: bool, found: bool)
    requires |raw| <= RAW_SIZE
    ensures ok <==> exists es :: LegalEntries(es) && raw == Pack(es)
    ensures ok ==> (found <==> token in Split(raw).0)
  {
    var out := new byte[CAPACITY];
    var used;
    ok, used := CompatibleRead(raw, out);
    SplitPacks(raw);
    CapacityNeverRefuses(raw);
    forall es | LegalEntries(es) && raw == Pack(es) ensures ok {
      NoNulInside(es);
      PackSplits(es);
    }
    found := false;
    if ok {
      var es := Split(raw).0;
      assert raw == Pack(es);
      TokensOfJoin(es, token);
      found := HasCompatible(out[..used], token);
      assert token in es ==> LegalEntry(token);
    }
  }

  lemma NoNulInside(es: seq<seq<byte>>)
    requires LegalEntries(es)
    ensures forall k :: 0 <= k < |es| ==> 0 !in es[k]
  {
    forall k | 0 <= k < |es| ensures 0 !in es[k] { assert LegalEntry(es[k]); }
  }
}
