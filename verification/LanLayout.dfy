/**
 The LAN announcement packet byte by byte (daemon/daemon/lan/discovery.py:8-40, 110-193), for
 all four versions: where each field lies, when a packet is accepted, and the parsing of what
 earlier releases sent.
 */
module LanLayout {
  import opened Wrappers
  import opened Utf8
  import opened BigEndian
  import opened LanPacket

  // ----- where the fields lie ------------------------------------------------------------------

  function Two(data: Bytes, at: nat): nat
    requires at + 2 <= |data|
  {
    256 * data[at] as nat + data[at + 1] as nat
  }

  function Four(data: Bytes, at: nat): nat
    requires at + 4 <= |data|
  {
    0x1_000000 * data[at] as nat + 0x1_0000 * data[at + 1] as nat + 256 * data[at + 2] as nat + data[at + 3] as nat
  }

  /** Bytes per share: id; id and hash; id, hash and number. */
  function Width(version: int): nat {
    if version <= 2 then 32 else if version == 3 then 52 else 56
  }

  /** Where the i-th share lies. */
  function Offset(version: int, i: nat): nat {
    if version <= 2 then 37 + 32 * i else if version == 3 then 37 + 52 * i else 37 + 56 * i
  }

  ghost predicate AllZero(s: Bytes) {
    forall i :: 0 <= i < |s| ==> s[i] == 0
  }

  /** The share read at `at`: no hash before version 3 or where it is all zero, no number before version 4. */
  ghost predicate Reads(data: Bytes, version: int, at: nat, sh: Share)
    requires at + Width(version) <= |data|
  {
    && sh.id == data[at..at + 32]
    && (version <= 2 ==> sh.hash == [])
    && (version >= 3 ==> sh.hash == if AllZero(data[at + 32..at + 52]) then [] else data[at + 32..at + 52])
    && sh.seqNo == if version <= 3 then 0 else Four(data, at + 52)
  }

  lemma {:induction false} SharesAtIndex(data: Bytes, version: int, n: nat, i: nat)
    requires i < n && SharesEnd(version, n) <= |data|
    ensures SharesEnd(version, i) + EntryLen(version) <= |data|
    ensures SharesAt(data, version, n)[i] == ShareAt(data, version, SharesEnd(version, i))
  {
    SharesEndStep(version, i, n);
    if i < n - 1 {
      SharesAtIndex(data, version, n - 1, i);
    }
  }

  lemma ZerosIff(s: Bytes)
    requires |s| == 20
    ensures s == Zeros() <==> AllZero(s)
  {
  }

  lemma ShareReads(data: Bytes, version: int, at: nat)
    requires 1 <= version <= 4 && at + Width(version) <= |data|
    ensures Reads(data, version, at, ShareAt(data, version, at))
  {
    if version >= 3 {
      ZerosIff(data[at + 32..at + 52]);
    }
  }

  ghost predicate SharesRead(data: Bytes, version: int, shares: seq<Share>) {
    forall i :: 0 <= i < |shares| ==>
      Offset(version, i) + Width(version) <= |data| && Reads(data, version, Offset(version, i), shares[i])
  }

  lemma WidthIs(version: int, i: nat)
    requires 1 <= version <= 4
    ensures SharesEnd(version, i) == Offset(version, i) && EntryLen(version) == Width(version)
  {
  }

  lemma AllRead(data: Bytes, version: int, n: nat)
    requires 1 <= version <= 4 && SharesEnd(version, n) <= |data|
    ensures SharesRead(data, version, SharesAt(data, version, n))
  {
    forall i | 0 <= i < n
      ensures Offset(version, i) + Width(version) <= |data|
      ensures Reads(data, version, Offset(version, i), SharesAt(data, version, n)[i])
    {
      SharesAtIndex(data, version, n, i);
      WidthIs(version, i);
      ShareReads(data, version, SharesEnd(version, i));
    }
  }

  /** Where the name field starts, or the signature in version 1. */
  function ListEnd(data: Bytes): nat
    requires |data| >= 37
  {
    Offset(data[0] as int, Two(data, 35))
  }

  /** The length that the header and the name length call for. */
  predicate Fills(data: Bytes) {
    && |data| >= 101 && 1 <= data[0] <= 4
    && var at := ListEnd(data);
       if data[0] == 1 then |data| == at + 64
       else at + 2 <= |data| && |data| == at + 2 + Two(data, at) + 64
  }

  lemma FillsIff(data: Bytes)
    ensures Fills(data) <==> WellSized(data)
  {
    if |data| >= 101 && 1 <= data[0] <= 4 {
      WidthIs(data[0] as int, Two(data, 35));
    }
  }

  /** The fields of the contents, by offset. */
  ghost predicate FieldsRead(data: Bytes, a: Announcement)
    requires Fills(data)
  {
    var at := ListEnd(data);
    && a.peer == data[1..33] && a.port == Two(data, 33) && |a.shares| == Two(data, 35)
    && SharesRead(data, data[0] as int, a.shares)
    && (data[0] == 1 ==> a.name == [])
    && (data[0] >= 2 ==>
          var name := Decode(data[at + 2..|data| - 64]);
          a.name == if name.Some? then name.value else [])
  }

  lemma NameInIs(data: Bytes, version: int, n: nat)
    requires TailFits(data, version, n)
    ensures version < 2 ==> NameIn(data, version, n) == []
    ensures version >= 2 ==>
              SharesEnd(version, n) + 2 <= |data| - 64 &&
              NameIn(data, version, n) == NameOf(data[SharesEnd(version, n) + 2..|data| - 64])
  {
  }

  lemma HeaderIs(data: Bytes)
    requires Fills(data)
    ensures WellSized(data) && Read16(data, 35) == Two(data, 35) && Read16(data, 33) == Two(data, 33)
    ensures TailFits(data, data[0] as int, Two(data, 35))
    ensures SharesEnd(data[0] as int, Two(data, 35)) == ListEnd(data) <= |data|
  {
    FillsIff(data);
    WidthIs(data[0] as int, Two(data, 35));
  }

  lemma ContentsRead(data: Bytes)
    requires Fills(data)
    ensures WellSized(data) && FieldsRead(data, Contents(data))
  {
    var version, n := data[0] as int, Two(data, 35);
    HeaderIs(data);
    AllRead(data, version, n);
    NameInIs(data, version, n);
    MadeOf(data, version, n);
  }

  lemma MadeOf(data: Bytes, version: int, n: nat)
    requires Fills(data) && WellSized(data) && version == data[0] as int && n == Two(data, 35) == Read16(data, 35)
    requires TailFits(data, version, n) && SharesEnd(version, n) == ListEnd(data) <= |data|
    ensures var a := Contents(data);
            && a.peer == data[1..33] && a.port == Two(data, 33)
            && a.shares == SharesAt(data, version, n) && a.name == NameIn(data, version, n)
  {
  }

  /**
   Main result: a packet is accepted exactly when it has a known version and just the length
   its header and name length call for, and its signature verifies over all but its last 64
   bytes; and then every answered field is read where the format puts it.
   */
  lemma AcceptedFields(data: Bytes, verify: Verifier)
    ensures Unpack(data, verify).Some? <==>
              Fills(data) && verify(data[1..33], data[..|data| - 64], data[|data| - 64..])
    ensures Unpack(data, verify).Some? ==> FieldsRead(data, Unpack(data, verify).value)
  {
    FillsIff(data);
    if Fills(data) {
      ContentsRead(data);
    }
  }

  // ----- what earlier releases sent -----------------------------------------------------------------

  /** A packet of version 1, 2 or 3: shares without numbers, hashes from 3 on, the name from 2 on. */
  function OldEntry(version: int, sh: Share): (s: Bytes)
    requires 1 <= version <= 3 && ProperShare(sh)
    ensures |s| == Width(version)
  {
    sh.id + if version == 3 then HashField(sh.hash) else []
  }

  function OldList(version: int, shares: seq<Share>): (s: Bytes)
    requires 1 <= version <= 3 && forall sh :: sh in shares ==> ProperShare(sh)
    ensures 37 + |s| == Offset(version, |shares|)
  {
    if shares == [] then [] else
      assert shares[|shares| - 1] in shares;
      OldList(version, shares[..|shares| - 1]) + OldEntry(version, shares[|shares| - 1])
  }

  ghost predicate OldPackable(version: int, a: Announcement) {
    && 1 <= version <= 3 && Proper(a) && a.port < 0x1_0000 && |a.shares| < 0x1_0000
    && |Encode(a.name)| < 0x1_0000
  }

  function OldName(version: int, name: Text): Bytes
    requires |Encode(name)| < 0x1_0000
  {
    if version == 1 then [] else U16(|Encode(name)|) + Encode(name)
  }

  function OldBody(version: int, a: Announcement): Bytes
    requires OldPackable(version, a)
  {
    [version as Byte] + a.peer + U16(a.port) + U16(|a.shares|) + OldList(version, a.shares) + OldName(version, a.name)
  }

  /** What a receiver can know of a share that was sent without its later fields. */
  function Seen(version: int, sh: Share): Share {
    Share(sh.id, if version == 3 && sh.hash != Zeros() then sh.hash else [], 0)
  }

  lemma {:induction false} OldListAt(version: int, shares: seq<Share>, i: nat)
    requires 1 <= version <= 3 && (forall sh :: sh in shares ==> ProperShare(sh)) && i < |shares|
    ensures shares[i] in shares
    ensures var at := Offset(version, i) - 37;
            && at + Width(version) <= |OldList(version, shares)|
            && OldList(version, shares)[at..at + Width(version)] == OldEntry(version, shares[i])
  {
    var k, at := |shares| - 1, Offset(version, i) - 37;
    var front, last := OldList(version, shares[..k]), OldEntry(version, shares[k]);
    assert OldList(version, shares) == front + last;
    if i < k {
      OldListAt(version, shares[..k], i);
      assert (front + last)[at..at + Width(version)] == front[at..at + Width(version)];
    } else {
      assert (front + last)[|front|..] == last;
    }
  }

  lemma OldEntryReads(data: Bytes, version: int, at: nat, sh: Share)
    requires 1 <= version <= 3 && ProperShare(sh) && at + Width(version) <= |data|
    requires data[at..at + Width(version)] == OldEntry(version, sh)
    ensures ShareAt(data, version, at) == Seen(version, sh)
  {
    var e := OldEntry(version, sh);
    Slice(data, at, Width(version), 0, 32);
    assert e[..32] == sh.id;
    if version == 3 {
      Slice(data, at, 52, 32, 52);
      assert e[32..52] == HashField(sh.hash);
    }
  }

  /** The parts of a packet of an earlier version, as the parser finds them. */
  lemma OldParts(version: int, a: Announcement, sig: Bytes)
    requires OldPackable(version, a) && |sig| == 64
    ensures var data, list, name := OldBody(version, a) + sig, OldList(version, a.shares), OldName(version, a.name);
            && |data| == 37 + |list| + |name| + 64
            && data[0] == version as Byte && data[1..33] == a.peer
            && data[33..35] == U16(a.port) && data[35..37] == U16(|a.shares|)
            && data[37..37 + |list|] == list && data[37 + |list|..37 + |list| + |name|] == name
            && data[..|data| - 64] == OldBody(version, a) && data[|data| - 64..] == sig
  {
    var head: Bytes := [version as Byte] + a.peer + U16(a.port) + U16(|a.shares|);
    Fields(head, OldList(version, a.shares), [], OldName(version, a.name), sig);
    var data := OldBody(version, a) + sig;
    assert data == head + OldList(version, a.shares) + [] + OldName(version, a.name) + sig;
    assert data[..37] == head;
    HeadSlices(data, head, version, a);
  }

  lemma HeadSlices(data: Bytes, head: Bytes, version: int, a: Announcement)
    requires OldPackable(version, a) && head == [version as Byte] + a.peer + U16(a.port) + U16(|a.shares|)
    requires |data| >= 37 && data[..37] == head
    ensures data[0] == version as Byte && data[1..33] == a.peer
    ensures data[33..35] == U16(a.port) && data[35..37] == U16(|a.shares|)
  {
    assert data[0] == data[..37][0];
    assert data[1..33] == data[..37][1..33] && data[33..35] == data[..37][33..35] && data[35..37] == data[..37][35..37];
    assert head[1..33] == a.peer && head[33..35] == U16(a.port) && head[35..37] == U16(|a.shares|);
  }

  lemma OldShareRead(version: int, a: Announcement, data: Bytes, i: nat)
    requires OldPackable(version, a) && i < |a.shares|
    requires var end := Offset(version, |a.shares|);
             end <= |data| && data[37..end] == OldList(version, a.shares)
    ensures SharesEnd(version, |a.shares|) <= |data|
    ensures SharesAt(data, version, |a.shares|)[i] == Seen(version, a.shares[i])
  {
    var n, w, at := |a.shares|, Width(version), Offset(version, i);
    WidthIs(version, n);
    WidthIs(version, i);
    SharesAtIndex(data, version, n, i);
    OldListAt(version, a.shares, i);
    Slice(data, 37, Offset(version, n) - 37, at - 37, at - 37 + w);
    OldEntryReads(data, version, at, a.shares[i]);
  }

  /**
   Main result: a signed packet of version 1, 2 or 3 is read as what its version can carry:
   peer, port and ids, the name from version 2 on, the hashes in version 3 with an all-zero
   one as unknown, and number 0.
   */
  lemma UnpackOldPack(version: int, a: Announcement, sig: Bytes, verify: Verifier)
    requires OldPackable(version, a) && |sig| == 64 && verify(a.peer, OldBody(version, a), sig)
    ensures Unpack(OldBody(version, a) + sig, verify).Some?
    ensures var b := Unpack(OldBody(version, a) + sig, verify).value;
            && b.peer == a.peer && b.port == a.port && b.name == (if version == 1 then [] else a.name)
            && |b.shares| == |a.shares| && forall i :: 0 <= i < |b.shares| ==> b.shares[i] == Seen(version, a.shares[i])
  {
    var data, n, name := OldBody(version, a) + sig, |a.shares|, Encode(a.name);
    OldParts(version, a, sig);
    Read16Of(data, 33, a.port);
    Read16Of(data, 35, n);
    WidthIs(version, n);
    forall i | 0 <= i < n
      ensures SharesAt(data, version, n)[i] == Seen(version, a.shares[i])
    {
      OldShareRead(version, a, data, i);
    }
    if version >= 2 {
      OldNameParts(data, Offset(version, n), a.name);
      DecodeEncode(a.name);
    }
  }

  lemma OldNameParts(data: Bytes, at: nat, name: Text)
    requires |Encode(name)| < 0x1_0000 && at + 2 + |Encode(name)| <= |data|
    requires data[at..at + 2 + |Encode(name)|] == U16(|Encode(name)|) + Encode(name)
    ensures Read16(data, at) == |Encode(name)| && data[at + 2..at + 2 + |Encode(name)|] == Encode(name)
  {
    var l := |Encode(name)|;
    Slice(data, at, 2 + l, 0, 2);
    Slice(data, at, 2 + l, 2, 2 + l);
    Read16Of(data, at, l);
  }

  lemma PackedShares(a: Announcement, data: Bytes)
    requires Packable(a) && SharesEnd(4, |a.shares|) <= |data|
    requires data[37..SharesEnd(4, |a.shares|)] == SharesBytes(a.shares)
    ensures forall i :: 0 <= i < |a.shares| ==>
              37 + 56 * i + 56 <= |data| && Reads(data, 4, 37 + 56 * i, Normalize(a.shares[i]))
  {
    SharesAtOf(data, a.shares);
    AllRead(data, 4, |a.shares|);
    forall i | 0 <= i < |a.shares|
      ensures 37 + 56 * i + 56 <= |data| && Reads(data, 4, 37 + 56 * i, Normalize(a.shares[i]))
    {
      NormalizeAllAt(a.shares, i);
      assert Reads(data, 4, Offset(4, i), SharesAt(data, 4, |a.shares|)[i]);
    }
  }

  /** The version 4 packet that is sent, by offset. */
  lemma PackedLayout(a: Announcement, sig: Bytes)
    requires Packable(a) && |sig| == 64
    ensures var data := Body(a) + sig;
            && Fills(data) && data[0] == 4 && data[1..33] == a.peer
            && Two(data, 33) == a.port && Two(data, 35) == |a.shares|
            && data[ListEnd(data) + 2..|data| - 64] == NameBytes(a.name)
            && forall i :: 0 <= i < |a.shares| ==>
                 37 + 56 * i + 56 <= |data| && Reads(data, 4, 37 + 56 * i, Normalize(a.shares[i]))
  {
    var data := Body(a) + sig;
    BodyParts(a, sig);
    HeadParts(a, data);
    PackedShares(a, data);
    WidthIs(4, |a.shares|);
  }

  lemma {:induction false} NormalizeAllAt(shares: seq<Share>, i: nat)
    requires i < |shares|
    ensures |NormalizeAll(shares)| == |shares| && NormalizeAll(shares)[i] == Normalize(shares[i])
  {
    if |shares| > 1 {
      NormalizeAllAt(shares[..|shares| - 1], if i < |shares| - 1 then i else 0);
    }
  }
}
