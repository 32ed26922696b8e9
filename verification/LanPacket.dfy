/**
 The LAN announcement packet (daemon/daemon/lan/discovery.py:79-193): a printer for version 4 and
 a parser for versions 1 to 4. Identifiers are their 32 raw bytes and info hashes their 20
 raw bytes; signing and verifying are arbitrary functions.
 */
module LanPacket {
  import opened Wrappers
  import opened Utf8
  import opened BigEndian

  const SIG_LEN := 64

  /** `id` is 32 bytes; `hash` is 20 bytes, or empty when it is not yet known. */
  datatype Share = Share(id: Bytes, hash: Bytes, seqNo: nat)

  datatype Announcement = Announcement(peer: Bytes, port: nat, shares: seq<Share>, name: Text)

  predicate ProperShare(sh: Share) {
    |sh.id| == 32 && (|sh.hash| == 20 || sh.hash == [])
  }

  predicate Proper(a: Announcement) {
    |a.peer| == 32 && forall sh :: sh in a.shares ==> ProperShare(sh)
  }

  type Verifier = (Bytes, Bytes, Bytes) -> bool

  // ----- printing ----------------------------------------------------------------------

  function Zeros(): Bytes {
    seq(20, _ => 0)
  }

  function HashField(hash: Bytes): (s: Bytes)
    requires |hash| == 20 || hash == []
    ensures |s| == 20
  {
    if hash == [] then Zeros() else hash
  }

  function ShareBytes(sh: Share): (s: Bytes)
    requires Fits(sh)
    ensures |s| == 56
  {
    sh.id + HashField(sh.hash) + U32(sh.seqNo)
  }

  predicate Fits(sh: Share) {
    ProperShare(sh) && sh.seqNo < 0x1_0000_0000
  }

  function SharesBytes(shares: seq<Share>): (s: Bytes)
    requires forall sh :: sh in shares ==> Fits(sh)
    ensures |s| == 56 * |shares|
  {
    if shares == [] then [] else
      assert shares[|shares| - 1] in shares;
      SharesBytes(shares[..|shares| - 1]) + ShareBytes(shares[|shares| - 1])
  }

  /** At most 255 bytes of the encoded name, cut without regard to character boundaries. */
  function NameBytes(name: Text): (s: Bytes)
    ensures |s| <= 255
  {
    var s := Encode(name);
    if |s| <= 255 then s else s[..255]
  }

  predicate Packable(a: Announcement) {
    |a.peer| == 32 && a.port < 0x1_0000 && |a.shares| < 0x1_0000 && forall sh :: sh in a.shares ==> Fits(sh)
  }

  function Head(a: Announcement): (s: Bytes)
    requires Packable(a)
    ensures |s| == 37
  {
    [4] + a.peer + U16(a.port) + U16(|a.shares|)
  }

  function Body(a: Announcement): Bytes
    requires Packable(a)
  {
    Head(a) + SharesBytes(a.shares) + U16(|NameBytes(a.name)|) + NameBytes(a.name)
  }

  /** The share list; None when some number does not fit its field. */
  method PackShares(shares: seq<Share>) returns (list: Option<Bytes>)
    requires forall sh :: sh in shares ==> ProperShare(sh)
    ensures list.Some? <==> forall sh :: sh in shares ==> Fits(sh)
    ensures list.Some? ==> list.value == SharesBytes(shares)
  {
    var body: Bytes := [];
    for i := 0 to |shares|
      invariant forall sh :: sh in shares[..i] ==> Fits(sh)
      invariant body == SharesBytes(shares[..i])
    {
      var sh := shares[i];
      assert sh in shares;
      if sh.seqNo >= 0x1_0000_0000 {
        assert !Fits(sh);
        return None;
      }
      assert shares[..i + 1] == shares[..i] + [sh];
      SharesBytesSnoc(shares[..i], sh);
      var hash := if sh.hash != [] then sh.hash else Zeros();
      body := body + (sh.id + hash + U32(sh.seqNo));
    }
    assert shares[..|shares|] == shares;
    list := Some(body);
  }

  lemma SharesBytesSnoc(shares: seq<Share>, sh: Share)
    requires (forall o :: o in shares ==> Fits(o)) && Fits(sh)
    ensures SharesBytes(shares + [sh]) == SharesBytes(shares) + ShareBytes(sh)
  {
    assert (shares + [sh])[..|shares|] == shares;
  }

  /** None is struct.error: a field out of range. */
  method PackPacket(a: Announcement, sign: Bytes -> Bytes) returns (packet: Option<Bytes>)
    requires Proper(a)
    ensures packet == if Packable(a) then Some(Body(a) + sign(Body(a))) else None
  {
    var nameBytes := Encode(a.name);
    if |nameBytes| > 255 {
      nameBytes := nameBytes[..255];
    }
    assert nameBytes == NameBytes(a.name);
    var body: Bytes := [4];
    body := body + a.peer;
    if a.port >= 0x1_0000 || |a.shares| >= 0x1_0000 {
      return None;
    }
    body := body + U16(a.port) + U16(|a.shares|);
    var list := PackShares(a.shares);
    if list.None? {
      return None;
    }
    assert body == Head(a);
    body := body + list.value;
    body := body + U16(|nameBytes|) + nameBytes;
    packet := Some(body + sign(body));
  }

  // ----- parsing ---------------------------------------------------------------------------

  /** Bytes per share in each version. */
  function EntryLen(version: int): nat {
    if version >= 4 then 56 else if version >= 3 then 52 else 32
  }

  /** Where the share list ends. */
  function SharesEnd(version: int, n: nat): nat {
    37 + if version >= 4 then 56 * n else if version >= 3 then 52 * n else 32 * n
  }

  /** The field that says how long the name is, where there is one. */
  function NameEnd(data: Bytes, version: int, n: nat): nat
    requires version >= 2 ==> SharesEnd(version, n) + 2 <= |data|
  {
    var at := SharesEnd(version, n);
    if version >= 2 then at + 2 + Read16(data, at) else at
  }

  /** Behind the share list come the name field, where there is one, and 64 more bytes. */
  predicate TailFits(data: Bytes, version: int, n: nat) {
    && (version >= 2 ==> SharesEnd(version, n) + 2 <= |data|)
    && |data| == NameEnd(data, version, n) + SIG_LEN
  }

  /** The length the header and the name field call for is the length there is. */
  predicate WellSized(data: Bytes) {
    101 <= |data| && 1 <= data[0] <= 4 && TailFits(data, data[0] as int, Read16(data, 35))
  }

  function ShareAt(data: Bytes, version: int, at: nat): Share
    requires at + EntryLen(version) <= |data|
  {
    var hash: Bytes := if version >= 3 then data[at + 32..at + 52] else [];
    Share(data[at..at + 32],
          if hash == Zeros() then [] else hash,
          if version >= 4 then Read32(data, at + 52) else 0)
  }

  function SharesAt(data: Bytes, version: int, n: nat): (shares: seq<Share>)
    requires SharesEnd(version, n) <= |data|
    ensures |shares| == n
  {
    if n == 0 then [] else
      SharesAt(data, version, n - 1) + [ShareAt(data, version, SharesEnd(version, n - 1))]
  }

  /** An undecodable name reads as "". */
  function NameOf(s: Bytes): Text {
    match Decode(s)
    case None => []
    case Some(t) => t
  }

  function NameIn(data: Bytes, version: int, n: nat): Text
    requires TailFits(data, version, n)
  {
    if version >= 2 then NameOf(data[SharesEnd(version, n) + 2..NameEnd(data, version, n)]) else []
  }

  function Contents(data: Bytes): Announcement
    requires WellSized(data)
  {
    var version, n := data[0] as int, Read16(data, 35);
    Announcement(data[1..33], Read16(data, 33), SharesAt(data, version, n), NameIn(data, version, n))
  }

  predicate Signed(data: Bytes, verify: Verifier)
    requires |data| >= 101
  {
    verify(data[1..33], data[..|data| - SIG_LEN], data[|data| - SIG_LEN..])
  }

  function Unpack(data: Bytes, verify: Verifier): Option<Announcement> {
    if WellSized(data) && Signed(data, verify) then Some(Contents(data)) else None
  }

  /** One share of the list and the position after it; None when the packet ends too early. */
  method ReadShare(data: Bytes, version: int, at: nat) returns (r: Option<(Share, nat)>)
    ensures r == if at + EntryLen(version) <= |data|
                 then Some((ShareAt(data, version, at), at + EntryLen(version))) else None
  {
    var pos := at;
    if pos + 32 > |data| {
      return None;
    }
    var id := data[pos..pos + 32];
    pos := pos + 32;
    var hash := [];
    var seqNo := 0;
    if version >= 3 {
      if pos + 20 > |data| {
        return None;
      }
      var ih := data[pos..pos + 20];
      pos := pos + 20;
      if ih != Zeros() {
        hash := ih;
      }
    }
    if version >= 4 {
      if pos + 4 > |data| {
        return None;
      }
      seqNo := Read32(data, pos);
      pos := pos + 4;
    }
    r := Some((Share(id, hash, seqNo), pos));
  }

  /** The name field at `at`, present from version 2 on, and the position after it. */
  method ReadName(data: Bytes, version: int, at: nat) returns (r: Option<(Text, nat)>)
    requires at <= |data|
    ensures version < 2 ==> r == Some(([], at))
    ensures version >= 2 ==>
      r == if at + 2 <= |data| && at + 2 + Read16(data, at) <= |data|
           then Some((NameOf(data[at + 2..at + 2 + Read16(data, at)]), at + 2 + Read16(data, at))) else None
  {
    if version < 2 {
      return Some(([], at));
    }
    if at + 2 > |data| {
      return None;
    }
    var nameLen := Read16(data, at);
    var pos := at + 2;
    if pos + nameLen > |data| {
      return None;
    }
    var name := [];
    var decoded := Decode(data[pos..pos + nameLen]);
    if decoded.Some? {
      name := decoded.value;
    }
    r := Some((name, pos + nameLen));
  }

  lemma SharesEndStep(version: int, i: nat, n: nat)
    requires i < n
    ensures SharesEnd(version, i + 1) == SharesEnd(version, i) + EntryLen(version) <= SharesEnd(version, n)
  {
  }

  method ReadShares(data: Bytes, version: int, n: nat) returns (r: Option<seq<Share>>)
    requires 37 <= |data|
    ensures r == if SharesEnd(version, n) <= |data| then Some(SharesAt(data, version, n)) else None
  {
    var pos := SharesEnd(version, 0);
    var shares := [];
    for i := 0 to n
      invariant pos == SharesEnd(version, i) && pos <= |data|
      invariant shares == SharesAt(data, version, i)
    {
      SharesEndStep(version, i, n);
      var entry := ReadShare(data, version, pos);
      if entry.None? {
        return None;
      }
      shares := shares + [entry.value.0];
      pos := entry.value.1;
    }
    r := Some(shares);
  }

  /** The name, provided that nothing but a signature follows it. */
  method ParseTail(data: Bytes, version: int, n: nat) returns (r: Option<Text>)
    requires SharesEnd(version, n) <= |data|
    ensures r == if TailFits(data, version, n) then Some(NameIn(data, version, n)) else None
  {
    var name := ReadName(data, version, SharesEnd(version, n));
    if name.None? || |data| - name.value.1 != SIG_LEN {
      return None;
    }
    r := Some(name.value.0);
  }

  /** Everything but the signature check. */
  method ParsePacket(data: Bytes) returns (r: Option<Announcement>)
    ensures r == if WellSized(data) then Some(Contents(data)) else None
  {
    if |data| < 1 + 32 + 4 + SIG_LEN {
      return None;
    }
    var version := data[0] as int;
    if version < 1 || version > 4 {
      return None;
    }
    var port, n := Read16(data, 33), Read16(data, 35);
    var shares := ReadShares(data, version, n);
    if shares.None? {
      return None;
    }
    var name := ParseTail(data, version, n);
    if name.None? {
      return None;
    }
    r := Some(Announcement(data[1..33], port, shares.value, name.value));
  }

  /**
   The parser walks the packet once. It answers on every byte string, never reads past the
   end, accepts exactly the well-sized and signed ones, and yields their contents.
   */
  method UnpackPacket(data: Bytes, verify: Verifier) returns (r: Option<Announcement>)
    ensures r == Unpack(data, verify)
    ensures r.Some? <==> WellSized(data) && Signed(data, verify)
  {
    r := ParsePacket(data);
    if r.Some? && !verify(data[1..33], data[..|data| - SIG_LEN], data[|data| - SIG_LEN..]) {
      r := None;
    }
  }

  // ----- round trips -----------------------------------------------------------------------

  /** An all-zero hash cannot be told from an unknown one. */
  function Normalize(sh: Share): Share {
    sh.(hash := if sh.hash == Zeros() then [] else sh.hash)
  }

  function NormalizeAll(shares: seq<Share>): seq<Share> {
    if shares == [] then [] else
      NormalizeAll(shares[..|shares| - 1]) + [Normalize(shares[|shares| - 1])]
  }

  lemma Part(s: Bytes, a: Bytes, b: Bytes, c: Bytes)
    requires s == a + b + c
    ensures s[|a|..|a| + |b|] == b
  {
  }

  lemma Slice(s: Bytes, at: nat, n: nat, i: nat, j: nat)
    requires i <= j <= n && at + n <= |s|
    ensures s[at..at + n][i..j] == s[at + i..at + j]
  {
    var u, v := s[at..at + n][i..j], s[at + i..at + j];
    forall k | 0 <= k < |u|
      ensures u[k] == v[k]
    {
    }
  }

  lemma ShareAtOf(data: Bytes, at: nat, sh: Share)
    requires Fits(sh) && at + 56 <= |data| && data[at..at + 56] == ShareBytes(sh)
    ensures ShareAt(data, 4, at) == Normalize(sh)
  {
    var s := ShareBytes(sh);
    Part(s, [], sh.id, HashField(sh.hash) + U32(sh.seqNo));
    Part(s, sh.id, HashField(sh.hash), U32(sh.seqNo));
    Part(s, sh.id + HashField(sh.hash), U32(sh.seqNo), []);
    Slice(data, at, 56, 0, 32);
    Slice(data, at, 56, 32, 52);
    Slice(data, at, 56, 52, 56);
    Read32Of(data, at + 52, sh.seqNo);
  }

  lemma ShareBytesOf(data: Bytes, at: nat)
    requires at + 56 <= |data|
    ensures Fits(ShareAt(data, 4, at)) && ShareBytes(ShareAt(data, 4, at)) == data[at..at + 56]
  {
    assert data[at..at + 56] == data[at..at + 32] + data[at + 32..at + 52] + data[at + 52..at + 56];
  }

  ghost predicate Prints(shares: seq<Share>, s: Bytes) {
    (forall sh :: sh in shares ==> Fits(sh)) && SharesBytes(shares) == s
  }

  /** Reading back a printed list, share by share. */
  lemma {:induction false} SharesAtOf(data: Bytes, shares: seq<Share>)
    requires SharesEnd(4, |shares|) <= |data| && Prints(shares, data[37..SharesEnd(4, |shares|)])
    ensures SharesAt(data, 4, |shares|) == NormalizeAll(shares)
  {
    if shares != [] {
      var n := |shares| - 1;
      var at := SharesEnd(4, n);
      PrintsUnsnoc(shares, data, 37, at, at + 56);
      SharesAtOf(data, shares[..n]);
      ShareAtOf(data, at, shares[n]);
    }
  }

  lemma PrintsUnsnoc(shares: seq<Share>, data: Bytes, i: nat, j: nat, k: nat)
    requires i <= j <= k <= |data| && shares != [] && j - i == 56 * (|shares| - 1) && k == j + 56
    requires Prints(shares, data[i..k])
    ensures Prints(shares[..|shares| - 1], data[i..j])
    ensures Fits(shares[|shares| - 1]) && ShareBytes(shares[|shares| - 1]) == data[j..k]
  {
    var n := |shares| - 1;
    assert shares[n] in shares;
    var a, b := SharesBytes(shares[..n]), ShareBytes(shares[n]);
    Cut(data, i, j, k);
    assert a + b == data[i..j] + data[j..k];
    assert a == (a + b)[..j - i] && b == (a + b)[j - i..];
  }

  lemma PrintsSnoc(front: seq<Share>, last: Share, data: Bytes, i: nat, j: nat, k: nat)
    requires i <= j <= k <= |data| && Prints(front, data[i..j])
    requires Fits(last) && ShareBytes(last) == data[j..k]
    ensures Prints(front + [last], data[i..k])
  {
    SharesBytesSnoc(front, last);
    Cut(data, i, j, k);
  }

  lemma {:induction false} SharesBytesOf(data: Bytes, n: nat)
    requires SharesEnd(4, n) <= |data|
    ensures Prints(SharesAt(data, 4, n), data[37..SharesEnd(4, n)])
  {
    if n > 0 {
      var at := SharesEnd(4, n - 1);
      var front, last := SharesAt(data, 4, n - 1), ShareAt(data, 4, at);
      assert SharesAt(data, 4, n) == front + [last];
      SharesBytesOf(data, n - 1);
      ShareBytesOf(data, at);
      PrintsSnoc(front, last, data, 37, at, at + 56);
    }
  }

  lemma HeadParts(a: Announcement, data: Bytes)
    requires Packable(a) && |data| >= 37 && data[..37] == Head(a)
    ensures data[0] == 4 && data[1..33] == a.peer
    ensures Read16(data, 33) == a.port && Read16(data, 35) == |a.shares|
  {
    var h := Head(a);
    var four: Bytes := [4];
    assert data[0] == h[0];
    Part(h, four, a.peer, U16(a.port) + U16(|a.shares|));
    Part(h, four + a.peer, U16(a.port), U16(|a.shares|));
    Part(h, four + a.peer + U16(a.port), U16(|a.shares|), []);
    Slice(data, 0, 37, 1, 33);
    Slice(data, 0, 37, 33, 35);
    Slice(data, 0, 37, 35, 37);
    assert data[0..37] == data[..37];
    Read16Of(data, 33, a.port);
    Read16Of(data, 35, |a.shares|);
  }

  lemma Fields(head: Bytes, list: Bytes, len: Bytes, name: Bytes, sig: Bytes)
    ensures var data, i := head + list + len + name + sig, |head| + |list|;
            var j, k := i + |len|, i + |len| + |name|;
            && data[..|head|] == head && data[|head|..i] == list && data[i..j] == len && data[j..k] == name
            && data[..k] == head + list + len + name && data[k..] == sig
  {
  }

  /** The parts of a printed packet, as the parser finds them. */
  lemma BodyParts(a: Announcement, sig: Bytes)
    requires Packable(a)
    ensures var data, at, name := Body(a) + sig, SharesEnd(4, |a.shares|), NameBytes(a.name);
            && |Body(a)| == at + 2 + |name| && |data| == |Body(a)| + |sig|
            && data[..37] == Head(a)
            && data[37..at] == SharesBytes(a.shares)
            && Read16(data, at) == |name| && data[at + 2..at + 2 + |name|] == name
            && data[..|Body(a)|] == Body(a) && data[|Body(a)|..] == sig
  {
    var name := NameBytes(a.name);
    Fields(Head(a), SharesBytes(a.shares), U16(|name|), name, sig);
    Read16Of(Body(a) + sig, SharesEnd(4, |a.shares|), |name|);
  }

  /** Main result: parsing what was printed gives it back, zero hashes unknown and the name as its bytes read. */
  lemma UnpackPack(a: Announcement, sig: Bytes, verify: Verifier)
    requires Packable(a) && |sig| == SIG_LEN && verify(a.peer, Body(a), sig)
    ensures Unpack(Body(a) + sig, verify) ==
            Some(Announcement(a.peer, a.port, NormalizeAll(a.shares), NameOf(NameBytes(a.name))))
  {
    var data := Body(a) + sig;
    BodyParts(a, sig);
    HeadParts(a, data);
    SharesAtOf(data, a.shares);
  }

  /** The name that survives: all of it up to 255 bytes, else its 255-byte prefix on a character boundary, else "". */
  lemma NameSurvives(name: Text)
    ensures |Encode(name)| <= 255 ==> NameOf(NameBytes(name)) == name
    ensures |Encode(name)| > 255 ==> forall j :: 0 <= j <= |name| && |Encode(name[..j])| == 255 ==>
      NameOf(NameBytes(name)) == name[..j]
    ensures |Encode(name)| > 255 && (forall j :: 0 <= j <= |name| ==> |Encode(name[..j])| != 255) ==>
      NameOf(NameBytes(name)) == []
  {
    DecodeEncode(name);
    if |Encode(name)| > 255 {
      CutDecodes(name, 255);
    }
  }

  /** The name bytes of a well-sized version 4 packet. */
  function NameField(data: Bytes): Bytes
    requires WellSized(data) && data[0] == 4
  {
    var n := Read16(data, 35);
    data[SharesEnd(4, n) + 2..NameEnd(data, 4, n)]
  }

  /** A well-sized version 4 packet is made of the fields of its contents and its name field. */
  lemma ContentsParts(data: Bytes)
    requires WellSized(data) && data[0] == 4
    ensures var a := Contents(data);
            && Packable(a) && |NameField(data)| < 0x1_0000
            && data[..|data| - SIG_LEN] == Head(a) + SharesBytes(a.shares) + (U16(|NameField(data)|) + NameField(data))
  {
    var a, n, field := Contents(data), Read16(data, 35), NameField(data);
    var at, end := SharesEnd(4, n), |data| - SIG_LEN;
    SharesBytesOf(data, n);
    assert data[37..at] == SharesBytes(a.shares);
    HeadOf(data);
    NameFieldOf(data);
    Cut(data, 37, at, end);
    Cut(data, 0, 37, end);
    Assemble(data[0..end], Head(a), SharesBytes(a.shares), U16(|field|) + field, data[37..end]);
    assert data[0..end] == data[..end];
  }

  lemma Assemble(s: Bytes, a: Bytes, b: Bytes, c: Bytes, bc: Bytes)
    requires s == a + bc && bc == b + c
    ensures s == a + b + c
  {
  }

  lemma NameFieldOf(data: Bytes)
    requires WellSized(data) && data[0] == 4
    ensures var at := SharesEnd(4, Read16(data, 35));
            |NameField(data)| < 0x1_0000 && data[at..|data| - SIG_LEN] == U16(|NameField(data)|) + NameField(data)
  {
    var at := SharesEnd(4, Read16(data, 35));
    Cut(data, at, at + 2, |data| - SIG_LEN);
  }

  lemma Cut(s: Bytes, i: nat, j: nat, k: nat)
    requires i <= j <= k <= |s|
    ensures s[i..k] == s[i..j] + s[j..k]
  {
  }

  lemma HeadOf(data: Bytes)
    requires WellSized(data) && data[0] == 4 && Packable(Contents(data)) && |Contents(data).shares| == Read16(data, 35)
    ensures Head(Contents(data)) == data[..37]
  {
    Cut(data, 0, 1, 37);
    Cut(data, 1, 33, 37);
    Cut(data, 33, 35, 37);
    assert data[0..37] == data[..37] && data[0..1] == [4];
  }

  lemma SameTail(s: Bytes, a: Bytes, b: Bytes)
    requires |a| < 0x1_0000 && |b| < 0x1_0000
    ensures s + (U16(|a|) + a) == s + (U16(|b|) + b) <==> a == b
  {
    var u, v := s + (U16(|a|) + a), s + (U16(|b|) + b);
    if u == v {
      assert U16(|a|) + a == u[|s|..] == v[|s|..] == U16(|b|) + b;
      assert a == (U16(|a|) + a)[2..] && b == (U16(|b|) + b)[2..];
    }
  }

  /**
   Main result: printing the contents of a version 4 packet gives back its body exactly
   when its name field is valid UTF-8 of at most 255 bytes.
   */
  lemma PackUnpack(data: Bytes)
    requires WellSized(data) && data[0] == 4
    ensures Packable(Contents(data))
    ensures Body(Contents(data)) == data[..|data| - SIG_LEN] <==>
            Decode(NameField(data)).Some? && |NameField(data)| <= 255
  {
    var a, field := Contents(data), NameField(data);
    ContentsParts(data);
    assert Body(a) == Head(a) + SharesBytes(a.shares) + (U16(|NameBytes(a.name)|) + NameBytes(a.name));
    SameTail(Head(a) + SharesBytes(a.shares), NameBytes(a.name), field);
    assert a.name == NameOf(field);
    if Decode(field).Some? {
      EncodeDecode(field);
    } else {
      assert field != [] && NameBytes([]) == [];
    }
  }
}
