/** Fixed-width unsigned integers, most significant byte first. */
module BigEndian {
  import opened Utf8

  function U16(n: nat): Bytes
    requires n < 0x1_0000
  {
    [(n / 256) as Byte, (n % 256) as Byte]
  }

  function U32(n: nat): Bytes
    requires n < 0x1_0000_0000
  {
    U16(n / 0x1_0000) + U16(n % 0x1_0000)
  }

  function Read16(s: Bytes, at: nat): (n: nat)
    requires at + 2 <= |s|
    ensures n < 0x1_0000 && U16(n) == s[at..at + 2]
  {
    var n := s[at] as int * 256 + s[at + 1] as int;
    assert s[at..at + 2] == [s[at], s[at + 1]];
    n
  }

  function Read32(s: Bytes, at: nat): (n: nat)
    requires at + 4 <= |s|
    ensures n < 0x1_0000_0000 && U32(n) == s[at..at + 4]
  {
    assert s[at..at + 4] == s[at..at + 2] + s[at + 2..at + 4];
    Read16(s, at) * 0x1_0000 + Read16(s, at + 2)
  }

  lemma Read16Of(s: Bytes, at: nat, n: nat)
    requires n < 0x1_0000 && at + 2 <= |s| && s[at..at + 2] == U16(n)
    ensures Read16(s, at) == n
  {
    assert s[at] == s[at..at + 2][0] && s[at + 1] == s[at..at + 2][1];
  }

  lemma Read32Of(s: Bytes, at: nat, n: nat)
    requires n < 0x1_0000_0000 && at + 4 <= |s| && s[at..at + 4] == U32(n)
    ensures Read32(s, at) == n
  {
    assert s[at..at + 2] == s[at..at + 4][..2] && s[at + 2..at + 4] == s[at..at + 4][2..];
    Read16Of(s, at, n / 0x1_0000);
    Read16Of(s, at + 2, n % 0x1_0000);
  }
}
