/** UTF-8 as section 4 of RFC 3629 defines it: the encoding, and the strict decoder. */
module Utf8 {
  import opened Wrappers

  newtype Byte = b: int | 0 <= b < 256

  type Bytes = seq<Byte>

  /** A Unicode scalar value: no surrogates. */
  newtype Scalar = c: int | 0 <= c < 0xD800 || 0xE000 <= c < 0x110000

  type Text = seq<Scalar>

  function Cont(n: int): (b: Byte)
    requires 0 <= n
    ensures Tail(b)
  {
    (0x80 + n % 64) as Byte
  }

  /** Six bits go into each continuation byte. */
  function EncodeOne(c: Scalar): (s: Bytes)
    ensures 1 <= |s| <= 4
  {
    var n := c as int;
    var d := n / 64;
    var e := d / 64;
    if n < 0x80 then [n as Byte]
    else if n < 0x800 then [(0xC0 + d) as Byte, Cont(n)]
    else if n < 0x10000 then [(0xE0 + e) as Byte, Cont(d), Cont(n)]
    else [(0xF0 + e / 64) as Byte, Cont(e), Cont(d), Cont(n)]
  }

  function Encode(t: Text): Bytes {
    if t == [] then [] else EncodeOne(t[0]) + Encode(t[1..])
  }

  predicate Tail(b: Byte) {
    0x80 <= b <= 0xBF
  }

  predicate Starts2(s: Bytes) {
    |s| >= 2 && 0xC2 <= s[0] <= 0xDF && Tail(s[1])
  }

  predicate Starts3(s: Bytes) {
    && |s| >= 3 && 0xE0 <= s[0] <= 0xEF && Tail(s[1]) && Tail(s[2])
    && (s[0] == 0xE0 ==> s[1] >= 0xA0) && (s[0] == 0xED ==> s[1] <= 0x9F)
  }

  predicate Starts4(s: Bytes) {
    && |s| >= 4 && 0xF0 <= s[0] <= 0xF4 && Tail(s[1]) && Tail(s[2]) && Tail(s[3])
    && (s[0] == 0xF0 ==> s[1] >= 0x90) && (s[0] == 0xF4 ==> s[1] <= 0x8F)
  }

  function Join(high: int, low: Byte): int {
    high * 64 + (low as int - 0x80)
  }

  function Value2(s: Bytes): int
    requires Starts2(s)
  {
    Join(s[0] as int - 0xC0, s[1])
  }

  function Value3(s: Bytes): int
    requires Starts3(s)
  {
    Join(Join(s[0] as int - 0xE0, s[1]), s[2])
  }

  function Value4(s: Bytes): int
    requires Starts4(s)
  {
    Join(Join(Join(s[0] as int - 0xF0, s[1]), s[2]), s[3])
  }

  /** The first character and its length; None where the syntax of RFC 3629 has no character. */
  function DecodeOne(s: Bytes): (r: Option<(Scalar, nat)>)
    ensures r.Some? ==> 1 <= r.value.1 <= 4 && r.value.1 <= |s|
  {
    if |s| >= 1 && s[0] < 0x80 then Some((s[0] as int as Scalar, 1))
    else if Starts2(s) then Some((Value2(s) as Scalar, 2))
    else if Starts3(s) then Some((Value3(s) as Scalar, 3))
    else if Starts4(s) then Some((Value4(s) as Scalar, 4))
    else None
  }

  /** The whole text, or None as soon as one character is malformed. */
  function Decode(s: Bytes): Option<Text>
    decreases |s|
  {
    if s == [] then Some([]) else
      match DecodeOne(s)
      case None => None
      case Some((c, n)) =>
        match Decode(s[n..])
        case None => None
        case Some(rest) => Some([c] + rest)
  }

  lemma JoinSplits(n: int)
    requires n >= 0
    ensures Join(n / 64, Cont(n)) == n
  {
  }

  lemma SplitJoins(high: int, low: Byte)
    requires Tail(low) && high >= 0
    ensures Join(high, low) >= 0 && Join(high, low) / 64 == high && Cont(Join(high, low)) == low
  {
  }

  lemma DecodeEncodeOne(c: Scalar, rest: Bytes)
    ensures DecodeOne(EncodeOne(c) + rest) == Some((c, |EncodeOne(c)|))
  {
    var s := EncodeOne(c) + rest;
    var n := c as int;
    JoinSplits(n);
    JoinSplits(n / 64);
    JoinSplits(n / 64 / 64);
    if n < 0x80 {
    } else if n < 0x800 {
      assert Starts2(s) && Value2(s) == n;
    } else if n < 0x10000 {
      assert Starts3(s) && Value3(s) == n;
    } else {
      assert Starts4(s) && Value4(s) == n;
    }
  }

  lemma EncodeValue2(s: Bytes)
    requires Starts2(s)
    ensures 0x80 <= Value2(s) < 0x800 && EncodeOne(Value2(s) as Scalar) == [s[0], s[1]]
  {
    SplitJoins(s[0] as int - 0xC0, s[1]);
  }

  lemma EncodeValue3(s: Bytes)
    requires Starts3(s)
    ensures var n := Value3(s);
            && 0x800 <= n < 0x10000 && (n < 0xD800 || 0xE000 <= n)
            && EncodeOne(n as Scalar) == [s[0], s[1], s[2]]
  {
    SplitJoins(s[0] as int - 0xE0, s[1]);
    SplitJoins(Join(s[0] as int - 0xE0, s[1]), s[2]);
  }

  lemma Joined4(h: int, x: Byte, y: Byte, z: Byte)
    requires 0 <= h && Tail(x) && Tail(y) && Tail(z)
    ensures var n := Join(Join(Join(h, x), y), z);
            0 <= n && n / 64 / 64 / 64 == h && Cont(n / 64 / 64) == x && Cont(n / 64) == y && Cont(n) == z
  {
    var a := Join(h, x);
    SplitJoins(h, x);
    var b := Join(a, y);
    SplitJoins(a, y);
    SplitJoins(b, z);
  }

  lemma EncodeLarge(n: int, b: Byte, x: Byte, y: Byte, z: Byte)
    requires 0x10000 <= n < 0x110000
    requires n / 64 / 64 / 64 == b as int - 0xF0
    requires Cont(n / 64 / 64) == x && Cont(n / 64) == y && Cont(n) == z
    ensures EncodeOne(n as Scalar) == [b, x, y, z]
  {
  }

  lemma Value4Range(s: Bytes)
    requires Starts4(s)
    ensures 0x10000 <= Value4(s) < 0x110000
  {
  }

  lemma EncodeValue4(s: Bytes)
    requires Starts4(s)
    ensures 0x10000 <= Value4(s) < 0x110000 && EncodeOne(Value4(s) as Scalar) == [s[0], s[1], s[2], s[3]]
  {
    Joined4(s[0] as int - 0xF0, s[1], s[2], s[3]);
    Value4Range(s);
    EncodeLarge(Value4(s), s[0], s[1], s[2], s[3]);
  }

  lemma EncodeDecodeOne(s: Bytes)
    requires DecodeOne(s).Some?
    ensures var (c, n) := DecodeOne(s).value; EncodeOne(c) == s[..n]
  {
    if s[0] < 0x80 {
    } else if Starts2(s) {
      EncodeValue2(s);
    } else if Starts3(s) {
      EncodeValue3(s);
    } else {
      EncodeValue4(s);
    }
  }

  lemma DecodeCons(c: Scalar, rest: Bytes)
    ensures Decode(EncodeOne(c) + rest) ==
      match Decode(rest) { case None => None case Some(t) => Some([c] + t) }
  {
    var s := EncodeOne(c) + rest;
    DecodeEncodeOne(c, rest);
    assert s != [] && s[|EncodeOne(c)|..] == rest;
  }

  /** Every text survives encoding and decoding. */
  lemma {:induction false} DecodeEncode(t: Text)
    ensures Decode(Encode(t)) == Some(t)
  {
    if t != [] {
      DecodeCons(t[0], Encode(t[1..]));
      DecodeEncode(t[1..]);
      assert [t[0]] + t[1..] == t;
    }
  }

  lemma EncodeCons(c: Scalar, rest: Text)
    ensures Encode([c] + rest) == EncodeOne(c) + Encode(rest)
  {
    assert ([c] + rest)[1..] == rest;
  }

  lemma DecodeSplits(s: Bytes)
    requires s != [] && Decode(s).Some?
    ensures DecodeOne(s).Some?
    ensures var (c, n) := DecodeOne(s).value;
            Decode(s[n..]).Some? && Decode(s).value == [c] + Decode(s[n..]).value
  {
  }

  lemma EncodeSplit(s: Bytes, c: Scalar, n: nat, t: Text)
    requires n <= |s| && EncodeOne(c) == s[..n] && Encode(t) == s[n..]
    ensures Encode([c] + t) == s
  {
    EncodeCons(c, t);
    assert s[..n] + s[n..] == s;
  }

  /** What decodes at all is the encoding of what it decodes to. */
  lemma {:induction false} EncodeDecode(s: Bytes)
    requires Decode(s).Some?
    ensures Encode(Decode(s).value) == s
    decreases |s|
  {
    if s != [] {
      DecodeSplits(s);
      EncodeDecodeOne(s);
      var one := DecodeOne(s).value;
      EncodeDecode(s[one.1..]);
      EncodeSplit(s, one.0, one.1, Decode(s[one.1..]).value);
    }
  }

  lemma {:induction false} EncodeConcat(t: Text, u: Text)
    ensures Encode(t + u) == Encode(t) + Encode(u)
  {
    if t == [] {
      assert t + u == u;
    } else {
      EncodeConcat(t[1..], u);
      assert (t + u)[0] == t[0] && (t + u)[1..] == t[1..] + u;
    }
  }

  /** The encoding is a prefix code. */
  lemma {:induction false} PrefixCode(t: Text, u: Text)
    requires Encode(t) <= Encode(u)
    ensures t <= u
  {
    if t != [] {
      var s := Encode(u);
      assert u != [];
      DecodeEncodeOne(t[0], s[|EncodeOne(t[0])|..]);
      assert EncodeOne(t[0]) + s[|EncodeOne(t[0])|..] == s;
      DecodeEncodeOne(u[0], Encode(u[1..]));
      assert t[0] == u[0];
      var n := |EncodeOne(t[0])|;
      assert Encode(t)[n..] == Encode(t[1..]) && Encode(u)[n..] == Encode(u[1..]);
      PrefixCode(t[1..], u[1..]);
    }
  }

  /** A cut of an encoded text decodes exactly when it falls between characters, to the characters before it. */
  lemma CutDecodes(t: Text, k: nat)
    requires k <= |Encode(t)|
    ensures Decode(Encode(t)[..k]).Some? <==> exists j :: 0 <= j <= |t| && |Encode(t[..j])| == k
    ensures forall j :: 0 <= j <= |t| && |Encode(t[..j])| == k ==> Decode(Encode(t)[..k]) == Some(t[..j])
  {
    var cut := Encode(t)[..k];
    forall j | 0 <= j <= |t| && |Encode(t[..j])| == k
      ensures Decode(cut) == Some(t[..j])
    {
      EncodeConcat(t[..j], t[j..]);
      assert t[..j] + t[j..] == t;
      assert cut == Encode(t[..j]);
      DecodeEncode(t[..j]);
    }
    if Decode(cut).Some? {
      var u := Decode(cut).value;
      EncodeDecode(cut);
      PrefixCode(u, t);
      assert t[..|u|] == u;
    }
  }
}
