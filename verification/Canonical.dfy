/**
 The bytes an announcement's signature covers, as the daemon builds them
 (daemon/daemon/identity.py:70-91) and as the registry rebuilds them
 (registry/registry/auth/crypto.py:84-112).

 For hosts without a NUL character the bytes determine the addresses up to their order,
 whatever else the hosts contain, and the order does not matter.
 */
module Canonical {
  import opened Wrappers
  import opened Utf8
  import opened BigEndian

  const NUL: Scalar := 0
  const COLON: Scalar := 58

  datatype Addr = Addr(host: Text, port: nat, isLan: bool)

  /** The daemon's address; the flag may be missing and then reads as false. */
  datatype Entry = Entry(host: Text, port: nat, isLan: Option<bool>)

  /** The message sent to the registry carries this for an entry. */
  function Sent(e: Entry): Addr {
    Addr(e.host, e.port, e.isLan == Some(true))
  }

  function SentAll(es: seq<Entry>): seq<Addr> {
    seq(|es|, i requires 0 <= i < |es| => Sent(es[i]))
  }

  // ----- one part ---------------------------------------------------------------------------------

  function Digit(d: nat): Scalar
    requires d < 10
  {
    (48 + d) as Scalar
  }

  function Decimal(n: nat): (t: Text)
    ensures t != [] && forall i :: 0 <= i < |t| ==> 48 <= t[i] <= 57
  {
    if n < 10 then [Digit(n)] else Decimal(n / 10) + [Digit(n % 10)]
  }

  function Flag(b: bool): Scalar {
    if b then 49 else 48
  }

  /** host:port:flag */
  function Part(a: Addr): (t: Text)
    ensures t != []
  {
    a.host + [COLON] + Decimal(a.port) + [COLON, Flag(a.isLan)]
  }

  lemma {:induction false} DecimalInjective(m: nat, n: nat)
    requires Decimal(m) == Decimal(n)
    ensures m == n
  {
    var s, t := Decimal(m), Decimal(n);
    assert s[|s| - 1] == Digit(m % 10) && t[|t| - 1] == Digit(n % 10);
    if m >= 10 && n >= 10 {
      assert s[..|s| - 1] == Decimal(m / 10) && t[..|t| - 1] == Decimal(n / 10);
      DecimalInjective(m / 10, n / 10);
    }
  }

  lemma NoLaterSeparator(sep: Scalar, a: Text, x: Text, n: nat)
    requires sep !in x && |a| < n <= |a| + |x|
    ensures (a + [sep] + x)[n] != sep
  {
    assert (a + [sep] + x)[n] == x[n - |a| - 1];
  }

  /** The last separator splits a text in only one way. */
  lemma LastSeparator(sep: Scalar, a: Text, x: Text, b: Text, y: Text)
    requires a + [sep] + x == b + [sep] + y && sep !in x && sep !in y
    ensures a == b && x == y
  {
    var s, t := a + [sep] + x, b + [sep] + y;
    assert s[|a|] == sep && t[|b|] == sep;
    forall n | |a| < n <= |a| + |x|
      ensures s[n] != sep
    {
      NoLaterSeparator(sep, a, x, n);
    }
    forall n | |b| < n <= |b| + |y|
      ensures t[n] != sep
    {
      NoLaterSeparator(sep, b, y, n);
    }
    assert |a| == |b|;
    assert s[..|a|] == a && t[..|b|] == b;
    assert s[|a| + 1..] == x && t[|b| + 1..] == y;
  }

  /** Whatever the hosts contain, colons included. */
  lemma PartInjective(a: Addr, b: Addr)
    requires Part(a) == Part(b)
    ensures a == b
  {
    var x, y := a.host + [COLON] + Decimal(a.port), b.host + [COLON] + Decimal(b.port);
    assert Part(a) == x + [COLON] + [Flag(a.isLan)] && Part(b) == y + [COLON] + [Flag(b.isLan)];
    LastSeparator(COLON, x, [Flag(a.isLan)], y, [Flag(b.isLan)]);
    LastSeparator(COLON, a.host, Decimal(a.port), b.host, Decimal(b.port));
    DecimalInjective(a.port, b.port);
    assert [Flag(a.isLan)][0] == [Flag(b.isLan)][0];
  }

  lemma PartNulFree(a: Addr)
    requires NUL !in a.host
    ensures NUL !in Part(a)
  {
  }

  function Parts(addrs: seq<Addr>): (ps: seq<Text>)
    ensures |ps| == |addrs| && forall i :: 0 <= i < |ps| ==> ps[i] == Part(addrs[i])
  {
    if addrs == [] then [] else Parts(addrs[..|addrs| - 1]) + [Part(addrs[|addrs| - 1])]
  }

  lemma OneMore<T>(ts: seq<T>, t: T, u: T)
    ensures multiset(ts + [t])[u] == multiset(ts)[u] + if t == u then 1 else 0
  {
  }

  lemma SamePart(a: Addr, b: Addr)
    ensures Part(a) == Part(b) <==> a == b
  {
    if Part(a) == Part(b) {
      PartInjective(a, b);
    }
  }

  /** Each part occurs as often as its address. */
  lemma {:induction false} PartCount(addrs: seq<Addr>, a: Addr)
    ensures multiset(Parts(addrs))[Part(a)] == multiset(addrs)[a]
  {
    if addrs != [] {
      var front, last := addrs[..|addrs| - 1], addrs[|addrs| - 1];
      PartCount(front, a);
      assert addrs == front + [last];
      OneMore(front, last, a);
      OneMore(Parts(front), Part(last), Part(a));
      SamePart(last, a);
    }
  }

  lemma PartOf(addrs: seq<Addr>, t: Text)
    requires t in Parts(addrs)
    ensures exists a :: a in addrs && t == Part(a)
  {
    var i :| 0 <= i < |addrs| && Parts(addrs)[i] == t;
    assert addrs[i] in addrs;
  }

  lemma PartsFrom(x: seq<Addr>, y: seq<Addr>)
    requires multiset(Parts(x)) == multiset(Parts(y))
    ensures multiset(x) == multiset(y)
  {
    forall a: Addr
      ensures multiset(x)[a] == multiset(y)[a]
    {
      PartCount(x, a);
      PartCount(y, a);
    }
  }

  lemma TextCount(x: seq<Addr>, y: seq<Addr>, t: Text)
    requires multiset(x) == multiset(y) && t in Parts(x)
    ensures multiset(Parts(x))[t] == multiset(Parts(y))[t]
  {
    PartOf(x, t);
    var a :| a in x && t == Part(a);
    PartCount(x, a);
    PartCount(y, a);
  }

  lemma PartsTo(x: seq<Addr>, y: seq<Addr>)
    requires multiset(x) == multiset(y)
    ensures multiset(Parts(x)) == multiset(Parts(y))
  {
    forall t: Text
      ensures multiset(Parts(x))[t] == multiset(Parts(y))[t]
    {
      if t in Parts(x) {
        TextCount(x, y, t);
      } else if t in Parts(y) {
        TextCount(y, x, t);
      }
    }
  }

  // ----- sorting -----------------------------------------------------------------------------------

  /** Code point by code point; a proper prefix comes first. */
  predicate AtMost(s: Text, t: Text) {
    s == [] || (t != [] && (s[0] < t[0] || (s[0] == t[0] && AtMost(s[1..], t[1..]))))
  }

  lemma {:induction false} AtMostTotal(s: Text, t: Text)
    ensures AtMost(s, t) || AtMost(t, s)
  {
    if s != [] && t != [] {
      AtMostTotal(s[1..], t[1..]);
    }
  }

  lemma {:induction false} AtMostAntisymmetric(s: Text, t: Text)
    requires AtMost(s, t) && AtMost(t, s)
    ensures s == t
  {
    if s != [] && t != [] {
      AtMostAntisymmetric(s[1..], t[1..]);
      assert s == [s[0]] + s[1..] && t == [t[0]] + t[1..];
    }
  }

  lemma {:induction false} AtMostTransitive(s: Text, t: Text, u: Text)
    requires AtMost(s, t) && AtMost(t, u)
    ensures AtMost(s, u)
  {
    if s != [] && s[0] == t[0] == u[0] {
      AtMostTransitive(s[1..], t[1..], u[1..]);
    }
  }

  ghost predicate Sorted(ts: seq<Text>) {
    forall i, j :: 0 <= i <= j < |ts| ==> AtMost(ts[i], ts[j])
  }

  lemma FirstIsLeast(s: seq<Text>, t: seq<Text>)
    requires s != [] && t != [] && Sorted(s) && s[0] in multiset(t) && t[0] in multiset(s)
    ensures AtMost(s[0], t[0])
  {
    assert t[0] in s;
  }

  lemma Behead(s: seq<Text>)
    requires s != [] && Sorted(s)
    ensures multiset(s[1..]) == multiset(s) - multiset{s[0]} && Sorted(s[1..])
  {
    assert s == [s[0]] + s[1..];
  }

  /** A list has one sorted order. */
  lemma {:induction false} SortedUnique(s: seq<Text>, t: seq<Text>)
    requires Sorted(s) && Sorted(t) && multiset(s) == multiset(t)
    ensures s == t
  {
    assert |multiset(s)| == |s| && |multiset(t)| == |t|;
    if s != [] {
      assert s[0] in multiset(s) && t[0] in multiset(t);
      FirstIsLeast(s, t);
      FirstIsLeast(t, s);
      AtMostAntisymmetric(s[0], t[0]);
      Behead(s);
      Behead(t);
      SortedUnique(s[1..], t[1..]);
      assert s == [s[0]] + s[1..] && t == [t[0]] + t[1..];
    }
  }

  function Insert(t: Text, ts: seq<Text>): seq<Text> {
    if ts == [] || AtMost(t, ts[0]) then [t] + ts else [ts[0]] + Insert(t, ts[1..])
  }

  lemma {:induction false} InsertAdds(t: Text, ts: seq<Text>)
    ensures multiset(Insert(t, ts)) == multiset(ts) + multiset{t}
  {
    if ts != [] && !AtMost(t, ts[0]) {
      InsertAdds(t, ts[1..]);
      assert ts == [ts[0]] + ts[1..];
    }
  }

  lemma {:induction false} InsertSorted(t: Text, ts: seq<Text>)
    requires Sorted(ts)
    ensures Sorted(Insert(t, ts))
  {
    if ts == [] {
      AtMostTotal(t, t);
    } else if AtMost(t, ts[0]) {
      forall i | 0 <= i < |ts|
        ensures AtMost(t, ts[i])
      {
        AtMostTransitive(t, ts[0], ts[i]);
      }
      AtMostTotal(t, t);
    } else {
      AtMostTotal(t, ts[0]);
      var rest := Insert(t, ts[1..]);
      InsertSorted(t, ts[1..]);
      InsertAdds(t, ts[1..]);
      forall i | 0 <= i < |rest|
        ensures AtMost(ts[0], rest[i])
      {
        assert rest[i] in multiset(rest);
        if rest[i] != t {
          assert rest[i] in multiset(ts[1..]);
        }
      }
      AtMostTotal(ts[0], ts[0]);
    }
  }

  /** What sorting the list in place leaves: its one sorted order. */
  function Sort(ts: seq<Text>): seq<Text> {
    if ts == [] then [] else Insert(ts[|ts| - 1], Sort(ts[..|ts| - 1]))
  }

  lemma {:induction false} SortSorts(ts: seq<Text>)
    ensures Sorted(Sort(ts)) && multiset(Sort(ts)) == multiset(ts)
  {
    if ts != [] {
      var front, last := ts[..|ts| - 1], ts[|ts| - 1];
      SortSorts(front);
      InsertSorted(last, Sort(front));
      InsertAdds(last, Sort(front));
      assert ts == front + [last];
    }
  }

  // ----- joining -------------------------------------------------------------------------------------

  function Join(ts: seq<Text>): Text {
    if ts == [] then [] else if |ts| == 1 then ts[0]
    else Join(ts[..|ts| - 1]) + [NUL] + ts[|ts| - 1]
  }

  ghost predicate Joinable(ts: seq<Text>) {
    forall i :: 0 <= i < |ts| ==> ts[i] != [] && NUL !in ts[i]
  }

  lemma JoinSeparates(ts: seq<Text>)
    requires |ts| >= 2
    ensures NUL in Join(ts)
  {
    assert Join(ts)[|Join(ts[..|ts| - 1])|] == NUL;
  }

  lemma {:induction false} JoinInjective(s: seq<Text>, t: seq<Text>)
    requires Joinable(s) && Joinable(t) && Join(s) == Join(t)
    ensures s == t
  {
    var m, n := |s| - 1, |t| - 1;
    if m >= 1 { JoinSeparates(s); }
    if n >= 1 { JoinSeparates(t); }
    if m >= 1 && n >= 1 {
      LastSeparator(NUL, Join(s[..m]), s[m], Join(t[..n]), t[n]);
      JoinInjective(s[..m], t[..n]);
      assert s == s[..m] + [s[m]] && t == t[..n] + [t[n]];
    }
  }

  // ----- the bytes ------------------------------------------------------------------------------------

  function CanonicalBytes(addrs: seq<Addr>): Bytes {
    Encode(Join(Sort(Parts(addrs))))
  }

  ghost predicate NulFree(addrs: seq<Addr>) {
    forall a :: a in addrs ==> NUL !in a.host
  }

  lemma SortedPartsJoinable(addrs: seq<Addr>)
    requires NulFree(addrs)
    ensures Joinable(Sort(Parts(addrs)))
  {
    var ts := Sort(Parts(addrs));
    SortSorts(Parts(addrs));
    forall i | 0 <= i < |ts|
      ensures ts[i] != [] && NUL !in ts[i]
    {
      assert ts[i] in multiset(ts);
      PartOf(addrs, ts[i]);
      var a :| a in addrs && ts[i] == Part(a);
      PartNulFree(a);
    }
  }

  /** Order does not matter, whatever the hosts contain. */
  lemma CanonicalIgnoresOrder(x: seq<Addr>, y: seq<Addr>)
    requires multiset(x) == multiset(y)
    ensures CanonicalBytes(x) == CanonicalBytes(y)
  {
    PartsTo(x, y);
    SortSorts(Parts(x));
    SortSorts(Parts(y));
    SortedUnique(Sort(Parts(x)), Sort(Parts(y)));
  }

  /** Main result: the bytes are the same exactly when the addresses are, up to their order. */
  lemma CanonicalIff(x: seq<Addr>, y: seq<Addr>)
    requires NulFree(x) && NulFree(y)
    ensures CanonicalBytes(x) == CanonicalBytes(y) <==> multiset(x) == multiset(y)
  {
    if multiset(x) == multiset(y) {
      CanonicalIgnoresOrder(x, y);
    }
    if CanonicalBytes(x) == CanonicalBytes(y) {
      var s, t := Sort(Parts(x)), Sort(Parts(y));
      DecodeEncode(Join(s));
      DecodeEncode(Join(t));
      SortedPartsJoinable(x);
      SortedPartsJoinable(y);
      JoinInjective(s, t);
      SortSorts(Parts(x));
      SortSorts(Parts(y));
      PartsFrom(x, y);
    }
  }

  lemma BytesOfOne(a: Addr)
    ensures CanonicalBytes([a]) == Encode(Part(a))
  {
    AtMostTotal(Part(a), Part(a));
    assert Parts([a]) == [Part(a)];
    SortedStays([Part(a)]);
  }

  lemma JoinTwo(s: Text, t: Text)
    ensures Join([s, t]) == s + [NUL] + t
  {
    assert [s, t][..1] == [s];
  }

  lemma SortedStays(ts: seq<Text>)
    requires Sorted(ts)
    ensures Sort(ts) == ts
  {
    SortSorts(ts);
    SortedUnique(Sort(ts), ts);
  }

  lemma SortTwo(s: Text, t: Text)
    requires AtMost(s, t)
    ensures Sort([s, t]) == [s, t]
  {
    AtMostTotal(s, s);
    AtMostTotal(t, t);
    SortedStays([s, t]);
  }

  lemma BytesOfTwo(a: Addr, b: Addr)
    requires AtMost(Part(a), Part(b))
    ensures CanonicalBytes([a, b]) == Encode(Part(a) + [NUL] + Part(b))
  {
    assert Parts([a, b]) == [Part(a), Part(b)];
    SortTwo(Part(a), Part(b));
    JoinTwo(Part(a), Part(b));
  }

  lemma Prefixed(prefix: Text, b: Addr)
    ensures Part(Addr(prefix + b.host, b.port, b.isLan)) == prefix + Part(b)
  {
  }

  lemma DifferentSizes(a: Addr, b: Addr, c: Addr)
    ensures multiset([a]) != multiset([b, c])
  {
    assert |multiset([a])| == 1 && |multiset([b, c])| == 2;
  }

  /** With a NUL in the host, one address signs like two: for every pair there is such a host. */
  lemma NulCollides(a: Addr, b: Addr)
    requires AtMost(Part(a), Part(b))
    ensures var c := Addr(Part(a) + [NUL] + b.host, b.port, b.isLan);
            CanonicalBytes([c]) == CanonicalBytes([a, b]) && multiset([c]) != multiset([a, b])
  {
    var c := Addr(Part(a) + [NUL] + b.host, b.port, b.isLan);
    Prefixed(Part(a) + [NUL], b);
    BytesOfOne(c);
    BytesOfTwo(a, b);
    DifferentSizes(c, a, b);
  }

  // ----- what the bytes look like ------------------------------------------------------------------------

  /** What a string of decimal digits says. */
  function Value(d: Text): int {
    if d == [] then 0 else 10 * Value(d[..|d| - 1]) + (d[|d| - 1] as int - 48)
  }

  /** The decimal digits of n, without leading zeros. */
  predicate Numeral(d: Text, n: nat) {
    d != [] && (forall i :: 0 <= i < |d| ==> 48 <= d[i] <= 57) && (|d| > 1 ==> d[0] != 48) && Value(d) == n
  }

  lemma {:induction false} DecimalIsNumeral(n: nat)
    ensures Numeral(Decimal(n), n)
    ensures n > 0 ==> Decimal(n)[0] != 48
  {
    var d := Decimal(n);
    if n < 10 {
      assert d[..0] == [] && Value([]) == 0;
    } else {
      DecimalIsNumeral(n / 10);
      assert d[..|d| - 1] == Decimal(n / 10);
    }
  }

  /** The host, the port in decimal and "1" or "0", with colons between them. */
  ghost predicate Renders(host: Text, port: nat, isLan: bool, t: Text) {
    exists d :: Numeral(d, port) && t == host + [58] + d + [58] + [if isLan then 49 else 48]
  }

  lemma PartRenders(a: Addr)
    ensures Renders(a.host, a.port, a.isLan, Part(a))
  {
    DecimalIsNumeral(a.port);
    assert Part(a) == a.host + [58] + Decimal(a.port) + [58] + [if a.isLan then 49 else 48];
  }

  ghost predicate FirstSmaller(s: Text, t: Text, k: nat) {
    k < |s| && k < |t| && s[..k] == t[..k] && s[k] < t[k]
  }

  /** A prefix, or smaller at the first place where they differ. */
  ghost predicate Precedes(s: Text, t: Text) {
    s <= t || exists k :: 0 <= k && FirstSmaller(s, t, k)
  }

  /** A common first character does not matter. */
  lemma PrecedesLater(c: Scalar, x: Text, y: Text)
    requires Precedes(x, y)
    ensures Precedes([c] + x, [c] + y)
  {
    if !(x <= y) {
      var k :| 0 <= k && FirstSmaller(x, y, k);
      assert ([c] + x)[..k + 1] == [c] + x[..k] && ([c] + y)[..k + 1] == [c] + y[..k];
      assert FirstSmaller([c] + x, [c] + y, k + 1);
    }
  }

  lemma PrecedesRest(s: Text, t: Text)
    requires s != [] && t != [] && s[0] == t[0] && Precedes(s, t)
    ensures Precedes(s[1..], t[1..])
  {
    if !(s <= t) {
      var k :| 0 <= k && FirstSmaller(s, t, k);
      assert s[1..][..k - 1] == s[..k][1..] && t[1..][..k - 1] == t[..k][1..];
      assert FirstSmaller(s[1..], t[1..], k - 1);
    } else {
      assert t[1..][..|s| - 1] == t[..|s|][1..];
    }
  }

  lemma FirstAlike(s: Text, t: Text, k: nat)
    requires FirstSmaller(s, t, k)
    ensures s[0] < t[0] || s[0] == t[0]
  {
    if k > 0 {
      assert s[0] == s[..k][0] && t[0] == t[..k][0];
    }
  }

  lemma FirstDecides(s: Text, t: Text)
    requires s != [] && t != [] && s[0] != t[0]
    ensures Precedes(s, t) <==> s[0] < t[0]
  {
    if s[0] < t[0] {
      assert FirstSmaller(s, t, 0);
    }
    forall k: nat | FirstSmaller(s, t, k)
      ensures s[0] < t[0]
    {
      FirstAlike(s, t, k);
    }
  }

  lemma {:induction false} AtMostIff(s: Text, t: Text)
    ensures AtMost(s, t) <==> Precedes(s, t)
  {
    if s != [] && t != [] {
      if s[0] != t[0] {
        FirstDecides(s, t);
      } else {
        AtMostIff(s[1..], t[1..]);
        assert s == [s[0]] + s[1..] && t == [s[0]] + t[1..];
        if Precedes(s[1..], t[1..]) {
          PrecedesLater(s[0], s[1..], t[1..]);
        }
        if Precedes(s, t) {
          PrecedesRest(s, t);
        }
      }
    }
  }

  ghost predicate InOrder(ts: seq<Text>) {
    forall i, j :: 0 <= i < j < |ts| ==> Precedes(ts[i], ts[j])
  }

  lemma SortedInOrder(ts: seq<Text>)
    requires Sorted(ts)
    ensures InOrder(ts)
  {
    forall i, j | 0 <= i < j < |ts|
      ensures Precedes(ts[i], ts[j])
    {
      AtMostIff(ts[i], ts[j]);
    }
  }

  /** The texts with a zero between neighbours. */
  function Spelled(ts: seq<Text>): Text {
    if ts == [] then [] else if |ts| == 1 then ts[0] else ts[0] + [0] + Spelled(ts[1..])
  }

  lemma {:induction false} SpelledLast(ts: seq<Text>, t: Text)
    requires ts != []
    ensures Spelled(ts + [t]) == Spelled(ts) + [0] + t
  {
    var more := ts + [t];
    if |ts| == 1 {
      assert more[1..] == [t];
    } else {
      SpelledLast(ts[1..], t);
      assert more[1..] == ts[1..] + [t];
      assert ts[0] + [0] + (Spelled(ts[1..]) + [0] + t) == ts[0] + [0] + Spelled(ts[1..]) + [0] + t;
    }
  }

  lemma {:induction false} JoinIsSpelled(ts: seq<Text>)
    ensures Join(ts) == Spelled(ts)
  {
    if |ts| > 1 {
      var front, last := ts[..|ts| - 1], ts[|ts| - 1];
      JoinIsSpelled(front);
      SpelledLast(front, last);
      assert ts == front + [last];
    }
  }

  /** These bytes spell the addresses: rendered, in code point order, joined by zeros, in UTF-8. */
  ghost predicate Spells(es: seq<Entry>, parts: seq<Text>, ts: seq<Text>, bytes: Bytes) {
    && |parts| == |es|
    && (forall i :: 0 <= i < |es| ==> Renders(es[i].host, es[i].port, es[i].isLan == Some(true), parts[i]))
    && multiset(ts) == multiset(parts) && InOrder(ts)
    && bytes == Encode(Spelled(ts))
  }

  /** Main result: the layout of the bytes that both programs build; a missing flag is a "0". */
  lemma CanonicalLayout(es: seq<Entry>)
    ensures exists parts, ts :: Spells(es, parts, ts, CanonicalBytes(SentAll(es)))
  {
    var addrs := SentAll(es);
    var parts, ts := Parts(addrs), Sort(Parts(addrs));
    forall i | 0 <= i < |es|
      ensures Renders(es[i].host, es[i].port, es[i].isLan == Some(true), parts[i])
    {
      PartRenders(addrs[i]);
    }
    SortSorts(parts);
    SortedInOrder(ts);
    JoinIsSpelled(ts);
    assert Spells(es, parts, ts, CanonicalBytes(addrs));
  }

  // ----- the two programs --------------------------------------------------------------------------------

  /** The daemon's `_canonical_addrs`. */
  method DaemonBytes(addrs: seq<Entry>) returns (bytes: Bytes)
    ensures bytes == CanonicalBytes(SentAll(addrs))
  {
    var parts: seq<Text> := [];
    for i := 0 to |addrs|
      invariant |parts| == i && forall k :: 0 <= k < i ==> parts[k] == Part(Sent(addrs[k]))
    {
      var flag: Scalar := match addrs[i].isLan { case Some(true) => 49 case _ => 48 };
      parts := parts + [addrs[i].host + [COLON] + Decimal(addrs[i].port) + [COLON, flag]];
    }
    assert parts == Parts(SentAll(addrs));
    parts := Sort(parts);
    var text := JoinParts(parts);
    bytes := Encode(text);
  }

  /** The registry's `canonical_addrs`. */
  method RegistryBytes(addrs: seq<Addr>) returns (bytes: Bytes)
    ensures bytes == CanonicalBytes(addrs)
  {
    var parts: seq<Text> := [];
    for i := 0 to |addrs|
      invariant |parts| == i && forall k :: 0 <= k < i ==> parts[k] == Part(addrs[k])
    {
      parts := parts + [Part(addrs[i])];
    }
    assert parts == Parts(addrs);
    parts := Sort(parts);
    var text := JoinParts(parts);
    bytes := Encode(text);
  }

  method JoinParts(parts: seq<Text>) returns (text: Text)
    ensures text == Join(parts)
  {
    text := [];
    for i := 0 to |parts|
      invariant text == Join(parts[..i])
    {
      assert parts[..i + 1][..i] == parts[..i];
      text := if i == 0 then parts[0] else text + [NUL] + parts[i];
    }
    assert parts[..|parts|] == parts;
  }

  /** The signed message: share, peer, addresses, time to live. */
  function Message(share: Bytes, peer: Bytes, addrs: seq<Addr>, ttl: nat): Bytes
    requires ttl < 0x1_0000_0000
  {
    share + peer + CanonicalBytes(addrs) + U32(ttl)
  }

  /** Main result: where each field of the message lies; the time to live is its last four bytes, the highest first. */
  lemma MessageLayout(share: Bytes, peer: Bytes, addrs: seq<Addr>, ttl: nat)
    requires |share| == 32 && |peer| == 32 && ttl < 0x1_0000_0000
    ensures var m := Message(share, peer, addrs, ttl);
            var end := |m| - 4;
            && end >= 64 && m[..32] == share && m[32..64] == peer && m[64..end] == CanonicalBytes(addrs)
            && ttl == 0x1_000000 * m[end] as nat + 0x1_0000 * m[end + 1] as nat + 256 * m[end + 2] as nat + m[end + 3] as nat
  {
    var m, bytes := Message(share, peer, addrs, ttl), CanonicalBytes(addrs);
    assert m[..32] == share && m[32..64] == peer && m[64..|m| - 4] == bytes;
    var last := m[|m| - 4..];
    assert last == U32(ttl) && last[0..4] == last;
    Read32Of(last, 0, ttl);
  }

  lemma Fields(a: Bytes, b: Bytes, c: Bytes, d: Bytes, a': Bytes, b': Bytes, c': Bytes, d': Bytes)
    requires a + b + c + d == a' + b' + c' + d' && |a| == |a'| && |b| == |b'| && |d| == |d'|
    ensures a == a' && b == b' && c == c' && d == d'
  {
    var s, t := a + b + c + d, a' + b' + c' + d';
    assert s[..|a|] == a && t[..|a|] == a';
    assert s[|a|..|a| + |b|] == b && t[|a|..|a| + |b|] == b';
    assert |c| == |c'|;
    assert s[|a| + |b|..|a| + |b| + |c|] == c && t[|a| + |b|..|a| + |b| + |c|] == c';
    assert s[|a| + |b| + |c|..] == d && t[|a| + |b| + |c|..] == d';
  }

  lemma U32Injective(m: nat, n: nat)
    requires m < 0x1_0000_0000 && n < 0x1_0000_0000 && U32(m) == U32(n)
    ensures m == n
  {
    assert U32(m)[0..4] == U32(m) && U32(n)[0..4] == U32(n);
    Read32Of(U32(m), 0, m);
    Read32Of(U32(n), 0, n);
  }

  /** Main result: for 32-byte ids and NUL-free hosts a signature covers one announcement, up to address order. */
  lemma MessageIff(
    share: Bytes, peer: Bytes, x: seq<Addr>, ttl: nat, share': Bytes, peer': Bytes, y: seq<Addr>, ttl': nat)
    requires |share| == 32 && |peer| == 32 && |share'| == 32 && |peer'| == 32
    requires NulFree(x) && NulFree(y) && ttl < 0x1_0000_0000 && ttl' < 0x1_0000_0000
    ensures Message(share, peer, x, ttl) == Message(share', peer', y, ttl') <==>
              share == share' && peer == peer' && multiset(x) == multiset(y) && ttl == ttl'
  {
    CanonicalIff(x, y);
    if Message(share, peer, x, ttl) == Message(share', peer', y, ttl') {
      Fields(share, peer, CanonicalBytes(x), U32(ttl), share', peer', CanonicalBytes(y), U32(ttl'));
      U32Injective(ttl, ttl');
    }
  }
}
