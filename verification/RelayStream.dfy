/**
 What crosses a relayed connection: length-prefixed frames, the daemon's reading of the
 status frames, and the byte pipes (relay/relay/server.py:227-250;
 daemon/daemon/relay/client.py:72-92, 123-186).

 A frame is read without touching the byte after it, so the client's pipe starts exactly at
 the first raw byte; and along any number of pipes what arrives is a prefix of what was
 sent, all of it at a clean end of file.
 */
module RelayStream {
  import opened Wrappers
  import opened Utf8
  import opened BigEndian
  import opened RelayPool

  const MAX_HELLO_SIZE := 4096

  // ----- frames ---------------------------------------------------------------------------------

  predicate Sendable(body: Bytes) {
    |body| < 0x1_0000_0000
  }

  function Frame(body: Bytes): Bytes
    requires Sendable(body)
  {
    U32(|body|) + body
  }

  /** The body of the first frame and what follows it; None when the stream ends before the frame does. */
  function FirstFrame(s: Bytes): Option<(Bytes, Bytes)> {
    if |s| < 4 then None else
      var n := Read32(s, 0);
      if |s| - 4 < n then None else Some((s[4..4 + n], s[4 + n..]))
  }

  /** Main result: reading a frame takes exactly the frame. */
  lemma FrameIsExact(s: Bytes, body: Bytes, rest: Bytes)
    ensures FirstFrame(s) == Some((body, rest)) <==> Sendable(body) && s == Frame(body) + rest
  {
    if Sendable(body) && s == Frame(body) + rest {
      assert s[..4] == U32(|body|);
      Read32Of(s, 0, |body|);
      assert s[4..4 + |body|] == body && s[4 + |body|..] == rest;
    }
    if FirstFrame(s) == Some((body, rest)) {
      assert |body| == Read32(s, 0);
      assert s == s[0..4] + body + rest;
    }
  }

  /** Bytes that arrive later do not change a frame that was read. */
  lemma FrameStable(s: Bytes, more: Bytes)
    requires FirstFrame(s).Some?
    ensures var (body, rest) := FirstFrame(s).value; FirstFrame(s + more) == Some((body, rest + more))
  {
    var (body, rest) := FirstFrame(s).value;
    FrameIsExact(s, body, rest);
    assert s + more == Frame(body) + (rest + more);
    FrameIsExact(s + more, body, rest + more);
  }

  // ----- streams ----------------------------------------------------------------------------------

  /** `pending` is every byte that will still arrive before the end of file. */
  class Incoming {
    var pending: Bytes

    constructor (pending: Bytes)
      ensures this.pending == pending
    {
      this.pending := pending;
    }

    /** None when the stream ends first; what was left of it is then gone. */
    method ReadExactly(n: nat) returns (data: Option<Bytes>)
      modifies this
      ensures n <= |old(pending)| ==> data == Some(old(pending)[..n]) && pending == old(pending)[n..]
      ensures n > |old(pending)| ==> data == None && pending == []
    {
      if n <= |pending| {
        data := Some(pending[..n]);
        pending := pending[n..];
      } else {
        data, pending := None, [];
      }
    }

    /** Some of the bytes, at most `max`; nothing only at the end of file. */
    method ReadSome(max: nat, arrived: nat) returns (data: Bytes)
      requires max > 0
      modifies this
      ensures |data| <= max && old(pending) == data + pending
      ensures data == [] <==> old(pending) == []
    {
      var k := if arrived == 0 then 1 else arrived;
      k := if k > max then max else k;
      k := if k > |pending| then |pending| else k;
      data := pending[..k];
      pending := pending[k..];
    }
  }

  class Outgoing {
    var written: Bytes
    var closed: bool

    constructor ()
      ensures written == [] && !closed
    {
      written, closed := [], false;
    }
  }

  method SendFrame(writer: Outgoing, body: Bytes)
    requires Sendable(body)
    modifies writer
    ensures writer.written == old(writer.written) + Frame(body) && writer.closed == old(writer.closed)
  {
    writer.written := writer.written + (U32(|body|) + body);
  }

  method RecvFrame(reader: Incoming) returns (body: Option<Bytes>)
    modifies reader
    ensures match FirstFrame(old(reader.pending))
            case Some((b, rest)) => body == Some(b) && reader.pending == rest
            case None => body == None && reader.pending == []
  {
    var header := reader.ReadExactly(4);
    if header.None? {
      return None;
    }
    ghost var s := old(reader.pending);
    assert header.value[0..4] == s[0..4];
    var length := Read32(header.value, 0);
    Read32Of(s, 0, length);
    body := reader.ReadExactly(length);
    assert s[4..][..if length <= |s| - 4 then length else 0] == s[4..4 + if length <= |s| - 4 then length else 0];
  }

  /** The server's first read: a longer hello ends the connection unread. */
  method RecvHello(reader: Incoming) returns (body: Option<Bytes>)
    modifies reader
    ensures body.Some? ==> FirstFrame(old(reader.pending)) == Some((body.value, reader.pending))
    ensures body.Some? <==>
              FirstFrame(old(reader.pending)).Some? && |FirstFrame(old(reader.pending)).value.0| <= 4096
  {
    var header := reader.ReadExactly(4);
    if header.None? {
      return None;
    }
    ghost var s := old(reader.pending);
    assert header.value[0..4] == s[0..4];
    var length := Read32(header.value, 0);
    Read32Of(s, 0, length);
    if length > MAX_HELLO_SIZE {
      return None;
    }
    body := reader.ReadExactly(length);
    assert s[4..][..if length <= |s| - 4 then length else 0] == s[4..4 + if length <= |s| - 4 then length else 0];
  }

  // ----- the daemon's side of the handshake -------------------------------------------------------

  datatype Status = Waiting | Connected | Error | Other

  /** The status objects as the relay prints them, and how the daemon reads any body. */
  datatype Json = Json(waiting: Bytes, connected: Bytes, refused: Bytes, read: Bytes -> Status)

  ghost predicate Faithful(j: Json) {
    && Sendable(j.waiting) && Sendable(j.connected) && Sendable(j.refused)
    && j.read(j.waiting) == Waiting && j.read(j.connected) == Connected && j.read(j.refused) == Error
  }

  /** What follows the status that ends the handshake; None when the handshake fails. */
  function Tunnel(s: Bytes, read: Bytes -> Status): Option<Bytes> {
    match FirstFrame(s)
    case None => None
    case Some((body, rest)) =>
      match read(body)
      case Connected => Some(rest)
      case Waiting =>
        (match FirstFrame(rest)
         case None => None
         case Some((second, raw)) => if read(second) == Connected then Some(raw) else None)
      case _ => None
  }

  ghost predicate AtOnce(s: Bytes, read: Bytes -> Status, raw: Bytes, body: Bytes) {
    Sendable(body) && read(body) == Connected && s == Frame(body) + raw
  }

  ghost predicate AfterWaiting(s: Bytes, read: Bytes -> Status, raw: Bytes, first: Bytes, second: Bytes) {
    && Sendable(first) && Sendable(second) && read(first) == Waiting && read(second) == Connected
    && s == Frame(first) + (Frame(second) + raw)
  }

  lemma TunnelFound(s: Bytes, read: Bytes -> Status, raw: Bytes)
    requires Tunnel(s, read) == Some(raw)
    ensures (exists body :: AtOnce(s, read, raw, body)) ||
            (exists first, second :: AfterWaiting(s, read, raw, first, second))
  {
    var (body, rest) := FirstFrame(s).value;
    FrameIsExact(s, body, rest);
    if read(body) == Waiting {
      var (second, _) := FirstFrame(rest).value;
      FrameIsExact(rest, second, raw);
      assert AfterWaiting(s, read, raw, body, second);
    } else {
      assert AtOnce(s, read, raw, body);
    }
  }

  lemma TunnelAfterWaiting(s: Bytes, read: Bytes -> Status, raw: Bytes, first: Bytes, second: Bytes)
    requires AfterWaiting(s, read, raw, first, second)
    ensures Tunnel(s, read) == Some(raw)
  {
    FrameIsExact(s, first, Frame(second) + raw);
    FrameIsExact(Frame(second) + raw, second, raw);
  }

  /** Main result: the handshake succeeds on exactly these bytes, and the tunnel is exactly what follows them. */
  lemma TunnelIff(s: Bytes, read: Bytes -> Status, raw: Bytes)
    ensures Tunnel(s, read) == Some(raw) <==>
              || (exists body :: AtOnce(s, read, raw, body))
              || (exists first, second :: AfterWaiting(s, read, raw, first, second))
  {
    if body :| AtOnce(s, read, raw, body) {
      FrameIsExact(s, body, raw);
    }
    if first, second :| AfterWaiting(s, read, raw, first, second) {
      TunnelAfterWaiting(s, read, raw, first, second);
    }
    if Tunnel(s, read) == Some(raw) {
      TunnelFound(s, read, raw);
    }
  }

  method OpenBridge(relay: Incoming, out: Outgoing, hello: Bytes, read: Bytes -> Status) returns (ok: bool)
    requires Sendable(hello)
    modifies relay, out
    ensures out.written == old(out.written) + Frame(hello)
    ensures ok <==> Tunnel(old(relay.pending), read).Some?
    ensures ok ==> relay.pending == Tunnel(old(relay.pending), read).value && out.closed == old(out.closed)
    ensures !ok ==> out.closed
  {
    SendFrame(out, hello);
    var resp := RecvFrame(relay);
    if resp.None? {
      out.closed := true;
      return false;
    }
    var status := read(resp.value);
    if status == Error {
      out.closed := true;
      return false;
    }
    if status == Waiting {
      resp := RecvFrame(relay);
      if resp.None? {
        out.closed := true;
        return false;
      }
      status := read(resp.value);
    }
    if status != Connected {
      out.closed := true;
      return false;
    }
    ok := true;
  }

  /** The bytes the relay puts on the wire for what it writes. */
  function Wire(j: Json, out: seq<Item>): Bytes
    requires Sendable(j.waiting) && Sendable(j.connected) && Sendable(j.refused)
  {
    if out == [] then [] else
      (match out[0]
       case WaitingFrame => Frame(j.waiting)
       case ConnectedFrame => Frame(j.connected)
       case CapacityFrame => Frame(j.refused)
       case Raw(chunk) => chunk) + Wire(j, out[1..])
  }

  lemma {:induction false} RawWire(j: Json, out: seq<Item>)
    requires Faithful(j) && Raws(out)
    ensures Wire(j, out) == RawBytes(out)
  {
    if out != [] {
      RawWire(j, out[1..]);
    }
  }

  lemma ConnectedFirst(j: Json, raw: seq<Item>)
    requires Faithful(j) && Raws(raw)
    ensures var out := [ConnectedFrame] + raw;
            && FirstFrame(Wire(j, out)) == Some((j.connected, RawBytes(raw)))
            && RawBytes(out) == RawBytes(raw)
  {
    var out := [ConnectedFrame] + raw;
    assert out[1..] == raw;
    RawWire(j, raw);
    FrameIsExact(Wire(j, out), j.connected, RawBytes(raw));
  }

  lemma WaitingFirst(j: Json, rest: seq<Item>)
    requires Faithful(j)
    ensures var out := [WaitingFrame] + rest;
            FirstFrame(Wire(j, out)) == Some((j.waiting, Wire(j, rest))) && RawBytes(out) == RawBytes(rest)
  {
    var out := [WaitingFrame] + rest;
    assert out[1..] == rest;
    FrameIsExact(Wire(j, out), j.waiting, Wire(j, rest));
  }

  lemma RefusedFirst(j: Json)
    requires Faithful(j)
    ensures FirstFrame(Wire(j, [CapacityFrame])) == Some((j.refused, []))
  {
    assert [CapacityFrame][1..] == [];
    FrameIsExact(Wire(j, [CapacityFrame]), j.refused, []);
  }

  lemma ConnectorHandshake(j: Json, raw: seq<Item>)
    requires Faithful(j) && Raws(raw)
    ensures var out := [ConnectedFrame] + raw; Tunnel(Wire(j, out), j.read) == Some(RawBytes(out))
  {
    ConnectedFirst(j, raw);
  }

  lemma WaiterHandshake(j: Json, raw: seq<Item>)
    requires Faithful(j) && Raws(raw)
    ensures var out := [WaitingFrame, ConnectedFrame] + raw; Tunnel(Wire(j, out), j.read) == Some(RawBytes(out))
  {
    assert [WaitingFrame, ConnectedFrame] + raw == [WaitingFrame] + ([ConnectedFrame] + raw);
    ConnectedFirst(j, raw);
    WaitingFirst(j, [ConnectedFrame] + raw);
  }

  lemma NoHandshake(j: Json, out: seq<Item>)
    requires Faithful(j) && (out == [] || out == [WaitingFrame] || out == [CapacityFrame])
    ensures Tunnel(Wire(j, out), j.read) == None
  {
    if out == [CapacityFrame] {
      RefusedFirst(j);
    } else if out == [WaitingFrame] {
      WaitingFirst(j, []);
      assert [WaitingFrame] + [] == out;
    }
  }

  /**
   Main result: whatever the relay has written to a connection in any reachable state, the
   daemon gets through the handshake exactly when it was told "connected", and its pipe then
   starts at the first byte the partner sent.
   */
  lemma HandshakeMeetsRelay(j: Json, p: Pool, id: nat)
    requires Faithful(j) && Reachable(p) && id in p.conns
    ensures var out := p.conns[id].out;
            Tunnel(Wire(j, out), j.read) == if ConnectedFrame in out then Some(RawBytes(out)) else None
  {
    OutputShape(p, id);
    ShapedHandshake(j, p.conns[id].out);
  }

  ghost predicate Shaped(out: seq<Item>) {
    || out == [] || out == [WaitingFrame] || out == [CapacityFrame]
    || exists raw :: Raws(raw) && (out == [WaitingFrame, ConnectedFrame] + raw || out == [ConnectedFrame] + raw)
  }

  lemma ShapedHandshake(j: Json, out: seq<Item>)
    requires Faithful(j) && Shaped(out)
    ensures Tunnel(Wire(j, out), j.read) == if ConnectedFrame in out then Some(RawBytes(out)) else None
  {
    if out == [] || out == [WaitingFrame] || out == [CapacityFrame] {
      NoHandshake(j, out);
    } else {
      var raw :| Raws(raw) && (out == [WaitingFrame, ConnectedFrame] + raw || out == [ConnectedFrame] + raw);
      if out == [ConnectedFrame] + raw {
        ConnectorHandshake(j, raw);
        assert out[0] == ConnectedFrame;
      } else {
        WaiterHandshake(j, raw);
        assert out[1] == ConnectedFrame;
      }
    }
  }

  /** Bytes that arrive later are only added to the tunnel. */
  lemma TunnelStable(s: Bytes, more: Bytes, read: Bytes -> Status)
    requires Tunnel(s, read).Some?
    ensures Tunnel(s + more, read) == Some(Tunnel(s, read).value + more)
  {
    FrameStable(s, more);
    var (body, rest) := FirstFrame(s).value;
    if read(body) == Waiting {
      FrameStable(rest, more);
    }
  }

  /** The two ends of a pair. */
  ghost predicate Partners(p: Pool, x: nat, y: nat) {
    HandedTo(p, x, y) || HandedTo(p, y, x)
  }

  /**
   Main result: whatever part of the relay's output has arrived, what a daemon finds behind
   the handshake is a prefix of what its partner sent after its own hello.
   */
  lemma TunnelShowsPartner(j: Json, p: Pool, id: nat, partner: nat, seen: Bytes)
    requires Faithful(j) && Reachable(p) && Partners(p, id, partner) && id in p.conns && partner in p.conns
    requires seen <= Wire(j, p.conns[id].out) && Tunnel(seen, j.read).Some?
    ensures ConnectedFrame in p.conns[id].out
    ensures Tunnel(seen, j.read).value <= RawBytes(p.conns[id].out) <= p.conns[partner].input
  {
    var wire := Wire(j, p.conns[id].out);
    HandshakeMeetsRelay(j, p, id);
    TunnelStable(seen, wire[|seen|..], j.read);
    assert seen + wire[|seen|..] == wire;
    if HandedTo(p, id, partner) {
      RawBytesAreThePartners(p, id, partner);
    } else {
      RawBytesAreThePartners(p, partner, id);
    }
  }

  // ----- one pipe ------------------------------------------------------------------------------------

  /** Copies to the end of file, or until the write after `fault` chunks fails; closes the writer either way. */
  method Pipe(reader: Incoming, writer: Outgoing, arrivals: nat -> nat, fault: Option<nat>)
    modifies reader, writer
    ensures writer.closed
    ensures old(writer.written) <= writer.written <= old(writer.written) + old(reader.pending)
    ensures fault.None? ==> writer.written == old(writer.written) + old(reader.pending) && reader.pending == []
  {
    var chunks := 0;
    while true
      invariant writer.written + reader.pending == old(writer.written) + old(reader.pending)
      invariant old(writer.written) <= writer.written
      decreases |reader.pending|
    {
      var data := reader.ReadSome(CHUNK, arrivals(chunks));
      if data == [] {
        break;
      }
      if fault == Some(chunks) {
        break;
      }
      writer.written := writer.written + data;
      chunks := chunks + 1;
    }
    writer.closed := true;
  }
}
