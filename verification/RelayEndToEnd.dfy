/** What two applications joined through the relay get of each other's bytes, from end to end. */
module RelayEndToEnd {
  import opened Wrappers
  import opened Utf8
  import opened RelaySession
  import P = RelayPool
  import S = RelayStream
  import C = RelayChain
  import RelayClosing

  lemma PassedPrefixes(f: C.Flow)
    requires C.Formed(f) && C.Conserved(f) && C.Pipes(f) == NODES
    ensures f.got <= C.Passed(f, 3) <= C.Passed(f, 2) <= C.Passed(f, 1) <= f.sent
  {
    C.PassedEnds(f);
    C.PassedOn(f, 0);
    C.PassedOn(f, 1);
    C.PassedOn(f, 2);
  }

  /**
   Main result, from application to application, in every reachable state and in either
   direction. The relay, reading after the sender's hello, finds exactly what the sender's
   daemon wrote there; the receiver's daemon, reading after the status frames, finds exactly
   what the relay moved; what the receiving application has is a prefix of all of these and of
   what the sending one wrote; and at a clean end of file it is all of it exactly when no
   socket was closed under this direction with bytes still behind it.
   */
  lemma EndToEnd(j: S.Json, hello: Bytes, s: Session, c: nat, back: bool)
    requires S.Faithful(j) && S.Sendable(hello) && Reached(s) && c in s.lines
    ensures Formed(s)
    ensures var f := C.Side(s.lines[c], back);
            var x, y := s.pool.conns[Sender(s, c, back)], s.pool.conns[Receiver(s, c, back)];
            && S.FirstFrame(S.Frame(hello) + C.Passed(f, 1)) == Some((hello, x.input))
            && (S.Tunnel(S.Wire(j, y.out), j.read) ==
                  if P.ConnectedFrame in y.out then Some(C.Passed(f, 2)) else None)
            && f.got <= C.Passed(f, 3) <= C.Passed(f, 2) <= x.input <= f.sent
            && (RelayClosing.AtEof(f) && RelayClosing.NoFailure(f) ==>
                  (f.got == f.sent <==> RelayClosing.CutsWereClean(f)))
  {
    var max, es :| IsRun(Start(max), es, s);
    assert P.Start(max) == P.Run(P.Start(max), []);
    RunKeepsInv(Start(max), es, s);
    var f := C.Side(s.lines[c], back);
    var y := Receiver(s, c, back);
    assert TiedAt(s, c, back);
    S.FrameIsExact(S.Frame(hello) + C.Passed(f, 1), hello, C.Passed(f, 1));
    S.HandshakeMeetsRelay(j, s.pool, y);
    PassedPrefixes(f);
    if RelayClosing.AtEof(f) && RelayClosing.NoFailure(f) {
      RelayClosing.EofIff(f);
    }
  }
}
