/** command_loop of main.c: peek, validate, dispatch, consume. */
module HostLoop {
  import opened Words
  import opened Protocol
  import opened Channel
  import opened ChannelTheorems
  import opened ChannelProgress
  import opened Ring

  /** One iteration. `idle` is the branch that sleeps; otherwise the command served, if the
      header validates, is `dispatched`. */
  method Iterate(ring: SharedRing, buf: array<byte>) returns (idle: bool, dispatched: seq<seq<byte>>)
    requires ring.Valid() && ring.config.kind.Commands?
    requires buf.Length == HOST_BUFFER && buf != ring.bytes
    modifies ring`head, ring`delivered, ring`taken, buf
    ensures ring.Valid()
    ensures idle <==> !PeekReady(old(ring.Contents()), HOST_BUFFER)
    ensures idle <==> |old(ring.Contents())| < 16 || Le32(old(ring.Contents()), 4) > |old(ring.Contents())|
                      || Le32(old(ring.Contents()), 4) > 65536
    ensures idle ==> dispatched == [] && ring.State() == old(ring.State())
    ensures !idle ==>
              && dispatched == Served(old(ring.Contents()))
              && ring.Contents() == old(ring.Contents())[CommandStep(old(ring.Contents()))..]
              && ring.delivered == old(ring.delivered) + dispatched
    ensures !idle ==> HEADER_SIZE <= |old(ring.Contents())| - |ring.Contents()|
    // a refused header alone is skipped; any other command is dispatched and consumed whole
    ensures !idle && (Le32(old(ring.Contents()), 4) < 16 || Le16(old(ring.Contents()), 0) >= 0x0B02) ==>
              dispatched == [] && ring.Contents() == old(ring.Contents())[16..]
    ensures !idle && Le32(old(ring.Contents()), 4) >= 16 && Le16(old(ring.Contents()), 0) < 0x0B02 ==>
              && Le32(old(ring.Contents()), 4) <= |old(ring.Contents())|
              && dispatched == [old(ring.Contents())[..Le32(old(ring.Contents()), 4)]]
              && ring.Contents() == old(ring.Contents())[Le32(old(ring.Contents()), 4)..]
  {
    ghost var u := ring.Contents();
    var ready := ring.CmdPeek(buf);
    if !ready {
      return true, [];
    }
    BufferedHeader(old(buf[..]), u);
    var hdr := ReadHeader(buf[..]);
    if !CmdValidate(hdr, HOST_BUFFER) {
      ring.CmdConsume(HEADER_SIZE);
      return false, [];
    }
    dispatched := [buf[..hdr.size]];
    ring.CmdConsume(hdr.size);
    idle := false;
  }

  /** The loop while the guest stays idle, up to the first poll that returns NULL. Unread
      bytes fall by at least a header each time round. When all the guest wrote was
      well-formed, it ends with the ring empty and room for every size cmd_write allows. */
  method DrainWhileGuestIdle(ring: SharedRing, buf: array<byte>)
    returns (dispatched: seq<seq<byte>>, iterations: nat)
    requires ring.Valid() && ring.config.kind.Commands?
    requires buf.Length == HOST_BUFFER && buf != ring.bytes
    modifies ring`head, ring`delivered, ring`taken, buf
    ensures ring.Valid()
    ensures Drain(old(ring.Contents())) == Drained(dispatched, ring.Contents(), iterations)
    ensures HEADER_SIZE * iterations + |ring.Contents()| <= |old(ring.Contents())|
    ensures ring.delivered == old(ring.delivered) + dispatched
    ensures (forall f :: f in ring.accepted ==> WellFormedCommand(f)) ==>
              && ring.delivered == ring.accepted
              && ring.Contents() == []
              && forall n :: 0 < n <= ring.config.size / 2 ==> WriteAccepted(ring.config, ring.State(), n)
  {
    hide Drain, Served, CommandStep, PeekReady, Inv, DispatchInv, WellFormedCommand, Unread, WriteAccepted;
    ghost var u := ring.Contents();
    dispatched, iterations := [], 0;
    while true
      invariant ring.Valid() && ring.config.kind.Commands?
      invariant Drain(u) == Then(Drained(dispatched, [], iterations), Drain(ring.Contents()))
      invariant ring.delivered == old(ring.delivered) + dispatched
      decreases |ring.Contents()|
    {
      ghost var before := ring.Contents();
      var idle, served := Iterate(ring, buf);
      if idle {
        DrainStops(before);
        DrainedIsEmpty(ring.config, ring.State());
        return;
      }
      OneMoreServed(dispatched, iterations, before);
      dispatched, iterations := dispatched + served, iterations + 1;
    }
  }

  /** One more iteration of a drain begun earlier. */
  lemma OneMoreServed(dispatched: seq<seq<byte>>, iterations: nat, u: seq<byte>)
    requires PeekReady(u, HOST_BUFFER)
    ensures Then(Drained(dispatched, [], iterations), Drain(u))
            == Then(Drained(dispatched + Served(u), [], iterations + 1), Drain(u[CommandStep(u)..]))
  {
    hide Drain, Served, CommandStep, PeekReady;
    DrainUnfold(u);
    var rest := Drain(u[CommandStep(u)..]).frames;
    assert dispatched + (Served(u) + rest) == (dispatched + Served(u)) + rest;
  }

  lemma DrainedIsEmpty(c: Config, s: Chan)
    requires Inv(c, s) && c.kind.Commands? && DispatchInv(s) && s.cons.Polling?
    requires !PeekReady(Unread(c, s), HOST_BUFFER)
    ensures (forall f :: f in s.accepted ==> WellFormedCommand(f)) ==>
              && s.delivered == s.accepted
              && Unread(c, s) == []
              && forall n :: 0 < n <= c.size / 2 ==> WriteAccepted(c, s, n)
  {
    hide Drain, Holds;
    UnreadIsStream(c, s);
    DistanceIsUnread(c, s);
    DrainStops(Unread(c, s));
    if forall f :: f in s.accepted ==> WellFormedCommand(f) {
      DrainWellFormed(s.accepted);
    }
  }
}
