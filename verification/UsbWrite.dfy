/**
 UsbPrinterPlugin.kt: the chunked write to a USB receipt printer.
 */
module UsbWrite {
  import opened Prelude

  type byte = b: int | 0 <= b < 256

  const CHUNK_BYTES := 16 * 1024

  /** A whole number of packets, close to 16 KB. */
  function ChunkSizeFor(maxPacketSize: int): (size: int)
    ensures var packet := if maxPacketSize > 0 then maxPacketSize else 64;
      && size > 0 && size % packet == 0
      && (packet <= 16384 ==> 16384 - packet < size <= 16384)
      && (packet > 16384 ==> size == packet)
  {
    var packet := if maxPacketSize > 0 then maxPacketSize else 64;
    WholePackets(packet);
    var whole := (CHUNK_BYTES / packet) * packet;
    if packet >= whole then packet else whole
  }

  lemma WholePackets(packet: int)
    requires packet > 0
    ensures var whole := (CHUNK_BYTES / packet) * packet;
      && whole % packet == 0 && packet % packet == 0
      && CHUNK_BYTES - packet < whole <= CHUNK_BYTES
      && (packet <= CHUNK_BYTES ==> packet <= whole)
      && (packet > CHUNK_BYTES ==> whole == 0)
  {
    var q := CHUNK_BYTES / packet;
    MultipleMod(q, packet);
    MultipleMod(1, packet);
    if packet <= CHUNK_BYTES {
      assert q >= 1;
    } else {
      assert q == 0;
    }
  }

  lemma {:induction false} MultipleMod(q: nat, packet: int)
    requires packet > 0
    ensures (q * packet) % packet == 0
    decreases q
  {
    if q > 0 {
      MultipleMod(q - 1, packet);
      assert q * packet == (q - 1) * packet + packet;
      AddPacket((q - 1) * packet, packet);
    }
  }

  lemma AddPacket(x: int, packet: int)
    requires packet > 0
    ensures (x + packet) % packet == x % packet
  {
    var q, r := x / packet, x % packet;
    assert x + packet == (q + 1) * packet + r;
    ModOf(x + packet, q + 1, r, packet);
  }

  lemma ModOf(x: int, q: int, r: int, packet: int)
    requires packet > 0 && x == q * packet + r && 0 <= r < packet
    ensures x % packet == r
  {
    var d := x / packet - q;
    assert d * packet == r - x % packet;
    MulAway(d, packet);
  }

  lemma MulAway(d: int, packet: int)
    requires packet > 0
    ensures d >= 1 ==> d * packet >= packet
    ensures d <= -1 ==> d * packet <= -packet
  {
  }

  /** The gates in front of the transfer: what must be there before a byte is sent. */
  datatype Gates = Gates(
    manager: bool, device: bool, permission: bool, interface_: bool, endpoint: bool, opens: bool, claims: bool)
  {
    predicate Open() { manager && device && permission && interface_ && endpoint && opens && claims }
  }

  /** One bulk transfer: what was offered from where, and how much of it was accepted. */
  datatype Transfer = Transfer(offset: nat, length: nat, sent: int)

  /**
   The protocol. Each transfer starts where the accepted bytes end and offers a whole
   chunk or all that is left; a short one is carried on from, and only one that accepts
   nothing ends the write early.
   */
  ghost predicate InSequence(log: seq<Transfer>, size: nat, chunk: int, accepted: nat) {
    && (forall k :: 0 <= k < |log| ==>
          && log[k].offset < size
          && log[k].length == (if chunk <= size - log[k].offset then chunk else size - log[k].offset))
    && (forall k :: 0 <= k < |log| - 1 ==> log[k].sent > 0 && log[k + 1].offset == log[k].offset + log[k].sent)
    && (log == [] ==> accepted == 0)
    && (log != [] ==>
          var last := log[|log| - 1];
          log[0].offset == 0 && accepted == last.offset + (if last.sent > 0 then last.sent else 0))
  }

  /** Every transfer accepted all it was given. */
  ghost predicate AllFull(log: seq<Transfer>) { forall k :: 0 <= k < |log| ==> log[k].sent == log[k].length }

  ghost predicate LastFailed(log: seq<Transfer>) { log != [] && log[|log| - 1].sent <= 0 }

  /**
   The opened device. Its k-th transfer of a given length accepts `reply(k, length)`
   bytes, zero or less meaning failure; a driver never accepts more than it was given.
   */
  class Connection {
    const reply: (nat, nat) -> int
    var wire: seq<byte>       // what the printer has accepted
    var transfers: nat
    ghost var log: seq<Transfer>
    var claimed: bool
    var open: bool

    ghost predicate Honest() {
      forall k: nat, n: nat :: reply(k, n) <= n
    }

    constructor (reply: (nat, nat) -> int)
      ensures this.reply == reply && wire == [] && transfers == 0 && log == [] && !open && !claimed
    {
      this.reply := reply;
      wire, transfers, log, open, claimed := [], 0, [], false, false;
    }

    method BulkTransfer(bytes: seq<byte>, offset: nat, length: nat) returns (sent: int)
      requires open && claimed && offset + length <= |bytes| && Honest()
      modifies this`wire, this`transfers, this`log
      ensures sent == reply(old(transfers), length) && transfers == old(transfers) + 1
      ensures wire == old(wire) + (if sent > 0 then bytes[offset..offset + sent] else [])
      ensures log == old(log) + [Transfer(offset, length, sent)]
    {
      sent := reply(transfers, length);
      if sent > 0 { wire := wire + bytes[offset..offset + sent]; }
      transfers := transfers + 1;
      log := log + [Transfer(offset, length, sent)];
    }
  }

  /** Offsets that follow full transfers only stay at packet boundaries. */
  lemma StaysAligned(offset: int, chunk: int, packet: int)
    requires packet > 0 && offset % packet == 0 && chunk % packet == 0
    ensures (offset + chunk) % packet == 0
  {
    var a, b := offset / packet, chunk / packet;
    assert offset + chunk == (a + b) * packet;
    ModOf(offset + chunk, a + b, 0, packet);
  }

  /**
   `write`. What the printer has is always a prefix of the bytes; the answer is
   true exactly when the gates are open and the prefix is everything, and behind a
   closed gate nothing is sent; the transfers follow the protocol; while every
   transfer is full, all but the last start and end on a packet boundary; and the
   interface is released and the connection closed whatever happened.
   */
  method Write(gates: Gates, bytes: Option<seq<byte>>, maxPacketSize: int, connection: Connection) returns (ok: bool)
    requires connection.Honest() && connection.wire == [] && connection.log == []
    requires !connection.open && !connection.claimed
    modifies connection
    ensures bytes.None? || !gates.Open() ==> !ok && connection.wire == [] && connection.log == []
    ensures bytes.Some? ==> connection.wire <= bytes.value
    ensures bytes.Some? ==> (ok <==> gates.Open() && connection.wire == bytes.value)
    ensures bytes.Some? && gates.Open() && AllFull(connection.log) ==>
              ok || |connection.wire| % (if maxPacketSize > 0 then maxPacketSize else 64) == 0
    ensures bytes.Some? && gates.Open() ==>
              && InSequence(connection.log, |bytes.value|, ChunkSizeFor(maxPacketSize), |connection.wire|)
              && (!ok <==> LastFailed(connection.log))
    ensures !connection.open && !connection.claimed
  {
    if !gates.manager || bytes.None? || !gates.device || !gates.permission
       || !gates.interface_ || !gates.endpoint || !gates.opens {
      return false;
    }
    connection.open := true;
    if !gates.claims {
      connection.open := false;
      return false;
    }
    connection.claimed := true;
    ok := Send(bytes.value, ChunkSizeFor(maxPacketSize), connection);
    if AllFull(connection.log) {
      FullStaysAligned(connection.log, |bytes.value|, ChunkSizeFor(maxPacketSize), |connection.wire|,
        if maxPacketSize > 0 then maxPacketSize else 64);
    }
    connection.claimed := false;
    connection.open := false;
  }

  lemma NextInSequence(log: seq<Transfer>, size: nat, chunk: int, accepted: nat, t: Transfer)
    requires InSequence(log, size, chunk, accepted) && !LastFailed(log) && accepted < size
    requires t.offset == accepted && t.length == (if chunk <= size - accepted then chunk else size - accepted)
    ensures InSequence(log + [t], size, chunk, accepted + if t.sent > 0 then t.sent else 0)
    ensures LastFailed(log + [t]) <==> t.sent <= 0
  {
  }

  /** Full transfers end at packet boundaries, but for the one that completes the bytes. */
  lemma {:induction false} FullStaysAligned(log: seq<Transfer>, size: nat, chunk: int, accepted: nat, packet: int)
    requires InSequence(log, size, chunk, accepted) && AllFull(log)
    requires packet > 0 && chunk > 0 && chunk % packet == 0
    ensures accepted == size || accepted % packet == 0
    decreases |log|
  {
    if log != [] {
      var front, last := log[..|log| - 1], log[|log| - 1];
      if front != [] {
        assert front[|front| - 1] == log[|log| - 2];
      }
      FullStaysAligned(front, size, chunk, last.offset, packet);
      if accepted != size {
        StaysAligned(last.offset, chunk, packet);
      }
    }
  }

  /** One turn of the loop: a whole chunk is offered, or all that is left. */
  method OfferNext(bytes: seq<byte>, offset: nat, chunkSize: int, connection: Connection) returns (sent: int)
    requires chunkSize > 0 && connection.open && connection.claimed && connection.Honest()
    requires offset < |bytes| && connection.wire == bytes[..offset]
    requires InSequence(connection.log, |bytes|, chunkSize, offset) && !LastFailed(connection.log)
    modifies connection`wire, connection`transfers, connection`log
    ensures sent <= |bytes| - offset
    ensures var reached := offset + if sent > 0 then sent else 0;
      connection.wire == bytes[..reached] && InSequence(connection.log, |bytes|, chunkSize, reached)
    ensures LastFailed(connection.log) <==> sent <= 0
  {
    var length := if chunkSize <= |bytes| - offset then chunkSize else |bytes| - offset;
    ghost var log := connection.log;
    sent := connection.BulkTransfer(bytes, offset, length);
    NextInSequence(log, |bytes|, chunkSize, offset, Transfer(offset, length, sent));
    if sent > 0 {
      assert bytes[..offset + sent] == bytes[..offset] + bytes[offset..offset + sent];
    }
  }

  /** The loop: transfers until everything is sent or one of them accepts nothing. */
  method Send(bytes: seq<byte>, chunkSize: int, connection: Connection) returns (ok: bool)
    requires chunkSize > 0 && connection.open && connection.claimed
    requires connection.Honest() && connection.wire == [] && connection.log == []
    modifies connection`wire, connection`transfers, connection`log
    ensures connection.wire <= bytes
    ensures ok <==> connection.wire == bytes
    ensures InSequence(connection.log, |bytes|, chunkSize, |connection.wire|)
    ensures !ok <==> LastFailed(connection.log)
  {
    var offset := 0;
    while offset < |bytes|
      invariant 0 <= offset <= |bytes| && connection.wire == bytes[..offset]
      invariant InSequence(connection.log, |bytes|, chunkSize, offset) && !LastFailed(connection.log)
    {
      var sent := OfferNext(bytes, offset, chunkSize, connection);
      if sent <= 0 {
        return false;
      }
      offset := offset + sent;
    }
    assert bytes[..|bytes|] == bytes;
    return true;
  }
}
