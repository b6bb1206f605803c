/** The HLK2411S presence sensor: a loop that decodes 7-byte frames from a serial port and
    publishes motion and distance under a lock. Plain char is unsigned, as on the target. */
module Hlk2411s {
  import opened CTypes

  const FRAME: nat := 7
  const BUFFER: nat := 20

  datatype Reading = Reading(motion: Byte, distance: int)

  /** What one read of at most 7 bytes delivers; nothing on an error or without data. */
  type Chunk = c: seq<Byte> | |c| <= FRAME witness []

  function Padded(chunk: Chunk): seq<Byte> {
    chunk + seq(BUFFER - |chunk|, _ => 0)
  }

  /** The acceptance test of the loop, on the zeroed buffer. */
  predicate Accepts(buffer: seq<Byte>)
    requires |buffer| == BUFFER
  {
    buffer[0] == 0xAA && buffer[1] == 0xAA && buffer[5] == 0x55 && buffer[6] == 0x55
  }

  /** The frame format: header, motion, distance low byte first, trailer. */
  function Encode(motion: Byte, low: Byte, high: Byte): Chunk {
    [0xAA, 0xAA, motion, low, high, 0x55, 0x55]
  }

  /** The frames of the format. */
  predicate IsFrame(chunk: Chunk) {
    |chunk| == FRAME && chunk == Encode(chunk[2], chunk[3], chunk[4])
  }

  function Decode(chunk: Chunk): Reading
    requires IsFrame(chunk)
  {
    Reading(chunk[2], 256 * (chunk[4] as int) + chunk[3])
  }

  /** The reading of the most recent frame, zeros before the first one. */
  function Latest(chunks: seq<Chunk>): Reading {
    if chunks == [] then Reading(0, 0)
    else
      var last := chunks[|chunks| - 1];
      if IsFrame(last) then Decode(last) else Latest(chunks[..|chunks| - 1])
  }

  /** A short read is never accepted, whatever its bytes: the zeroed buffer lacks the trailer. */
  lemma OnlyFramesAccepted(chunk: Chunk)
    ensures Accepts(Padded(chunk)) <==> IsFrame(chunk)
    ensures IsFrame(chunk) <==>
      |chunk| == 7 && chunk[0] == 0xAA && chunk[1] == 0xAA && chunk[5] == 0x55 && chunk[6] == 0x55
  {
    if |chunk| == FRAME {
      var frame := Encode(chunk[2], chunk[3], chunk[4]);
      assert Padded(chunk)[..FRAME] == chunk;
      assert chunk == frame <==> forall i :: 0 <= i < FRAME ==> chunk[i] == frame[i];
    }
  }

  /** Encoding and decoding: every motion byte and 16-bit distance comes back. */
  lemma DecodeEncode(motion: Byte, distance: int)
    requires 0 <= distance < 0x1_0000
    ensures IsFrame(Encode(motion, distance % 256, distance / 256))
    ensures Encode(motion, distance % 256, distance / 256)
         == [0xAA, 0xAA, motion, distance % 256, distance / 256, 0x55, 0x55]
    ensures Decode(Encode(motion, distance % 256, distance / 256)) == Reading(motion, distance)
  {
  }

  class Hlk {
    var motion: Byte
    var distance: int

    function View(): Reading
      reads this
    {
      Reading(motion, distance)
    }

    constructor ()
      ensures View() == Reading(0, 0)
    {
      motion, distance := 0, 0;
    }

    /** The decoder loop over any sequence of reads. */
    method Loop(chunks: seq<Chunk>)
      requires View() == Reading(0, 0)
      modifies this
      ensures View() == Latest(chunks)
    {
      var buffer := new Byte[BUFFER](_ => 0);
      var i := 0;
      while i < |chunks|
        invariant 0 <= i <= |chunks|
        invariant buffer.Length == BUFFER && fresh(buffer)
        invariant View() == Latest(chunks[..i])
      {
        var chunk := chunks[i];
        forall j | 0 <= j < BUFFER {
          buffer[j] := 0;
        }
        forall j | 0 <= j < |chunk| {
          buffer[j] := chunk[j];
        }
        assert buffer[..] == Padded(chunk);
        OnlyFramesAccepted(chunk);
        assert chunks[..i + 1][..i] == chunks[..i];
        if |chunk| > 0 {
          if buffer[0] == 0xAA && buffer[1] == 0xAA && buffer[5] == 0x55 && buffer[6] == 0x55 {
            motion := buffer[2];
            distance := 256 * (buffer[4] as int) + buffer[3];
          }
        }
        i := i + 1;
      }
      assert chunks[..i] == chunks;
    }
  }

  // ---- What a client sees ----

  /** A client takes the lock twice: motion after some reads, distance after some more. */
  function ClientReads(before: seq<Chunk>, between: seq<Chunk>): Reading {
    Reading(Latest(before).motion, Latest(before + between).distance)
  }

  /** The readings of the frames among some reads, in order. */
  function Readings(chunks: seq<Chunk>): seq<Reading> {
    if chunks == [] then []
    else
      var last := chunks[|chunks| - 1];
      Readings(chunks[..|chunks| - 1]) + (if IsFrame(last) then [Decode(last)] else [])
  }

  lemma {:induction false} LatestIsLastReading(before: seq<Chunk>, between: seq<Chunk>)
    ensures Latest(before + between)
         == if Readings(between) == [] then Latest(before) else Readings(between)[|Readings(between)| - 1]
  {
    if between == [] {
      assert before + between == before;
    } else {
      var n := |between| - 1;
      var all := before + between;
      assert all[|all| - 1] == between[n];
      assert all[..|all| - 1] == before + between[..n];
      LatestIsLastReading(before, between[..n]);
    }
  }

  /** The reading was the published one at some moment of the window. */
  ghost predicate Published(before: seq<Chunk>, between: seq<Chunk>, r: Reading) {
    exists i :: 0 <= i <= |between| && Latest(before + between[..i]) == r
  }

  lemma {:induction false} PublishedReadings(before: seq<Chunk>, between: seq<Chunk>, r: Reading)
    ensures Published(before, between, r) <==> r == Latest(before) || r in Readings(between)
  {
    if between == [] {
      assert before + between[..0] == before;
    } else {
      var n := |between| - 1;
      var init := between[..n];
      PublishedReadings(before, init, r);
      LatestIsLastReading(before, between);
      hide IsFrame, Decode, Latest;
      PublishedGrows(before, init, between[n], r);
      assert init + [between[n]] == between;
      LatestIsLastReading(before, init);
    }
  }

  lemma PublishedGrows(before: seq<Chunk>, init: seq<Chunk>, last: Chunk, r: Reading)
    ensures Published(before, init + [last], r) <==> Published(before, init, r) || r == Latest(before + (init + [last]))
  {
    hide Latest;
    var all, n := init + [last], |init|;
    assert all[..n + 1] == all;
    assert forall i :: 0 <= i <= n ==> all[..i] == init[..i];
    if Published(before, init, r) {
      var i :| 0 <= i <= n && Latest(before + init[..i]) == r;
      assert Latest(before + all[..i]) == r;
    }
    if Published(before, all, r) {
      var i :| 0 <= i <= n + 1 && Latest(before + all[..i]) == r;
      assert i <= n ==> Latest(before + init[..i]) == r;
    }
  }

  /** Exactly when a pair read in two locked calls was published as a pair at some moment
      between them: iff no frame came in between, or the last one that did has the distance
      already published, or some frame carries the old motion with the last distance. */
  lemma ClientPair(before: seq<Chunk>, between: seq<Chunk>)
    ensures var held, came := Latest(before), Readings(between);
      Published(before, between, ClientReads(before, between))
      <==> came == [] || came[|came| - 1].distance == held.distance
           || Reading(held.motion, came[|came| - 1].distance) in came
  {
    LatestIsLastReading(before, between);
    PublishedReadings(before, between, ClientReads(before, between));
  }

  /** A frame arriving in between can give the client a pair that was never published. */
  lemma ClientPairCanTear(m1: Byte, m2: Byte, d1: int, d2: int)
    requires m1 != m2 && 0 <= d1 < 0x1_0000 && 0 <= d2 < 0x1_0000 && d1 != d2
    requires Reading(m1, d2) != Reading(0, 0)
    ensures var first, second := Encode(m1, d1 % 256, d1 / 256), Encode(m2, d2 % 256, d2 / 256);
      && ClientReads([first], [second]) == Reading(m1, d2)
      && (forall n :: 0 <= n <= 2 ==> Latest([first, second][..n]) != Reading(m1, d2))
  {
    DecodeEncode(m1, d1);
    DecodeEncode(m2, d2);
    var first, second := Encode(m1, d1 % 256, d1 / 256), Encode(m2, d2 % 256, d2 / 256);
    var both := [first, second];
    assert [first] + [second] == both;
    assert both[..0] == [] && both[..1] == [first] && both[..2] == both;
    assert Latest(both[..0]) == Reading(0, 0);
    assert Latest(both[..1]) == Reading(m1, d1);
    assert Latest(both[..2]) == Reading(m2, d2);
  }
}
