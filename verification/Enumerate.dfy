/**
 Device enumeration end to end: the server packs device_description structs behind a 16-byte head
 (linux-server.cpp), the client's callback stores the packet and bindy_enumerate_specify_adapter crops
 the head and hands the rest to its caller (wrapper.cpp).
 */
module Enumerate {
  import opened Options
  import opened Codec

  // ---------------------------------------------------------------- packed structs

  /** A packed struct is its fields back to back; `lens` are the field sizes. */
  ghost predicate Fits(fields: seq<Bytes>, lens: seq<nat>) {
    |fields| == |lens| && forall i :: 0 <= i < |fields| ==> |fields[i]| == lens[i]
  }

  function Total(lens: seq<nat>): nat {
    if lens == [] then 0 else lens[0] + Total(lens[1..])
  }

  function Pack(fields: seq<Bytes>): Bytes {
    if fields == [] then [] else fields[0] + Pack(fields[1..])
  }

  /** Cutting a memory image into fields of the given sizes. */
  function Unpack(image: Bytes, lens: seq<nat>): seq<Bytes>
    requires |image| == Total(lens)
    decreases |lens|
  {
    if lens == [] then [] else [image[..lens[0]]] + Unpack(image[lens[0]..], lens[1..])
  }

  lemma {:induction false} PackFits(fields: seq<Bytes>, lens: seq<nat>)
    requires Fits(fields, lens)
    ensures |Pack(fields)| == Total(lens)
    ensures Unpack(Pack(fields), lens) == fields
    decreases |fields|
  {
    if fields != [] {
      PackFits(fields[1..], lens[1..]);
      assert Pack(fields)[lens[0]..] == Pack(fields[1..]);
      assert Pack(fields)[..lens[0]] == fields[0];
    }
  }

  // ---------------------------------------------------------------- device_description

  /** Field sizes of my_device_information_t, my_controller_name_t, my_stage_name_t and device_description. */
  const INFORMATION: seq<nat> := [4, 2, 8] + [1, 1, 2] + [12]
  const CONTROLLER: seq<nat> := [16, 1, 7]
  const STAGE: seq<nat> := [16, 8]
  const REST: seq<nat> := [4, 4, 16] + [4, 16, 16] + [8, 30]
  const LENS: seq<nat> := [4] + INFORMATION + CONTROLLER + STAGE + REST

  /** sizeof(device_description). */
  const DESCRIPTION_SIZE := 180

  /** A device_description: its fields in declaration order, integers as their memory image. */
  ghost predicate IsDescription(d: seq<Bytes>) { Fits(d, LENS) }

  lemma TotalConcat(a: seq<nat>, b: seq<nat>)
    ensures Total(a + b) == Total(a) + Total(b)
  {
    if a == [] {
      assert a + b == b;
    } else {
      assert (a + b)[1..] == a[1..] + b;
      TotalConcat(a[1..], b);
    }
  }

  lemma LensTotal()
    ensures Total(LENS) == DESCRIPTION_SIZE
  {
    TotalConcat([4, 2, 8] + [1, 1, 2], [12]);
    TotalConcat([4, 2, 8], [1, 1, 2]);
    assert Total(INFORMATION) == 30;
    TotalConcat([4, 4, 16] + [4, 16, 16], [8, 30]);
    TotalConcat([4, 4, 16], [4, 16, 16]);
    assert Total(REST) == 98;
    TotalConcat([4] + INFORMATION + CONTROLLER + STAGE, REST);
    TotalConcat([4] + INFORMATION + CONTROLLER, STAGE);
    TotalConcat([4] + INFORMATION, CONTROLLER);
    TotalConcat([4], INFORMATION);
  }

  /** The array of structs as it lies in memory: what write_bytes copies behind the head. */
  function Images(ds: seq<seq<Bytes>>): Bytes {
    if ds == [] then [] else Pack(ds[0]) + Images(ds[1..])
  }

  /** Reading `n` structs out of a buffer, as the caller of bindy_enumerate does. */
  function Structs(buf: Bytes, n: nat): seq<seq<Bytes>>
    requires |buf| == DESCRIPTION_SIZE * n
    decreases n
  {
    LensTotal();
    if n == 0 then [] else [Unpack(buf[..DESCRIPTION_SIZE], LENS)] + Structs(buf[DESCRIPTION_SIZE..], n - 1)
  }

  /** Every list of structs survives serialization, at 180 bytes each. */
  lemma {:induction false} ImagesRoundTrip(ds: seq<seq<Bytes>>)
    requires forall d <- ds :: IsDescription(d)
    ensures |Images(ds)| == DESCRIPTION_SIZE * |ds|
    ensures Structs(Images(ds), |ds|) == ds
    decreases |ds|
  {
    LensTotal();
    if ds != [] {
      assert IsDescription(ds[0]);
      PackFits(ds[0], LENS);
      ImagesRoundTrip(ds[1..]);
      assert Images(ds)[..DESCRIPTION_SIZE] == Pack(ds[0]);
      assert Images(ds)[DESCRIPTION_SIZE..] == Images(ds[1..]);
    }
  }

  // ---------------------------------------------------------------- the three steps

  /** The answer carries the count, narrowed from size_t to 32 bits, and the struct array. */
  function AnswerPacket(descriptions: seq<seq<Bytes>>): Packet {
    Layout(ENUMERATE_ANSWER, |descriptions| % 0x1_0000_0000, Images(descriptions))
  }

  /** DataPacket<EnumerateAnswer>: the head is filled in, then the structs are copied behind it. */
  method EncodeEnumerateAnswer(descriptions: seq<seq<Bytes>>) returns (reply: Packet)
    requires forall d <- descriptions :: IsDescription(d)
    ensures reply == AnswerPacket(descriptions)
  {
    ImagesRoundTrip(descriptions);
    reply := FillHead(ENUMERATE_HEAD + DESCRIPTION_SIZE * |descriptions|, ENUMERATE_ANSWER,
                      |descriptions| % 0x1_0000_0000);
    if |descriptions| > 0 {
      reply := Overwrite(reply, ENUMERATE_HEAD, Images(descriptions));
    }
  }

  /** The end of bindy_enumerate_specify_adapter on a stored packet: the count reported and the buffer handed out. */
  method CropHead(stored: Packet) returns (devices: UInt32, buf: Option<Bytes>)
    ensures |stored| < ENUMERATE_HEAD ==> devices == 0 && buf == None
    ensures |stored| >= ENUMERATE_HEAD ==> devices == ReadWord(stored, 12) && buf == Some(stored[ENUMERATE_HEAD..])
    ensures Delivers(stored, devices, buf)
  {
    devices, buf := 0, None;
    if |stored| >= ENUMERATE_HEAD {
      devices := ReadWord(stored, 12);
      buf := Some(stored[ENUMERATE_HEAD..]);
    }
    forall descriptions | IsAnswerTo(stored, descriptions) ensures Carries(devices, buf, descriptions) {
      EnumerateEndToEnd(descriptions, stored);
    }
  }

  /** `stored` is the server's answer listing these devices. */
  ghost predicate IsAnswerTo(stored: Packet, descriptions: seq<seq<Bytes>>) {
    (forall d <- descriptions :: IsDescription(d)) && stored == AnswerPacket(descriptions)
  }

  /** Count and buffer say what the list says: its length, 180 bytes per device, and the very same structs. */
  ghost predicate Carries(devices: UInt32, buf: Option<Bytes>, descriptions: seq<seq<Bytes>>) {
    && devices == |descriptions| % 0x1_0000_0000
    && buf.Some? && |buf.value| == DESCRIPTION_SIZE * |descriptions|
    && Structs(buf.value, |descriptions|) == descriptions
  }

  /** Whatever list the packet answers with is what is handed out. */
  ghost predicate Delivers(stored: Packet, devices: UInt32, buf: Option<Bytes>) {
    forall descriptions :: IsAnswerTo(stored, descriptions) ==> Carries(devices, buf, descriptions)
  }

  /**
   Whatever the server enumerates, the client's dispatcher recovers the packet whole, and what CropHead takes
   from it is the list: the count is the list's length, the buffer holds 180 bytes per device and reads back
   as the very same structs.
   */
  lemma EnumerateEndToEnd(descriptions: seq<seq<Bytes>>, stored: Packet)
    requires IsAnswerTo(stored, descriptions)
    ensures ClientView(stored) == EnumerateAnswer(stored) && |stored| >= ENUMERATE_HEAD
    ensures Carries(ReadWord(stored, 12), Some(stored[ENUMERATE_HEAD..]), descriptions)
  {
    var count: UInt32, images := |descriptions| % 0x1_0000_0000, Images(descriptions);
    AnswerReads(count, images, stored);
    ImagesRoundTrip(descriptions);
  }

  lemma AnswerReads(count: UInt32, images: Bytes, stored: Packet)
    requires stored == Layout(ENUMERATE_ANSWER, count, images)
    ensures ClientView(stored) == EnumerateAnswer(stored)
    ensures |stored| >= ENUMERATE_HEAD && ReadWord(stored, 12) == count && stored[ENUMERATE_HEAD..] == images
  {
    LayoutReads(ENUMERATE_ANSWER, count, images);
  }
}
