/**
 Byte streams and chunk lists: what travels in a channel, and what it means for one list to be another with
 some entries dropped.
 */
module Streams {
  import opened Codec

  /** The payload a packet carries towards the device. */
  function Payload(p: Packet): Bytes {
    match ServerView(p) case ToDevice(_, payload) => payload case _ => []
  }

  /** All payloads waiting in a client-to-server channel, in order. */
  function UpPayload(up: seq<Packet>): Bytes {
    if up == [] then [] else Payload(up[0]) + UpPayload(up[1..])
  }

  /** The chunks waiting in a server-to-client channel, in order. */
  function DownChunks(down: seq<Packet>): seq<Bytes> {
    if down == [] then []
    else
      var rest := DownChunks(down[1..]);
      match ClientView(down[0]) case FromDevice(_, payload) => [payload] + rest case _ => rest
  }

  function Join(chunks: seq<Bytes>): Bytes {
    if chunks == [] then [] else Join(chunks[..|chunks| - 1]) + chunks[|chunks| - 1]
  }

  lemma {:induction false} UpPayloadPush(up: seq<Packet>, p: Packet)
    ensures UpPayload(up + [p]) == UpPayload(up) + Payload(p)
  {
    if up == [] {
      assert up + [p] == [p] && [p][1..] == [];
      assert UpPayload([p]) == Payload(p) + [];
    } else {
      UpPayloadPush(up[1..], p);
      assert (up + [p])[1..] == up[1..] + [p];
      Assoc(Payload(up[0]), UpPayload(up[1..]), Payload(p));
    }
  }

  lemma Assoc(a: Bytes, b: Bytes, c: Bytes)
    ensures (a + b) + c == a + (b + c)
  {
  }

  lemma {:induction false} DownChunksPush(down: seq<Packet>, p: Packet)
    ensures DownChunks(down + [p]) == DownChunks(down) + DownChunks([p])
  {
    if down == [] {
      assert down + [p] == [p];
    } else {
      DownChunksPush(down[1..], p);
      assert (down + [p])[1..] == down[1..] + [p];
    }
  }

  lemma JoinPush(chunks: seq<Bytes>, x: Bytes)
    ensures Join(chunks + [x]) == Join(chunks) + x
  {
    assert (chunks + [x])[..|chunks|] == chunks;
  }

  /** `a` is `b` with some entries left out: same order, no repetition, nothing new. */
  predicate Subsequence<T(==)>(a: seq<T>, b: seq<T>)
    decreases |b|
  {
    if a == [] then true
    else if b == [] then false
    else
      var a', b' := a[..|a| - 1], b[..|b| - 1];
      (a[|a| - 1] == b[|b| - 1] && Subsequence(a', b')) || Subsequence(a, b')
  }

  lemma SubsequencePush<T>(a: seq<T>, b: seq<T>, x: T)
    requires Subsequence(a, b)
    ensures Subsequence(a, b + [x]) && Subsequence(a + [x], b + [x])
  {
    assert (b + [x])[..|b|] == b && (a + [x])[..|a|] == a;
  }

  /** A subsequence of the same length leaves nothing out. */
  lemma {:induction false} SubsequenceWhole<T>(a: seq<T>, b: seq<T>)
    requires Subsequence(a, b)
    ensures |a| <= |b| && (|a| == |b| ==> a == b)
    decreases |b|
  {
    if a != [] {
      var a', b' := a[..|a| - 1], b[..|b| - 1];
      if Subsequence(a, b') { SubsequenceWhole(a, b'); }
      if Subsequence(a', b') { SubsequenceWhole(a', b'); }
      assert a == a' + [a[|a| - 1]] && b == b' + [b[|b| - 1]];
    }
  }

  /** Leaving out one more entry. */
  lemma {:induction false} SubsequenceDrop<T>(a: seq<T>, x: T, r: seq<T>, b: seq<T>)
    requires Subsequence(a + [x] + r, b)
    ensures Subsequence(a + r, b)
    decreases |b|
  {
    var w := a + [x] + r;
    var b' := b[..|b| - 1];
    if Subsequence(w, b') {
      SubsequenceDrop(a, x, r, b');
      assert b == b' + [b[|b| - 1]];
      SubsequencePush(a + r, b', b[|b| - 1]);
    } else if r == [] {
      assert w[..|w| - 1] == a && a + r == a;
      assert b == b' + [b[|b| - 1]];
      SubsequencePush(a, b', b[|b| - 1]);
    } else {
      var r', y := r[..|r| - 1], r[|r| - 1];
      assert w[..|w| - 1] == a + [x] + r';
      SubsequenceDrop(a, x, r', b');
      assert b == b' + [y];
      SubsequencePush(a + r', b', y);
      assert a + r == (a + r') + [y];
    }
  }

  /** Subsequence by positions: an increasing choice of indices of `b` spells out `a`. */
  ghost predicate Picks<T>(a: seq<T>, b: seq<T>, at: seq<nat>) {
    && |at| == |a|
    && (forall i :: 0 <= i < |at| ==> at[i] < |b| && b[at[i]] == a[i])
    && (forall i, j :: 0 <= i < j < |at| ==> at[i] < at[j])
  }

  lemma {:induction false} SubsequencePicks<T>(a: seq<T>, b: seq<T>) returns (at: seq<nat>)
    requires Subsequence(a, b)
    ensures Picks(a, b, at)
    decreases |b|
  {
    if a == [] { return []; }
    var a', b' := a[..|a| - 1], b[..|b| - 1];
    if a[|a| - 1] == b[|b| - 1] && Subsequence(a', b') {
      at := SubsequencePicks(a', b');
      at := at + [|b| - 1];
    } else {
      at := SubsequencePicks(a, b');
    }
  }
}
