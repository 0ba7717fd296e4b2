/**
 * slice_image (InstaxLink.py:180-193): image bytes cut into frames of the size the device asks for,
 * the last frame padded with zero bytes; and the 182-byte packet split of send_command (InstaxLink.py:604-607).
 */
module Chunking {
  import opened Wrappers
  import opened Faults
  import opened Bytes
  import Bits

  /** A short frame followed by zero bytes up to the frame size. */
  function Pad(frame: seq<byte>, size: nat): seq<byte>
    requires |frame| <= size
  {
    frame + Zeros(size - |frame|)
  }

  /** The frames of an image: consecutive frameSize-byte slices, the last one zero-padded. */
  function Chunks(image: seq<byte>, frameSize: nat): seq<seq<byte>>
    requires frameSize > 0
    decreases |image|
  {
    if |image| == 0 then []
    else if |image| <= frameSize then [Pad(image, frameSize)]
    else [image[..frameSize]] + Chunks(image[frameSize..], frameSize)
  }

  /** slice_image as a partial function: with a zero frame size, `(i + 1) % frameSize` raises on the first byte. */
  function Slices(image: seq<byte>, frameSize: nat): Result<seq<seq<byte>>, Fault>
  {
    if |image| == 0 then Success([])
    else if frameSize == 0 then Failure(ZeroFrameSize)
    else Success(Chunks(image, frameSize))
  }

  function CeilDiv(n: nat, d: nat): nat
    requires d > 0
  {
    (n + d - 1) / d
  }

  function Flatten(chunks: seq<seq<byte>>): seq<byte>
  {
    if chunks == [] then [] else chunks[0] + Flatten(chunks[1..])
  }

  lemma FlattenCons(x: seq<byte>, rest: seq<seq<byte>>)
    ensures Flatten([x] + rest) == x + Flatten(rest)
  {
    assert ([x] + rest)[1..] == rest;
  }

  /** Flattening distributes over concatenation. */
  lemma {:induction false} FlattenAppend(a: seq<seq<byte>>, b: seq<seq<byte>>)
    ensures Flatten(a + b) == Flatten(a) + Flatten(b)
  {
    if a == [] {
      assert a + b == b;
    } else {
      var x, rest := a[0], a[1..];
      assert a == [x] + rest;
      assert a + b == [x] + (rest + b);
      calc {
        Flatten(a + b);
        == { FlattenCons(x, rest + b); }
        x + Flatten(rest + b);
        == { FlattenAppend(rest, b); }
        x + (Flatten(rest) + Flatten(b));
        (x + Flatten(rest)) + Flatten(b);
        == { FlattenCons(x, rest); }
        Flatten(a) + Flatten(b);
      }
    }
  }

  lemma CeilDivStep(n: nat, d: nat)
    requires d > 0
    ensures 0 < n <= d ==> CeilDiv(n, d) == 1
    ensures n > d ==> CeilDiv(n, d) == 1 + CeilDiv(n - d, d)
  {
    if 0 < n <= d {
      Bits.DivModUnique(n + d - 1, d, 1, n - 1);
    }
    if n > d {
      var q, r := (n - 1) / d, (n - 1) % d;
      Bits.DivModUnique(n - 1, d, q, r);
      Bits.DivModUnique(n + d - 1, d, q + 1, r);
      assert n - d + d - 1 == n - 1;
    }
  }

  /** One full frame taken off the front of the image. */
  lemma ChunksFull(image: seq<byte>, frameSize: nat)
    requires 0 < frameSize <= |image|
    ensures Chunks(image, frameSize) == [image[..frameSize]] + Chunks(image[frameSize..], frameSize)
  {
    if |image| == frameSize {
      assert Pad(image, frameSize) == image;
      assert image[..frameSize] == image;
    }
  }

  /** The chunk count is ceil(n / frameSize). */
  lemma {:induction false} ChunksCount(image: seq<byte>, frameSize: nat)
    requires frameSize > 0
    ensures |Chunks(image, frameSize)| == CeilDiv(|image|, frameSize)
  {
    CeilDivStep(|image|, frameSize);
    if |image| > frameSize {
      ChunksCount(image[frameSize..], frameSize);
    }
  }

  /** Every chunk, the padded last one included, is exactly frameSize bytes. */
  lemma {:induction false} ChunksSize(image: seq<byte>, frameSize: nat)
    requires frameSize > 0
    ensures forall i :: 0 <= i < |Chunks(image, frameSize)| ==> |Chunks(image, frameSize)[i]| == frameSize
  {
    if |image| > frameSize {
      ChunksSize(image[frameSize..], frameSize);
    }
  }

  /** The concatenated chunks are the image followed by zero bytes only. */
  lemma {:induction false} ChunksFlatten(image: seq<byte>, frameSize: nat)
    requires frameSize > 0
    ensures var f := Flatten(Chunks(image, frameSize));
      && |image| <= |f| < |image| + frameSize
      && f[..|image|] == image
      && (forall k :: |image| <= k < |f| ==> f[k] == 0)
  {
    var c := Chunks(image, frameSize);
    if |image| == 0 {
    } else if |image| <= frameSize {
      FlattenCons(Pad(image, frameSize), []);
    } else {
      var rest := image[frameSize..];
      ChunksFlatten(rest, frameSize);
      FlattenCons(image[..frameSize], Chunks(rest, frameSize));
      var f := Flatten(c);
      var g := Flatten(Chunks(rest, frameSize));
      assert f == image[..frameSize] + g;
      assert f[..|image|] == image[..frameSize] + g[..|rest|];
      assert image == image[..frameSize] + rest;
      forall k | |image| <= k < |f| ensures f[k] == 0 {
        assert f[k] == g[k - frameSize];
      }
    }
  }

  /** A 3000-byte image in 1024-byte frames: three frames, the last holding 952 image bytes and 72 zeros. */
  lemma ChunksExample(image: seq<byte>)
    requires |image| == 3000
    ensures Chunks(image, 1024) == [image[..1024], image[1024..2048], image[2048..] + Zeros(72)]
  {
    var r1 := image[1024..];
    var r2 := r1[1024..];
    assert r2 == image[2048..];
    assert Chunks(r2, 1024) == [Pad(r2, 1024)];
    assert r1[..1024] == image[1024..2048];
  }

  lemma ModStep(start: nat, d: nat, size: nat)
    requires size > 0 && start % size == 0 && 0 < d <= size
    ensures (start + d) % size == 0 <==> d == size
  {
    var q := start / size;
    assert start == size * q;
    if d < size {
      Bits.DivModUnique(start + d, size, q, d);
    } else {
      Bits.DivModUnique(start + d, size, q + 1, 0);
    }
  }

  /** What a closed full frame does to the frames still to come. */
  lemma CloseFrame(image: seq<byte>, frameSize: nat, frames: seq<seq<byte>>, start: nat)
    requires 0 < frameSize && start + frameSize <= |image|
    requires frames + Chunks(image[start..], frameSize) == Chunks(image, frameSize)
    ensures start + frameSize < |image| ==>
      (frames + [image[start..start + frameSize]]) + Chunks(image[start + frameSize..], frameSize) == Chunks(image, frameSize)
    ensures start + frameSize == |image| ==> frames + [image[start..start + frameSize]] == Chunks(image, frameSize)
  {
    ChunksFull(image[start..], frameSize);
    assert image[start..][..frameSize] == image[start..start + frameSize];
    assert image[start..][frameSize..] == image[start + frameSize..];
  }

  /** What the padded last frame does to the frames still to come. */
  lemma LastFrame(image: seq<byte>, frameSize: nat, frames: seq<seq<byte>>, start: nat)
    requires 0 < |image| - start < frameSize
    requires frames + Chunks(image[start..], frameSize) == Chunks(image, frameSize)
    ensures frames + [image[start..] + Zeros(frameSize - (|image| - start))] == Chunks(image, frameSize)
  {
  }

  /** slice_image: appends byte by byte, closes a frame every frameSize bytes, pads the last one. */
  method SliceImage(image: seq<byte>, frameSize: nat) returns (r: Result<seq<seq<byte>>, Fault>)
    ensures r == Slices(image, frameSize)
  {
    var frames: seq<seq<byte>> := [];
    var frame: seq<byte> := [];
    ghost var start := 0;
    var i := 0;
    while i < |image|
      invariant 0 <= start <= i <= |image|
      invariant frameSize == 0 ==> i == 0 && frames == []
      invariant frameSize > 0 ==> start % frameSize == 0
      invariant i < |image| ==> frame == image[start..i] && (frameSize > 0 ==> i - start < frameSize)
      invariant frameSize > 0 && i < |image| ==> frames + Chunks(image[start..], frameSize) == Chunks(image, frameSize)
      invariant frameSize > 0 && i == |image| ==> frames == Chunks(image, frameSize)
    {
      frame := frame + [image[i]];
      if frameSize == 0 {
        return Failure(ZeroFrameSize);
      }
      ModStep(start, i + 1 - start, frameSize);
      assert frame == image[start..i + 1];
      if (i + 1) % frameSize == 0 {
        CloseFrame(image, frameSize, frames, start);
        frames := frames + [frame];
        frame := [];
        start := i + 1;
      } else if i == |image| - 1 {
        // pad the last slice with zero bytes
        var missing := frameSize - |frame|;
        var j := 0;
        while j < missing
          invariant 0 <= j <= missing
          invariant frame == image[start..i + 1] + Zeros(j)
        {
          frame := frame + [0];
          j := j + 1;
        }
        assert image[start..i + 1] == image[start..];
        LastFrame(image, frameSize, frames, start);
        frames := frames + [frame];
      }
      i := i + 1;
    }
    return Success(frames);
  }

  /** The largest write send_command hands to the transport. */
  const MaxPacketSize: nat := 182

  /** send_command's split of a frame into consecutive packets of at most 182 bytes. */
  function Packets(payload: seq<byte>): seq<seq<byte>>
    decreases |payload|
  {
    if |payload| == 0 then []
    else
      var k := Min(MaxPacketSize, |payload|);
      [payload[..k]] + Packets(payload[k..])
  }

  /** The packets are ceil(n / 182) non-empty slices of at most 182 bytes that concatenate to the frame. */
  lemma {:induction false} PacketsLaws(payload: seq<byte>)
    ensures var p := Packets(payload);
      && |p| == CeilDiv(|payload|, MaxPacketSize)
      && (forall i :: 0 <= i < |p| ==> 0 < |p[i]| <= MaxPacketSize)
      && Flatten(p) == payload
  {
    CeilDivStep(|payload|, MaxPacketSize);
    if |payload| > 0 {
      var k := Min(MaxPacketSize, |payload|);
      PacketsLaws(payload[k..]);
      FlattenCons(payload[..k], Packets(payload[k..]));
      assert payload == payload[..k] + payload[k..];
    }
  }

  /** The packets from offset j on: the slice at j, clamped to the frame's end, then the packets after it. */
  lemma PacketsStep(payload: seq<byte>, j: nat)
    requires j < |payload|
    ensures var e := Min(j + MaxPacketSize, |payload|);
      Packets(payload[j..]) == [payload[j..e]] + Packets(payload[e..])
  {
    var e := Min(j + MaxPacketSize, |payload|);
    var rest := payload[j..];
    assert rest[..e - j] == payload[j..e];
    assert rest[e - j..] == payload[e..];
  }
}
