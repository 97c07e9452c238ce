/**
 * The cover-art block embedded in Ogg files as METADATA_BLOCK_PICTURE: the
 * PICTURE metadata block of section 8.8 of RFC 9639 (all integers 32-bit
 * big-endian), filled into a fixed-size byte buffer and base64-encoded.
 */
module PictureBlock {
  import opened Wrappers
  import opened Models
  import Base64

  const INT_MAX := 0x7FFF_FFFF

  /** `ByteBuffer.putInt` in big-endian order: the two's-complement bytes of `v`, most significant first. */
  function BE32(v: int32): (r: seq<byte>)
    ensures |r| == 4
  {
    var u := v % 0x1_0000_0000;
    var r0 := u % 0x100_0000;
    var r1 := r0 % 0x1_0000;
    [u / 0x100_0000, r0 / 0x1_0000, r1 / 0x100, r1 % 0x100]
  }

  /** Reads four big-endian bytes as a signed 32-bit integer. */
  function DecodeBE32(s: seq<byte>): int
    requires |s| == 4
  {
    var u := s[0] as int * 0x100_0000 + s[1] as int * 0x1_0000 + s[2] as int * 0x100 + s[3] as int;
    if u >= 0x8000_0000 then u - 0x1_0000_0000 else u
  }

  lemma BE32RoundTrip(v: int32)
    ensures DecodeBE32(BE32(v)) == v
  {
    var u := v % 0x1_0000_0000;
    var r0 := u % 0x100_0000;
    var r1 := r0 % 0x1_0000;
    assert u == (u / 0x100_0000) * 0x100_0000 + r0;
    assert r0 == (r0 / 0x1_0000) * 0x1_0000 + r1;
    assert r1 == (r1 / 0x100) * 0x100 + r1 % 0x100;
  }

  /** "image/jpeg" in UTF-8 (all ASCII). */
  const MIME_JPEG: seq<byte> := [0x69, 0x6D, 0x61, 0x67, 0x65, 0x2F, 0x6A, 0x70, 0x65, 0x67]

  lemma MimeIsImageJpeg()
    ensures |MIME_JPEG| == |"image/jpeg"|
    ensures forall i :: 0 <= i < |MIME_JPEG| ==> MIME_JPEG[i] == "image/jpeg"[i] as int
  {
  }

  /** 4 (picture type) + 4 (mime length) + mime + 4 (description length) + 4*4 (dimensions, depth, colours) + 4 (data length) */
  const HEADER_SIZE := 4 + 4 + |MIME_JPEG| + 4 + 4 * 4 + 4

  const FRONT_COVER: int32 := 3
  const COLOR_DEPTH: int32 := 24

  function Header(width: int32, height: int32, imgLen: int32): (r: seq<byte>)
    ensures |r| == HEADER_SIZE
  {
    BE32(FRONT_COVER) + BE32(|MIME_JPEG|) + MIME_JPEG + BE32(0) + BE32(width) + BE32(height)
      + BE32(COLOR_DEPTH) + BE32(0) + BE32(imgLen)
  }

  /** The whole block: the header followed by the image bytes verbatim. */
  function Block(width: int32, height: int32, image: seq<byte>): seq<byte>
    requires |image| <= INT_MAX
  {
    Header(width, height, |image|) + image
  }

  /** Every field of the block at its offset. */
  lemma BlockLayout(width: int32, height: int32, image: seq<byte>)
    requires |image| <= INT_MAX
    ensures var b := Block(width, height, image);
            && |b| == 42 + |image|
            && DecodeBE32(b[0..4]) == 3
            && DecodeBE32(b[4..8]) == 10
            && b[8..18] == MIME_JPEG
            && DecodeBE32(b[18..22]) == 0
            && DecodeBE32(b[22..26]) == width
            && DecodeBE32(b[26..30]) == height
            && DecodeBE32(b[30..34]) == 24
            && DecodeBE32(b[34..38]) == 0
            && DecodeBE32(b[38..42]) == |image|
            && b[42..] == image
  {
    var b := Block(width, height, image);
    assert b[0..4] == BE32(3);
    assert b[4..8] == BE32(10);
    assert b[8..18] == MIME_JPEG;
    assert b[18..22] == BE32(0);
    assert b[22..26] == BE32(width);
    assert b[26..30] == BE32(height);
    assert b[30..34] == BE32(24);
    assert b[34..38] == BE32(0);
    assert b[38..42] == BE32(|image|);
    assert b[42..] == image;
    BE32RoundTrip(3); BE32RoundTrip(10); BE32RoundTrip(0); BE32RoundTrip(width);
    BE32RoundTrip(height); BE32RoundTrip(24); BE32RoundTrip(|image|);
  }

  /** The base64 text decodes back to the block. */
  lemma EncodedBlockDecodes(width: int32, height: int32, image: seq<byte>)
    requires |image| <= INT_MAX
    ensures Base64.Decode(Base64.Encode(Block(width, height, image))) == Some(Block(width, height, image))
  {
    Base64.DecodeEncode(Block(width, height, image));
  }

  /** `java.nio.ByteBuffer` in big-endian order, as far as the block needs it. */
  class ByteBuffer {
    var data: array<byte>
    var position: nat

    ghost predicate Valid()
      reads this
    {
      position <= data.Length
    }

    /** The bytes put so far. */
    ghost function Written(): seq<byte>
      reads this, data
      requires Valid()
    {
      data[..position]
    }

    /** `ByteBuffer.allocate(capacity)` */
    constructor Allocate(capacity: nat)
      ensures Valid() && fresh(data) && data.Length == capacity && position == 0
    {
      data := new byte[capacity](_ => 0);
      position := 0;
    }

    /** `putInt(v)`: fails (BufferOverflowException) and writes nothing when fewer than four bytes remain. */
    method PutInt(v: int32) returns (ok: bool)
      requires Valid()
      modifies this, data
      ensures Valid() && data == old(data)
      ensures ok == (old(position) + 4 <= data.Length)
      ensures ok ==> Written() == old(Written()) + BE32(v) && position == old(position) + 4
      ensures !ok ==> data[..] == old(data[..]) && position == old(position)
    {
      ok := Put(BE32(v));
    }

    /** `put(src, 0, |src|)`: fails and writes nothing when fewer than |src| bytes remain. */
    method Put(src: seq<byte>) returns (ok: bool)
      requires Valid()
      modifies this, data
      ensures Valid() && data == old(data)
      ensures ok == (old(position) + |src| <= data.Length)
      ensures ok ==> Written() == old(Written()) + src && position == old(position) + |src|
      ensures !ok ==> data[..] == old(data[..]) && position == old(position)
    {
      if position + |src| > data.Length {
        return false;
      }
      var i := 0;
      while i < |src|
        invariant 0 <= i <= |src|
        invariant data[..position + i] == old(data[..position]) + src[..i]
        invariant position == old(position)
        modifies data
      {
        data[position + i] := src[i];
        i := i + 1;
        assert data[..position + i] == data[..position + i - 1] + [src[i - 1]];
      }
      assert src[..i] == src;
      position := position + |src|;
      ok := true;
    }
  }

  /** `DEFAULT_BUFFER_SIZE`, the chunk the image file is read in. */
  const READ_CHUNK := 8192

  /** `allocate` with a negative capacity. */
  const NEGATIVE_CAPACITY := Thrown("java.lang.IllegalArgumentException")
  /** A `put` or `putInt` with too little room left. */
  const BUFFER_OVERFLOW := Thrown("java.nio.BufferOverflowException")

  /** Kotlin's `Long.toInt()` and `Int` addition: the low 32 bits, read as a signed value. */
  function Wrap32(x: int): (r: int32)
    ensures (x - r) % 0x1_0000_0000 == 0
  {
    (x + 0x8000_0000) % 0x1_0000_0000 - 0x8000_0000
  }

  /** The capacity `hdrSize + imgLen` passed to `allocate` for a cover of `n` bytes, in 32-bit arithmetic. */
  function Capacity(n: nat): int32 {
    Wrap32(HEADER_SIZE + Wrap32(n))
  }

  /** The exception a cover of `n` bytes too long for the block raises: the allocation's when the capacity wraps negative, otherwise a put's. */
  function OversizeError(n: nat): Error {
    if Capacity(n) < 0 then NEGATIVE_CAPACITY else BUFFER_OVERFLOW
  }

  lemma Wrap32Facts(x: int)
    ensures -0x8000_0000 <= x < 0x8000_0000 ==> Wrap32(x) == x
    ensures x >= 0x8000_0000 ==> Wrap32(x) < x
  {
  }

  /**
   * The capacity never exceeds the block's true size, and equals it exactly
   * when the block's size fits an `Int`; then the length field is the image's length.
   */
  lemma CapacityBound(n: nat)
    ensures Capacity(n) <= HEADER_SIZE + n
    ensures Capacity(n) == HEADER_SIZE + n <==> HEADER_SIZE + n <= INT_MAX
    ensures HEADER_SIZE + n <= INT_MAX ==> Wrap32(n) == n
  {
    Wrap32Facts(n);
    Wrap32Facts(HEADER_SIZE + Wrap32(n));
  }

  /** Covers of these sizes fail in the allocation or in a put. */
  lemma OversizeErrors()
    ensures OversizeError(INT_MAX - HEADER_SIZE + 1) == NEGATIVE_CAPACITY
    ensures OversizeError(0x8000_0000) == NEGATIVE_CAPACITY
    ensures OversizeError(0x1_0000_0000 - HEADER_SIZE) == BUFFER_OVERFLOW
    ensures OversizeError(0x1_0000_0000 + 100) == BUFFER_OVERFLOW
  {
  }

  /** The nine header fields, put one after another; a put that finds too little room fails. */
  method PutHeader(bb: ByteBuffer, width: int32, height: int32, imgLen: int32) returns (ok: bool)
    requires bb.Valid() && bb.position == 0
    modifies bb, bb.data
    ensures bb.Valid() && bb.data == old(bb.data)
    ensures ok == (HEADER_SIZE <= bb.data.Length)
    ensures ok ==> bb.position == HEADER_SIZE && bb.Written() == Header(width, height, imgLen)
  {
    ok := bb.PutInt(FRONT_COVER);
    if !ok { return; }
    ghost var w := BE32(FRONT_COVER);
    assert bb.Written() == w;
    ok := bb.PutInt(|MIME_JPEG|);
    if !ok { return; }
    w := w + BE32(|MIME_JPEG|);
    ok := bb.Put(MIME_JPEG);
    if !ok { return; }
    w := w + MIME_JPEG;
    ok := bb.PutInt(0);
    if !ok { return; }
    w := w + BE32(0);
    ok := bb.PutInt(width);
    if !ok { return; }
    w := w + BE32(width);
    ok := bb.PutInt(height);
    if !ok { return; }
    w := w + BE32(height);
    ok := bb.PutInt(COLOR_DEPTH);
    if !ok { return; }
    w := w + BE32(COLOR_DEPTH);
    ok := bb.PutInt(0);
    if !ok { return; }
    w := w + BE32(0);
    assert bb.Written() == w && bb.position == |w|;
    ok := bb.PutInt(imgLen);
    if !ok { return; }
    w := w + BE32(imgLen);
    assert bb.Written() == w;
  }

  /** Copies `image` into the buffer READ_CHUNK bytes at a time, as the image stream is read; a chunk without room fails. */
  method PutChunks(bb: ByteBuffer, image: seq<byte>) returns (ok: bool)
    requires bb.Valid()
    modifies bb, bb.data
    ensures bb.Valid() && bb.data == old(bb.data)
    ensures ok == (old(bb.position) + |image| <= bb.data.Length)
    ensures ok ==> bb.position == old(bb.position) + |image| && bb.Written() == old(bb.Written()) + image
  {
    ghost var start := bb.Written();
    ghost var p0 := bb.position;
    var read := 0;
    while read < |image|
      invariant 0 <= read <= |image|
      invariant bb.Valid() && bb.data == old(bb.data)
      invariant bb.position == p0 + read
      invariant bb.Written() == start + image[..read]
    {
      var n := if |image| - read < READ_CHUNK then |image| - read else READ_CHUNK;
      ok := bb.Put(image[read..read + n]);
      if !ok { return; }
      assert image[..read + n] == image[..read] + image[read..read + n];
      read := read + n;
    }
    assert image[..read] == image;
    ok := true;
  }

  /**
   * `vorbisPictureBlockBase64(cover)` for a cover of `image` bytes whose decoded
   * bounds are `width` x `height` (-1 each when the bounds cannot be decoded).
   * The length and the capacity are 32-bit values, so a cover too long for the
   * block wraps them: the allocation or a put then throws.
   */
  method VorbisPictureBlockBase64(width: int32, height: int32, image: seq<byte>) returns (r: Result<string, Error>)
    ensures HEADER_SIZE + |image| <= INT_MAX ==> r == Success(Base64.Encode(Block(width, height, image)))
    ensures HEADER_SIZE + |image| > INT_MAX ==> r == Failure(OversizeError(|image|))
  {
    CapacityBound(|image|);
    var imgLen := Wrap32(|image|);
    var capacity := Wrap32(HEADER_SIZE + imgLen);
    if capacity < 0 {
      return Failure(NEGATIVE_CAPACITY);
    }
    var bb := new ByteBuffer.Allocate(capacity);
    var ok := PutHeader(bb, width, height, imgLen);
    if !ok {
      return Failure(BUFFER_OVERFLOW);
    }
    ok := PutChunks(bb, image);
    if !ok {
      return Failure(BUFFER_OVERFLOW);
    }
    assert bb.data[..] == bb.Written();
    r := Success(Base64.Encode(bb.data[..]));
  }
}
