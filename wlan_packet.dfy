// Packets of the WLAN MLME (drivers/wlan/wlan/packet.cpp): a packet owns a
// fixed-size buffer from one of three slab allocators (small, large, huge)
// and a length; CopyFrom writes into the buffer within its capacity, and
// GetBuffer picks the allocator by length, falling back to larger ones when
// one is exhausted. packet.h is not part of this model, so the buffer sizes
// and the number of large buffers are parameters.

module WlanPacket {
  import opened Base
  import opened Zx

  /** Buffer sizes of the three allocators and kLargeBuffers, the number of large buffers. */
  datatype BufferConsts = BufferConsts(smallBufferSize: nat, largeBufferSize: nat, hugeBufferSize: nat, largeBuffers: nat)

  predicate Ordered(c: BufferConsts)
  {
    c.smallBufferSize <= c.largeBufferSize <= c.hugeBufferSize
  }

  datatype BufferClass = Small | Large | Huge

  function Capacity(c: BufferConsts, k: BufferClass): nat
  {
    match k
    case Small => c.smallBufferSize
    case Large => c.largeBufferSize
    case Huge => c.hugeBufferSize
  }

  /** Which allocators can still hand out a buffer. */
  datatype Available = Available(small: bool, large: bool, huge: bool)

  predicate Has(a: Available, k: BufferClass)
  {
    match k
    case Small => a.small
    case Large => a.large
    case Huge => a.huge
  }

  /** The first class of a fallback chain whose allocator has a buffer. */
  function FirstAvailable(chain: seq<BufferClass>, a: Available): (r: Option<BufferClass>)
    ensures r.Some? ==> r.value in chain && Has(a, r.value)
    ensures r.None? <==> forall k :: k in chain ==> !Has(a, k)
  {
    if |chain| == 0 then None
    else if Has(a, chain[0]) then Some(chain[0])
    else FirstAvailable(chain[1..], a)
  }

  /** The allocators GetBuffer tries for a length, in order, when the huge class starts above `hugeAbove`. */
  function Chain(c: BufferConsts, len: nat, hugeAbove: nat): seq<BufferClass>
  {
    if len > hugeAbove then [Huge]
    else if len > c.smallBufferSize then [Large, Huge]
    else [Small, Large, Huge]
  }

  /**
   * GetBuffer as written: a length above kLargeBuffers, the number of
   * large buffers rather than their size, goes straight to the huge
   * allocator.
   */
  function GetBufferAsWritten(c: BufferConsts, len: nat, a: Available): Option<BufferClass>
  {
    FirstAvailable(Chain(c, len, c.largeBuffers), a)
  }

  /** GetBuffer: huge buffers above the large size, large ones above the small size, small ones otherwise, each falling back to the larger. */
  function GetBuffer(c: BufferConsts, len: nat, a: Available): (r: Option<BufferClass>)
    ensures r.None? <==> forall k :: k in Chain(c, len, c.largeBufferSize) ==> !Has(a, k)
  {
    FirstAvailable(Chain(c, len, c.largeBufferSize), a)
  }

  /** Every buffer GetBuffer hands out holds the length, for lengths a huge buffer holds. */
  lemma GetBufferFits(c: BufferConsts, len: nat, a: Available)
    requires Ordered(c) && len <= c.hugeBufferSize
    ensures GetBuffer(c, len, a).Some? ==> Capacity(c, GetBuffer(c, len, a).value) >= len
  {
  }

  /** The smallest class that fits is taken when its allocator has a buffer. */
  lemma GetBufferPrefersSmallest(c: BufferConsts, len: nat, a: Available)
    requires Ordered(c)
    ensures len <= c.smallBufferSize && a.small ==> GetBuffer(c, len, a) == Some(Small)
    ensures c.smallBufferSize < len <= c.largeBufferSize && a.large ==> GetBuffer(c, len, a) == Some(Large)
    ensures len > c.largeBufferSize ==> GetBuffer(c, len, a) == (if a.huge then Some(Huge) else None)
  {
    ChainTails();
  }

  /** The tails of the fallback chains. */
  lemma ChainTails()
    ensures [Small, Large, Huge][1..] == [Large, Huge] && [Large, Huge][1..] == [Huge] && [Huge][1..] == []
  {
  }

  /**
   * As written, a length above kLargeBuffers but within a small buffer takes
   * a huge buffer even though small ones are free, and a length above the
   * large size but within kLargeBuffers gets a large buffer too small for it.
   */
  lemma GetBufferAsWrittenMisplaces(c: BufferConsts, len: nat, a: Available)
    requires Ordered(c) && a.small && a.huge
    ensures c.largeBuffers < len <= c.smallBufferSize ==>
      GetBufferAsWritten(c, len, a) == Some(Huge) && GetBuffer(c, len, a) == Some(Small)
    ensures a.large && c.largeBufferSize < len <= c.largeBuffers && len > c.smallBufferSize ==>
      GetBufferAsWritten(c, len, a) == Some(Large) && Capacity(c, Large) < len
  {
    ChainTails();
  }

  datatype Peer = Unknown | Wlan | Ethernet | Service

  class Packet {
    /** buffer_: the fixed-size buffer the packet owns. */
    const buffer: array<byte>
    /** len_: the number of bytes of the buffer in use. */
    var len: nat
    var peer: Peer

    predicate Valid()
      reads this
    {
      len <= buffer.Length
    }

    /** The constructor demands a length within the buffer's capacity. */
    constructor(buffer: array<byte>, len: nat)
      requires len <= buffer.Length
      ensures Valid() && this.buffer == buffer && this.len == len && peer == Unknown
    {
      this.buffer := buffer;
      this.len := len;
      this.peer := Unknown;
    }

    /**
     * CopyFrom: BUFFER_TOO_SMALL, with nothing written, when the bytes
     * would end past the capacity; otherwise they are written at the
     * offset, the rest of the buffer is kept, and the length grows to
     * cover them.
     */
    method CopyFrom(src: seq<byte>, offset: nat) returns (status: Status)
      requires Valid()
      modifies this, buffer
      ensures Valid() && peer == old(peer)
      ensures offset + |src| > buffer.Length ==>
        status == ErrBufferTooSmall && len == old(len) && buffer[..] == old(buffer[..])
      ensures offset + |src| <= buffer.Length ==>
        && status == Ok && len == Max(old(len), offset + |src|)
        && buffer[..] == old(buffer[..])[..offset] + src + old(buffer[..])[offset + |src|..]
    {
      if offset + |src| > buffer.Length {
        return ErrBufferTooSmall;
      }
      forall i | offset <= i < offset + |src| {
        buffer[i] := src[i - offset];
      }
      assert buffer[..] == old(buffer[..])[..offset] + src + old(buffer[..])[offset + |src|..];
      len := Max(len, offset + |src|);
      status := Ok;
    }
  }

  /** Copying bytes in and reading the same range back gives the bytes. */
  lemma CopyFromReadsBack(before: seq<byte>, src: seq<byte>, offset: nat)
    requires offset + |src| <= |before|
    ensures (before[..offset] + src + before[offset + |src|..])[offset..offset + |src|] == src
  {
    var after := before[..offset] + src + before[offset + |src|..];
    assert forall i :: 0 <= i < |src| ==> after[offset + i] == src[i];
  }

  /**
   * CreateWlanPacket: a packet of the frame length over the buffer
   * GetBuffer picks, addressed to the WLAN peer; null when no allocator
   * can serve it.
   */
  method CreateWlanPacket(c: BufferConsts, frameLen: nat, a: Available) returns (p: Packet?)
    requires Ordered(c) && frameLen <= c.hugeBufferSize
    ensures p == null <==> GetBuffer(c, frameLen, a).None?
    ensures p != null ==>
      && fresh(p) && fresh(p.buffer) && p.Valid()
      && p.buffer.Length == Capacity(c, GetBuffer(c, frameLen, a).value)
      && p.len == frameLen && p.peer == Wlan
  {
    var k := GetBuffer(c, frameLen, a);
    if k.None? {
      return null;
    }
    GetBufferFits(c, frameLen, a);
    var buffer := new byte[Capacity(c, k.value)];
    p := new Packet(buffer, frameLen);
    p.peer := Wlan;
  }
}
