// The stream and tag pools of the Intel HDA controller
// (drivers/audio/intel-hda/controller/intel-hda-controller.cpp): DMA stream
// contexts are handed out from per-direction free pools, falling back to the
// bidirectional pool, each with a stream tag from a 16-bit mask of free tags
// kept per direction, and the checks on client requests.

module HdaController {
  import opened Base
  import opened Zx

  datatype StreamType = Invalid | Input | Output | Bidir

  /** A DMA stream context: its id and hardware type, and the type and tag it is configured with. */
  datatype Stream = Stream(id: nat, hwType: StreamType, configuredType: StreamType, tag: nat)

  /** A free pool is ordered by stream id and holds unconfigured streams of one hardware type. */
  predicate Pool(xs: seq<Stream>, t: StreamType)
  {
    && (forall i, j :: 0 <= i < j < |xs| ==> xs[i].id < xs[j].id)
    && (forall i :: 0 <= i < |xs| ==> xs[i].hwType == t && xs[i].configuredType == Invalid && xs[i].tag == 0)
  }

  predicate HasId(xs: seq<Stream>, id: nat)
  {
    exists x :: x in xs && x.id == id
  }

  /** Insertion into a pool, keyed by stream id. */
  function InsertById(xs: seq<Stream>, s: Stream): (r: seq<Stream>)
    ensures multiset(r) == multiset(xs) + multiset{s}
  {
    if |xs| == 0 || s.id < xs[0].id then
      [s] + xs
    else
      assert xs == [xs[0]] + xs[1..];
      [xs[0]] + InsertById(xs[1..], s)
  }

  /** Inserting an unconfigured stream with a new id keeps a pool ordered. */
  lemma {:induction false} InsertKeepsPool(xs: seq<Stream>, s: Stream)
    requires Pool(xs, s.hwType) && !HasId(xs, s.id) && s.configuredType == Invalid && s.tag == 0
    ensures Pool(InsertById(xs, s), s.hwType)
  {
    if |xs| > 0 && s.id >= xs[0].id {
      var rest := InsertById(xs[1..], s);
      assert xs == [xs[0]] + xs[1..];
      assert xs[0] in xs;
      assert Pool(xs[1..], s.hwType) && !HasId(xs[1..], s.id);
      InsertKeepsPool(xs[1..], s);
      forall x | x in xs[1..]
        ensures x.id > xs[0].id
      {
        var k :| 0 <= k < |xs[1..]| && xs[1..][k] == x;
        assert xs[k + 1] == x;
      }
      InsertAbove(xs[1..], s, xs[0].id);
      ConsPool(xs[0], rest, s.hwType);
    }
  }

  /** Inserting a stream above a bound into streams above it leaves all of them above it. */
  lemma InsertAbove(xs: seq<Stream>, s: Stream, lo: nat)
    requires forall x :: x in xs ==> x.id > lo
    requires s.id > lo
    ensures forall x :: x in InsertById(xs, s) ==> x.id > lo
  {
    forall x | x in InsertById(xs, s)
      ensures x.id > lo
    {
      assert x in multiset(InsertById(xs, s));
      assert x in multiset(xs) || x == s;
    }
  }

  /** An unconfigured stream with a smaller id than every stream of a pool can head it. */
  lemma ConsPool(h: Stream, rest: seq<Stream>, t: StreamType)
    requires Pool(rest, t) && h.hwType == t && h.configuredType == Invalid && h.tag == 0
    requires forall x :: x in rest ==> x.id > h.id
    ensures Pool([h] + rest, t)
  {
    var r := [h] + rest;
    forall i, j | 0 <= i < j < |r|
      ensures r[i].id < r[j].id
    {
      assert r[j] == rest[j - 1];
      if i > 0 {
        assert r[i] == rest[i - 1];
      }
    }
  }

  /** Taking the head off a pool leaves a pool. */
  lemma PoolTail(xs: seq<Stream>, t: StreamType)
    requires Pool(xs, t) && |xs| > 0
    ensures Pool(xs[1..], t)
  {
  }

  /** A 16-bit tag mask, bit t standing for tag t. */
  type Mask = m: seq<bool> | |m| == 16 witness seq(16, _ => false)

  /** The tag the allocator hands out: the lowest free one in 1..15, or 0 when there is none. */
  predicate LowestFreeTag(pool: Mask, t: nat)
  {
    if t == 0 then forall u :: 1 <= u < 16 ==> !pool[u]
    else t < 16 && pool[t] && forall u :: 1 <= u < t ==> !pool[u]
  }

  /** The requests a client can send the controller. */
  datatype ClientCommand = GetIds | SnapshotRegs | OtherCommand(cmd: nat)

  /** Byte sizes of the request header and of the GET_IDS and SNAPSHOT_REGS requests; intel-hda-proto.h is not part of this model. */
  datatype RequestSizes = RequestSizes(header: nat, getIds: nat, snapshotRegs: nat)

  /**
   * ProcessClientRequest: INVALID_ARGS for a request shorter than the
   * header, one that carries a handle, one of the wrong size for its
   * command, or an unknown command; otherwise the result of answering it.
   */
  function ProcessClientRequest(sizes: RequestSizes, reqSize: nat, hasHandle: bool, cmd: ClientCommand,
                                getIdsReply: Status, snapshot: Status): (r: Status)
    ensures reqSize < sizes.header || hasHandle || cmd.OtherCommand? ==> r == ErrInvalidArgs
    ensures cmd == GetIds && reqSize != sizes.getIds ==> r == ErrInvalidArgs
    ensures cmd == SnapshotRegs && reqSize != sizes.snapshotRegs ==> r == ErrInvalidArgs
    ensures r != ErrInvalidArgs ==>
      reqSize >= sizes.header && !hasHandle && (r == getIdsReply || r == snapshot)
    ensures reqSize >= sizes.header && !hasHandle && cmd == GetIds && reqSize == sizes.getIds ==> r == getIdsReply
    ensures reqSize >= sizes.header && !hasHandle && cmd == SnapshotRegs && reqSize == sizes.snapshotRegs ==> r == snapshot
  {
    if reqSize < sizes.header then ErrInvalidArgs
    else if hasHandle then ErrInvalidArgs
    else match cmd
      case GetIds => if reqSize != sizes.getIds then ErrInvalidArgs else getIdsReply
      case SnapshotRegs => if reqSize != sizes.snapshotRegs then ErrInvalidArgs else snapshot
      case OtherCommand(_) => ErrInvalidArgs
  }

  class IntelHdaController {
    var freeInputTags: Mask
    var freeOutputTags: Mask
    var freeInputStreams: seq<Stream>
    var freeOutputStreams: seq<Stream>
    var freeBidirStreams: seq<Stream>

    predicate Valid()
      reads this
    {
      Pool(freeInputStreams, Input) && Pool(freeOutputStreams, Output) && Pool(freeBidirStreams, Bidir)
    }

    function TagPool(input: bool): Mask
      reads this
    {
      if input then freeInputTags else freeOutputTags
    }

    /**
     * AllocateStreamTagLocked: the lowest free tag of the direction's pool,
     * whose bit is cleared, or 0 with nothing changed. The other
     * direction's pool is untouched.
     */
    method AllocateStreamTag(input: bool) returns (tag: nat)
      modifies `freeInputTags, `freeOutputTags
      ensures LowestFreeTag(old(TagPool(input)), tag)
      ensures TagPool(input) == if tag == 0 then old(TagPool(input)) else old(TagPool(input))[tag := false]
      ensures TagPool(!input) == old(TagPool(!input))
    {
      var pool := if input then freeInputTags else freeOutputTags;
      var ret := 1;
      while ret < 16
        invariant 1 <= ret <= 16
        invariant forall u :: 1 <= u < ret ==> !pool[u]
      {
        if pool[ret] {
          pool := pool[ret := false];
          if input {
            freeInputTags := pool;
          } else {
            freeOutputTags := pool;
          }
          return ret;
        }
        ret := ret + 1;
      }
      tag := 0;
    }

    /** ReleaseStreamTagLocked: the caller gives back a tag in 1..15 that is taken; its bit is set again. */
    method ReleaseStreamTag(input: bool, tag: nat)
      requires 1 <= tag <= 15 && !TagPool(input)[tag]
      modifies `freeInputTags, `freeOutputTags
      ensures TagPool(input) == old(TagPool(input))[tag := true]
      ensures TagPool(!input) == old(TagPool(!input))
    {
      if input {
        freeInputTags := freeInputTags[tag := true];
      } else {
        freeOutputTags := freeOutputTags[tag := true];
      }
    }

    /** The pool AllocateStream draws from: the direction's own, or the bidirectional one when that is empty. */
    function DrawnPool(t: StreamType): StreamType
      reads this
    {
      if |FreePool(t)| > 0 then t else Bidir
    }

    /**
     * AllocateStream: the first stream of the source pool, configured with
     * the requested type and a fresh tag; null when the type is neither
     * input nor output, when both pools are empty or when the direction has
     * no free tag, with nothing changed.
     */
    method AllocateStream(t: StreamType) returns (s: Option<Stream>)
      requires Valid()
      modifies this
      ensures Valid()
      ensures t != Input && t != Output ==> s.None? && unchanged(this)
      ensures var d := old(DrawnPool(t));
        (t == Input || t == Output) ==>
        if |old(FreePool(d))| == 0 || LowestFreeTag(old(TagPool(t == Input)), 0) then
          s.None? && unchanged(this)
        else
          && s.Some? && s.value == old(FreePool(d))[0].(configuredType := t, tag := s.value.tag)
          && LowestFreeTag(old(TagPool(t == Input)), s.value.tag) && s.value.tag != 0
          && TagPool(t == Input) == old(TagPool(t == Input))[s.value.tag := false]
          && TagPool(t != Input) == old(TagPool(t != Input))
          && FreePool(d) == old(FreePool(d))[1..]
          && forall u :: u != d ==> FreePool(u) == old(FreePool(u))
    {
      if t != Input && t != Output {
        return None;
      }
      var input := t == Input;
      var own := if input then freeInputStreams else freeOutputStreams;
      var fromBidir := |own| == 0;
      if fromBidir && |freeBidirStreams| == 0 {
        return None;
      }
      var tag := AllocateStreamTag(input);
      if tag == 0 {
        return None;
      }
      var first: Stream;
      if !fromBidir && input {
        PoolTail(freeInputStreams, Input);
        first := freeInputStreams[0];
        freeInputStreams := freeInputStreams[1..];
      } else if !fromBidir {
        PoolTail(freeOutputStreams, Output);
        first := freeOutputStreams[0];
        freeOutputStreams := freeOutputStreams[1..];
      } else {
        PoolTail(freeBidirStreams, Bidir);
        first := freeBidirStreams[0];
        freeBidirStreams := freeBidirStreams[1..];
      }
      s := Some(first.(configuredType := t, tag := tag));
    }

    /** ReturnStreamLocked: the stream, unconfigured, goes back into the pool of its hardware type. */
    method ReturnStream(s: Stream)
      requires Valid() && s.hwType != Invalid
      requires !HasId(FreePool(s.hwType), s.id)
      modifies this
      ensures Valid()
      ensures FreePool(s.hwType) == InsertById(old(FreePool(s.hwType)), s.(configuredType := Invalid, tag := 0))
      ensures forall t :: t != s.hwType ==> FreePool(t) == old(FreePool(t))
      ensures freeInputTags == old(freeInputTags) && freeOutputTags == old(freeOutputTags)
    {
      var r := s.(configuredType := Invalid, tag := 0);
      InsertKeepsPool(FreePool(s.hwType), r);
      match s.hwType
      case Input => freeInputStreams := InsertById(freeInputStreams, r);
      case Output => freeOutputStreams := InsertById(freeOutputStreams, r);
      case Bidir => freeBidirStreams := InsertById(freeBidirStreams, r);
    }

    function FreePool(t: StreamType): seq<Stream>
      reads this
    {
      match t
      case Input => freeInputStreams
      case Output => freeOutputStreams
      case Bidir => freeBidirStreams
      case Invalid => []
    }
  }
}
