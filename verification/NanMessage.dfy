/** A firmware message under construction: a zeroed buffer, its header, and the moving TLV position. */
module NanMessage {
  import opened Wrappers
  import opened Words
  import opened NanTlv

  /** sizeof(NanMsgHeader). */
  const MSG_HEADER := 8

  const VERSION_1 := 1

  /** WIFI_ERROR_INVALID_ARGS or the finished message. */
  datatype Result<T> = Ok(value: T) | Invalid

  /** NanMsgHeader: a 4-bit version and a 12-bit id share the first two bytes. */
  function Header(id: nat, length: nat, handle: u16, transaction: u16): (bytes: seq<byte>)
    requires id < 4096
    ensures |bytes| == MSG_HEADER
  {
    TwoBytes(VERSION_1 + 16 * id) + TwoBytes(Wrap16(length)) + TwoBytes(handle) + TwoBytes(transaction)
  }

  /** What stands in the octets of a message's header: version and message id, length, handle, transaction. */
  predicate HeaderSays(msg: seq<byte>, id: nat, handle: u16, transaction: u16) {
    && |msg| >= 8
    && FromTwo(msg[0], msg[1]) % 16 == 1 && FromTwo(msg[0], msg[1]) / 16 == id
    && FromTwo(msg[2], msg[3]) == |msg| % 65536
    && FromTwo(msg[4], msg[5]) == handle
    && FromTwo(msg[6], msg[7]) == transaction
  }

  lemma HeaderOctets(id: nat, handle: u16, transaction: u16, rest: seq<byte>)
    requires id < 4096
    ensures HeaderSays(Header(id, MSG_HEADER + |rest|, handle, transaction) + rest, id, handle, transaction)
  {
    hide TwoBytes, FromTwo;
    var first, length := TwoBytes(VERSION_1 + 16 * id), TwoBytes(Wrap16(MSG_HEADER + |rest|));
    var msg := Header(id, MSG_HEADER + |rest|, handle, transaction) + rest;
    assert msg[0] == first[0] && msg[1] == first[1] && msg[2] == length[0] && msg[3] == length[1];
    assert msg[4] == TwoBytes(handle)[0] && msg[5] == TwoBytes(handle)[1];
    assert msg[6] == TwoBytes(transaction)[0] && msg[7] == TwoBytes(transaction)[1];
  }

  /** These octets leave no choice: they are the header. */
  lemma HeaderDetermined(msg: seq<byte>, id: nat, handle: u16, transaction: u16)
    requires id < 4096 && HeaderSays(msg, id, handle, transaction)
    ensures msg[..8] == Header(id, |msg|, handle, transaction)
  {
    TwoDetermined(msg[0], msg[1], VERSION_1 + 16 * id);
    TwoDetermined(msg[2], msg[3], |msg| % 65536);
    TwoDetermined(msg[4], msg[5], handle);
    TwoDetermined(msg[6], msg[7], transaction);
    hide FromTwo, TwoBytes;
    assert msg[..8] == [msg[0], msg[1]] + [msg[2], msg[3]] + [msg[4], msg[5]] + [msg[6], msg[7]];
  }

  lemma TwoDetermined(low: byte, high: byte, n: u16)
    requires FromTwo(low, high) == n
    ensures [low, high] == TwoBytes(n)
  {
  }

  /** A configuration flag together with the bytes of the field it selects. */
  datatype Field = Field(on: bool, val: seq<byte>)

  function Opt(f: Field, kind: u16): (ts: seq<Tlv>)
    requires |f.val| < 65536
  {
    if f.on then [Tlv(kind, f.val)] else []
  }

  /** What the length computation adds for a field of the given size. */
  function OptSize(on: bool, size: nat): nat {
    if on then TLV_HEADER + size else 0
  }

  predicate Small(f: Field) {
    |f.val| <= 65531
  }

  /** The value sent last under a type. */
  function LastValue(ts: seq<Tlv>, kind: u16): Option<seq<byte>> {
    if ts == [] then None
    else if ts[|ts| - 1].kind == kind then Some(ts[|ts| - 1].value)
    else LastValue(ts[..|ts| - 1], kind)
  }

  /** A receiver that walks the bytes behind a header meets exactly these TLVs and stops at the end. */
  predicate ReadsAs(msg: seq<byte>, from: nat, ts: seq<Tlv>) {
    from <= |msg| && Readable(msg, from, |msg| - from) && Walk(msg, from, |msg| - from) == ts
  }

  lemma WrittenReadsAs(head: seq<byte>, ts: seq<Tlv>)
    requires AllFit(ts)
    ensures ReadsAs(head + EncodeAll(ts), |head|, ts)
  {
    WalkVisitsWritten(head, ts, []);
    assert head + EncodeAll(ts) + [] == head + EncodeAll(ts);
  }

  /** Writing one more TLV behind the written part extends it by that TLV and keeps the rest. */
  lemma Extended(before: seq<byte>, after: seq<byte>, at: nat, head: seq<byte>, done: seq<Tlv>, t: Tlv)
    requires at + |Encode(t)| <= |before| && before[..at] == head + EncodeAll(done)
    requires after == before[..at] + Encode(t) + before[at + |Encode(t)|..]
    ensures |after| == |before| && after[..at + |Encode(t)|] == head + EncodeAll(done + [t])
    ensures after[at + |Encode(t)|..] == before[at + |Encode(t)|..]
  {
    hide EncodeAll, Encode;
    EncodeAllAppend(done, [t]);
    EncodeAllOne(t);
    Inserted(before, after, at, head, EncodeAll(done), Encode(t));
  }

  lemma Inserted(before: seq<byte>, after: seq<byte>, at: nat, head: seq<byte>, written: seq<byte>, e: seq<byte>)
    requires at + |e| <= |before| && before[..at] == head + written
    requires after == before[..at] + e + before[at + |e|..]
    ensures |after| == |before| && after[..at + |e|] == head + (written + e)
    ensures after[at + |e|..] == before[at + |e|..]
  {
    assert after[..at + |e|] == before[..at] + e;
  }

  class TlvBuffer {
    const buf: array<byte>
    var at: nat
    ghost const head: seq<byte>
    ghost var done: seq<Tlv>

    /** The written part is the header and the TLVs so far; everything behind it is still zero. */
    ghost predicate Valid()
      reads this, buf
    {
      && at <= buf.Length && AllFit(done)
      && buf[..at] == head + EncodeAll(done)
      && ZeroFrom(at)
    }

    ghost predicate ZeroFrom(pos: nat)
      reads this, buf
    {
      forall k | pos <= k < buf.Length :: buf[k] == 0
    }

    /** malloc, memset and the fixed part of the message. */
    constructor (size: nat, head: seq<byte>)
      requires |head| <= size
      ensures Valid() && fresh(buf) && buf.Length == size
      ensures at == |head| && this.head == head && done == []
    {
      buf := new byte[size](k requires k >= 0 => if k < |head| then head[k] else 0);
      at := |head|;
      this.head := head;
      done := [];
      new;
      assert buf[..at] == head == head + EncodeAll(done);
    }

    /** tlvs = addTlv(kind, length, source, tlvs), for a source that is the buffer's own next value or lies
        elsewhere. */
    method AddFrom(kind: u16, length: u16, src: array<byte>, from: nat)
      requires at <= buf.Length && buf[..at] == head + EncodeAll(done) && AllFit(done)
      requires length <= 65531 && at + TLV_HEADER + length <= buf.Length && ZeroFrom(at + TLV_HEADER + length)
      requires from + length <= src.Length
      requires src == buf ==> from == at + TLV_HEADER
      modifies this`at, this`done, buf
      ensures Valid()
      ensures at == old(at) + TLV_HEADER + length
      ensures done == old(done) + [Tlv(kind, old(src[from..from + length]))]
    {
      hide Encode, EncodeAll;
      ghost var t: Tlv := Tlv(kind, src[from..from + length]);
      ghost var before := buf[..];
      var len := WriteTlv(kind, length, src, from, buf, at);
      AdvanceIsExact(length);
      Extended(before, buf[..], at, head, done, t);
      at := at + len;
      done := done + [t];
      forall k | at <= k < buf.Length ensures buf[k] == 0 {
        assert buf[..][k] == before[k];
      }
    }

    /** if (flag) tlvs = addTlv(kind, sizeof(field), &field, tlvs). */
    method Add(f: Field, kind: u16)
      requires Valid() && Small(f) && at + OptSize(f.on, |f.val|) <= buf.Length
      modifies this`at, this`done, buf
      ensures Valid()
      ensures at == old(at) + OptSize(f.on, |f.val|)
      ensures done == old(done) + Opt(f, kind)
    {
      if f.on {
        var src := new byte[|f.val|](k requires 0 <= k < |f.val| => f.val[k]);
        assert src[0..0 + |f.val|] == f.val;
        AddFrom(kind, |f.val|, src, 0);
      }
    }
  }
}
