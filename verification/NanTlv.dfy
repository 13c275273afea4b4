/**
 The type-length-value coding of the NAN firmware messages: the writer and reader that move
 through byte buffers, the byte strings they produce, and the walk of the receive loops.
 */
module NanTlv {
  import opened Words

  /** One TLV. The length field has sixteen bits, so the value does not exceed it. */
  datatype TlvRaw = Tlv(kind: u16, value: seq<byte>)
  type Tlv = t: TlvRaw | |t.value| < 65536 witness TlvRaw.Tlv(0, [])

  /** SIZEOF_TLV_HDR. */
  const TLV_HEADER := 4

  function Encode(t: Tlv): (bytes: seq<byte>)
    ensures |bytes| == TLV_HEADER + |t.value|
  {
    TwoBytes(t.kind) + TwoBytes(|t.value|) + t.value
  }

  function EncodeAll(ts: seq<Tlv>): seq<byte> {
    if ts == [] then [] else Encode(ts[0]) + EncodeAll(ts[1..])
  }

  /** The advance of the writer and of the reader is the size of the TLV exactly up to 65531 value bytes. */
  lemma AdvanceIsExact(n: u16)
    ensures Wrap16(TLV_HEADER + n) == TLV_HEADER + n <==> n <= 65531
  {
  }

  /** A TLV whose whole size fits the sixteen-bit advance. */
  predicate Fits(t: Tlv) {
    |t.value| <= 65531
  }

  predicate AllFit(ts: seq<Tlv>) {
    forall t | t in ts :: Fits(t)
  }

  lemma {:induction false} EncodeAllAppend(a: seq<Tlv>, b: seq<Tlv>)
    ensures EncodeAll(a + b) == EncodeAll(a) + EncodeAll(b)
  {
    if a == [] {
      assert a + b == b;
    } else {
      assert (a + b)[0] == a[0] && (a + b)[1..] == a[1..] + b;
      EncodeAllAppend(a[1..], b);
    }
  }

  lemma EncodeAllOne(t: Tlv)
    ensures EncodeAll([t]) == Encode(t)
  {
    assert [t][1..] == [];
  }

  // ----- Writing -----

  /** A source region that overlaps the target only when it is the value's own final place. */
  predicate Placeable(same: bool, from: nat, length: nat, at: nat) {
    same ==> from == at + TLV_HEADER || from + length <= at || at + TLV_HEADER + length <= from
  }

  /** NANTLV_WriteTlv. The source may be the output buffer itself, with the value already in place. */
  method WriteTlv(kind: u16, length: u16, src: array<byte>, from: nat, out: array<byte>, at: nat)
    returns (writeLen: u16)
    requires from + length <= src.Length && at + TLV_HEADER + length <= out.Length
    requires Placeable(src == out, from, length, at)
    modifies out
    ensures out[..]
      == old(out[..at]) + Encode(Tlv(kind, old(src[from..from + length]))) + old(out[at + TLV_HEADER + length..])
    ensures writeLen == Wrap16(TLV_HEADER + length)
  {
    hide TwoBytes;
    ghost var value, before := src[from..from + length], out[..];
    ghost var header := TwoBytes(kind) + TwoBytes(length);
    writeLen := WriteHeader(kind, length, out, at);
    if src == out { HeaderSpares(before, at, header, from, length); }
    ghost var mid := out[..];
    CopyValue(src, from, length, out, at + TLV_HEADER);
    writeLen := Wrap16(writeLen + length);
    HeaderThenValue(before, at, header, value, mid);
  }

  lemma HeaderSpares(before: seq<byte>, at: nat, header: seq<byte>, from: nat, length: nat)
    requires |header| == TLV_HEADER && at + TLV_HEADER <= |before| && from + length <= |before|
    requires from == at + TLV_HEADER || from + length <= at || at + TLV_HEADER <= from
    ensures (before[..at] + header + before[at + TLV_HEADER..])[from..from + length] == before[from..from + length]
  {
  }

  lemma HeaderThenValue(before: seq<byte>, at: nat, header: seq<byte>, value: seq<byte>, mid: seq<byte>)
    requires |header| == TLV_HEADER && at + TLV_HEADER + |value| <= |before|
    requires mid == before[..at] + header + before[at + TLV_HEADER..]
    ensures mid[..at + TLV_HEADER] + value + mid[at + TLV_HEADER + |value|..]
         == before[..at] + (header + value) + before[at + TLV_HEADER + |value|..]
  {
    assert mid[..at + TLV_HEADER] == before[..at] + header;
    assert mid[at + TLV_HEADER + |value|..] == before[at + TLV_HEADER + |value|..];
  }

  method WriteHeader(kind: u16, length: u16, out: array<byte>, at: nat) returns (writeLen: u16)
    requires at + TLV_HEADER <= out.Length
    modifies out
    ensures out[..] == old(out[..at]) + (TwoBytes(kind) + TwoBytes(length)) + old(out[at + TLV_HEADER..])
    ensures writeLen == TLV_HEADER
  {
    writeLen := 0;
    out[at] := kind % 256;
    out[at + 1] := kind / 256;
    writeLen := writeLen + 2;
    out[at + 2] := length % 256;
    out[at + 3] := length / 256;
    writeLen := writeLen + 2;
  }

  method CopyValue(src: array<byte>, from: nat, length: u16, out: array<byte>, at: nat)
    requires from + length <= src.Length && at + length <= out.Length
    requires src == out ==> from == at || from + length <= at || at + length <= from
    modifies out
    ensures out[..] == old(out[..at]) + old(src[from..from + length]) + old(out[at + length..])
  {
    ghost var value, before := src[from..from + length], out[..];
    var i := 0;
    while i < length
      invariant 0 <= i <= length
      invariant src[from..from + length] == value
      invariant out[at..at + i] == value[..i]
      invariant out[..at] == before[..at] && out[at + length..] == before[at + length..]
    {
      assert src[from + i] == value[i];
      ghost var prefix := out[at..at + i];
      out[at + i] := src[from + i];
      assert out[at..at + i + 1] == prefix + [value[i]];
      assert value[..i + 1] == value[..i] + [value[i]];
      forall k | 0 <= k < length ensures src[from..from + length][k] == value[k] {
        if src == out && from + k == at + i { assert k == i; }
      }
      i := i + 1;
    }
    assert value[..length] == value;
    assert out[..] == out[..at] + out[at..at + length] + out[at + length..];
  }

  // ----- Reading -----

  /** The TLV whose header starts at a position. */
  function TlvAt(s: seq<byte>, at: nat): Tlv
    requires at + TLV_HEADER <= |s| && at + TLV_HEADER + FromTwo(s[at + 2], s[at + 3]) <= |s|
  {
    Tlv(FromTwo(s[at], s[at + 1]), s[at + TLV_HEADER..at + TLV_HEADER + FromTwo(s[at + 2], s[at + 3])])
  }

  predicate HeaderAt(s: seq<byte>, at: nat) {
    at + TLV_HEADER <= |s| && at + TLV_HEADER + FromTwo(s[at + 2], s[at + 3]) <= |s|
  }

  /** NANTLV_ReadTlv: type and length of the TLV at a position; its value starts behind the header. */
  method ReadTlv(buf: seq<byte>, at: nat) returns (readLen: u16, kind: u16, length: u16)
    requires HeaderAt(buf, at)
    ensures kind == TlvAt(buf, at).kind && length == |TlvAt(buf, at).value|
    ensures readLen == Wrap16(TLV_HEADER + length)
  {
    var pos := at;
    readLen := 0;
    kind := buf[pos];
    pos := pos + 1;
    kind := FromTwo(kind, buf[pos]);
    pos := pos + 1;
    readLen := readLen + 2;
    length := buf[pos];
    pos := pos + 1;
    length := FromTwo(length, buf[pos]);
    readLen := readLen + 2;
    readLen := Wrap16(readLen + length);
  }

  /** Everything the receive loop looks at from here on lies inside the buffer. */
  predicate Readable(s: seq<byte>, at: nat, remaining: int)
    decreases remaining
  {
    remaining > 0 ==>
      && HeaderAt(s, at)
      && var readLen := Wrap16(TLV_HEADER + |TlvAt(s, at).value|);
         readLen != 0 ==> Readable(s, at + readLen, remaining - readLen)
  }

  /** The TLVs the receive loop visits, in order: it stops when nothing remains, or on a length of
      65532, whose advance wraps to zero. */
  function Walk(s: seq<byte>, at: nat, remaining: int): seq<Tlv>
    requires Readable(s, at, remaining)
    decreases remaining
  {
    if remaining <= 0 then [] else
    var readLen := Wrap16(TLV_HEADER + |TlvAt(s, at).value|);
    if readLen == 0 then [] else [TlvAt(s, at)] + Walk(s, at + readLen, remaining - readLen)
  }

  /** What a receive loop makes of the TLVs it visits, one after the other. */
  function Fold<E>(step: (E, Tlv) -> E, e: E, ts: seq<Tlv>): E {
    if ts == [] then e else Fold(step, step(e, ts[0]), ts[1..])
  }

  /** One turn of a receive loop: it stops with nothing left, stops on a zero advance, or takes one TLV. */
  lemma WalkStep<E>(step: (E, Tlv) -> E, e: E, s: seq<byte>, at: nat, remaining: int)
    requires Readable(s, at, remaining)
    ensures remaining <= 0 ==> Fold(step, e, Walk(s, at, remaining)) == e
    ensures remaining > 0 ==>
      && HeaderAt(s, at)
      && var t := TlvAt(s, at);
         var readLen := Wrap16(TLV_HEADER + |t.value|);
         if readLen == 0 then Fold(step, e, Walk(s, at, remaining)) == e
         else
           && Readable(s, at + readLen, remaining - readLen)
           && Fold(step, e, Walk(s, at, remaining))
              == Fold(step, step(e, t), Walk(s, at + readLen, remaining - readLen))
  {
    if remaining > 0 {
      var readLen := Wrap16(TLV_HEADER + |TlvAt(s, at).value|);
      if readLen != 0 {
        assert Walk(s, at, remaining)[1..] == Walk(s, at + readLen, remaining - readLen);
      }
    }
  }

  lemma TlvAtWritten(front: seq<byte>, t: Tlv, back: seq<byte>)
    ensures var s := front + Encode(t) + back;
            HeaderAt(s, |front|) && TlvAt(s, |front|) == t
  {
    var s, at, e := front + Encode(t) + back, |front|, Encode(t);
    assert forall k | 0 <= k < |e| :: s[at + k] == e[k];
    assert s[at + 0] == e[0] && s[at + 1] == e[1] && s[at + 2] == e[2] && s[at + 3] == e[3];
    assert FromTwo(e[0], e[1]) == t.kind && FromTwo(e[2], e[3]) == |t.value|;
    assert s[at + 4..at + 4 + |t.value|] == t.value;
  }

  /** On a concatenation of written TLVs the loop visits exactly those TLVs, in order, and stops at the end. */
  lemma {:induction false} WalkVisitsWritten(front: seq<byte>, ts: seq<Tlv>, back: seq<byte>)
    requires AllFit(ts)
    ensures var s := front + EncodeAll(ts) + back;
            Readable(s, |front|, |EncodeAll(ts)|) && Walk(s, |front|, |EncodeAll(ts)|) == ts
    decreases |ts|
  {
    hide TlvAt, HeaderAt, Encode;
    var s := front + EncodeAll(ts) + back;
    if ts != [] {
      var t, rest := ts[0], ts[1..];
      assert t in ts;
      assert s == front + Encode(t) + (EncodeAll(rest) + back);
      assert s == (front + Encode(t)) + EncodeAll(rest) + back;
      TlvAtWritten(front, t, EncodeAll(rest) + back);
      WalkVisitsWritten(front + Encode(t), rest, back);
    }
  }

  /** Reading back what was written gives the same list. */
  lemma RoundTrip(ts: seq<Tlv>)
    requires AllFit(ts)
    ensures Readable(EncodeAll(ts), 0, |EncodeAll(ts)|) && Walk(EncodeAll(ts), 0, |EncodeAll(ts)|) == ts
  {
    WalkVisitsWritten([], ts, []);
    assert [] + EncodeAll(ts) + [] == EncodeAll(ts);
  }

  /** Two different lists never share their bytes. */
  lemma EncodingIsInjective(a: seq<Tlv>, b: seq<Tlv>)
    requires AllFit(a) && AllFit(b) && EncodeAll(a) == EncodeAll(b)
    ensures a == b
  {
    RoundTrip(a);
    RoundTrip(b);
  }
}
