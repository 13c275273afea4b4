/** Values that hold further structure: the post-discovery attribute and the further-availability map. */
module NanNested {
  import opened Words
  import opened NanTlv
  import opened NanMessage
  import opened NanTypes

  /** NAN_CONN_WLAN_INFRA and NAN_CONN_WLAN_MESH. */
  const WLAN_INFRA := 0
  const WLAN_MESH := 3

  type Bytes4 = s: seq<byte> | |s| == 4 witness [0, 0, 0, 0]
  type Mac = s: seq<byte> | |s| == MAC_ADDR_LEN witness [0, 0, 0, 0, 0, 0]

  // ----- Post-discovery attribute, transmit side -----

  datatype TxDiscovery = TxDiscovery(
    kind: byte, role: byte, freq: bool, duration: byte, bitmap: Bytes4, addr: Mac, meshId: seq<byte>, ssid: seq<byte>)

  predicate TxFits(d: TxDiscovery) {
    |d.meshId| <= 65000 && |d.ssid| <= 65000
  }

  /** calcNanTransmitPostDiscoverySize. */
  function PostDiscoverySize(d: TxDiscovery): nat {
    8 + TLV_HEADER + MAC_ADDR_LEN
    + (if d.kind == WLAN_MESH then TLV_HEADER + |d.meshId| else 0)
    + (if d.kind == WLAN_INFRA then TLV_HEADER + |d.ssid| else 0)
  }

  function InnerTlvs(d: TxDiscovery): seq<Tlv>
    requires TxFits(d)
  {
    [Tlv(MAC_ADDRESS, d.addr)]
    + Opt(Field(d.kind == WLAN_MESH, d.meshId), WLAN_MESH_ID)
    + Opt(Field(d.kind == WLAN_INFRA, d.ssid), WLAN_INFRA_SSID)
  }

  /** Octet 2 on transmit: the frequency flag in bit 0, the duration in bits 1 and 2. */
  function TxOctet(d: TxDiscovery): byte {
    (if d.freq then 1 else 0) + 2 * (d.duration % 4)
  }

  function PostDiscoveryValue(d: TxDiscovery): (value: seq<byte>)
    requires TxFits(d)
  {
    [d.kind, d.role, TxOctet(d), 0] + d.bitmap + EncodeAll(InnerTlvs(d))
  }

  lemma InnerBytes(d: TxDiscovery)
    requires TxFits(d)
    ensures EncodeAll(InnerTlvs(d)) == Encode(Tlv(MAC_ADDRESS, d.addr))
      + (if d.kind == WLAN_MESH then Encode(Tlv(WLAN_MESH_ID, d.meshId)) else [])
      + (if d.kind == WLAN_INFRA then Encode(Tlv(WLAN_INFRA_SSID, d.ssid)) else [])
  {
    hide Encode;
    var mac, rest := [Tlv(MAC_ADDRESS, d.addr)], InnerTlvs(d)[1..];
    assert InnerTlvs(d) == mac + rest;
    EncodeAllAppend(mac, rest);
    EncodeAllOne(mac[0]);
    if rest != [] {
      assert rest == [rest[0]];
      EncodeAllOne(rest[0]);
    }
  }

  /** The precomputed size is the size of the value. */
  lemma PostDiscoverySizeExact(d: TxDiscovery)
    requires TxFits(d)
    ensures |PostDiscoveryValue(d)| == PostDiscoverySize(d)
  {
    InnerBytes(d);
  }

  method CopyField(s: seq<byte>, out: array<byte>, at: nat)
    requires at + |s| <= out.Length
    modifies out
    ensures out[..] == old(out[..at]) + s + old(out[at + |s|..])
  {
    for i := 0 to |s|
      invariant out[..] == old(out[..at]) + s[..i] + old(out[at + i..])
    {
      out[at + i] := s[i];
    }
  }

  /** addTlv from a field outside the message. */
  method AddField(kind: u16, s: seq<byte>, out: array<byte>, at: nat) returns (next: nat)
    requires |s| <= 65531 && at + TLV_HEADER + |s| <= out.Length
    modifies out
    ensures next == at + TLV_HEADER + |s|
    ensures out[..] == old(out[..at]) + Encode(Tlv(kind, s)) + old(out[next..])
  {
    var src := new byte[|s|](k requires 0 <= k < |s| => s[k]);
    assert src[0..0 + |s|] == s;
    var len := WriteTlv(kind, |s|, src, 0, out, at);
    AdvanceIsExact(|s|);
    next := at + len;
  }

  lemma Splice(before: seq<byte>, at: nat, a: seq<byte>, mid: seq<byte>, b: seq<byte>)
    requires at + |a| + |b| <= |before| && mid == before[..at] + a + before[at + |a|..]
    ensures mid[..at + |a|] + b + mid[at + |a| + |b|..] == before[..at] + (a + b) + before[at + |a| + |b|..]
  {
    assert mid[..at + |a|] == before[..at] + a;
    assert mid[at + |a| + |b|..] == before[at + |a| + |b|..];
  }

  /** fillNanTransmitPostDiscoveryVal: octet 3 is left as it was, the rest of the value is written. */
  method FillPostDiscovery(d: TxDiscovery, out: array<byte>, at: nat)
    requires TxFits(d) && at + PostDiscoverySize(d) <= out.Length && out[at + 3] == 0
    modifies out
    ensures |PostDiscoveryValue(d)| == PostDiscoverySize(d)
    ensures out[..] == old(out[..at]) + PostDiscoveryValue(d) + old(out[at + PostDiscoverySize(d)..])
  {
    ValueParts(d);
    hide Encode, PostDiscoveryValue, TxOctet;
    ghost var before := out[..];
    FillFixed(d, out, at);
    ghost var fixed := [d.kind, d.role, TxOctet(d), 0] + d.bitmap;
    ghost var mid := out[..];
    var next := AddField(MAC_ADDRESS, d.addr, out, at + 8);
    Splice(before, at, fixed, mid, Encode(Tlv(MAC_ADDRESS, d.addr)));
    FillIdentity(d, out, at, next, before, fixed + Encode(Tlv(MAC_ADDRESS, d.addr)));
  }

  lemma ValueParts(d: TxDiscovery)
    requires TxFits(d)
    ensures |PostDiscoveryValue(d)| == PostDiscoverySize(d)
    ensures PostDiscoveryValue(d)
      == [d.kind, d.role, TxOctet(d), 0] + d.bitmap + Encode(Tlv(MAC_ADDRESS, d.addr))
      + (if d.kind == WLAN_MESH then Encode(Tlv(WLAN_MESH_ID, d.meshId)) else [])
      + (if d.kind == WLAN_INFRA then Encode(Tlv(WLAN_INFRA_SSID, d.ssid)) else [])
  {
    PostDiscoverySizeExact(d);
    hide Encode, EncodeAll, InnerTlvs, TxOctet;
    InnerBytes(d);
  }

  /** The mesh id or the SSID behind what is already written. */
  method FillIdentity(d: TxDiscovery, out: array<byte>, at: nat, next: nat, ghost before: seq<byte>,
                      ghost done: seq<byte>)
    requires TxFits(d) && next == at + |done| && at + PostDiscoverySize(d) <= out.Length == |before|
    requires |done| == 8 + TLV_HEADER + MAC_ADDR_LEN
    requires out[..] == before[..at] + done + before[next..]
    modifies out
    ensures out[..] == before[..at]
      + (done + (if d.kind == WLAN_MESH then Encode(Tlv(WLAN_MESH_ID, d.meshId)) else [])
              + (if d.kind == WLAN_INFRA then Encode(Tlv(WLAN_INFRA_SSID, d.ssid)) else []))
      + before[at + PostDiscoverySize(d)..]
  {
    hide Encode;
    ghost var mid := out[..];
    if d.kind == WLAN_MESH {
      var end := AddField(WLAN_MESH_ID, d.meshId, out, next);
      Splice(before, at, done, mid, Encode(Tlv(WLAN_MESH_ID, d.meshId)));
    }
    if d.kind == WLAN_INFRA {
      var end := AddField(WLAN_INFRA_SSID, d.ssid, out, next);
      Splice(before, at, done, mid, Encode(Tlv(WLAN_INFRA_SSID, d.ssid)));
    }
  }

  method FillFixed(d: TxDiscovery, out: array<byte>, at: nat)
    requires at + 8 <= out.Length && out[at + 3] == 0
    modifies out
    ensures out[..] == old(out[..at]) + ([d.kind, d.role, TxOctet(d), 0] + d.bitmap) + old(out[at + 8..])
  {
    out[at] := d.kind;
    out[at + 1] := d.role;
    out[at + 2] := if d.freq then 1 else 0;
    out[at + 2] := out[at + 2] + 2 * (d.duration % 4);
    CopyField(d.bitmap, out, at + 4);
  }

  function PostTlv(d: TxDiscovery): Tlv
    requires TxFits(d)
  {
    PostDiscoverySizeExact(d);
    Tlv(DISCOVERY_ATTRIBUTE_TRANSMIT, PostDiscoveryValue(d))
  }

  function PostLength(ds: seq<TxDiscovery>): nat {
    if ds == [] then 0 else TLV_HEADER + PostDiscoverySize(ds[0]) + PostLength(ds[1..])
  }

  function PostTlvs(ds: seq<TxDiscovery>): seq<Tlv>
    requires forall d | d in ds :: TxFits(d)
  {
    seq(|ds|, i requires 0 <= i < |ds| => PostTlv(ds[i]))
  }

  /** Built at tlvs + 4 and then added with that very address as the source: the message grows by the same TLV a
      separate buffer would give. */
  method AddPostDiscovery(b: TlvBuffer, d: TxDiscovery)
    requires TxFits(d) && b.Valid() && b.at + TLV_HEADER + PostDiscoverySize(d) <= b.buf.Length
    modifies b`at, b`done, b.buf
    ensures b.Valid() && b.at == old(b.at) + TLV_HEADER + PostDiscoverySize(d)
    ensures b.done == old(b.done) + [PostTlv(d)]
  {
    hide EncodeAll, PostDiscoveryValue;
    var size := PostDiscoverySize(d);
    ghost var before := b.buf[..];
    FillPostDiscovery(d, b.buf, b.at + TLV_HEADER);
    ghost var mid := b.buf[..];
    Placed(before, b.at, PostDiscoveryValue(d), mid);
    forall k | b.at + TLV_HEADER + size <= k < b.buf.Length ensures b.buf[k] == 0 {
      assert mid[k] == before[k];
    }
    b.AddFrom(DISCOVERY_ATTRIBUTE_TRANSMIT, size, b.buf, b.at + TLV_HEADER);
  }

  lemma Placed(before: seq<byte>, at: nat, value: seq<byte>, mid: seq<byte>)
    requires at + TLV_HEADER + |value| <= |before|
    requires mid == before[..at + TLV_HEADER] + value + before[at + TLV_HEADER + |value|..]
    ensures mid[..at] == before[..at] && mid[at + TLV_HEADER..at + TLV_HEADER + |value|] == value
    ensures forall k | at + TLV_HEADER + |value| <= k < |before| :: mid[k] == before[k]
  {
  }

  method AddPostDiscoveries(b: TlvBuffer, ds: seq<TxDiscovery>)
    requires (forall d | d in ds :: TxFits(d)) && b.Valid() && b.at + PostLength(ds) <= b.buf.Length
    modifies b`at, b`done, b.buf
    ensures b.Valid() && b.at == old(b.at) + PostLength(ds) && b.done == old(b.done) + PostTlvs(ds)
  {
    hide PostDiscoverySize, PostTlv, EncodeAll, AllFit;
    for i := 0 to |ds|
      invariant b.Valid()
      invariant b.at + PostLength(ds[i..]) == old(b.at) + PostLength(ds)
      invariant b.done == old(b.done) + PostTlvs(ds)[..i]
    {
      assert ds[i..][1..] == ds[i + 1..];
      AddPostDiscovery(b, ds[i]);
      assert PostTlvs(ds)[..i + 1] == PostTlvs(ds)[..i] + [PostTlv(ds[i])];
    }
  }

  // ----- Post-discovery attribute, receive side -----

  /** The event's fields; the mesh id and the ssid are arrays of the capacity the header fixes. */
  datatype RxDiscovery = RxDiscovery(
    kind: byte, role: byte, duration: byte, mapid: byte, bitmap: Bytes4, addr: Mac,
    meshId: seq<byte>, meshIdLen: nat, ssid: seq<byte>, ssidLen: nat)

  function Min(a: nat, b: nat): nat {
    if a < b then a else b
  }

  /** A copy clamped to the capacity of the target: whatever lies behind the copied part stays. */
  function Clamped(target: seq<byte>, value: seq<byte>): (r: seq<byte>)
    ensures |r| == |target|
  {
    value[..Min(|value|, |target|)] + target[Min(|value|, |target|)..]
  }

  function RxTlv(rx: RxDiscovery, t: Tlv): RxDiscovery {
    if t.kind == MAC_ADDRESS then rx.(addr := Clamped(rx.addr, t.value))
    else if t.kind == WLAN_MESH_ID then
      rx.(meshId := Clamped(rx.meshId, t.value), meshIdLen := Min(|t.value|, |rx.meshId|))
    else if t.kind == WLAN_INFRA_SSID then
      rx.(ssid := Clamped(rx.ssid, t.value), ssidLen := Min(|t.value|, |rx.ssid|))
    else rx
  }

  /** Octet 2 on receive: the duration in bits 0 and 1, the map id in bits 2 to 5. */
  function RxFixed(value: seq<byte>, rx: RxDiscovery): RxDiscovery
    requires |value| > 8
  {
    rx.(kind := value[0], role := value[1], duration := value[2] % 4, mapid := value[2] / 4 % 16, bitmap := value[4..8])
  }

  /** getNanReceivePostDiscoveryVal. */
  method GetPostDiscovery(value: seq<byte>, before: RxDiscovery) returns (ret: int, rx: RxDiscovery)
    requires |value| > 8 ==> Readable(value, 8, |value| - 8)
    ensures |value| <= 8 ==> ret == -1 && rx == before
    ensures |value| > 8 ==> ret == 0 && rx == Fold(RxTlv, RxFixed(value, before), Walk(value, 8, |value| - 8))
  {
    hide RxTlv, Walk, Readable, Fold, TlvAt, HeaderAt;
    ret, rx := 0, before;
    if |value| <= 8 {
      return -1, rx;
    }
    rx := rx.(kind := value[0], role := value[1]);
    rx := rx.(duration := value[2] % 4, mapid := value[2] / 4 % 16, bitmap := value[4..8]);
    var at: nat, remaining: int := 8, |value| - 8;
    WalkStep(RxTlv, rx, value, at, remaining);
    while remaining > 0
      invariant 0 <= at && Readable(value, at, remaining)
      invariant Fold(RxTlv, rx, Walk(value, at, remaining))
             == Fold(RxTlv, RxFixed(value, before), Walk(value, 8, |value| - 8))
      decreases remaining
    {
      WalkStep(RxTlv, rx, value, at, remaining);
      var readLen, kind, length := ReadTlv(value, at);
      if readLen == 0 { return; }
      rx := StoreInner(value, at, kind, length, rx);
      remaining := remaining - readLen;
      at := at + readLen;
    }
    WalkStep(RxTlv, rx, value, at, remaining);
  }

  /** The switch on the type, with its clamps; the caller's advance does not depend on them. */
  method StoreInner(value: seq<byte>, at: nat, kind: u16, length: u16, rx0: RxDiscovery) returns (rx: RxDiscovery)
    requires HeaderAt(value, at) && kind == TlvAt(value, at).kind && length == |TlvAt(value, at).value|
    ensures rx == RxTlv(rx0, TlvAt(value, at))
  {
    rx := rx0;
    var from, copied := at + TLV_HEADER, length;
    if kind == MAC_ADDRESS {
      if copied > MAC_ADDR_LEN { copied := MAC_ADDR_LEN; }
      rx := rx.(addr := value[from..from + copied] + rx.addr[copied..]);
    } else if kind == WLAN_MESH_ID {
      if copied > |rx.meshId| { copied := |rx.meshId|; }
      rx := rx.(meshId := value[from..from + copied] + rx.meshId[copied..], meshIdLen := copied);
    } else if kind == WLAN_INFRA_SSID {
      if copied > |rx.ssid| { copied := |rx.ssid|; }
      rx := rx.(ssid := value[from..from + copied] + rx.ssid[copied..], ssidLen := copied);
    }
    assert TlvAt(value, at).value[..copied] == value[from..from + copied];
  }

  /** What getNanReceivePostDiscoveryVal makes of a transmitted value. */
  function Received(d: TxDiscovery, before: RxDiscovery): RxDiscovery
    requires TxFits(d)
  {
    var value := PostDiscoveryValue(d);
    InnerRoundTrip(d);
    Fold(RxTlv, RxFixed(value, before), Walk(value, 8, |value| - 8))
  }

  lemma InnerRoundTrip(d: TxDiscovery)
    requires TxFits(d)
    ensures |PostDiscoveryValue(d)| > 8
    ensures ReadsAs(PostDiscoveryValue(d), 8, InnerTlvs(d))
  {
    PostDiscoverySizeExact(d);
    WrittenReadsAs([d.kind, d.role, TxOctet(d), 0] + d.bitmap, InnerTlvs(d));
  }

  /** The receiver recovers type, role, bitmap, address and, within its capacities, mesh id or ssid. */
  lemma PostDiscoveryRecovered(d: TxDiscovery, before: RxDiscovery)
    requires TxFits(d)
    ensures var rx := Received(d, before);
      && rx.kind == d.kind && rx.role == d.role && rx.bitmap == d.bitmap && rx.addr == d.addr
      && (if d.kind == WLAN_MESH
          then rx.meshIdLen == Min(|d.meshId|, |before.meshId|) && rx.meshId == Clamped(before.meshId, d.meshId)
          else rx.meshIdLen == before.meshIdLen && rx.meshId == before.meshId)
      && (if d.kind == WLAN_INFRA
          then rx.ssidLen == Min(|d.ssid|, |before.ssid|) && rx.ssid == Clamped(before.ssid, d.ssid)
          else rx.ssidLen == before.ssidLen && rx.ssid == before.ssid)
  {
    InnerRoundTrip(d);
    var value := PostDiscoveryValue(d);
    hide EncodeAll, Walk;
    var rx0 := RxFixed(value, before);
    var ts := InnerTlvs(d);
    var rx1 := RxTlv(rx0, ts[0]);
    assert ts[0] == Tlv(MAC_ADDRESS, d.addr);
    assert Clamped(rx0.addr, d.addr) == d.addr;
    assert Fold(RxTlv, rx0, ts) == Fold(RxTlv, rx1, ts[1..]);
    if |ts| == 2 {
      assert ts[1..][1..] == [];
      assert Fold(RxTlv, rx1, ts[1..]) == RxTlv(rx1, ts[1]);
    } else {
      assert ts[1..] == [];
      assert Fold(RxTlv, rx1, []) == rx1;
    }
  }

  /** The two layouts of octet 2 differ: the receiver sees the sender's duration only where they coincide. */
  lemma DurationRecovered(d: TxDiscovery, before: RxDiscovery)
    requires TxFits(d) && d.duration < 4
    ensures Received(d, before).duration == d.duration <==> d.duration == if d.freq then 3 else 0
    ensures Received(d, before).mapid == d.duration / 2
  {
    InnerRoundTrip(d);
    FoldKeepsOctet(RxFixed(PostDiscoveryValue(d), before), InnerTlvs(d));
    hide EncodeAll, Walk;
  }

  lemma {:induction false} FoldKeepsOctet(rx: RxDiscovery, ts: seq<Tlv>)
    ensures var after := Fold(RxTlv, rx, ts);
            after.duration == rx.duration && after.mapid == rx.mapid
    decreases |ts|
  {
    if ts != [] {
      FoldKeepsOctet(RxTlv(rx, ts[0]), ts[1..]);
    }
  }

  // ----- Further-availability map -----

  datatype Channel = Channel(duration: byte, mapid: byte, opClass: byte, channel: byte, bitmap: Bytes4)

  /** sizeof(NanFurtherAvailabilityChan). */
  const CHAN_SIZE := 7

  /** calcNanFurtherAvailabilityMapSize, for a capacity of cap channels. */
  function FamSize(cs: seq<Channel>, cap: byte): nat {
    if 0 < |cs| <= cap then 1 + |cs| * CHAN_SIZE else 0
  }

  /** The two-bit and the four-bit field truncate what is stored in them. */
  function ChanBytes(c: Channel): (bytes: seq<byte>)
    ensures |bytes| == CHAN_SIZE
  {
    [c.duration % 4 + 4 * (c.mapid % 16), c.opClass, c.channel] + c.bitmap
  }

  function ChansBytes(cs: seq<Channel>): seq<byte> {
    if cs == [] then [] else ChansBytes(cs[..|cs| - 1]) + ChanBytes(cs[|cs| - 1])
  }

  function FamValue(cs: seq<Channel>): seq<byte>
    requires |cs| < 256
  {
    [|cs|] + ChansBytes(cs)
  }

  lemma {:induction false} ChansBytesAt(cs: seq<Channel>, i: nat)
    requires i < |cs|
    ensures |ChansBytes(cs)| == |cs| * CHAN_SIZE
    ensures ChansBytes(cs)[i * CHAN_SIZE..(i + 1) * CHAN_SIZE] == ChanBytes(cs[i])
    decreases |cs|
  {
    var front := cs[..|cs| - 1];
    if front != [] {
      ChansBytesAt(front, if i < |front| then i else 0);
    }
    if i < |front| {
      assert front[i] == cs[i];
    }
  }

  /** fillNanFurtherAvailabilityMapVal: clears the region, then writes the count and channel after channel. */
  method FillFam(cs: seq<Channel>, cap: byte, out: array<byte>, at: nat)
    requires 0 < |cs| <= cap && at + FamSize(cs, cap) <= out.Length
    modifies out
    ensures |FamValue(cs)| == FamSize(cs, cap)
    ensures out[..] == old(out[..at]) + FamValue(cs) + old(out[at + FamSize(cs, cap)..])
  {
    hide ChanBytes;
    ChansBytesAt(cs, 0);
    var size := FamSize(cs, cap);
    ghost var start := out[..];
    for i := 0 to size
      invariant forall k | 0 <= k < out.Length :: out[k] == if at <= k < at + i then 0 else start[k]
    {
      out[at + i] := 0;
    }
    ghost var before := out[..];
    assert before[..at] == start[..at] && before[at + size..] == start[at + size..];
    out[at] := |cs|;
    FillChannels(cs, out, at, before);
  }

  lemma ChansBytesNext(cs: seq<Channel>, i: nat)
    requires i < |cs|
    ensures ChansBytes(cs[..i + 1]) == ChansBytes(cs[..i]) + ChanBytes(cs[i])
    ensures [|cs|] + ChansBytes(cs[..i + 1]) == [|cs|] + ChansBytes(cs[..i]) + ChanBytes(cs[i])
  {
    assert cs[..i + 1][..i] == cs[..i];
  }

  method FillChannels(cs: seq<Channel>, out: array<byte>, at: nat, ghost before: seq<byte>)
    requires |cs| < 256 && at + 1 + |cs| * CHAN_SIZE <= out.Length
    requires |before| == out.Length && out[..] == before[..at] + [|cs|] + before[at + 1..]
    modifies out
    ensures |FamValue(cs)| == 1 + |cs| * CHAN_SIZE
    ensures out[..] == before[..at] + FamValue(cs) + before[at + |FamValue(cs)|..]
  {
    assert ChansBytes(cs[..0]) == [];
    hide ChanBytes, ChansBytes;
    for i := 0 to |cs|
      invariant |ChansBytes(cs[..i])| == i * CHAN_SIZE
      invariant out[..] == before[..at] + ([|cs|] + ChansBytes(cs[..i])) + before[at + 1 + i * CHAN_SIZE..]
    {
      ghost var mid := out[..];
      ghost var done := [|cs|] + ChansBytes(cs[..i]);
      FillChan(cs[i], out, at + 1 + i * CHAN_SIZE);
      Splice(before, at, done, mid, ChanBytes(cs[i]));
      ChansBytesNext(cs, i);
    }
    assert cs[..|cs|] == cs;
  }

  method FillChan(c: Channel, out: array<byte>, to: nat)
    requires to + CHAN_SIZE <= out.Length
    modifies out
    ensures out[..] == old(out[..to]) + ChanBytes(c) + old(out[to + CHAN_SIZE..])
  {
    out[to] := c.duration % 4 + 4 * (c.mapid % 16);
    out[to + 1] := c.opClass;
    out[to + 2] := c.channel;
    CopyField(c.bitmap, out, to + 3);
  }

  /** The channel a seven-byte entry describes. */
  function ChanAt(value: seq<byte>, i: nat): Channel
    requires 1 + (i + 1) * CHAN_SIZE <= |value|
  {
    var from := 1 + i * CHAN_SIZE;
    Channel(value[from] % 4, value[from] / 4 % 16, value[from + 1], value[from + 2], value[from + 3..from + 7])
  }

  function ChansOf(value: seq<byte>, n: nat): seq<Channel>
    requires 1 + n * CHAN_SIZE <= |value|
  {
    seq(n, i requires 0 <= i < n => assert (i + 1) * CHAN_SIZE <= n * CHAN_SIZE; ChanAt(value, i))
  }

  predicate FamAccepted(value: seq<byte>, cap: byte) {
    |value| > 0 && value[0] <= cap && |value| >= 1 + value[0] * CHAN_SIZE
  }

  /** getNanFurtherAvailabilityMap: the count is stored before it is checked. */
  method GetFam(value: seq<byte>, cap: byte, numBefore: byte) returns (ret: int, num: byte, cs: seq<Channel>)
    ensures ret == if FamAccepted(value, cap) then 0 else -1
    ensures num == if |value| == 0 then numBefore else value[0]
    ensures ret == 0 ==> cs == ChansOf(value, num)
    ensures ret != 0 ==> cs == []
  {
    ret, num, cs := 0, numBefore, [];
    if |value| == 0 {
      return -1, num, cs;
    }
    num := value[0];
    if num > cap || |value| < 1 + num * CHAN_SIZE {
      return -1, num, cs;
    }
    var idx := 0;
    while idx < num
      invariant 0 <= idx <= num && |cs| == idx
      invariant forall k | 0 <= k < idx :: cs[k] == ChanAt(value, k)
    {
      var from := 1 + idx * CHAN_SIZE;
      cs := cs + [Channel(value[from] % 4, value[from] / 4 % 16, value[from + 1], value[from + 2],
                          value[from + 3..from + 7])];
      idx := idx + 1;
    }
  }

  predicate InFields(c: Channel) {
    c.duration < 4 && c.mapid < 16
  }

  /** The receiver accepts what the filler wrote and returns the same list exactly when every
      duration has two bits and every map id four. */
  lemma FamRoundTrip(cs: seq<Channel>, cap: byte)
    requires 0 < |cs| <= cap
    ensures |FamValue(cs)| == FamSize(cs, cap) && FamAccepted(FamValue(cs), cap) && FamValue(cs)[0] == |cs|
    ensures ChansOf(FamValue(cs), |cs|) == cs <==> forall c | c in cs :: InFields(c)
  {
    var value := FamValue(cs);
    ChansBytesAt(cs, 0);
    forall i | 0 <= i < |cs|
      ensures ChanAt(value, i) == cs[i].(duration := cs[i].duration % 4, mapid := cs[i].mapid % 16)
    {
      ChanAtWritten(cs, i);
    }
    SameChannels(cs, ChansOf(value, |cs|));
  }

  lemma SameChannels(cs: seq<Channel>, got: seq<Channel>)
    requires |got| == |cs|
    requires forall i | 0 <= i < |cs| :: got[i] == cs[i].(duration := cs[i].duration % 4, mapid := cs[i].mapid % 16)
    ensures got == cs <==> forall c | c in cs :: InFields(c)
  {
    if got == cs {
      forall c | c in cs ensures InFields(c) {
        var i :| 0 <= i < |cs| && cs[i] == c;
        assert got[i] == c;
      }
    } else {
      var i :| 0 <= i < |cs| && got[i] != cs[i];
      assert !InFields(cs[i]);
    }
  }

  /** The bytes of a channel stand in the map at its place. */
  lemma EntryBytes(cs: seq<Channel>, i: nat)
    requires i < |cs| < 256
    ensures |FamValue(cs)| == 1 + 7 * |cs| && 1 + 7 * (i + 1) <= |FamValue(cs)|
    ensures var v, at, entry := FamValue(cs), 1 + 7 * i, ChanBytes(cs[i]);
            v[at..at + 7] == entry && v[at] == entry[0] && v[at + 1] == entry[1] && v[at + 2] == entry[2]
  {
    hide ChansBytes, ChanBytes;
    ChansBytesAt(cs, i);
    var v, at := FamValue(cs), 1 + 7 * i;
    assert v[1..] == ChansBytes(cs);
    assert v[at..at + 7] == v[1..][at - 1..at + 6];
    assert v[at] == v[at..at + 7][0] && v[at + 1] == v[at..at + 7][1] && v[at + 2] == v[at..at + 7][2];
  }

  lemma ChanAtWritten(cs: seq<Channel>, i: nat)
    requires i < |cs| < 256
    ensures 1 + (i + 1) * CHAN_SIZE <= |FamValue(cs)|
    ensures ChanAt(FamValue(cs), i) == cs[i].(duration := cs[i].duration % 4, mapid := cs[i].mapid % 16)
  {
    hide FamValue;
    EntryBytes(cs, i);
    var v, at := FamValue(cs), 1 + 7 * i;
    assert v[at + 3..at + 7] == v[at..at + 7][3..];
    assert ChanBytes(cs[i])[3..] == cs[i].bitmap;
  }

  /** Octet by octet: the count, and per channel the packed entry control, the operating class, the channel and the
      bitmap. */
  lemma FamLayout(cs: seq<Channel>, i: nat)
    requires i < |cs| < 256
    ensures |FamValue(cs)| == 1 + 7 * |cs| && FamValue(cs)[0] == |cs|
    ensures var v, at, c := FamValue(cs), 1 + 7 * i, cs[i];
      && v[at] % 4 == c.duration % 4 && v[at] / 4 == c.mapid % 16
      && v[at + 1] == c.opClass && v[at + 2] == c.channel && v[at + 3..at + 7] == c.bitmap
  {
    EntryBytes(cs, i);
    var v, at := FamValue(cs), 1 + 7 * i;
    assert v[at + 3..at + 7] == v[at..at + 7][3..];
    assert ChanBytes(cs[i])[3..] == cs[i].bitmap;
  }

  function FamTlvs(on: bool, cs: seq<Channel>, cap: byte): seq<Tlv> {
    if on && FamSize(cs, cap) > 0 then
      (ChansBytesAt(cs, 0); [Tlv(FURTHER_AVAILABILITY_MAP, FamValue(cs))])
    else []
  }

  function FamLength(on: bool, cs: seq<Channel>, cap: byte): nat {
    if on && FamSize(cs, cap) > 0 then TLV_HEADER + FamSize(cs, cap) else 0
  }

  method AddFam(b: TlvBuffer, on: bool, cs: seq<Channel>, cap: byte)
    requires b.Valid() && b.at + FamLength(on, cs, cap) <= b.buf.Length
    modifies b`at, b`done, b.buf
    ensures b.Valid() && b.at == old(b.at) + FamLength(on, cs, cap)
    ensures b.done == old(b.done) + FamTlvs(on, cs, cap)
  {
    hide EncodeAll, FamValue;
    if on && FamSize(cs, cap) > 0 {
      var size := FamSize(cs, cap);
      ghost var before := b.buf[..];
      FillFam(cs, cap, b.buf, b.at + TLV_HEADER);
      ghost var mid := b.buf[..];
      Placed(before, b.at, FamValue(cs), mid);
      forall k | b.at + TLV_HEADER + size <= k < b.buf.Length ensures b.buf[k] == 0 {
        assert mid[k] == before[k];
      }
      b.AddFrom(FURTHER_AVAILABILITY_MAP, size, b.buf, b.at + TLV_HEADER);
    }
  }
}
