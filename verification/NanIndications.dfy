/** The match and follow-up indications: receive loops that fill an event from a TLV stream. */
module NanIndications {
  import opened Wrappers
  import opened Words
  import opened NanTlv
  import opened NanMessage
  import opened NanTypes
  import opened NanNested
  import NanService

  /** A field with a length: data is the part of its array the code's limit lets it write. */
  datatype Slot = Slot(data: seq<byte>, len: nat)

  function Stored(slot: Slot, value: seq<byte>): Slot {
    Slot(Clamped(slot.data, value), Min(|value|, |slot.data|))
  }

  /** The six capability flags of getNanReceivePostConnectivityCapabilityVal, highest bit first. */
  datatype Capability = Capability(mesh: bool, ibss: bool, infra: bool, tdls: bool, wfds: bool, wfd: bool)

  function CapabilityOf(b: byte): Capability {
    Capability(Bit(b, 32), Bit(b, 16), Bit(b, 8), Bit(b, 4), Bit(b, 2), Bit(b, 1))
  }

  /** The word a sender packs its capabilities into. */
  function CapabilityWord(payload: bool, c: Capability): u32 {
    CapabilityOctet(c) + if payload then 65536 else 0
  }

  function CapabilityOctet(c: Capability): byte {
    32 * One(c.mesh) + 16 * One(c.ibss) + 8 * One(c.infra) + 4 * One(c.tdls) + 2 * One(c.wfds) + One(c.wfd)
  }

  function One(flag: bool): (r: nat)
    ensures r < 2 && (r == 1 <==> flag)
  {
    if flag then 1 else 0
  }

  /** The receiver finds every capability the sender packed in its first octet. */
  lemma CapabilityRecovered(payload: bool, c: Capability)
    ensures CapabilityOf(FourBytes(CapabilityWord(payload, c))[0]) == c
  {
    hide FourBytes, FromFour, CapabilityOctet, Bit;
    FirstOctet(CapabilityWord(payload, c));
    CapabilityBits(c);
  }

  lemma CapabilityBits(c: Capability)
    ensures CapabilityOf(CapabilityOctet(c)) == c
  {
    hide Bit, One;
    SixBits(CapabilityOctet(c), One(c.mesh), One(c.ibss), One(c.infra), One(c.tdls), One(c.wfds), One(c.wfd));
  }

  lemma SixBits(n: byte, a: nat, b: nat, c: nat, d: nat, e: nat, f: nat)
    requires a < 2 && b < 2 && c < 2 && d < 2 && e < 2 && f < 2
    requires n == 32 * a + 16 * b + 8 * c + 4 * d + 2 * e + f
    ensures (Bit(n, 32) <==> a == 1) && (Bit(n, 16) <==> b == 1) && (Bit(n, 8) <==> c == 1)
    ensures (Bit(n, 4) <==> d == 1) && (Bit(n, 2) <==> e == 1) && (Bit(n, 1) <==> f == 1)
  {
    assert n / 32 == a;
    assert n / 16 == 2 * a + b;
    assert n / 8 == 4 * a + 2 * b + c;
    assert n / 4 == 8 * a + 4 * b + 2 * c + d;
    assert n / 2 == 16 * a + 8 * b + 4 * c + 2 * d + e;
  }

  datatype Sdea = Sdea(secure: bool, ranging: bool)

  function SdeaOf(b: byte): Sdea {
    Sdea(Bit(b, 64), Bit(b, 128))
  }

  /** The fields of a match event that stand in front of the TLVs. */
  datatype MatchHead = MatchHead(id: u16, requestor: u32, occurred: bool, outOfResource: bool)

  /** The service control word of a sender: data path and its type, quality of service, security, ranging, report. */
  function SdeaWord(dataPath: bool, multicast: bool, qos: bool, s: Sdea, report: bool): u32 {
    (if dataPath then 4 else 0) + (if multicast then 8 else 0) + (if qos then 32 else 0)
    + (if s.secure then 64 else 0) + (if s.ranging then 128 else 0) + if report then 65536 else 0
  }

  lemma SdeaRecovered(dataPath: bool, multicast: bool, qos: bool, s: Sdea, report: bool)
    ensures SdeaOf(FourBytes(SdeaWord(dataPath, multicast, qos, s, report))[0]) == s
  {
    hide FourBytes, FromFour;
    FirstOctet(SdeaWord(dataPath, multicast, qos, s, report));
    var b: byte := SdeaWord(dataPath, multicast, qos, s, false);
    assert SdeaWord(dataPath, multicast, qos, s, report) % 256 == b;
    assert b / 128 == if s.ranging then 1 else 0;
    assert b / 64 == 2 * (b / 128) + if s.secure then 1 else 0;
  }

  /** The match event; discovery and channels are arrays of the capacity the header fixes. */
  datatype MatchInd = MatchInd(
    fixed: MatchHead, ssi: Slot, filter: Slot, addr: seq<byte>, rssi: seq<byte>,
    capabilityValid: bool, capability: Capability,
    discovery: seq<RxDiscovery>, numDiscovery: nat, numChans: byte, channels: seq<Channel>,
    cluster: Slot, cipher: seq<byte>, scid: Slot, sdea: Sdea, range: seq<byte>, sdeaSsi: Slot)

  function ReceiveDiscovery(value: seq<byte>, rx: RxDiscovery): RxDiscovery {
    if |value| <= 8 || !Readable(value, 8, |value| - 8) then rx
    else Fold(RxTlv, RxFixed(value, rx), Walk(value, 8, |value| - 8))
  }

  /** The discovery attributes and their number: a full array or a short value changes nothing. */
  function MoreDiscovery(found: (seq<RxDiscovery>, nat), value: seq<byte>): (seq<RxDiscovery>, nat) {
    if found.1 >= |found.0| || |value| <= 8 then found
    else (found.0[found.1 := ReceiveDiscovery(value, found.0[found.1])], found.1 + 1)
  }

  /** The channel count and the channels: the count is stored even when the map is refused. */
  function NewFam(fam: (byte, seq<Channel>), value: seq<byte>): (byte, seq<Channel>) {
    if value == [] then fam
    else if |fam.1| < 256 && FamAccepted(value, |fam.1|) then (value[0], ChansOf(value, value[0]) + fam.1[value[0]..])
    else (value[0], fam.1)
  }

  /** What one TLV does to the match event. */
  function MatchTlv(e: MatchInd, t: Tlv): MatchInd {
    if t.kind == SERVICE_SPECIFIC_INFO then e.(ssi := Stored(e.ssi, t.value))
    else if t.kind == SDF_MATCH_FILTER then e.(filter := Stored(e.filter, t.value))
    else if t.kind == MAC_ADDRESS then e.(addr := Clamped(e.addr, t.value))
    else if t.kind == RECEIVED_RSSI_VALUE then e.(rssi := Clamped(e.rssi, t.value))
    else if t.kind == CONNECTIVITY_CAPABILITIES_RECEIVE then
      if |t.value| != 4 then e else e.(capabilityValid := true, capability := CapabilityOf(t.value[0]))
    else if t.kind == DISCOVERY_ATTRIBUTE_RECEIVE then
      var found := MoreDiscovery((e.discovery, e.numDiscovery), t.value);
      e.(discovery := found.0, numDiscovery := found.1)
    else if t.kind == FURTHER_AVAILABILITY_MAP then
      var fam := NewFam((e.numChans, e.channels), t.value);
      e.(numChans := fam.0, channels := fam.1)
    else if t.kind == CLUSTER_ATTRIBUTE then e.(cluster := Stored(e.cluster, t.value))
    else if t.kind == CSID then e.(cipher := Clamped(e.cipher, t.value))
    else if t.kind == SCID then e.(scid := Stored(e.scid, t.value))
    else if t.kind == SDEA_CTRL_PARAMS then
      if |t.value| != 4 then e else e.(sdea := SdeaOf(t.value[0]))
    else if t.kind == RANGING_RESULT then e.(range := Clamped(e.range, t.value))
    else if t.kind == SDEA_SERVICE_SPECIFIC_INFO then e.(sdeaSsi := Stored(e.sdeaSsi, t.value))
    else e
  }

  /** A discovery attribute's inner TLVs lie inside it. */
  predicate InnerReadable(t: Tlv) {
    t.kind == DISCOVERY_ATTRIBUTE_RECEIVE && |t.value| > 8 ==> Readable(t.value, 8, |t.value| - 8)
  }

  /** The capacity of the channel array is a byte. */
  predicate Capacities(e: MatchInd) {
    |e.channels| < 256
  }

  method CopyClamped(value: seq<byte>, length: u16, target: seq<byte>) returns (data: seq<byte>, copied: nat)
    requires length == |value|
    ensures data == Clamped(target, value) && copied == Min(|value|, |target|)
  {
    copied := length;
    if copied > |target| { copied := |target|; }
    data := value[..copied] + target[copied..];
  }

  /** The switch of getNanMatch on one TLV that has been read. */
  method StoreMatch(t: Tlv, before: MatchInd) returns (e: MatchInd)
    requires InnerReadable(t) && Capacities(before)
    ensures e == MatchTlv(before, t) && Capacities(e)
  {
    hide Fold, Walk, Readable, Clamped;
    e := before;
    var data, n;
    if t.kind == SERVICE_SPECIFIC_INFO {
      data, n := CopyClamped(t.value, |t.value|, e.ssi.data);
      e := e.(ssi := Slot(data, n));
    } else if t.kind == SDF_MATCH_FILTER {
      data, n := CopyClamped(t.value, |t.value|, e.filter.data);
      e := e.(filter := Slot(data, n));
    } else if t.kind == MAC_ADDRESS {
      data, n := CopyClamped(t.value, |t.value|, e.addr);
      e := e.(addr := data);
    } else if t.kind == RECEIVED_RSSI_VALUE {
      data, n := CopyClamped(t.value, |t.value|, e.rssi);
      e := e.(rssi := data);
    } else if t.kind == CONNECTIVITY_CAPABILITIES_RECEIVE {
      if |t.value| == 4 {
        e := e.(capabilityValid := true);
        e := e.(capability := CapabilityOf(t.value[0]));
      }
    } else if t.kind == DISCOVERY_ATTRIBUTE_RECEIVE {
      var idx := e.numDiscovery;
      if idx < |e.discovery| {
        var ret, rx := GetPostDiscovery(t.value, e.discovery[idx]);
        e := e.(discovery := e.discovery[idx := rx]);
        if ret == 0 { e := e.(numDiscovery := e.numDiscovery + 1); }
      }
    } else if t.kind == FURTHER_AVAILABILITY_MAP {
      var ret, num, cs := GetFam(t.value, |e.channels|, e.numChans);
      e := e.(numChans := num);
      if ret == 0 {
        e := e.(channels := cs + e.channels[num..]);
      }
    } else if t.kind == CLUSTER_ATTRIBUTE {
      data, n := CopyClamped(t.value, |t.value|, e.cluster.data);
      e := e.(cluster := Slot(data, n));
    } else if t.kind == CSID {
      data, n := CopyClamped(t.value, |t.value|, e.cipher);
      e := e.(cipher := data);
    } else if t.kind == SCID {
      data, n := CopyClamped(t.value, |t.value|, e.scid.data);
      e := e.(scid := Slot(data, n));
    } else if t.kind == SDEA_CTRL_PARAMS {
      if |t.value| == 4 { e := e.(sdea := SdeaOf(t.value[0])); }
    } else if t.kind == RANGING_RESULT {
      data, n := CopyClamped(t.value, |t.value|, e.range);
      e := e.(range := data);
    } else if t.kind == SDEA_SERVICE_SPECIFIC_INFO {
      data, n := CopyClamped(t.value, |t.value|, e.sdeaSsi.data);
      e := e.(sdeaSsi := Slot(data, n));
    }
  }

  /** The header and the fixed part of both indications: their TLVs start here. */
  const IND_TLVS := 16

  /** The header's handle and the two words behind the header. */
  function MatchFixed(msg: seq<byte>, e: MatchInd): MatchInd
    requires |msg| >= IND_TLVS
  {
    e.(fixed := MatchHead(FromTwo(msg[4], msg[5]), FromFour(msg[8..12]), Bit(msg[12], 1), Bit(msg[12], 2)))
  }

  /** An indication with this header, match handle and flag word is read as just that. */
  lemma MatchHeadRecovered(e: MatchInd, msg: seq<byte>, id: nat, handle: u16, transaction: u16, matchHandle: u32,
                           occurred: bool, outOfResource: bool, reserved: nat)
    requires |msg| >= IND_TLVS && HeaderSays(msg, id, handle, transaction) && reserved < 0x4000_0000
    requires msg[8..12] == FourBytes(matchHandle)
    requires msg[12..16] == FourBytes((if occurred then 1 else 0) + (if outOfResource then 2 else 0) + 4 * reserved)
    ensures MatchFixed(msg, e) == e.(fixed := MatchHead(handle, matchHandle, occurred, outOfResource))
  {
    hide FourBytes, FromFour, FromTwo;
    var flags: nat := (if occurred then 1 else 0) + if outOfResource then 2 else 0;
    FirstOctet(flags + 4 * reserved);
    assert msg[12] == msg[12..16][0] == (flags + 4 * reserved) % 256;
    LowBits(flags, reserved);
  }

  /** Reserved bits above the flags of a word do not disturb them. */
  lemma LowBits(flags: nat, reserved: nat)
    requires flags < 4
    ensures (flags + 4 * reserved) % 256 % 2 == flags % 2
    ensures (flags + 4 * reserved) % 256 / 2 % 2 == flags / 2
  {
    var octet := (flags + 4 * reserved) % 256;
    assert octet % 4 == flags;
  }

  /** getNanMatch: the event after the loop is the fold of the TLVs the walk visits. */
  method GetNanMatch(msg: seq<byte>, before: MatchInd) returns (e: MatchInd)
    requires |msg| >= IND_TLVS && Readable(msg, IND_TLVS, |msg| - IND_TLVS) && Capacities(before)
    requires forall t | t in Walk(msg, IND_TLVS, |msg| - IND_TLVS) :: InnerReadable(t)
    ensures e == Fold(MatchTlv, MatchFixed(msg, before), Walk(msg, IND_TLVS, |msg| - IND_TLVS))
  {
    hide MatchTlv, Fold, InnerReadable, TlvAt, HeaderAt;
    var head := before.fixed.(id := FromTwo(msg[4], msg[5]), requestor := FromFour(msg[8..12]));
    e := before.(fixed := head.(occurred := Bit(msg[12], 1), outOfResource := Bit(msg[12], 2)));
    ghost var fixed := e;
    var at: nat, remaining: int := IND_TLVS, |msg| - IND_TLVS;
    WalkStep(MatchTlv, e, msg, at, remaining);
    while remaining > 0
      invariant Readable(msg, at, remaining) && Capacities(e)
      invariant forall t | t in Walk(msg, at, remaining) :: InnerReadable(t)
      invariant Fold(MatchTlv, e, Walk(msg, at, remaining))
             == Fold(MatchTlv, fixed, Walk(msg, IND_TLVS, |msg| - IND_TLVS))
      decreases remaining
    {
      WalkStep(MatchTlv, e, msg, at, remaining);
      var readLen, kind, length := ReadTlv(msg, at);
      if readLen == 0 { return; }
      assert Walk(msg, at, remaining)[0] == TlvAt(msg, at);
      assert Walk(msg, at, remaining)[1..] == Walk(msg, at + readLen, remaining - readLen);
      e := StoreMatch(TlvAt(msg, at), e);
      remaining := remaining - readLen;
      at := at + readLen;
    }
    WalkStep(MatchTlv, e, msg, at, remaining);
  }

  /** TLVs of different types never interfere: the event does not depend on their order. */
  lemma MatchCommutes(e: MatchInd, a: Tlv, b: Tlv)
    requires a.kind != b.kind
    ensures MatchTlv(MatchTlv(e, a), b) == MatchTlv(MatchTlv(e, b), a)
  {
    hide MatchTlv;
    if a.kind < b.kind { OrderedCommute(e, a, b); } else { OrderedCommute(e, b, a); }
  }

  lemma OrderedCommute(e: MatchInd, a: Tlv, b: Tlv)
    requires a.kind < b.kind
    ensures MatchTlv(MatchTlv(e, a), b) == MatchTlv(MatchTlv(e, b), a)
  {
    hide MatchTlv;
    if b.kind <= SCID { LowCommute(e, a, b); }
    else if b.kind <= SDEA_SERVICE_SPECIFIC_INFO { MiddleCommute(e, a, b); }
    else { HighCommute(e, a, b); }
  }

  lemma LowCommute(e: MatchInd, a: Tlv, b: Tlv)
    requires a.kind < b.kind <= SCID
    ensures MatchTlv(MatchTlv(e, a), b) == MatchTlv(MatchTlv(e, b), a)
  {
    hide Stored, Clamped, CapabilityOf, SdeaOf, MoreDiscovery, NewFam;
  }

  lemma MiddleCommute(e: MatchInd, a: Tlv, b: Tlv)
    requires a.kind < b.kind && SCID < b.kind <= SDEA_SERVICE_SPECIFIC_INFO
    ensures MatchTlv(MatchTlv(e, a), b) == MatchTlv(MatchTlv(e, b), a)
  {
    hide Stored, Clamped, CapabilityOf, SdeaOf, MoreDiscovery, NewFam;
  }

  lemma HighCommute(e: MatchInd, a: Tlv, b: Tlv)
    requires a.kind < b.kind && SDEA_SERVICE_SPECIFIC_INFO < b.kind
    ensures MatchTlv(MatchTlv(e, a), b) == MatchTlv(MatchTlv(e, b), a)
  {
    hide Stored, Clamped, CapabilityOf, SdeaOf, MoreDiscovery, NewFam;
  }

  /** Exchanging neighbours of different types anywhere in the stream gives the same event. */
  lemma {:induction false} MatchOrderFree(e: MatchInd, front: seq<Tlv>, a: Tlv, b: Tlv, back: seq<Tlv>)
    requires a.kind != b.kind
    ensures Fold(MatchTlv, e, front + [a, b] + back) == Fold(MatchTlv, e, front + [b, a] + back)
    decreases |front|
  {
    hide MatchTlv;
    if front == [] {
      MatchCommutes(e, a, b);
      assert (front + [a, b] + back)[1..][1..] == back == (front + [b, a] + back)[1..][1..];
      assert (front + [a, b] + back)[1..][0] == b && (front + [b, a] + back)[1..][0] == a;
    } else {
      MatchOrderFree(MatchTlv(e, front[0]), front[1..], a, b, back);
      assert (front + [a, b] + back)[1..] == front[1..] + [a, b] + back;
      assert (front + [b, a] + back)[1..] == front[1..] + [b, a] + back;
    }
  }

  // ----- What a whole match indication leaves in the event -----

  /** The types whose value is copied into a field, clamped; those of SIZED also store a length. */
  const COPIED: set<u16> := {
    SERVICE_SPECIFIC_INFO, SDF_MATCH_FILTER, MAC_ADDRESS, RECEIVED_RSSI_VALUE, CLUSTER_ATTRIBUTE, CSID, SCID,
    RANGING_RESULT, SDEA_SERVICE_SPECIFIC_INFO}
  const SIZED: set<u16> := {
    SERVICE_SPECIFIC_INFO, SDF_MATCH_FILTER, CLUSTER_ATTRIBUTE, SCID, SDEA_SERVICE_SPECIFIC_INFO}

  /** The field a type is copied to; the length is zero for the fields without one. */
  function FieldOf(e: MatchInd, kind: u16): Slot {
    if kind == SERVICE_SPECIFIC_INFO then e.ssi
    else if kind == SDF_MATCH_FILTER then e.filter
    else if kind == MAC_ADDRESS then Slot(e.addr, 0)
    else if kind == RECEIVED_RSSI_VALUE then Slot(e.rssi, 0)
    else if kind == CLUSTER_ATTRIBUTE then e.cluster
    else if kind == CSID then Slot(e.cipher, 0)
    else if kind == SCID then e.scid
    else if kind == RANGING_RESULT then Slot(e.range, 0)
    else e.sdeaSsi
  }

  /** The field holds the value as far as it fits, and its length says how much that is. */
  predicate HoldsValue(field: Slot, value: seq<byte>, sized: bool) {
    var n := Min(|value|, |field.data|);
    field.data[..n] == value[..n] && (sized ==> field.len == n)
  }

  lemma CopyHolds(field: Slot, value: seq<byte>)
    ensures HoldsValue(Stored(field, value), value, true) && HoldsValue(Stored(field, value), value, false)
    ensures HoldsValue(Slot(Clamped(field.data, value), 0), value, false)
    ensures |Stored(field, value).data| == |field.data|
  {
  }

  lemma OneField(e: MatchInd, t: Tlv, kind: u16)
    requires kind in COPIED
    ensures var before, after := FieldOf(e, kind), FieldOf(MatchTlv(e, t), kind);
      && |after.data| == |before.data|
      && (if t.kind == kind then HoldsValue(after, t.value, kind in SIZED) else after == before)
  {
    hide CapabilityOf, SdeaOf, MoreDiscovery, NewFam, Clamped, Stored, HoldsValue;
    CopyHolds(FieldOf(e, kind), t.value);
    if t.kind != kind { OtherField(e, t, kind); }
  }

  lemma OtherField(e: MatchInd, t: Tlv, kind: u16)
    requires kind in COPIED && t.kind != kind
    ensures FieldOf(MatchTlv(e, t), kind) == FieldOf(e, kind)
  {
    hide CapabilityOf, SdeaOf, MoreDiscovery, NewFam, Clamped, Stored;
  }

  lemma FoldLast<E>(step: (E, Tlv) -> E, e: E, ts: seq<Tlv>)
    requires ts != []
    ensures var n := |ts| - 1; Fold(step, e, ts) == step(Fold(step, e, ts[..n]), ts[n])
  {
    var n := |ts| - 1;
    assert ts == ts[..n] + [ts[n]];
    FoldAppend(step, e, ts[..n], [ts[n]]);
    FoldOpt(step, Fold(step, e, ts[..n]), [ts[n]]);
  }

  /** Whatever else is sent, every copied field ends up with the last value of its type, within its capacity, and
      without one it is untouched. */
  lemma {:induction false} MatchHoldsLast(e: MatchInd, ts: seq<Tlv>, kind: u16)
    requires kind in COPIED
    ensures var before, after := FieldOf(e, kind), FieldOf(Fold(MatchTlv, e, ts), kind);
      && |after.data| == |before.data|
      && match LastValue(ts, kind)
         case None => after == before
         case Some(value) => HoldsValue(after, value, kind in SIZED)
    decreases |ts|
  {
    hide MatchTlv, FieldOf, HoldsValue, COPIED, SIZED;
    if ts != [] {
      var n := |ts| - 1;
      FoldLast(MatchTlv, e, ts);
      MatchHoldsLast(e, ts[..n], kind);
      OneField(Fold(MatchTlv, e, ts[..n]), ts[n], kind);
    }
  }

  /** The values of the discovery attributes that are long enough to be parsed, in order. */
  function Discoveries(ts: seq<Tlv>): seq<seq<byte>> {
    if ts == [] then [] else
    var before, t := Discoveries(ts[..|ts| - 1]), ts[|ts| - 1];
    if t.kind == DISCOVERY_ATTRIBUTE_RECEIVE && |t.value| > 8 then before + [t.value] else before
  }

  /** The number found is the free room or the number sent, whichever is less; the first ones sent fill the free
      places in order, and no other place changes. */
  ghost predicate Collected(e: MatchInd, after: MatchInd, values: seq<seq<byte>>) {
    e.numDiscovery <= |e.discovery| &&
    var room: nat := |e.discovery| - e.numDiscovery;
    && |after.discovery| == |e.discovery|
    && after.numDiscovery == e.numDiscovery + Min(room, |values|)
    && forall k | 0 <= k < |e.discovery| :: after.discovery[k]
         == if e.numDiscovery <= k < after.numDiscovery
            then ReceiveDiscovery(values[k - e.numDiscovery], e.discovery[k])
            else e.discovery[k]
  }

  lemma {:induction false} MatchCollects(e: MatchInd, ts: seq<Tlv>)
    requires e.numDiscovery <= |e.discovery|
    ensures Collected(e, Fold(MatchTlv, e, ts), Discoveries(ts))
    decreases |ts|
  {
    hide MatchTlv, ReceiveDiscovery;
    if ts != [] {
      var n := |ts| - 1;
      FoldLast(MatchTlv, e, ts);
      MatchCollects(e, ts[..n]);
      OneDiscovery(Fold(MatchTlv, e, ts[..n]), ts[n]);
    }
  }

  lemma OneDiscovery(e: MatchInd, t: Tlv)
    ensures var after, found := MatchTlv(e, t), (e.discovery, e.numDiscovery);
      (after.discovery, after.numDiscovery)
      == if t.kind == DISCOVERY_ATTRIBUTE_RECEIVE then MoreDiscovery(found, t.value) else found
  {
    hide Stored, Clamped, CapabilityOf, SdeaOf, MoreDiscovery, NewFam;
  }

  // The parsed types recover what their senders packed.

  lemma MatchCapability(e: MatchInd, payload: bool, c: Capability)
    ensures MatchTlv(e, Tlv(CONNECTIVITY_CAPABILITIES_RECEIVE, FourBytes(CapabilityWord(payload, c))))
         == e.(capabilityValid := true, capability := c)
  {
    hide FourBytes, CapabilityWord, CapabilityOf;
    CapabilityRecovered(payload, c);
  }

  lemma MatchSdea(e: MatchInd, dataPath: bool, multicast: bool, qos: bool, s: Sdea, report: bool)
    ensures MatchTlv(e, Tlv(SDEA_CTRL_PARAMS, FourBytes(SdeaWord(dataPath, multicast, qos, s, report))))
         == e.(sdea := s)
  {
    hide FourBytes, SdeaWord, SdeaOf;
    SdeaRecovered(dataPath, multicast, qos, s, report);
  }

  lemma MatchMap(e: MatchInd, cs: seq<Channel>)
    requires 0 < |cs| <= |e.channels| < 256 && forall c | c in cs :: InFields(c)
    ensures |FamValue(cs)| < 65536
    ensures MatchTlv(e, Tlv(FURTHER_AVAILABILITY_MAP, FamValue(cs)))
         == e.(numChans := |cs|, channels := cs + e.channels[|cs|..])
  {
    hide FamValue, ChansOf, InFields;
    FamRoundTrip(cs, |e.channels|);
    MapIsNew((e.numChans, e.channels), FamValue(cs));
  }

  lemma MapIsNew(fam: (byte, seq<Channel>), value: seq<byte>)
    requires |fam.1| < 256 && FamAccepted(value, |fam.1|)
    ensures NewFam(fam, value) == (value[0], ChansOf(value, value[0]) + fam.1[value[0]..])
  {
  }

  /** A transmitted discovery attribute is received as PostDiscoveryRecovered and DurationRecovered say. */
  lemma MatchReceives(d: TxDiscovery, rx: RxDiscovery)
    requires TxFits(d)
    ensures ReceiveDiscovery(PostDiscoveryValue(d), rx) == Received(d, rx)
  {
    hide Fold, Walk, EncodeAll, Readable;
    InnerRoundTrip(d);
  }

  // ----- Follow-up -----

  datatype FollowupInd = FollowupInd(id: u16, requestor: u32, furtherWindow: bool, ssi: Slot, addr: seq<byte>,
                                     sdeaSsi: Slot)

  function FollowupTlv(e: FollowupInd, t: Tlv): FollowupInd {
    if t.kind == SERVICE_SPECIFIC_INFO || t.kind == EXT_SERVICE_SPECIFIC_INFO then e.(ssi := Stored(e.ssi, t.value))
    else if t.kind == MAC_ADDRESS then e.(addr := Clamped(e.addr, t.value))
    else if t.kind == SDEA_SERVICE_SPECIFIC_INFO then e.(sdeaSsi := Stored(e.sdeaSsi, t.value))
    else e
  }

  method StoreFollowup(t: Tlv, before: FollowupInd) returns (e: FollowupInd)
    ensures e == FollowupTlv(before, t)
  {
    e := before;
    if t.kind == SERVICE_SPECIFIC_INFO || t.kind == EXT_SERVICE_SPECIFIC_INFO {
      var data, n := CopyClamped(t.value, |t.value|, e.ssi.data);
      e := e.(ssi := Slot(data, n));
    } else if t.kind == MAC_ADDRESS {
      var data, n := CopyClamped(t.value, |t.value|, e.addr);
      e := e.(addr := data);
    } else if t.kind == SDEA_SERVICE_SPECIFIC_INFO {
      var data, n := CopyClamped(t.value, |t.value|, e.sdeaSsi.data);
      e := e.(sdeaSsi := Slot(data, n));
    }
  }

  /** The header's handle and the two words behind the header. */
  function FollowupFixed(msg: seq<byte>, e: FollowupInd): FollowupInd
    requires |msg| >= IND_TLVS
  {
    e.(id := FromTwo(msg[4], msg[5]), requestor := FromFour(msg[8..12]), furtherWindow := Bit(msg[12], 1))
  }

  lemma FollowupHeadRecovered(e: FollowupInd, msg: seq<byte>, id: nat, handle: u16, transaction: u16, matchHandle: u32,
                              window: bool, reserved: nat)
    requires |msg| >= IND_TLVS && HeaderSays(msg, id, handle, transaction) && reserved < 0x8000_0000
    requires msg[8..12] == FourBytes(matchHandle) && msg[12..16] == FourBytes((if window then 1 else 0) + 2 * reserved)
    ensures FollowupFixed(msg, e) == e.(id := handle, requestor := matchHandle, furtherWindow := window)
  {
    hide FourBytes, FromFour, FromTwo;
    var flags: nat := if window then 1 else 0;
    FirstOctet(flags + 2 * reserved);
    assert msg[12] == msg[12..16][0] == (flags + 2 * reserved) % 256;
    assert (flags + 2 * reserved) % 256 % 2 == flags;
  }

  /** getNanFollowup. */
  method GetNanFollowup(msg: seq<byte>, before: FollowupInd) returns (e: FollowupInd)
    requires |msg| >= IND_TLVS && Readable(msg, IND_TLVS, |msg| - IND_TLVS)
    ensures e == Fold(FollowupTlv, FollowupFixed(msg, before), Walk(msg, IND_TLVS, |msg| - IND_TLVS))
  {
    hide FollowupTlv, Fold, TlvAt, HeaderAt, Walk, Readable;
    e := before.(id := FromTwo(msg[4], msg[5]), requestor := FromFour(msg[8..12]), furtherWindow := Bit(msg[12], 1));
    ghost var fixed := e;
    var at: nat, remaining: int := IND_TLVS, |msg| - IND_TLVS;
    WalkStep(FollowupTlv, e, msg, at, remaining);
    while remaining > 0
      invariant Readable(msg, at, remaining)
      invariant Fold(FollowupTlv, e, Walk(msg, at, remaining))
             == Fold(FollowupTlv, fixed, Walk(msg, IND_TLVS, |msg| - IND_TLVS))
      decreases remaining
    {
      WalkStep(FollowupTlv, e, msg, at, remaining);
      var readLen, kind, length := ReadTlv(msg, at);
      if readLen == 0 { return; }
      e := StoreFollowup(TlvAt(msg, at), e);
      remaining := remaining - readLen;
      at := at + readLen;
    }
    WalkStep(FollowupTlv, e, msg, at, remaining);
  }

  /** From the sender's request to the receiver's event: the address and both texts arrive, clamped to the
      receiver's capacities; a text that was not sent leaves its slot alone. */
  lemma FollowupDelivered(r: NanService.NanTransmitFollowupRequest, before: FollowupInd)
    requires |before.addr| == MAC_ADDR_LEN
    ensures var e := Fold(FollowupTlv, before, NanService.FollowupTlvs(r));
      && e.addr == r.addr
      && e.ssi == (if r.ssi == [] then before.ssi else Stored(before.ssi, r.ssi))
      && e.sdeaSsi == (if r.sdeaSsi == [] then before.sdeaSsi else Stored(before.sdeaSsi, r.sdeaSsi))
  {
    var mac := Tlv(MAC_ADDRESS, r.addr);
    var ssi := Opt(NanService.Present(r.ssi), SERVICE_SPECIFIC_INFO);
    var sdea := Opt(NanService.Present(r.sdeaSsi), SDEA_SERVICE_SPECIFIC_INFO);
    assert NanService.FollowupTlvs(r) == [mac] + ssi + sdea;
    FoldAppend(FollowupTlv, before, [mac] + ssi, sdea);
    FoldAppend(FollowupTlv, before, [mac], ssi);
    FoldOpt(FollowupTlv, before, [mac]);
    FoldOpt(FollowupTlv, FollowupTlv(before, mac), ssi);
    FoldOpt(FollowupTlv, Fold(FollowupTlv, FollowupTlv(before, mac), ssi), sdea);
    hide Fold;
  }

  lemma {:induction false} FoldAppend<E>(step: (E, Tlv) -> E, e: E, a: seq<Tlv>, b: seq<Tlv>)
    ensures Fold(step, e, a + b) == Fold(step, Fold(step, e, a), b)
    decreases |a|
  {
    if a == [] {
      assert a + b == b;
    } else {
      assert (a + b)[1..] == a[1..] + b;
      FoldAppend(step, step(e, a[0]), a[1..], b);
    }
  }

  lemma FoldOpt<E>(step: (E, Tlv) -> E, e: E, ts: seq<Tlv>)
    requires |ts| <= 1
    ensures Fold(step, e, ts) == if ts == [] then e else step(e, ts[0])
  {
  }
}
