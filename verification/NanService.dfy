/** The publish, subscribe and follow-up requests: header, fixed parameters and a conditional TLV chain. */
module NanService {
  import opened Words
  import opened NanTlv
  import opened NanMessage
  import opened NanTypes
  import opened NanNested

  const PMK_INFO_LEN := 32
  const MIN_PASSPHRASE_LEN := 8
  const MAX_PASSPHRASE_LEN := 63

  /** sizeof NanFWSdeaCtrlParams, NanFWRangeConfigParams and NanFWRangeReqMsg. */
  const SDEA_CTRL_LEN := 4
  const RANGE_CONFIG_LEN := 20
  const RANGE_REQUEST_LEN := 16

  datatype Key = NoKey | Pmk(pmk: seq<byte>) | Passphrase(passphrase: seq<byte>)

  /** The eight bytes of fixed parameters behind the header. */
  type Params = s: seq<byte> | |s| == 8 witness [0, 0, 0, 0, 0, 0, 0, 0]
  type Text = s: seq<byte> | |s| <= 65531 witness []

  /** What publish and subscribe share; sdea and rangingCfg are on when one of their settings is non-zero. */
  datatype Service = Service(
    id: u16, params: Params, name: Text, ssi: Text, rxFilter: Text, txFilter: Text,
    cipher: Field, key: Key, sdea: Field, rangingCfg: Field, sdeaSsi: Text,
    peerId: nat, response: nat, rangeRequest: seq<byte>)

  predicate WellSized(s: Service) {
    && |s.cipher.val| == 4 && |s.sdea.val| == SDEA_CTRL_LEN && |s.rangingCfg.val| == RANGE_CONFIG_LEN
    && |s.rangeRequest| == RANGE_REQUEST_LEN
  }

  /** A new service is requested with the handle 0xFFFF. */
  function Handle(id: u16): u16 {
    if id == 0 then 0xFFFF else id
  }

  predicate PmkUsed(k: Key) {
    k.Pmk? && |k.pmk| == PMK_INFO_LEN
  }

  predicate PassphraseUsed(k: Key) {
    k.Passphrase? && MIN_PASSPHRASE_LEN <= |k.passphrase| <= MAX_PASSPHRASE_LEN
  }

  function KeyLength(k: Key): nat {
    if PmkUsed(k) then TLV_HEADER + PMK_INFO_LEN
    else if PassphraseUsed(k) then TLV_HEADER + |k.passphrase|
    else 0
  }

  function KeyTlvs(k: Key): seq<Tlv> {
    if PmkUsed(k) then [Tlv(PMK, k.pmk)]
    else if PassphraseUsed(k) then [Tlv(PASSPHRASE, k.passphrase)]
    else []
  }

  function Present(text: Text): Field {
    Field(|text| != 0, text)
  }

  function NamesLength(s: Service): nat {
    OptSize(|s.name| != 0, |s.name|) + OptSize(|s.ssi| != 0, |s.ssi|)
    + OptSize(|s.rxFilter| != 0, |s.rxFilter|) + OptSize(|s.txFilter| != 0, |s.txFilter|)
  }

  function NamesTlvs(s: Service): seq<Tlv> {
    [] + Opt(Present(s.name), SERVICE_NAME) + Opt(Present(s.ssi), SERVICE_SPECIFIC_INFO)
    + Opt(Present(s.rxFilter), RX_MATCH_FILTER) + Opt(Present(s.txFilter), TX_MATCH_FILTER)
  }

  /** The writer's condition for the ranging request; accept is NAN_RANGE_REQUEST_ACCEPT. */
  predicate Responds(s: Service, accept: nat) {
    s.peerId != 0 || s.response >= accept
  }

  /** The terms both sums share; asked tells whether the sum includes the ranging request. */
  function OptionsLength(s: Service, asked: bool): nat {
    OptSize(s.cipher.on, 4) + OptSize(s.sdea.on, SDEA_CTRL_LEN) + OptSize(s.rangingCfg.on, RANGE_CONFIG_LEN)
    + OptSize(asked, RANGE_REQUEST_LEN) + OptSize(|s.sdeaSsi| != 0, |s.sdeaSsi|) + KeyLength(s.key)
  }

  function OptionsTlvs(s: Service, accept: nat, done: seq<Tlv>): seq<Tlv>
    requires WellSized(s)
  {
    done + Opt(s.cipher, CSID) + KeyTlvs(s.key) + Opt(s.sdea, SDEA_CTRL_PARAMS) + Opt(s.rangingCfg, RANGING_CFG)
    + Opt(Present(s.sdeaSsi), SDEA_SERVICE_SPECIFIC_INFO)
    + Opt(Field(Responds(s, accept), s.rangeRequest), RANGING_REQUEST)
  }

  method AddNames(b: TlvBuffer, s: Service)
    requires b.Valid() && b.done == [] && b.at + NamesLength(s) <= b.buf.Length
    modifies b`at, b`done, b.buf
    ensures b.Valid() && b.at == old(b.at) + NamesLength(s) && b.done == NamesTlvs(s)
  {
    hide Opt, OptSize;
    b.Add(Present(s.name), SERVICE_NAME);
    b.Add(Present(s.ssi), SERVICE_SPECIFIC_INFO);
    b.Add(Present(s.rxFilter), RX_MATCH_FILTER);
    b.Add(Present(s.txFilter), TX_MATCH_FILTER);
  }

  method AddKey(b: TlvBuffer, k: Key)
    requires b.Valid() && b.at + KeyLength(k) <= b.buf.Length
    modifies b`at, b`done, b.buf
    ensures b.Valid() && b.at == old(b.at) + KeyLength(k) && b.done == old(b.done) + KeyTlvs(k)
  {
    if k.Pmk? && |k.pmk| == PMK_INFO_LEN {
      b.Add(Field(true, k.pmk), PMK);
    } else if k.Passphrase? && MIN_PASSPHRASE_LEN <= |k.passphrase| <= MAX_PASSPHRASE_LEN {
      b.Add(Field(true, k.passphrase), PASSPHRASE);
    }
  }

  method AddOptions(b: TlvBuffer, s: Service, accept: nat)
    requires WellSized(s) && b.Valid() && b.at + OptionsLength(s, Responds(s, accept)) <= b.buf.Length
    modifies b`at, b`done, b.buf
    ensures b.Valid() && b.at == old(b.at) + OptionsLength(s, Responds(s, accept))
    ensures b.done == OptionsTlvs(s, accept, old(b.done))
  {
    hide Opt, OptSize, KeyTlvs, KeyLength;
    b.Add(s.cipher, CSID);
    AddKey(b, s.key);
    b.Add(s.sdea, SDEA_CTRL_PARAMS);
    b.Add(s.rangingCfg, RANGING_CFG);
    b.Add(Present(s.sdeaSsi), SDEA_SERVICE_SPECIFIC_INFO);
    b.Add(Field(s.peerId != 0 || s.response >= accept, s.rangeRequest), RANGING_REQUEST);
  }

  /** The header of a message whose written part is header, parameters and TLVs. */
  lemma HeaderBehind(msg: seq<byte>, at: nat, id: nat, handle: u16, transaction: u16, params: Params, rest: seq<byte>)
    requires id < 4096 && at <= |msg| && msg[..at] == Header(id, |msg|, handle, transaction) + params + rest
    ensures HeaderSays(msg, id, handle, transaction) && MSG_HEADER <= at && msg[MSG_HEADER..at] == params + rest
  {
    hide HeaderSays, Header;
    var header := Header(id, |msg|, handle, transaction);
    assert msg[MSG_HEADER..at] == msg[..at][MSG_HEADER..];
    assert header + params + rest == header + (params + rest);
    assert |msg| == MSG_HEADER + |msg[8..]|;
    HeaderOctets(id, handle, transaction, msg[8..]);
    assert msg[..8] == msg[..at][..8] == Header(id, |msg|, handle, transaction);
    assert msg == msg[..8] + msg[8..];
  }

  // ----- Publish -----

  datatype NanPublishRequest = NanPublishRequest(service: Service, policy: seq<byte>)

  /** The sum at the top of putNanPublish. */
  function PublishLength(r: NanPublishRequest, accept: nat): nat {
    MSG_HEADER + 8 + NamesLength(r.service) + TLV_HEADER + |r.policy|
    + OptionsLength(r.service, r.service.peerId != 0 || r.service.response >= accept)
  }

  function PublishTlvs(r: NanPublishRequest, accept: nat): seq<Tlv>
    requires WellSized(r.service) && |r.policy| <= 65531
  {
    OptionsTlvs(r.service, accept, NamesTlvs(r.service) + Opt(Field(true, r.policy), SERVICE_ACCEPT_POLICY))
  }

  /** putNanPublish: the accept policy is always passed, everything else only when set. */
  method PutNanPublish(id: u16, r: NanPublishRequest, accept: nat) returns (msg: array<byte>)
    requires WellSized(r.service) && |r.policy| <= 65531
    ensures fresh(msg) && msg.Length == PublishLength(r, accept)
    ensures HeaderSays(msg[..], MSG_PUBLISH_SERVICE_REQ, if r.service.id == 0 then 0xFFFF else r.service.id, id)
    ensures msg[MSG_HEADER..] == r.service.params + EncodeAll(PublishTlvs(r, accept))
    ensures ReadsAs(msg[..], MSG_HEADER + 8, PublishTlvs(r, accept))
  {
    assert OptSize(true, |r.policy|) == TLV_HEADER + |r.policy|;
    hide EncodeAll, ReadsAs, HeaderSays, Header, Opt, OptSize, NamesLength, NamesTlvs, OptionsLength, OptionsTlvs;
    var length := PublishLength(r, accept);
    var header := Header(MSG_PUBLISH_SERVICE_REQ, length, Handle(r.service.id), id);
    var b := new TlvBuffer(length, header + r.service.params);
    AddNames(b, r.service);
    b.Add(Field(true, r.policy), SERVICE_ACCEPT_POLICY);
    AddOptions(b, r.service, accept);
    msg := b.buf;
    assert msg[..] == msg[..b.at];
    WrittenReadsAs(b.head, PublishTlvs(r, accept));
    HeaderBehind(msg[..], b.at, MSG_PUBLISH_SERVICE_REQ, Handle(r.service.id), id, r.service.params, EncodeAll(b.done));
  }

  // ----- Subscribe -----

  datatype NanSubscribeRequest = NanSubscribeRequest(service: Service, addresses: seq<Mac>)

  function AddressTlvs(addresses: seq<Mac>): seq<Tlv> {
    seq(|addresses|, i requires 0 <= i < |addresses| => Tlv(MAC_ADDRESS, addresses[i]))
  }

  /** The sum at the top of putNanSubscribe; unlike the writer it counts the ranging request for every non-zero
      response. */
  function SubscribeLength(r: NanSubscribeRequest): nat {
    MSG_HEADER + 8 + NamesLength(r.service)
    + OptionsLength(r.service, r.service.peerId != 0 || r.service.response != 0)
    + |r.addresses| * (TLV_HEADER + MAC_ADDR_LEN)
  }

  function SubscribeTlvs(r: NanSubscribeRequest, accept: nat): seq<Tlv>
    requires WellSized(r.service)
  {
    OptionsTlvs(r.service, accept, NamesTlvs(r.service) + AddressTlvs(r.addresses))
  }

  /** The bytes allocated for a ranging request that is then not written. */
  function Slack(s: Service, accept: nat): nat {
    if s.peerId == 0 && 0 < s.response < accept then TLV_HEADER + RANGE_REQUEST_LEN else 0
  }

  function Zeros(n: nat): (z: seq<byte>)
    ensures |z| == n
  {
    seq(n, i => 0)
  }

  method AddAddresses(b: TlvBuffer, addresses: seq<Mac>)
    requires b.Valid() && b.at + |addresses| * (TLV_HEADER + MAC_ADDR_LEN) <= b.buf.Length
    modifies b`at, b`done, b.buf
    ensures b.Valid() && b.at == old(b.at) + |addresses| * (TLV_HEADER + MAC_ADDR_LEN)
    ensures b.done == old(b.done) + AddressTlvs(addresses)
  {
    var i := 0;
    while i < |addresses|
      invariant 0 <= i <= |addresses| && b.Valid()
      invariant b.at == old(b.at) + i * (TLV_HEADER + MAC_ADDR_LEN)
      invariant b.done == old(b.done) + AddressTlvs(addresses)[..i]
    {
      b.Add(Field(true, addresses[i]), MAC_ADDRESS);
      assert AddressTlvs(addresses)[..i + 1] == AddressTlvs(addresses)[..i] + [AddressTlvs(addresses)[i]];
      i := i + 1;
    }
  }

  /** TLVs of type and length zero: how a receiver reads zero bytes. */
  function Empties(n: nat): (ts: seq<Tlv>)
    ensures |ts| == n
  {
    seq(n, i => Tlv(SERVICE_NAME, []))
  }

  /** putNanSubscribe: whatever was allocated and not written stays zero behind the last TLV. */
  method PutNanSubscribe(id: u16, r: NanSubscribeRequest, accept: nat) returns (msg: array<byte>)
    requires WellSized(r.service) && accept > 0
    ensures fresh(msg) && msg.Length == SubscribeLength(r)
    ensures HeaderSays(msg[..], MSG_SUBSCRIBE_SERVICE_REQ, if r.service.id == 0 then 0xFFFF else r.service.id, id)
    ensures msg[MSG_HEADER..]
         == r.service.params + EncodeAll(SubscribeTlvs(r, accept)) + Zeros(Slack(r.service, accept))
  {
    RoomForOptions(r.service, accept);
    hide EncodeAll, HeaderSays, Header, NamesLength, NamesTlvs, OptionsLength, OptionsTlvs, AddressTlvs, Slack,
        Zeros, WellSized, Responds;
    var length := SubscribeLength(r);
    var header := Header(MSG_SUBSCRIBE_SERVICE_REQ, length, Handle(r.service.id), id);
    var b := new TlvBuffer(length, header + r.service.params);
    AddNames(b, r.service);
    AddAddresses(b, r.addresses);
    AddOptions(b, r.service, accept);
    msg := b.buf;
    ZeroTail(msg[..], b.at);
    HeaderBehind(msg[..], b.at, MSG_SUBSCRIBE_SERVICE_REQ, Handle(r.service.id), id, r.service.params,
                 EncodeAll(b.done));
    Behind(msg[..], b.at, Zeros(Slack(r.service, accept)));
  }

  lemma Behind(msg: seq<byte>, at: nat, tail: seq<byte>)
    requires MSG_HEADER <= at <= |msg| && msg == msg[..at] + tail
    ensures msg[MSG_HEADER..] == msg[MSG_HEADER..at] + tail
  {
  }

  lemma RoomForOptions(s: Service, accept: nat)
    requires accept > 0
    ensures OptionsLength(s, s.peerId != 0 || s.response != 0)
      == OptionsLength(s, Responds(s, accept)) + Slack(s, accept)
  {
  }

  lemma ZeroTail(s: seq<byte>, at: nat)
    requires at <= |s| && forall k | at <= k < |s| :: s[k] == 0
    ensures s == s[..at] + Zeros(|s| - at)
  {
  }

  /** The message reads back as the selected TLVs exactly when the two conditions agree on the request. */
  lemma SubscribeReadsBack(head: seq<byte>, r: NanSubscribeRequest, accept: nat)
    requires WellSized(r.service) && accept > 0
    ensures ReadsAs(head + EncodeAll(SubscribeTlvs(r, accept)) + Zeros(Slack(r.service, accept)), |head|,
                    SubscribeTlvs(r, accept))
       <==> (r.service.peerId != 0 || r.service.response == 0 || r.service.response >= accept)
  {
    hide AllFit, ReadsAs, EncodeAll;
    SubscribeFits(r, accept);
    ZerosReadBack(head, SubscribeTlvs(r, accept), Slack(r.service, accept) / TLV_HEADER);
  }

  lemma ZerosReadBack(head: seq<byte>, ts: seq<Tlv>, n: nat)
    requires AllFit(ts)
    ensures ReadsAs(head + EncodeAll(ts) + Zeros(n * TLV_HEADER), |head|, ts) <==> n == 0
  {
    var more := Empties(n);
    EmptyTlvs(n);
    EncodeAllAppend(ts, more);
    hide EncodeAll, Walk, Readable;
    assert head + EncodeAll(ts) + EncodeAll(more) == head + EncodeAll(ts + more);
    assert AllFit(ts + more);
    WrittenReadsAs(head, ts + more);
    assert |ts + more| == |ts| + n;
    assert n == 0 ==> ts + more == ts;
  }

  lemma {:induction false} EmptyTlvs(n: nat)
    ensures EncodeAll(Empties(n)) == Zeros(n * TLV_HEADER)
  {
    hide Encode, Zeros, Empties;
    if n > 0 {
      EmptiesNext(n - 1);
      EmptyTlvs(n - 1);
      ZerosNext((n - 1) * TLV_HEADER);
    }
  }

  lemma EmptiesNext(n: nat)
    ensures Empties(n + 1)[0] == Tlv(SERVICE_NAME, []) && Empties(n + 1)[1..] == Empties(n)
  {
  }

  lemma ZerosNext(n: nat)
    ensures Encode(Tlv(SERVICE_NAME, [])) + Zeros(n) == Zeros(TLV_HEADER + n)
  {
    hide Encode;
    EmptyTlv();
    assert Zeros(TLV_HEADER) + Zeros(n) == Zeros(TLV_HEADER + n);
  }

  lemma EmptyTlv()
    ensures Encode(Tlv(SERVICE_NAME, [])) == Zeros(TLV_HEADER)
  {
    assert TwoBytes(0) == [0, 0];
  }

  lemma SubscribeFits(r: NanSubscribeRequest, accept: nat)
    requires WellSized(r.service)
    ensures AllFit(SubscribeTlvs(r, accept))
  {
    var s := r.service;
    FitsAppend();
    AddressesFit(r.addresses);
    KeyFits(s.key);
    hide AllFit, Opt, KeyTlvs, AddressTlvs;
    assert AllFit(NamesTlvs(s) + AddressTlvs(r.addresses));
  }

  lemma FitsAppend()
    ensures forall a, b | AllFit(a) && AllFit(b) :: AllFit(a + b)
    ensures forall f: Field, kind: u16 | Small(f) :: AllFit(Opt(f, kind))
    ensures AllFit([])
  {
  }

  lemma AddressesFit(addresses: seq<Mac>)
    ensures AllFit(AddressTlvs(addresses))
  {
  }

  lemma KeyFits(k: Key)
    ensures AllFit(KeyTlvs(k))
  {
  }

  /** Every request's length is exact if and only if no response lies strictly between zero and accept. */
  lemma SubscribeNeedsLeastAccept(accept: nat)
    requires accept > 0
    ensures (forall s: Service :: Slack(s, accept) == 0) <==> accept == 1
  {
    if accept > 1 {
      var off := Field(false, []);
      var s := Service(0, [0, 0, 0, 0, 0, 0, 0, 0], [], [], [], [], off, NoKey, off, off, [], 0, 1, []);
      assert Slack(s, accept) != 0;
    }
  }

  // ----- Follow-up -----

  datatype NanTransmitFollowupRequest = NanTransmitFollowupRequest(
    handle: u16, params: Params, addr: Mac, ssi: Text, sdeaSsi: Text)

  function FollowupLength(r: NanTransmitFollowupRequest): nat {
    MSG_HEADER + 8 + OptSize(|r.ssi| != 0, |r.ssi|) + OptSize(|r.sdeaSsi| != 0, |r.sdeaSsi|)
    + TLV_HEADER + MAC_ADDR_LEN
  }

  function FollowupTlvs(r: NanTransmitFollowupRequest): seq<Tlv> {
    [] + Opt(Field(true, r.addr), MAC_ADDRESS) + Opt(Present(r.ssi), SERVICE_SPECIFIC_INFO)
    + Opt(Present(r.sdeaSsi), SDEA_SERVICE_SPECIFIC_INFO)
  }

  /** putNanTransmitFollowup. */
  method PutNanTransmitFollowup(id: u16, r: NanTransmitFollowupRequest) returns (msg: array<byte>)
    ensures fresh(msg) && msg.Length == FollowupLength(r)
    ensures HeaderSays(msg[..], MSG_TRANSMIT_FOLLOWUP_REQ, r.handle, id)
    ensures msg[MSG_HEADER..] == r.params + EncodeAll(FollowupTlvs(r))
    ensures ReadsAs(msg[..], MSG_HEADER + 8, FollowupTlvs(r))
  {
    assert OptSize(true, |r.addr|) == TLV_HEADER + MAC_ADDR_LEN;
    hide EncodeAll, ReadsAs, HeaderSays, Header, Opt, OptSize;
    var length := FollowupLength(r);
    var b := new TlvBuffer(length, Header(MSG_TRANSMIT_FOLLOWUP_REQ, length, r.handle, id) + r.params);
    b.Add(Field(true, r.addr), MAC_ADDRESS);
    b.Add(Present(r.ssi), SERVICE_SPECIFIC_INFO);
    b.Add(Present(r.sdeaSsi), SDEA_SERVICE_SPECIFIC_INFO);
    msg := b.buf;
    assert msg[..] == msg[..b.at];
    WrittenReadsAs(b.head, FollowupTlvs(r));
    HeaderBehind(msg[..], b.at, MSG_TRANSMIT_FOLLOWUP_REQ, r.handle, id, r.params, EncodeAll(b.done));
  }
}
