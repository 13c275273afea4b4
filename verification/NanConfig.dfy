/** The configuration request: conditional fields, post-discovery attributes and an availability map. */
module NanConfig {
  import opened Words
  import opened NanTlv
  import opened NanMessage
  import opened NanTypes
  import opened NanScan
  import opened NanNested

  datatype NanConfigRequest = NanConfigRequest(
    sidBeacon: Field, masterPref: Field, rssiProximity: Field, rssiProximity5g: Field, rssiWindow: Field,
    clusterAttribute: Field, scan: ScanParams, randomFactorForce: Field, hopCountForce: Field, connCapability: Field,
    dw24g: Field, dw5g: Field, discMacRandomization: Field, subscribeSidBeacon: Field, discoveryIndication: Field,
    discoveryBeaconInt: Field, nss: Field, enableRanging: Field, dwEarlyTermination: Field, ndpeAttr: Field,
    attributes: seq<TxDiscovery>, famOn: bool, fam: seq<Channel>)

  /** Field sizes the header file fixes: the length uses constants for these, the writer the fields. */
  predicate WellSized(r: NanConfigRequest) {
    && Small(r.sidBeacon) && Small(r.masterPref) && Small(r.rssiProximity) && Small(r.rssiProximity5g)
    && Small(r.rssiWindow) && Small(r.clusterAttribute) && Small(r.randomFactorForce) && Small(r.hopCountForce)
    && |r.connCapability.val| == 4 && |r.dw24g.val| == 4 && |r.dw5g.val| == 4 && |r.discMacRandomization.val| == 4
    && Small(r.subscribeSidBeacon) && r.discoveryIndication.on && |r.discoveryIndication.val| == 4
    && |r.discoveryBeaconInt.val| == 4 && |r.nss.val| == 4 && |r.enableRanging.val| == 4
    && |r.dwEarlyTermination.val| == 4 && |r.ndpeAttr.val| == 4
    && forall d | d in r.attributes :: TxFits(d)
  }

  /** The sum at the top of putNanConfig; its two halves name the terms written before and behind the nested values. */
  function ConfigLength(r: NanConfigRequest, cap: byte): nat {
    MSG_HEADER + FrontLength(r) + BackLength(r) + PostLength(r.attributes) + FamLength(r.famOn, r.fam, cap)
  }

  function FrontLength(r: NanConfigRequest): nat {
    OptSize(r.sidBeacon.on, |r.sidBeacon.val|)
    + OptSize(r.masterPref.on, |r.masterPref.val|)
    + OptSize(r.rssiProximity.on, |r.rssiProximity.val|)
    + OptSize(r.rssiProximity5g.on, |r.rssiProximity5g.val|)
    + OptSize(r.rssiWindow.on, |r.rssiWindow.val|)
    + OptSize(r.clusterAttribute.on, |r.clusterAttribute.val|)
    + ScanSize(r.scan)
    + OptSize(r.randomFactorForce.on, |r.randomFactorForce.val|)
    + OptSize(r.hopCountForce.on, |r.hopCountForce.val|)
    + OptSize(r.connCapability.on, 4)
  }

  function BackLength(r: NanConfigRequest): nat {
    OptSize(r.dw24g.on, 4)
    + OptSize(r.dw5g.on, 4)
    + OptSize(r.discMacRandomization.on, 4)
    + OptSize(r.subscribeSidBeacon.on, |r.subscribeSidBeacon.val|)
    + TLV_HEADER + 4
    + OptSize(r.discoveryBeaconInt.on, 4)
    + OptSize(r.nss.on, 4)
    + OptSize(r.enableRanging.on, 4)
    + OptSize(r.dwEarlyTermination.on, 4)
    + OptSize(r.ndpeAttr.on, 4)
  }

  /** The TLVs the flags select, in the order they are written. */
  function FrontTlvs(r: NanConfigRequest): seq<Tlv>
    requires WellSized(r)
  {
    [] + Opt(r.sidBeacon, SID_BEACON) + Opt(r.masterPref, MASTER_PREFERENCE)
    + Opt(r.rssiWindow, RSSI_AVERAGING_WINDOW_SIZE) + Opt(r.rssiProximity, RSSI_CLOSE_PROXIMITY_24G)
    + Opt(r.rssiProximity5g, RSSI_CLOSE_PROXIMITY_5G) + Opt(r.clusterAttribute, CLUSTER_ATTRIBUTE_IN_SDF)
    + ScanTlvs(r.scan)
    + Opt(r.randomFactorForce, RANDOM_FACTOR_FORCE) + Opt(r.hopCountForce, HOP_COUNT_FORCE)
    + Opt(r.connCapability, CONNECTIVITY_CAPABILITIES_TRANSMIT)
  }

  function ConfigTlvs(r: NanConfigRequest, cap: byte): seq<Tlv>
    requires WellSized(r)
  {
    FrontTlvs(r) + PostTlvs(r.attributes) + FamTlvs(r.famOn, r.fam, cap)
    + Opt(r.dw24g, COMMITTED_DW_2G) + Opt(r.dw5g, COMMITTED_DW_5G)
    + Opt(r.discMacRandomization, DISC_MAC_ADDR_RANDOM_INTERVAL)
    + Opt(r.subscribeSidBeacon, SUBSCRIBE_SID_BEACON) + Opt(r.discoveryBeaconInt, DB_INTERVAL)
    + Opt(r.discoveryIndication, CONFIG_DISCOVERY_INDICATIONS)
    + Opt(r.nss, TX_RX_CHAINS) + Opt(r.enableRanging, ENABLE_DEVICE_RANGING)
    + Opt(r.dwEarlyTermination, DW_EARLY_TERMINATION) + Opt(r.ndpeAttr, DEV_CAP_ATTR_CAPABILITY)
  }

  method AddFront(b: TlvBuffer, r: NanConfigRequest)
    requires WellSized(r) && b.Valid() && b.done == [] && b.at + FrontLength(r) <= b.buf.Length
    modifies b`at, b`done, b.buf
    ensures b.Valid() && b.at == old(b.at) + FrontLength(r) && b.done == FrontTlvs(r)
  {
    hide Opt, OptSize, ScanTlvs, ScanSize;
    b.Add(r.sidBeacon, SID_BEACON);
    b.Add(r.masterPref, MASTER_PREFERENCE);
    b.Add(r.rssiWindow, RSSI_AVERAGING_WINDOW_SIZE);
    b.Add(r.rssiProximity, RSSI_CLOSE_PROXIMITY_24G);
    b.Add(r.rssiProximity5g, RSSI_CLOSE_PROXIMITY_5G);
    b.Add(r.clusterAttribute, CLUSTER_ATTRIBUTE_IN_SDF);
    AddScan(b, r.scan);
    b.Add(r.randomFactorForce, RANDOM_FACTOR_FORCE);
    b.Add(r.hopCountForce, HOP_COUNT_FORCE);
    b.Add(r.connCapability, CONNECTIVITY_CAPABILITIES_TRANSMIT);
  }

  method AddBack(b: TlvBuffer, r: NanConfigRequest, cap: byte)
    requires WellSized(r) && b.Valid() && b.at + BackLength(r) <= b.buf.Length
    requires b.done == FrontTlvs(r) + PostTlvs(r.attributes) + FamTlvs(r.famOn, r.fam, cap)
    modifies b`at, b`done, b.buf
    ensures b.Valid() && b.at == old(b.at) + BackLength(r) && b.done == ConfigTlvs(r, cap)
  {
    assert OptSize(r.discoveryIndication.on, |r.discoveryIndication.val|) == 8;
    hide Opt, OptSize, FrontTlvs, PostTlvs, FamTlvs;
    b.Add(r.dw24g, COMMITTED_DW_2G);
    b.Add(r.dw5g, COMMITTED_DW_5G);
    b.Add(r.discMacRandomization, DISC_MAC_ADDR_RANDOM_INTERVAL);
    b.Add(r.subscribeSidBeacon, SUBSCRIBE_SID_BEACON);
    b.Add(r.discoveryBeaconInt, DB_INTERVAL);
    b.Add(r.discoveryIndication, CONFIG_DISCOVERY_INDICATIONS);
    b.Add(r.nss, TX_RX_CHAINS);
    b.Add(r.enableRanging, ENABLE_DEVICE_RANGING);
    b.Add(r.dwEarlyTermination, DW_EARLY_TERMINATION);
    b.Add(r.ndpeAttr, DEV_CAP_ATTR_CAPABILITY);
  }

  /** putNanConfig: refuses too many attributes, otherwise fills the precomputed length exactly. */
  method PutNanConfig(id: u16, r: NanConfigRequest, maxAttributes: nat, cap: byte) returns (msg: Result<array<byte>>)
    requires WellSized(r)
    ensures msg.Invalid? <==> |r.attributes| > maxAttributes
    ensures msg.Ok? ==>
      && fresh(msg.value) && msg.value.Length == ConfigLength(r, cap)
      && HeaderSays(msg.value[..], MSG_CONFIGURATION_REQ, 0, id)
      && msg.value[MSG_HEADER..] == EncodeAll(ConfigTlvs(r, cap))
      && ReadsAs(msg.value[..], MSG_HEADER, ConfigTlvs(r, cap))
  {
    hide HeaderSays, ReadsAs, EncodeAll, ConfigTlvs, ConfigLength;
    if |r.attributes| > maxAttributes {
      return Invalid;
    }
    var filled := FillConfig(id, r, cap);
    return Ok(filled);
  }

  method FillConfig(id: u16, r: NanConfigRequest, cap: byte) returns (msg: array<byte>)
    requires WellSized(r)
    ensures fresh(msg) && msg.Length == ConfigLength(r, cap)
    ensures HeaderSays(msg[..], MSG_CONFIGURATION_REQ, 0, id)
    ensures msg[MSG_HEADER..] == EncodeAll(ConfigTlvs(r, cap))
    ensures ReadsAs(msg[..], MSG_HEADER, ConfigTlvs(r, cap))
  {
    hide EncodeAll, ReadsAs, HeaderSays, Header, FrontLength, BackLength, FamLength, PostLength, FrontTlvs, PostTlvs,
        FamTlvs, ConfigTlvs, TxFits;
    var b := new TlvBuffer(ConfigLength(r, cap), Header(MSG_CONFIGURATION_REQ, ConfigLength(r, cap), 0, id));
    AddFront(b, r);
    AddPostDiscoveries(b, r.attributes);
    AddFam(b, r.famOn, r.fam, cap);
    AddBack(b, r, cap);
    msg := b.buf;
    assert msg[..] == msg[..b.at];
    WrittenReadsAs(b.head, ConfigTlvs(r, cap));
    HeaderOctets(MSG_CONFIGURATION_REQ, 0, id, EncodeAll(ConfigTlvs(r, cap)));
  }
}
