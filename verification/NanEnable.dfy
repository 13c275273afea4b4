/** The enable request: its precomputed length and the TLVs it writes. */
module NanEnable {
  import opened Words
  import opened NanTlv
  import opened NanMessage
  import opened NanTypes
  import opened NanScan

  datatype NanEnableRequest = NanEnableRequest(
    clusterLow: Field, clusterHigh: Field, masterPref: Field,
    support5g: Field, sidBeacon: Field, rssiClose24g: Field, rssiMiddle24g: Field, hopCountLimit: Field,
    support24g: Field, beacon24g: Field, sdf24g: Field, beacon5g: Field, sdf5g: Field,
    rssiProximity24g: Field, rssiClose5g: Field, rssiMiddle5g: Field, rssiCloseProximity5g: Field,
    rssiWindow: Field, oui: Field, intfAddr: Field, clusterAttribute: Field,
    scan: ScanParams, randomFactorForce: Field, hopCountForce: Field,
    channel24g: Field, channel5g: Field, dw24g: Field, dw5g: Field, discMacRandomization: Field,
    discoveryIndication: Field, subscribeSidBeacon: Field, discoveryBeaconInt: Field, nss: Field,
    enableRanging: Field, dwEarlyTermination: Field, ndpeAttr: Field)

  /** Field sizes the header file fixes: the length uses constants for these, the writer the fields. */
  predicate WellSized(r: NanEnableRequest) {
    && r.clusterLow.on && |r.clusterLow.val| == 2 && r.clusterHigh.on && |r.clusterHigh.val| == 2
    && r.masterPref.on && |r.masterPref.val| == 1
    && Small(r.support5g) && Small(r.sidBeacon) && Small(r.rssiClose24g) && Small(r.rssiMiddle24g)
        && Small(r.hopCountLimit)
    && Small(r.support24g) && Small(r.beacon24g) && Small(r.sdf24g) && Small(r.beacon5g) && Small(r.sdf5g)
    && Small(r.rssiProximity24g) && Small(r.rssiClose5g) && Small(r.rssiMiddle5g) && Small(r.rssiCloseProximity5g)
    && Small(r.rssiWindow) && Small(r.oui) && Small(r.intfAddr) && Small(r.clusterAttribute)
    && Small(r.randomFactorForce) && Small(r.hopCountForce)
    && |r.channel24g.val| == 4 && |r.channel5g.val| == 4 && |r.dw24g.val| == 4 && |r.dw5g.val| == 4
    && |r.discMacRandomization.val| == 4 && r.discoveryIndication.on && |r.discoveryIndication.val| == 4
    && Small(r.subscribeSidBeacon) && |r.discoveryBeaconInt.val| == 4 && |r.nss.val| == 4
    && |r.enableRanging.val| == 4 && |r.dwEarlyTermination.val| == 4 && |r.ndpeAttr.val| == 4
  }

  /** The sum at the top of putNanEnable, term by term, in three parts. */
  function EnableLength(r: NanEnableRequest): nat {
    MSG_HEADER + BandLength(r) + MasterLength(r) + ControlLength(r)
  }

  function BandLength(r: NanEnableRequest): nat {
    TLV_HEADER + 2 + TLV_HEADER + 2 + TLV_HEADER + 1
    + OptSize(r.support5g.on, |r.support5g.val|)
    + OptSize(r.sidBeacon.on, |r.sidBeacon.val|)
    + OptSize(r.rssiClose24g.on, |r.rssiClose24g.val|)
    + OptSize(r.rssiMiddle24g.on, |r.rssiMiddle24g.val|)
    + OptSize(r.hopCountLimit.on, |r.hopCountLimit.val|)
    + OptSize(r.support24g.on, |r.support24g.val|)
    + OptSize(r.beacon24g.on, |r.beacon24g.val|)
    + OptSize(r.sdf24g.on, |r.sdf24g.val|)
    + OptSize(r.beacon5g.on, |r.beacon5g.val|)
    + OptSize(r.sdf5g.on, |r.sdf5g.val|)
  }

  function MasterLength(r: NanEnableRequest): nat {
    OptSize(r.rssiClose5g.on, |r.rssiClose5g.val|)
    + OptSize(r.rssiMiddle5g.on, |r.rssiMiddle5g.val|)
    + OptSize(r.rssiProximity24g.on, |r.rssiProximity24g.val|)
    + OptSize(r.rssiCloseProximity5g.on, |r.rssiCloseProximity5g.val|)
    + OptSize(r.rssiWindow.on, |r.rssiWindow.val|)
    + OptSize(r.oui.on, |r.oui.val|)
    + OptSize(r.intfAddr.on, |r.intfAddr.val|)
    + OptSize(r.clusterAttribute.on, |r.clusterAttribute.val|)
    + ScanSize(r.scan)
    + OptSize(r.randomFactorForce.on, |r.randomFactorForce.val|)
    + OptSize(r.hopCountForce.on, |r.hopCountForce.val|)
  }

  function ControlLength(r: NanEnableRequest): nat {
    OptSize(r.channel24g.on, 4)
    + OptSize(r.channel5g.on, 4)
    + OptSize(r.dw24g.on, 4)
    + OptSize(r.dw5g.on, 4)
    + OptSize(r.discMacRandomization.on, 4)
    + TLV_HEADER + 4
    + OptSize(r.subscribeSidBeacon.on, |r.subscribeSidBeacon.val|)
    + OptSize(r.discoveryBeaconInt.on, 4)
    + OptSize(r.nss.on, 4)
    + OptSize(r.enableRanging.on, 4)
    + OptSize(r.dwEarlyTermination.on, 4)
    + OptSize(r.ndpeAttr.on, 4)
  }

  /** The TLVs the flags select, in the order they are written. */
  function BandTlvs(r: NanEnableRequest): seq<Tlv>
    requires WellSized(r)
  {
    [] + Opt(r.clusterLow, CLUSTER_ID_LOW) + Opt(r.clusterHigh, CLUSTER_ID_HIGH) + Opt(r.masterPref, MASTER_PREFERENCE)
    + Opt(r.support5g, SUPPORT_5G) + Opt(r.sidBeacon, SID_BEACON)
    + Opt(r.rssiClose24g, RSSI_CLOSE_24G) + Opt(r.rssiMiddle24g, RSSI_MIDDLE_24G)
    + Opt(r.hopCountLimit, HOP_COUNT_LIMIT)
    + Opt(r.support24g, SUPPORT_24G) + Opt(r.beacon24g, BEACON_24G) + Opt(r.sdf24g, SDF_24G)
    + Opt(r.beacon5g, BEACON_5G) + Opt(r.sdf5g, SDF_5G)
  }

  function MasterTlvs(r: NanEnableRequest): seq<Tlv>
    requires WellSized(r)
  {
    BandTlvs(r) + Opt(r.rssiProximity24g, RSSI_CLOSE_PROXIMITY_24G) + Opt(r.rssiClose5g, RSSI_CLOSE_5G)
    + Opt(r.rssiMiddle5g, RSSI_MIDDLE_5G) + Opt(r.rssiCloseProximity5g, RSSI_CLOSE_PROXIMITY_5G)
    + Opt(r.rssiWindow, RSSI_AVERAGING_WINDOW_SIZE) + Opt(r.oui, CLUSTER_OUI_NETWORK_ID)
    + Opt(r.intfAddr, SOURCE_MAC_ADDRESS) + Opt(r.clusterAttribute, CLUSTER_ATTRIBUTE_IN_SDF)
    + ScanTlvs(r.scan)
    + Opt(r.randomFactorForce, RANDOM_FACTOR_FORCE) + Opt(r.hopCountForce, HOP_COUNT_FORCE)
  }

  function EnableTlvs(r: NanEnableRequest): seq<Tlv>
    requires WellSized(r)
  {
    MasterTlvs(r)
    + Opt(r.channel24g, CHANNEL_24G) + Opt(r.channel5g, CHANNEL_5G)
    + Opt(r.dw24g, COMMITTED_DW_2G) + Opt(r.dw5g, COMMITTED_DW_5G)
    + Opt(r.discMacRandomization, DISC_MAC_ADDR_RANDOM_INTERVAL)
    + Opt(r.discoveryIndication, CONFIG_DISCOVERY_INDICATIONS)
    + Opt(r.subscribeSidBeacon, SUBSCRIBE_SID_BEACON) + Opt(r.discoveryBeaconInt, DB_INTERVAL)
    + Opt(r.nss, TX_RX_CHAINS) + Opt(r.enableRanging, ENABLE_DEVICE_RANGING)
    + Opt(r.dwEarlyTermination, DW_EARLY_TERMINATION) + Opt(r.ndpeAttr, DEV_CAP_ATTR_CAPABILITY)
  }

  method AddBand(b: TlvBuffer, r: NanEnableRequest)
    requires WellSized(r) && b.Valid() && b.done == [] && b.at + BandLength(r) <= b.buf.Length
    modifies b`at, b`done, b.buf
    ensures b.Valid() && b.at == old(b.at) + BandLength(r) && b.done == BandTlvs(r)
  {
    assert OptSize(r.clusterLow.on, |r.clusterLow.val|) == 6 && OptSize(r.clusterHigh.on, |r.clusterHigh.val|) == 6;
    assert OptSize(r.masterPref.on, |r.masterPref.val|) == 5;
    hide Opt, OptSize;
    b.Add(r.clusterLow, CLUSTER_ID_LOW);
    b.Add(r.clusterHigh, CLUSTER_ID_HIGH);
    b.Add(r.masterPref, MASTER_PREFERENCE);
    b.Add(r.support5g, SUPPORT_5G);
    b.Add(r.sidBeacon, SID_BEACON);
    b.Add(r.rssiClose24g, RSSI_CLOSE_24G);
    b.Add(r.rssiMiddle24g, RSSI_MIDDLE_24G);
    b.Add(r.hopCountLimit, HOP_COUNT_LIMIT);
    b.Add(r.support24g, SUPPORT_24G);
    b.Add(r.beacon24g, BEACON_24G);
    b.Add(r.sdf24g, SDF_24G);
    b.Add(r.beacon5g, BEACON_5G);
    b.Add(r.sdf5g, SDF_5G);
  }

  method AddMaster(b: TlvBuffer, r: NanEnableRequest)
    requires WellSized(r) && b.Valid() && b.done == BandTlvs(r) && b.at + MasterLength(r) <= b.buf.Length
    modifies b`at, b`done, b.buf
    ensures b.Valid() && b.at == old(b.at) + MasterLength(r) && b.done == MasterTlvs(r)
  {
    hide Opt, OptSize, BandTlvs, ScanTlvs, ScanSize;
    b.Add(r.rssiProximity24g, RSSI_CLOSE_PROXIMITY_24G);
    b.Add(r.rssiClose5g, RSSI_CLOSE_5G);
    b.Add(r.rssiMiddle5g, RSSI_MIDDLE_5G);
    b.Add(r.rssiCloseProximity5g, RSSI_CLOSE_PROXIMITY_5G);
    b.Add(r.rssiWindow, RSSI_AVERAGING_WINDOW_SIZE);
    b.Add(r.oui, CLUSTER_OUI_NETWORK_ID);
    b.Add(r.intfAddr, SOURCE_MAC_ADDRESS);
    b.Add(r.clusterAttribute, CLUSTER_ATTRIBUTE_IN_SDF);
    AddScan(b, r.scan);
    b.Add(r.randomFactorForce, RANDOM_FACTOR_FORCE);
    b.Add(r.hopCountForce, HOP_COUNT_FORCE);
  }

  method AddControl(b: TlvBuffer, r: NanEnableRequest)
    requires WellSized(r) && b.Valid() && b.done == MasterTlvs(r) && b.at + ControlLength(r) <= b.buf.Length
    modifies b`at, b`done, b.buf
    ensures b.Valid() && b.at == old(b.at) + ControlLength(r) && b.done == EnableTlvs(r)
  {
    assert OptSize(r.discoveryIndication.on, |r.discoveryIndication.val|) == 8;
    hide Opt, OptSize, MasterTlvs;
    b.Add(r.channel24g, CHANNEL_24G);
    b.Add(r.channel5g, CHANNEL_5G);
    b.Add(r.dw24g, COMMITTED_DW_2G);
    b.Add(r.dw5g, COMMITTED_DW_5G);
    b.Add(r.discMacRandomization, DISC_MAC_ADDR_RANDOM_INTERVAL);
    b.Add(r.discoveryIndication, CONFIG_DISCOVERY_INDICATIONS);
    b.Add(r.subscribeSidBeacon, SUBSCRIBE_SID_BEACON);
    b.Add(r.discoveryBeaconInt, DB_INTERVAL);
    b.Add(r.nss, TX_RX_CHAINS);
    b.Add(r.enableRanging, ENABLE_DEVICE_RANGING);
    b.Add(r.dwEarlyTermination, DW_EARLY_TERMINATION);
    b.Add(r.ndpeAttr, DEV_CAP_ATTR_CAPABILITY);
  }

  /** putNanEnable: the buffer allocated from the precomputed length is filled exactly. */
  method PutNanEnable(id: u16, r: NanEnableRequest) returns (msg: array<byte>)
    requires WellSized(r)
    ensures fresh(msg) && msg.Length == EnableLength(r)
    ensures HeaderSays(msg[..], MSG_ENABLE_REQ, 0, id)
    ensures msg[MSG_HEADER..] == EncodeAll(EnableTlvs(r))
    ensures ReadsAs(msg[..], MSG_HEADER, EnableTlvs(r))
  {
    hide EncodeAll, BandLength, MasterLength, BandTlvs, ControlLength, ReadsAs, Header, MasterTlvs, EnableTlvs,
        HeaderSays;
    var b := new TlvBuffer(EnableLength(r), Header(MSG_ENABLE_REQ, EnableLength(r), 0, id));
    AddBand(b, r);
    AddMaster(b, r);
    AddControl(b, r);
    msg := b.buf;
    assert msg[..] == msg[..b.at];
    WrittenReadsAs(b.head, EnableTlvs(r));
    HeaderOctets(MSG_ENABLE_REQ, 0, id, EncodeAll(EnableTlvs(r)));
  }
}
