/** What a receiver finds under each type: the tables from type to field of the five requests. */
module NanCarries {
  import opened Wrappers
  import opened Words
  import opened NanTlv
  import opened NanMessage
  import opened NanTypes
  import opened NanScan
  import opened NanNested
  import opened NanService
  import NanEnable
  import NanConfig

  function Sent(f: Field): Option<seq<byte>> {
    if f.on then Some(f.val) else None
  }

  /** One more field: it is found under its type, and under the other types nothing changes. */
  lemma More(ts: seq<Tlv>, f: Field, k: u16, kind: u16)
    requires |f.val| < 65536
    ensures LastValue(ts + Opt(f, k), kind) == if f.on && k == kind then Some(f.val) else LastValue(ts, kind)
  {
    if f.on {
      assert (ts + [Tlv(k, f.val)])[..|ts|] == ts;
    } else {
      assert ts + [] == ts;
    }
  }

  lemma {:induction false} MoreOther(ts: seq<Tlv>, more: seq<Tlv>, kind: u16)
    requires forall t | t in more :: t.kind != kind
    ensures LastValue(ts + more, kind) == LastValue(ts, kind)
    decreases |more|
  {
    if more == [] {
      assert ts + more == ts;
    } else {
      var n := |more| - 1;
      assert (ts + more)[..|ts + more| - 1] == ts + more[..n] && more[n] in more;
      MoreOther(ts, more[..n], kind);
    }
  }

  // ----- Enable -----

  function BandField(r: NanEnable.NanEnableRequest, kind: u16): Option<seq<byte>> {
    if kind == CLUSTER_ID_LOW then Sent(r.clusterLow)
    else if kind == CLUSTER_ID_HIGH then Sent(r.clusterHigh)
    else if kind == MASTER_PREFERENCE then Sent(r.masterPref)
    else if kind == SUPPORT_5G then Sent(r.support5g)
    else if kind == SID_BEACON then Sent(r.sidBeacon)
    else if kind == RSSI_CLOSE_24G then Sent(r.rssiClose24g)
    else if kind == RSSI_MIDDLE_24G then Sent(r.rssiMiddle24g)
    else if kind == HOP_COUNT_LIMIT then Sent(r.hopCountLimit)
    else if kind == SUPPORT_24G then Sent(r.support24g)
    else if kind == BEACON_24G then Sent(r.beacon24g)
    else if kind == SDF_24G then Sent(r.sdf24g)
    else if kind == BEACON_5G then Sent(r.beacon5g)
    else if kind == SDF_5G then Sent(r.sdf5g)
    else None
  }

  function MasterField(r: NanEnable.NanEnableRequest, kind: u16): Option<seq<byte>> {
    if kind == RSSI_CLOSE_PROXIMITY_24G then Sent(r.rssiProximity24g)
    else if kind == RSSI_CLOSE_5G then Sent(r.rssiClose5g)
    else if kind == RSSI_MIDDLE_5G then Sent(r.rssiMiddle5g)
    else if kind == RSSI_CLOSE_PROXIMITY_5G then Sent(r.rssiCloseProximity5g)
    else if kind == RSSI_AVERAGING_WINDOW_SIZE then Sent(r.rssiWindow)
    else if kind == CLUSTER_OUI_NETWORK_ID then Sent(r.oui)
    else if kind == SOURCE_MAC_ADDRESS then Sent(r.intfAddr)
    else if kind == CLUSTER_ATTRIBUTE_IN_SDF then Sent(r.clusterAttribute)
    else if kind == RANDOM_FACTOR_FORCE then Sent(r.randomFactorForce)
    else if kind == HOP_COUNT_FORCE then Sent(r.hopCountForce)
    else BandField(r, kind)
  }

  /** The field of an enable request that a type stands for. */
  function EnableField(r: NanEnable.NanEnableRequest, kind: u16): Option<seq<byte>> {
    if kind == CHANNEL_24G then Sent(r.channel24g)
    else if kind == CHANNEL_5G then Sent(r.channel5g)
    else if kind == COMMITTED_DW_2G then Sent(r.dw24g)
    else if kind == COMMITTED_DW_5G then Sent(r.dw5g)
    else if kind == DISC_MAC_ADDR_RANDOM_INTERVAL then Sent(r.discMacRandomization)
    else if kind == CONFIG_DISCOVERY_INDICATIONS then Sent(r.discoveryIndication)
    else if kind == SUBSCRIBE_SID_BEACON then Sent(r.subscribeSidBeacon)
    else if kind == DB_INTERVAL then Sent(r.discoveryBeaconInt)
    else if kind == TX_RX_CHAINS then Sent(r.nss)
    else if kind == ENABLE_DEVICE_RANGING then Sent(r.enableRanging)
    else if kind == DW_EARLY_TERMINATION then Sent(r.dwEarlyTermination)
    else if kind == DEV_CAP_ATTR_CAPABILITY then Sent(r.ndpeAttr)
    else MasterField(r, kind)
  }

  lemma EmptyFinds(kind: u16)
    ensures LastValue([], kind) == None
  {
  }

  lemma BandFinds(r: NanEnable.NanEnableRequest, kind: u16)
    requires NanEnable.WellSized(r)
    ensures LastValue(NanEnable.BandTlvs(r), kind) == BandField(r, kind)
  {
    hide LastValue, Opt;
    EmptyFinds(kind);
    var ts := [];
    More(ts, r.clusterLow, CLUSTER_ID_LOW, kind);
    ts := ts + Opt(r.clusterLow, CLUSTER_ID_LOW);
    More(ts, r.clusterHigh, CLUSTER_ID_HIGH, kind);
    ts := ts + Opt(r.clusterHigh, CLUSTER_ID_HIGH);
    More(ts, r.masterPref, MASTER_PREFERENCE, kind);
    ts := ts + Opt(r.masterPref, MASTER_PREFERENCE);
    More(ts, r.support5g, SUPPORT_5G, kind);
    ts := ts + Opt(r.support5g, SUPPORT_5G);
    More(ts, r.sidBeacon, SID_BEACON, kind);
    ts := ts + Opt(r.sidBeacon, SID_BEACON);
    More(ts, r.rssiClose24g, RSSI_CLOSE_24G, kind);
    ts := ts + Opt(r.rssiClose24g, RSSI_CLOSE_24G);
    More(ts, r.rssiMiddle24g, RSSI_MIDDLE_24G, kind);
    ts := ts + Opt(r.rssiMiddle24g, RSSI_MIDDLE_24G);
    More(ts, r.hopCountLimit, HOP_COUNT_LIMIT, kind);
    ts := ts + Opt(r.hopCountLimit, HOP_COUNT_LIMIT);
    More(ts, r.support24g, SUPPORT_24G, kind);
    ts := ts + Opt(r.support24g, SUPPORT_24G);
    More(ts, r.beacon24g, BEACON_24G, kind);
    ts := ts + Opt(r.beacon24g, BEACON_24G);
    More(ts, r.sdf24g, SDF_24G, kind);
    ts := ts + Opt(r.sdf24g, SDF_24G);
    More(ts, r.beacon5g, BEACON_5G, kind);
    ts := ts + Opt(r.beacon5g, BEACON_5G);
    More(ts, r.sdf5g, SDF_5G, kind);
    ts := ts + Opt(r.sdf5g, SDF_5G);
    assert ts == NanEnable.BandTlvs(r);
  }

  lemma MasterFinds(r: NanEnable.NanEnableRequest, kind: u16)
    requires NanEnable.WellSized(r) && kind != SOCIAL_CHANNEL_SCAN_PARAMS
    ensures LastValue(NanEnable.MasterTlvs(r), kind) == MasterField(r, kind)
  {
    hide LastValue, Opt, NanEnable.BandTlvs;
    BandFinds(r, kind);
    var ts := NanEnable.BandTlvs(r);
    More(ts, r.rssiProximity24g, RSSI_CLOSE_PROXIMITY_24G, kind);
    ts := ts + Opt(r.rssiProximity24g, RSSI_CLOSE_PROXIMITY_24G);
    More(ts, r.rssiClose5g, RSSI_CLOSE_5G, kind);
    ts := ts + Opt(r.rssiClose5g, RSSI_CLOSE_5G);
    More(ts, r.rssiMiddle5g, RSSI_MIDDLE_5G, kind);
    ts := ts + Opt(r.rssiMiddle5g, RSSI_MIDDLE_5G);
    More(ts, r.rssiCloseProximity5g, RSSI_CLOSE_PROXIMITY_5G, kind);
    ts := ts + Opt(r.rssiCloseProximity5g, RSSI_CLOSE_PROXIMITY_5G);
    More(ts, r.rssiWindow, RSSI_AVERAGING_WINDOW_SIZE, kind);
    ts := ts + Opt(r.rssiWindow, RSSI_AVERAGING_WINDOW_SIZE);
    More(ts, r.oui, CLUSTER_OUI_NETWORK_ID, kind);
    ts := ts + Opt(r.oui, CLUSTER_OUI_NETWORK_ID);
    More(ts, r.intfAddr, SOURCE_MAC_ADDRESS, kind);
    ts := ts + Opt(r.intfAddr, SOURCE_MAC_ADDRESS);
    More(ts, r.clusterAttribute, CLUSTER_ATTRIBUTE_IN_SDF, kind);
    ts := ts + Opt(r.clusterAttribute, CLUSTER_ATTRIBUTE_IN_SDF);
    if r.scan.on { assert forall t | t in ScanTlvs(r.scan) :: t.kind == SOCIAL_CHANNEL_SCAN_PARAMS; }
    MoreOther(ts, ScanTlvs(r.scan), kind);
    ts := ts + ScanTlvs(r.scan);
    More(ts, r.randomFactorForce, RANDOM_FACTOR_FORCE, kind);
    ts := ts + Opt(r.randomFactorForce, RANDOM_FACTOR_FORCE);
    More(ts, r.hopCountForce, HOP_COUNT_FORCE, kind);
    ts := ts + Opt(r.hopCountForce, HOP_COUNT_FORCE);
    assert ts == NanEnable.MasterTlvs(r);
  }

  lemma ControlIsNew(r: NanEnable.NanEnableRequest, kind: u16)
    requires kind == CHANNEL_24G || kind == CHANNEL_5G || kind == COMMITTED_DW_2G || kind == COMMITTED_DW_5G
      || kind == DISC_MAC_ADDR_RANDOM_INTERVAL || kind == CONFIG_DISCOVERY_INDICATIONS
      || kind == SUBSCRIBE_SID_BEACON || kind == DB_INTERVAL || kind == TX_RX_CHAINS
      || kind == ENABLE_DEVICE_RANGING || kind == DW_EARLY_TERMINATION || kind == DEV_CAP_ATTR_CAPABILITY
    ensures MasterField(r, kind) == None
  {
  }

  /** Under each type the receiver of an enable request finds the field that stands in the table, when its flag is set,
      and nothing else. */
  lemma EnableFinds(r: NanEnable.NanEnableRequest, kind: u16)
    requires NanEnable.WellSized(r) && kind != SOCIAL_CHANNEL_SCAN_PARAMS
    ensures LastValue(NanEnable.EnableTlvs(r), kind) == EnableField(r, kind)
  {
    hide LastValue, Opt, NanEnable.MasterTlvs, MasterField;
    MasterFinds(r, kind);
    if kind == CHANNEL_24G || kind == CHANNEL_5G || kind == COMMITTED_DW_2G || kind == COMMITTED_DW_5G
       || kind == DISC_MAC_ADDR_RANDOM_INTERVAL || kind == CONFIG_DISCOVERY_INDICATIONS
       || kind == SUBSCRIBE_SID_BEACON || kind == DB_INTERVAL || kind == TX_RX_CHAINS
       || kind == ENABLE_DEVICE_RANGING || kind == DW_EARLY_TERMINATION || kind == DEV_CAP_ATTR_CAPABILITY {
      ControlIsNew(r, kind);
    }
    var ts := NanEnable.MasterTlvs(r);
    More(ts, r.channel24g, CHANNEL_24G, kind);
    ts := ts + Opt(r.channel24g, CHANNEL_24G);
    More(ts, r.channel5g, CHANNEL_5G, kind);
    ts := ts + Opt(r.channel5g, CHANNEL_5G);
    More(ts, r.dw24g, COMMITTED_DW_2G, kind);
    ts := ts + Opt(r.dw24g, COMMITTED_DW_2G);
    More(ts, r.dw5g, COMMITTED_DW_5G, kind);
    ts := ts + Opt(r.dw5g, COMMITTED_DW_5G);
    More(ts, r.discMacRandomization, DISC_MAC_ADDR_RANDOM_INTERVAL, kind);
    ts := ts + Opt(r.discMacRandomization, DISC_MAC_ADDR_RANDOM_INTERVAL);
    More(ts, r.discoveryIndication, CONFIG_DISCOVERY_INDICATIONS, kind);
    ts := ts + Opt(r.discoveryIndication, CONFIG_DISCOVERY_INDICATIONS);
    More(ts, r.subscribeSidBeacon, SUBSCRIBE_SID_BEACON, kind);
    ts := ts + Opt(r.subscribeSidBeacon, SUBSCRIBE_SID_BEACON);
    More(ts, r.discoveryBeaconInt, DB_INTERVAL, kind);
    ts := ts + Opt(r.discoveryBeaconInt, DB_INTERVAL);
    More(ts, r.nss, TX_RX_CHAINS, kind);
    ts := ts + Opt(r.nss, TX_RX_CHAINS);
    More(ts, r.enableRanging, ENABLE_DEVICE_RANGING, kind);
    ts := ts + Opt(r.enableRanging, ENABLE_DEVICE_RANGING);
    More(ts, r.dwEarlyTermination, DW_EARLY_TERMINATION, kind);
    ts := ts + Opt(r.dwEarlyTermination, DW_EARLY_TERMINATION);
    More(ts, r.ndpeAttr, DEV_CAP_ATTR_CAPABILITY, kind);
    ts := ts + Opt(r.ndpeAttr, DEV_CAP_ATTR_CAPABILITY);
    assert ts == NanEnable.EnableTlvs(r);
  }

  // ----- Config -----

  function FrontField(r: NanConfig.NanConfigRequest, kind: u16): Option<seq<byte>> {
    if kind == SID_BEACON then Sent(r.sidBeacon)
    else if kind == MASTER_PREFERENCE then Sent(r.masterPref)
    else if kind == RSSI_AVERAGING_WINDOW_SIZE then Sent(r.rssiWindow)
    else if kind == RSSI_CLOSE_PROXIMITY_24G then Sent(r.rssiProximity)
    else if kind == RSSI_CLOSE_PROXIMITY_5G then Sent(r.rssiProximity5g)
    else if kind == CLUSTER_ATTRIBUTE_IN_SDF then Sent(r.clusterAttribute)
    else if kind == RANDOM_FACTOR_FORCE then Sent(r.randomFactorForce)
    else if kind == HOP_COUNT_FORCE then Sent(r.hopCountForce)
    else if kind == CONNECTIVITY_CAPABILITIES_TRANSMIT then Sent(r.connCapability)
    else None
  }

  /** The field of a configuration request that a type stands for. */
  function ConfigField(r: NanConfig.NanConfigRequest, kind: u16): Option<seq<byte>> {
    if kind == COMMITTED_DW_2G then Sent(r.dw24g)
    else if kind == COMMITTED_DW_5G then Sent(r.dw5g)
    else if kind == DISC_MAC_ADDR_RANDOM_INTERVAL then Sent(r.discMacRandomization)
    else if kind == SUBSCRIBE_SID_BEACON then Sent(r.subscribeSidBeacon)
    else if kind == DB_INTERVAL then Sent(r.discoveryBeaconInt)
    else if kind == CONFIG_DISCOVERY_INDICATIONS then Sent(r.discoveryIndication)
    else if kind == TX_RX_CHAINS then Sent(r.nss)
    else if kind == ENABLE_DEVICE_RANGING then Sent(r.enableRanging)
    else if kind == DW_EARLY_TERMINATION then Sent(r.dwEarlyTermination)
    else if kind == DEV_CAP_ATTR_CAPABILITY then Sent(r.ndpeAttr)
    else FrontField(r, kind)
  }

  lemma FrontFinds(r: NanConfig.NanConfigRequest, kind: u16)
    requires NanConfig.WellSized(r) && kind != SOCIAL_CHANNEL_SCAN_PARAMS
    ensures LastValue(NanConfig.FrontTlvs(r), kind) == FrontField(r, kind)
  {
    hide LastValue, Opt;
    EmptyFinds(kind);
    var ts := [];
    More(ts, r.sidBeacon, SID_BEACON, kind);
    ts := ts + Opt(r.sidBeacon, SID_BEACON);
    More(ts, r.masterPref, MASTER_PREFERENCE, kind);
    ts := ts + Opt(r.masterPref, MASTER_PREFERENCE);
    More(ts, r.rssiWindow, RSSI_AVERAGING_WINDOW_SIZE, kind);
    ts := ts + Opt(r.rssiWindow, RSSI_AVERAGING_WINDOW_SIZE);
    More(ts, r.rssiProximity, RSSI_CLOSE_PROXIMITY_24G, kind);
    ts := ts + Opt(r.rssiProximity, RSSI_CLOSE_PROXIMITY_24G);
    More(ts, r.rssiProximity5g, RSSI_CLOSE_PROXIMITY_5G, kind);
    ts := ts + Opt(r.rssiProximity5g, RSSI_CLOSE_PROXIMITY_5G);
    More(ts, r.clusterAttribute, CLUSTER_ATTRIBUTE_IN_SDF, kind);
    ts := ts + Opt(r.clusterAttribute, CLUSTER_ATTRIBUTE_IN_SDF);
    if r.scan.on { assert forall t | t in ScanTlvs(r.scan) :: t.kind == SOCIAL_CHANNEL_SCAN_PARAMS; }
    MoreOther(ts, ScanTlvs(r.scan), kind);
    ts := ts + ScanTlvs(r.scan);
    More(ts, r.randomFactorForce, RANDOM_FACTOR_FORCE, kind);
    ts := ts + Opt(r.randomFactorForce, RANDOM_FACTOR_FORCE);
    More(ts, r.hopCountForce, HOP_COUNT_FORCE, kind);
    ts := ts + Opt(r.hopCountForce, HOP_COUNT_FORCE);
    More(ts, r.connCapability, CONNECTIVITY_CAPABILITIES_TRANSMIT, kind);
    ts := ts + Opt(r.connCapability, CONNECTIVITY_CAPABILITIES_TRANSMIT);
    assert ts == NanConfig.FrontTlvs(r);
  }

  /** The same for a configuration request; its nested values have types of their own. */
  lemma ConfigFinds(r: NanConfig.NanConfigRequest, cap: byte, kind: u16)
    requires NanConfig.WellSized(r) && kind != SOCIAL_CHANNEL_SCAN_PARAMS
    requires kind != DISCOVERY_ATTRIBUTE_TRANSMIT && kind != FURTHER_AVAILABILITY_MAP
    ensures LastValue(NanConfig.ConfigTlvs(r, cap), kind) == ConfigField(r, kind)
  {
    hide LastValue, Opt, NanConfig.FrontTlvs, PostTlvs, FamTlvs;
    FrontFinds(r, kind);
    NestedKinds(r, cap);
    MoreOther(NanConfig.FrontTlvs(r), PostTlvs(r.attributes), kind);
    MoreOther(NanConfig.FrontTlvs(r) + PostTlvs(r.attributes), FamTlvs(r.famOn, r.fam, cap), kind);
    var ts := NanConfig.FrontTlvs(r) + PostTlvs(r.attributes) + FamTlvs(r.famOn, r.fam, cap);
    More(ts, r.dw24g, COMMITTED_DW_2G, kind);
    ts := ts + Opt(r.dw24g, COMMITTED_DW_2G);
    More(ts, r.dw5g, COMMITTED_DW_5G, kind);
    ts := ts + Opt(r.dw5g, COMMITTED_DW_5G);
    More(ts, r.discMacRandomization, DISC_MAC_ADDR_RANDOM_INTERVAL, kind);
    ts := ts + Opt(r.discMacRandomization, DISC_MAC_ADDR_RANDOM_INTERVAL);
    More(ts, r.subscribeSidBeacon, SUBSCRIBE_SID_BEACON, kind);
    ts := ts + Opt(r.subscribeSidBeacon, SUBSCRIBE_SID_BEACON);
    More(ts, r.discoveryBeaconInt, DB_INTERVAL, kind);
    ts := ts + Opt(r.discoveryBeaconInt, DB_INTERVAL);
    More(ts, r.discoveryIndication, CONFIG_DISCOVERY_INDICATIONS, kind);
    ts := ts + Opt(r.discoveryIndication, CONFIG_DISCOVERY_INDICATIONS);
    More(ts, r.nss, TX_RX_CHAINS, kind);
    ts := ts + Opt(r.nss, TX_RX_CHAINS);
    More(ts, r.enableRanging, ENABLE_DEVICE_RANGING, kind);
    ts := ts + Opt(r.enableRanging, ENABLE_DEVICE_RANGING);
    More(ts, r.dwEarlyTermination, DW_EARLY_TERMINATION, kind);
    ts := ts + Opt(r.dwEarlyTermination, DW_EARLY_TERMINATION);
    More(ts, r.ndpeAttr, DEV_CAP_ATTR_CAPABILITY, kind);
    ts := ts + Opt(r.ndpeAttr, DEV_CAP_ATTR_CAPABILITY);
    assert ts == NanConfig.ConfigTlvs(r, cap);
  }

  lemma NestedKinds(r: NanConfig.NanConfigRequest, cap: byte)
    requires NanConfig.WellSized(r)
    ensures forall t | t in PostTlvs(r.attributes) :: t.kind == DISCOVERY_ATTRIBUTE_TRANSMIT
    ensures forall t | t in FamTlvs(r.famOn, r.fam, cap) :: t.kind == FURTHER_AVAILABILITY_MAP
  {
    hide PostDiscoveryValue, FamValue;
  }

  // ----- Publish, subscribe and follow-up -----

  /** A text is sent when it is not empty. */
  function SentText(text: Text): Option<seq<byte>> {
    if text == [] then None else Some(text)
  }

  /** A master key is sent when it has 32 octets, a passphrase when it has 8 to 63. */
  function KeyField(k: Key, kind: u16): Option<seq<byte>> {
    if kind == PMK && k.Pmk? && |k.pmk| == 32 then Some(k.pmk)
    else if kind == PASSPHRASE && k.Passphrase? && 8 <= |k.passphrase| <= 63 then Some(k.passphrase)
    else None
  }

  /** The field of a service that a type stands for; ranging tells whether the ranging request is answered. */
  function ServiceField(s: Service, ranging: bool, kind: u16): Option<seq<byte>> {
    if kind == SERVICE_NAME then SentText(s.name)
    else if kind == SERVICE_SPECIFIC_INFO then SentText(s.ssi)
    else if kind == RX_MATCH_FILTER then SentText(s.rxFilter)
    else if kind == TX_MATCH_FILTER then SentText(s.txFilter)
    else if kind == CSID then Sent(s.cipher)
    else if kind == SDEA_CTRL_PARAMS then Sent(s.sdea)
    else if kind == RANGING_CFG then Sent(s.rangingCfg)
    else if kind == SDEA_SERVICE_SPECIFIC_INFO then SentText(s.sdeaSsi)
    else if kind == RANGING_REQUEST then if ranging then Some(s.rangeRequest) else None
    else KeyField(s.key, kind)
  }

  lemma MoreKey(ts: seq<Tlv>, k: Key, kind: u16)
    ensures LastValue(ts + KeyTlvs(k), kind)
         == if KeyField(k, kind).Some? then KeyField(k, kind) else LastValue(ts, kind)
  {
    if KeyTlvs(k) == [] {
      assert ts + KeyTlvs(k) == ts;
    } else {
      assert (ts + KeyTlvs(k))[..|ts|] == ts;
    }
  }

  lemma NamesFind(s: Service, kind: u16)
    ensures LastValue(NamesTlvs(s), kind) ==
      if kind == SERVICE_NAME then SentText(s.name)
      else if kind == SERVICE_SPECIFIC_INFO then SentText(s.ssi)
      else if kind == RX_MATCH_FILTER then SentText(s.rxFilter)
      else if kind == TX_MATCH_FILTER then SentText(s.txFilter)
      else None
  {
    hide LastValue, Opt;
    EmptyFinds(kind);
    var t1 := [] + Opt(Present(s.name), SERVICE_NAME);
    var t2 := t1 + Opt(Present(s.ssi), SERVICE_SPECIFIC_INFO);
    var t3 := t2 + Opt(Present(s.rxFilter), RX_MATCH_FILTER);
    More([], Present(s.name), SERVICE_NAME, kind);
    More(t1, Present(s.ssi), SERVICE_SPECIFIC_INFO, kind);
    More(t2, Present(s.rxFilter), RX_MATCH_FILTER, kind);
    More(t3, Present(s.txFilter), TX_MATCH_FILTER, kind);
  }

  lemma OptionsFind(s: Service, accept: nat, done: seq<Tlv>, kind: u16)
    requires WellSized(s)
    ensures LastValue(OptionsTlvs(s, accept, done), kind) ==
      if kind == CSID && s.cipher.on then Some(s.cipher.val)
      else if kind == SDEA_CTRL_PARAMS && s.sdea.on then Some(s.sdea.val)
      else if kind == RANGING_CFG && s.rangingCfg.on then Some(s.rangingCfg.val)
      else if kind == SDEA_SERVICE_SPECIFIC_INFO && s.sdeaSsi != [] then Some(s.sdeaSsi)
      else if kind == RANGING_REQUEST && (s.peerId != 0 || s.response >= accept) then Some(s.rangeRequest)
      else if KeyField(s.key, kind).Some? then KeyField(s.key, kind)
      else LastValue(done, kind)
  {
    hide LastValue, Opt, KeyTlvs;
    var t1 := done + Opt(s.cipher, CSID);
    var t2 := t1 + KeyTlvs(s.key);
    var t3 := t2 + Opt(s.sdea, SDEA_CTRL_PARAMS);
    var t4 := t3 + Opt(s.rangingCfg, RANGING_CFG);
    var t5 := t4 + Opt(Present(s.sdeaSsi), SDEA_SERVICE_SPECIFIC_INFO);
    More(done, s.cipher, CSID, kind);
    MoreKey(t1, s.key, kind);
    More(t2, s.sdea, SDEA_CTRL_PARAMS, kind);
    More(t3, s.rangingCfg, RANGING_CFG, kind);
    More(t4, Present(s.sdeaSsi), SDEA_SERVICE_SPECIFIC_INFO, kind);
    More(t5, Field(Responds(s, accept), s.rangeRequest), RANGING_REQUEST, kind);
  }

  /** Under each type the receiver of a publish request finds the field of the table, and the accept policy always. */
  lemma PublishFinds(r: NanPublishRequest, accept: nat, kind: u16)
    requires WellSized(r.service) && |r.policy| <= 65531
    ensures LastValue(PublishTlvs(r, accept), kind) ==
      if kind == SERVICE_ACCEPT_POLICY then Some(r.policy)
      else ServiceField(r.service, r.service.peerId != 0 || r.service.response >= accept, kind)
  {
    hide LastValue, NamesTlvs, OptionsTlvs;
    NamesFind(r.service, kind);
    More(NamesTlvs(r.service), Field(true, r.policy), SERVICE_ACCEPT_POLICY, kind);
    OptionsFind(r.service, accept, NamesTlvs(r.service) + Opt(Field(true, r.policy), SERVICE_ACCEPT_POLICY), kind);
  }

  /** The same for a subscribe request, whose interface addresses have a type of their own. */
  lemma SubscribeFinds(r: NanSubscribeRequest, accept: nat, kind: u16)
    requires WellSized(r.service) && kind != MAC_ADDRESS
    ensures LastValue(SubscribeTlvs(r, accept), kind)
         == ServiceField(r.service, r.service.peerId != 0 || r.service.response >= accept, kind)
  {
    hide LastValue, NamesTlvs, OptionsTlvs;
    NamesFind(r.service, kind);
    MoreOther(NamesTlvs(r.service), AddressTlvs(r.addresses), kind);
    OptionsFind(r.service, accept, NamesTlvs(r.service) + AddressTlvs(r.addresses), kind);
  }
}
