/** TLV and message numbers of the NAN firmware interface. */
module NanTypes {
  const MSG_CONFIGURATION_REQ := 1
  const MSG_PUBLISH_SERVICE_REQ := 3
  const MSG_SUBSCRIBE_SERVICE_REQ := 9
  const MSG_TRANSMIT_FOLLOWUP_REQ := 17
  const MSG_ENABLE_REQ := 22

  const SERVICE_NAME := 0
  const SDF_MATCH_FILTER := 1
  const TX_MATCH_FILTER := 2
  const RX_MATCH_FILTER := 3
  const SERVICE_SPECIFIC_INFO := 4
  const EXT_SERVICE_SPECIFIC_INFO := 5
  const CONNECTIVITY_CAPABILITIES_RECEIVE := 8
  const DISCOVERY_ATTRIBUTE_RECEIVE := 9
  const COMMITTED_DW_2G := 13
  const COMMITTED_DW_5G := 14
  const SERVICE_ACCEPT_POLICY := 17
  const CSID := 18
  const SCID := 19
  const PMK := 20
  const SDEA_CTRL_PARAMS := 21
  const RANGING_CFG := 22
  const CONFIG_DISCOVERY_INDICATIONS := 23
  const RANGING_REQUEST := 24
  const RANGING_RESULT := 25
  const PASSPHRASE := 27
  const SDEA_SERVICE_SPECIFIC_INFO := 28
  const DEV_CAP_ATTR_CAPABILITY := 29

  const SUPPORT_24G := 4096
  const BEACON_24G := 4097
  const SDF_24G := 4098
  const RSSI_CLOSE_24G := 4099
  const RSSI_MIDDLE_24G := 4100
  const RSSI_CLOSE_PROXIMITY_24G := 4101
  const SUPPORT_5G := 4102
  const BEACON_5G := 4103
  const SDF_5G := 4104
  const RSSI_CLOSE_5G := 4105
  const RSSI_MIDDLE_5G := 4106
  const RSSI_CLOSE_PROXIMITY_5G := 4107
  const SID_BEACON := 4108
  const HOP_COUNT_LIMIT := 4109
  const MASTER_PREFERENCE := 4110
  const CLUSTER_ID_LOW := 4111
  const CLUSTER_ID_HIGH := 4112
  const RSSI_AVERAGING_WINDOW_SIZE := 4113
  const CLUSTER_OUI_NETWORK_ID := 4114
  const SOURCE_MAC_ADDRESS := 4115
  const CLUSTER_ATTRIBUTE_IN_SDF := 4116
  const SOCIAL_CHANNEL_SCAN_PARAMS := 4117
  const CONNECTIVITY_CAPABILITIES_TRANSMIT := 4119
  const DISCOVERY_ATTRIBUTE_TRANSMIT := 4120
  const FURTHER_AVAILABILITY_MAP := 4121
  const HOP_COUNT_FORCE := 4122
  const RANDOM_FACTOR_FORCE := 4123
  const DB_INTERVAL := 4129
  const CHANNEL_24G := 4131
  const CHANNEL_5G := 4132
  const DISC_MAC_ADDR_RANDOM_INTERVAL := 4133
  const SUBSCRIBE_SID_BEACON := 4135
  const DW_EARLY_TERMINATION := 4136
  const TX_RX_CHAINS := 4137
  const ENABLE_DEVICE_RANGING := 4138

  const WLAN_MESH_ID := 8193
  const MAC_ADDRESS := 8194
  const RECEIVED_RSSI_VALUE := 8195
  const CLUSTER_ATTRIBUTE := 8196
  const WLAN_INFRA_SSID := 8197

  const MAC_ADDR_LEN := 6
  const SOCIAL_CHANNELS := 3
}
