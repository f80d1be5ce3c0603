/** Value types shared by the default event handlers of the ESP32 system event loop:
    fixed-width integers, error codes, IPv4 configuration, interfaces, DHCP status
    and system events with their identifiers. */
module EspTypes {

  newtype uint8 = x: int | 0 <= x < 0x100
  newtype uint32 = x: int | 0 <= x < 0x1_0000_0000
  newtype int32 = x: int | -0x8000_0000 <= x < 0x8000_0000

  /** esp_err_t is a 32-bit signed integer; 0 is success. */
  type EspErr = int32
  const ESP_OK: EspErr := 0
  const ESP_FAIL: EspErr := -1

  datatype Option<T> = None | Some(value: T)

  /** A 6-byte hardware address, treated as an opaque value. */
  type Mac = m: seq<uint8> | |m| == 6 witness [0, 0, 0, 0, 0, 0]

  /** tcpip_adapter_ip_info_t: address, netmask and gateway, each one IPv4 word. */
  datatype IpInfo = IpInfo(ip: uint32, netmask: uint32, gw: uint32)

  /** ip4_addr_isany_val: the address is the all-zero "any" address. */
  predicate IsAny(addr: uint32) {
    addr == 0
  }

  /** The static-address test of the station reconnection rule: none of the three
      words is the any-address. */
  function IsUsableStaticIp(info: IpInfo): (usable: bool)
    ensures usable <==> info.ip != 0 && info.netmask != 0 && info.gw != 0
  {
    !(IsAny(info.ip) || IsAny(info.netmask) || IsAny(info.gw))
  }

  /** The two roles; WIFI_IF_* and TCPIP_ADAPTER_IF_* name the same pair. */
  datatype Interface = Sta | Ap

  /** State of the per-interface DHCP client as reported by the adapter. Any value
      other than the three named states is DhcpOther. */
  datatype DhcpStatus = DhcpInit | DhcpStarted | DhcpStopped | DhcpOther

  /** system_event_id_t, in declaration order. */
  type EventId = uint32
  const SYSTEM_EVENT_WIFI_READY: EventId := 0
  const SYSTEM_EVENT_SCAN_DONE: EventId := 1
  const SYSTEM_EVENT_STA_START: EventId := 2
  const SYSTEM_EVENT_STA_STOP: EventId := 3
  const SYSTEM_EVENT_STA_CONNECTED: EventId := 4
  const SYSTEM_EVENT_STA_DISCONNECTED: EventId := 5
  const SYSTEM_EVENT_STA_AUTHMODE_CHANGE: EventId := 6
  const SYSTEM_EVENT_STA_GOT_IP: EventId := 7
  const SYSTEM_EVENT_STA_WPS_ER_SUCCESS: EventId := 8
  const SYSTEM_EVENT_STA_WPS_ER_FAILED: EventId := 9
  const SYSTEM_EVENT_STA_WPS_ER_TIMEOUT: EventId := 10
  const SYSTEM_EVENT_STA_WPS_ER_PIN: EventId := 11
  const SYSTEM_EVENT_AP_START: EventId := 12
  const SYSTEM_EVENT_AP_STOP: EventId := 13
  const SYSTEM_EVENT_AP_STACONNECTED: EventId := 14
  const SYSTEM_EVENT_AP_STADISCONNECTED: EventId := 15
  const SYSTEM_EVENT_AP_PROBEREQRECVED: EventId := 16
  const SYSTEM_EVENT_MAX: EventId := 17

  /** The event_info union; only the got-IP member matters to control flow, every
      other member is diagnostic and folded into OtherInfo. */
  datatype EventInfo = GotIpInfo(ipInfo: IpInfo) | OtherInfo

  /** system_event_t. */
  datatype Event = Event(eventId: EventId, info: EventInfo)

  /** The event the station-connected handler synthesises for a static address. */
  function GotIpEvent(info: IpInfo): Event {
    Event(SYSTEM_EVENT_STA_GOT_IP, GotIpInfo(info))
  }
}
