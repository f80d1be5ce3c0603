/** The calls the handlers make into the WiFi driver, the TCP/IP adapter and the
    event bus, as abstract actions. The collaborators themselves are not modelled:
    an Oracle supplies the return code of every call and the values calls write
    into their out-parameters. */
module Collaborators {
  import opened EspTypes

  /** The receive callback handed to esp_wifi_internal_reg_rxcb (NULL unregisters). */
  datatype RxCallback = NoCallback | ApInput | StaInput

  datatype Action =
    | RegRxcb(iface: Interface, callback: RxCallback)          // esp_wifi_internal_reg_rxcb
    | GetMac(iface: Interface)                                 // esp_wifi_get_mac
    | GetIpInfo(iface: Interface)                              // tcpip_adapter_get_ip_info
    | AdapterStart(iface: Interface, mac: Mac, ipInfo: IpInfo) // tcpip_adapter_start
    | AdapterStop(iface: Interface)                            // tcpip_adapter_stop
    | AdapterUp(iface: Interface)                              // tcpip_adapter_up
    | AdapterDown(iface: Interface)                            // tcpip_adapter_down
    | DhcpcGetStatus(iface: Interface)                         // tcpip_adapter_dhcpc_get_status
    | DhcpcStart(iface: Interface)                             // tcpip_adapter_dhcpc_start
    | SetStaIp                                                 // esp_wifi_internal_set_sta_ip
    | EventSend(event: Event)                                  // esp_event_send

  /** What the outside world answers during one dispatch: the return code of each
      call, and what esp_wifi_get_mac, tcpip_adapter_get_ip_info and
      tcpip_adapter_dhcpc_get_status write through their out-parameters. */
  datatype Oracle = Oracle(
    answer: Action -> EspErr,
    mac: Interface -> Mac,
    ipInfo: Interface -> IpInfo,
    dhcpStatus: Interface -> DhcpStatus)

  /** Make one external call: record it at the end of the trace and return the
      collaborator's answer. This is the abstraction of every foreign call; the
      handlers are built from it and it proves nothing by itself. */
  method Call(trace: seq<Action>, a: Action, o: Oracle) returns (err: EspErr, trace': seq<Action>)
    ensures trace' == trace + [a]
    ensures err == o.answer(a)
  {
    trace' := trace + [a];
    err := o.answer(a);
  }

  /** The events a trace hands to esp_event_send, in order. */
  function SentEvents(trace: seq<Action>): seq<Event> {
    if trace == [] then []
    else (if trace[0].EventSend? then [trace[0].event] else []) + SentEvents(trace[1..])
  }

  lemma {:induction false} SentEventsConcat(t1: seq<Action>, t2: seq<Action>)
    ensures SentEvents(t1 + t2) == SentEvents(t1) + SentEvents(t2)
  {
    if t1 != [] {
      assert (t1 + t2)[1..] == t1[1..] + t2;
      SentEventsConcat(t1[1..], t2);
    } else {
      assert t1 + t2 == t2;
    }
  }

  /** A trace sends nothing exactly when it holds no EventSend action. */
  lemma {:induction false} SentEventsEmpty(trace: seq<Action>)
    ensures SentEvents(trace) == [] <==> forall i :: 0 <= i < |trace| ==> !trace[i].EventSend?
  {
    if trace != [] {
      SentEventsEmpty(trace[1..]);
      assert forall i :: 0 < i < |trace| ==> trace[i] == trace[1..][i - 1];
    }
  }
}
