/** The seven default handlers of the system event loop: AP start/stop and STA
    start/stop/connected/disconnected/got-IP. Each handler's body is given twice: as
    its list of calls (Program), whose meaning is the call-check semantics of
    CallCheck.Run, and as an imperative method that makes the calls one by one and
    returns early exactly where the source's WIFI_API_CALL_CHECK does. Each method is
    proved to behave as Run says its call list does. */
module DefaultHandlers {
  import opened EspTypes
  import opened Collaborators
  import opened CallCheck

  /** The handler functions the dispatch table can point to. */
  datatype Handler =
    | StaStartHandler | StaStopHandler | StaConnectedHandler | StaDisconnectedHandler
    | StaGotIpHandler | ApStartHandler | ApStopHandler

  /** What the station-connected handler does after reading the DHCP status: start the
      client from Init; from Stopped read the address and, when it is a usable static
      address, send a got-IP event carrying it; nothing from any other status. */
  function DhcpFollowUp(status: DhcpStatus, staIp: IpInfo): (r: seq<Step>)
    ensures forall i :: 0 <= i < |r| ==> r[i].Unchecked?
    ensures (exists i :: 0 <= i < |r| && r[i].call.EventSend?) <==> status == DhcpStopped && IsUsableStaticIp(staIp)
    ensures forall i :: 0 <= i < |r| && r[i].call.EventSend? ==> r[i].call.event == GotIpEvent(staIp)
    ensures (exists i :: 0 <= i < |r| && r[i].call == DhcpcStart(Sta)) <==> status == DhcpInit
  {
    match status
    case DhcpInit =>
      var r := [Unchecked(DhcpcStart(Sta))];
      assert r[0].call == DhcpcStart(Sta);
      r
    case DhcpStopped =>
      if IsUsableStaticIp(staIp) then
        var r := [Unchecked(GetIpInfo(Sta)), Unchecked(EventSend(GotIpEvent(staIp)))];
        assert r[1].call.EventSend?;
        r
      else
        [Unchecked(GetIpInfo(Sta))]
    case _ => []
  }

  /** The calls of each handler's body, in source order. Values passed on (the MAC
      and IP info given to tcpip_adapter_start, the address sent in the got-IP event)
      are those the earlier calls read. */
  function Program(h: Handler, o: Oracle): seq<Step> {
    match h
    case StaGotIpHandler => [Checked(SetStaIp)]
    case ApStartHandler =>
      [Checked(RegRxcb(Ap, ApInput)), Checked(GetMac(Ap)), Unchecked(GetIpInfo(Ap)),
       Unchecked(AdapterStart(Ap, o.mac(Ap), o.ipInfo(Ap)))]
    case ApStopHandler => [Checked(RegRxcb(Ap, NoCallback)), Unchecked(AdapterStop(Ap))]
    case StaStartHandler =>
      [Checked(GetMac(Sta)), Unchecked(GetIpInfo(Sta)), Unchecked(AdapterStart(Sta, o.mac(Sta), o.ipInfo(Sta)))]
    case StaStopHandler => [Unchecked(AdapterStop(Sta))]
    case StaConnectedHandler =>
      [Checked(RegRxcb(Sta, StaInput)), Unchecked(AdapterUp(Sta)), Unchecked(DhcpcGetStatus(Sta))]
      + DhcpFollowUp(o.dhcpStatus(Sta), o.ipInfo(Sta))
    case StaDisconnectedHandler => [Unchecked(AdapterDown(Sta)), Checked(RegRxcb(Sta, NoCallback))]
  }

  /** What a handler returns and the calls it makes, for given collaborator answers. */
  function HandlerSpec(h: Handler, o: Oracle): Outcome {
    Run(Program(h, o), o)
  }

  // ---------------------------------------------------------------------------
  // The handlers as the source writes them. The event argument is passed as the
  // source passes it; no handler's control flow reads it (the got-IP handler only
  // logs its payload).

  /** system_event_sta_got_ip_default */
  method StaGotIpDefault(event: Event, o: Oracle) returns (ret: EspErr, trace: seq<Action>)
    ensures Outcome(ret, trace) == HandlerSpec(StaGotIpHandler, o)
  {
    StaGotIpAlways(o);
    var err;
    err, trace := Call([], SetStaIp, o);
    if err != ESP_OK {
      return err, trace;
    }
    return ESP_OK, trace;
  }

  /** system_event_ap_start_handle_default */
  method ApStartHandleDefault(event: Event, o: Oracle) returns (ret: EspErr, trace: seq<Action>)
    ensures Outcome(ret, trace) == HandlerSpec(ApStartHandler, o)
  {
    ApStartCases(o);
    var err, ignored;
    err, trace := Call([], RegRxcb(Ap, ApInput), o);
    if err != ESP_OK {
      return err, trace;
    }
    err, trace := Call(trace, GetMac(Ap), o);
    if err != ESP_OK {
      return err, trace;
    }
    var apMac := o.mac(Ap);
    ignored, trace := Call(trace, GetIpInfo(Ap), o);
    var apIp := o.ipInfo(Ap);
    ignored, trace := Call(trace, AdapterStart(Ap, apMac, apIp), o);
    return ESP_OK, trace;
  }

  /** system_event_ap_stop_handle_default */
  method ApStopHandleDefault(event: Event, o: Oracle) returns (ret: EspErr, trace: seq<Action>)
    ensures Outcome(ret, trace) == HandlerSpec(ApStopHandler, o)
  {
    ApStopCases(o);
    var err, ignored;
    err, trace := Call([], RegRxcb(Ap, NoCallback), o);
    if err != ESP_OK {
      return err, trace;
    }
    ignored, trace := Call(trace, AdapterStop(Ap), o);
    return ESP_OK, trace;
  }

  /** system_event_sta_start_handle_default */
  method StaStartHandleDefault(event: Event, o: Oracle) returns (ret: EspErr, trace: seq<Action>)
    ensures Outcome(ret, trace) == HandlerSpec(StaStartHandler, o)
  {
    StaStartCases(o);
    var err, ignored;
    err, trace := Call([], GetMac(Sta), o);
    if err != ESP_OK {
      return err, trace;
    }
    var staMac := o.mac(Sta);
    ignored, trace := Call(trace, GetIpInfo(Sta), o);
    var staIp := o.ipInfo(Sta);
    ignored, trace := Call(trace, AdapterStart(Sta, staMac, staIp), o);
    return ESP_OK, trace;
  }

  /** system_event_sta_stop_handle_default */
  method StaStopHandleDefault(event: Event, o: Oracle) returns (ret: EspErr, trace: seq<Action>)
    ensures Outcome(ret, trace) == HandlerSpec(StaStopHandler, o)
  {
    StaStopAlways(o);
    var ignored;
    ignored, trace := Call([], AdapterStop(Sta), o);
    return ESP_OK, trace;
  }

  /** system_event_sta_connected_handle_default */
  method StaConnectedHandleDefault(event: Event, o: Oracle) returns (ret: EspErr, trace: seq<Action>)
    ensures Outcome(ret, trace) == HandlerSpec(StaConnectedHandler, o)
  {
    StaConnectedCases(o);
    var err, ignored;
    err, trace := Call([], RegRxcb(Sta, StaInput), o);
    if err != ESP_OK {
      return err, trace;
    }
    ignored, trace := Call(trace, AdapterUp(Sta), o);
    ignored, trace := Call(trace, DhcpcGetStatus(Sta), o);
    var status := o.dhcpStatus(Sta);
    if status == DhcpInit {
      ignored, trace := Call(trace, DhcpcStart(Sta), o);
    } else if status == DhcpStopped {
      ignored, trace := Call(trace, GetIpInfo(Sta), o);
      var staIp := o.ipInfo(Sta);
      if !(IsAny(staIp.ip) || IsAny(staIp.netmask) || IsAny(staIp.gw)) {
        var evt := Event(SYSTEM_EVENT_STA_GOT_IP, GotIpInfo(staIp));
        ignored, trace := Call(trace, EventSend(evt), o);
      }
    }
    return ESP_OK, trace;
  }

  /** system_event_sta_disconnected_handle_default */
  method StaDisconnectedHandleDefault(event: Event, o: Oracle) returns (ret: EspErr, trace: seq<Action>)
    ensures Outcome(ret, trace) == HandlerSpec(StaDisconnectedHandler, o)
  {
    StaDisconnectedAlways(o);
    var err, ignored;
    ignored, trace := Call([], AdapterDown(Sta), o);
    err, trace := Call(trace, RegRxcb(Sta, NoCallback), o);
    if err != ESP_OK {
      return err, trace;
    }
    return ESP_OK, trace;
  }

  /** Invoke the handler a table entry points to. */
  method InvokeHandler(h: Handler, event: Event, o: Oracle) returns (ret: EspErr, trace: seq<Action>)
    ensures Outcome(ret, trace) == HandlerSpec(h, o)
  {
    match h
    case StaStartHandler => ret, trace := StaStartHandleDefault(event, o);
    case StaStopHandler => ret, trace := StaStopHandleDefault(event, o);
    case StaConnectedHandler => ret, trace := StaConnectedHandleDefault(event, o);
    case StaDisconnectedHandler => ret, trace := StaDisconnectedHandleDefault(event, o);
    case StaGotIpHandler => ret, trace := StaGotIpDefault(event, o);
    case ApStartHandler => ret, trace := ApStartHandleDefault(event, o);
    case ApStopHandler => ret, trace := ApStopHandleDefault(event, o);
  }

  // ---------------------------------------------------------------------------
  // What each handler does, case by case.

  /** AP start: a failing callback registration stops everything (no MAC read, no
      adapter start); a failing MAC read leaves the callback registered but the
      adapter is not started; otherwise the adapter starts with the MAC and IP info
      just read. */
  lemma ApStartCases(o: Oracle)
    ensures var rx, r := o.answer(RegRxcb(Ap, ApInput)), HandlerSpec(ApStartHandler, o);
      (rx != ESP_OK ==> r == Outcome(rx, [RegRxcb(Ap, ApInput)])) &&
      (rx == ESP_OK && o.answer(GetMac(Ap)) != ESP_OK ==>
         r == Outcome(o.answer(GetMac(Ap)), [RegRxcb(Ap, ApInput), GetMac(Ap)])) &&
      (rx == ESP_OK && o.answer(GetMac(Ap)) == ESP_OK ==>
         r == Outcome(ESP_OK, [RegRxcb(Ap, ApInput), GetMac(Ap), GetIpInfo(Ap),
                               AdapterStart(Ap, o.mac(Ap), o.ipInfo(Ap))]))
  {
    var p := Program(ApStartHandler, o);
    if Fails(p[0], o) {
      RunStopsAtFirstFailure(p, o, 0);
    } else if Fails(p[1], o) {
      RunStopsAtFirstFailure(p, o, 1);
    } else {
      RunCompletes(p, o);
    }
  }

  /** AP stop: the callback is unregistered before the adapter stops; if
      unregistering fails the adapter is not stopped. */
  lemma ApStopCases(o: Oracle)
    ensures var rx, r := o.answer(RegRxcb(Ap, NoCallback)), HandlerSpec(ApStopHandler, o);
      (rx != ESP_OK ==> r == Outcome(rx, [RegRxcb(Ap, NoCallback)])) &&
      (rx == ESP_OK ==> r == Outcome(ESP_OK, [RegRxcb(Ap, NoCallback), AdapterStop(Ap)]))
  {
    var p := Program(ApStopHandler, o);
    if Fails(p[0], o) {
      RunStopsAtFirstFailure(p, o, 0);
    } else {
      RunCompletes(p, o);
    }
  }

  /** STA start: MAC read, then IP info read, then adapter start with exactly those
      values. Only the MAC read can make it fail; the adapter calls never do. */
  lemma StaStartCases(o: Oracle)
    ensures var m, r := o.answer(GetMac(Sta)), HandlerSpec(StaStartHandler, o);
      (m != ESP_OK ==> r == Outcome(m, [GetMac(Sta)])) &&
      (m == ESP_OK ==>
         r == Outcome(ESP_OK, [GetMac(Sta), GetIpInfo(Sta), AdapterStart(Sta, o.mac(Sta), o.ipInfo(Sta))]))
  {
    var p := Program(StaStartHandler, o);
    if Fails(p[0], o) {
      RunStopsAtFirstFailure(p, o, 0);
    } else {
      RunCompletes(p, o);
    }
  }

  /** STA stop: one adapter stop and ESP_OK, whatever the adapter answers. */
  lemma StaStopAlways(o: Oracle)
    ensures HandlerSpec(StaStopHandler, o) == Outcome(ESP_OK, [AdapterStop(Sta)])
  {
    RunCompletes(Program(StaStopHandler, o), o);
  }

  /** STA connected: a failing callback registration stops everything. Otherwise the
      handler registers, brings the interface up and reads the DHCP status, then
      starts DHCP from Init, reads the address from Stopped and sends one got-IP
      event carrying it only when the address is usable, and does nothing more from
      any other status; in every one of these cases it returns ESP_OK. */
  lemma StaConnectedCases(o: Oracle)
    ensures var rx, r := o.answer(RegRxcb(Sta, StaInput)), HandlerSpec(StaConnectedHandler, o);
      var head := [RegRxcb(Sta, StaInput), AdapterUp(Sta), DhcpcGetStatus(Sta)];
      var status, ip := o.dhcpStatus(Sta), o.ipInfo(Sta);
      (rx != ESP_OK ==> r == Outcome(rx, [RegRxcb(Sta, StaInput)])) &&
      (rx == ESP_OK && status == DhcpInit ==> r == Outcome(ESP_OK, head + [DhcpcStart(Sta)])) &&
      (rx == ESP_OK && status == DhcpStopped && IsUsableStaticIp(ip) ==>
         r == Outcome(ESP_OK, head + [GetIpInfo(Sta), EventSend(GotIpEvent(ip))])) &&
      (rx == ESP_OK && status == DhcpStopped && !IsUsableStaticIp(ip) ==>
         r == Outcome(ESP_OK, head + [GetIpInfo(Sta)])) &&
      (rx == ESP_OK && status != DhcpInit && status != DhcpStopped ==> r == Outcome(ESP_OK, head))
  {
    var head := [Checked(RegRxcb(Sta, StaInput)), Unchecked(AdapterUp(Sta)), Unchecked(DhcpcGetStatus(Sta))];
    var tail := DhcpFollowUp(o.dhcpStatus(Sta), o.ipInfo(Sta));
    var p := Program(StaConnectedHandler, o);
    assert p == head + tail;
    if Fails(head[0], o) {
      assert p[0] == head[0];
      RunStopsAtFirstFailure(p, o, 0);
    } else {
      RunCompletes(tail, o);
      RunAfterCleanPrefix(head, tail, o);
    }
  }

  /** STA disconnected: the interface goes down before the callback is unregistered,
      and goes down even when unregistering then fails; the result is the answer of
      the unregistration. */
  lemma StaDisconnectedAlways(o: Oracle)
    ensures HandlerSpec(StaDisconnectedHandler, o) ==
              Outcome(o.answer(RegRxcb(Sta, NoCallback)), [AdapterDown(Sta), RegRxcb(Sta, NoCallback)])
  {
    var p := Program(StaDisconnectedHandler, o);
    if Fails(p[1], o) {
      RunStopsAtFirstFailure(p, o, 1);
    } else {
      RunCompletes(p, o);
    }
  }

  /** STA got IP: a single call telling the driver the station has an address; its
      answer is the result and no event is sent. */
  lemma StaGotIpAlways(o: Oracle)
    ensures HandlerSpec(StaGotIpHandler, o) == Outcome(o.answer(SetStaIp), [SetStaIp])
  {
    var p := Program(StaGotIpHandler, o);
    if Fails(p[0], o) {
      RunStopsAtFirstFailure(p, o, 0);
    } else {
      RunCompletes(p, o);
    }
  }
}
