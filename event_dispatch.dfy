/** esp_event_process_default and its dispatch table g_system_event_handle_table. */
module EventDispatch {
  import opened EspTypes
  import opened Collaborators
  import opened CallCheck
  import opened DefaultHandlers

  /** system_event_handle_t: the id an entry is meant for and its handler (None is NULL). */
  datatype HandleEntry = HandleEntry(eventId: EventId, handler: Option<Handler>)

  /** g_system_event_handle_table, one entry per event id and a final entry for
      SYSTEM_EVENT_MAX. */
  function HandleTable(): (t: seq<HandleEntry>)
    ensures |t| == SYSTEM_EVENT_MAX as int + 1
    ensures t[SYSTEM_EVENT_MAX] == HandleEntry(SYSTEM_EVENT_MAX, None)
  {
    [
    HandleEntry(SYSTEM_EVENT_WIFI_READY, None),
    HandleEntry(SYSTEM_EVENT_SCAN_DONE, None),
    HandleEntry(SYSTEM_EVENT_STA_START, Some(StaStartHandler)),
    HandleEntry(SYSTEM_EVENT_STA_STOP, Some(StaStopHandler)),
    HandleEntry(SYSTEM_EVENT_STA_CONNECTED, Some(StaConnectedHandler)),
    HandleEntry(SYSTEM_EVENT_STA_DISCONNECTED, Some(StaDisconnectedHandler)),
    HandleEntry(SYSTEM_EVENT_STA_AUTHMODE_CHANGE, None),
    HandleEntry(SYSTEM_EVENT_STA_GOT_IP, Some(StaGotIpHandler)),
    HandleEntry(SYSTEM_EVENT_STA_WPS_ER_SUCCESS, None),
    HandleEntry(SYSTEM_EVENT_STA_WPS_ER_FAILED, None),
    HandleEntry(SYSTEM_EVENT_STA_WPS_ER_TIMEOUT, None),
    HandleEntry(SYSTEM_EVENT_STA_WPS_ER_PIN, None),
    HandleEntry(SYSTEM_EVENT_AP_START, Some(ApStartHandler)),
    HandleEntry(SYSTEM_EVENT_AP_STOP, Some(ApStopHandler)),
    HandleEntry(SYSTEM_EVENT_AP_STACONNECTED, None),
    HandleEntry(SYSTEM_EVENT_AP_STADISCONNECTED, None),
    HandleEntry(SYSTEM_EVENT_AP_PROBEREQRECVED, None),
    HandleEntry(SYSTEM_EVENT_MAX, None)
    ]
  }

  /** The entry check of the dispatcher: the id is below SYSTEM_EVENT_MAX and the
      entry it indexes is the one for that id. */
  function IdCheckPasses(table: seq<HandleEntry>, id: EventId): (ok: bool)
    requires |table| >= SYSTEM_EVENT_MAX as int
    ensures ok ==> id as int < |table| && table[id].eventId == id
    ensures id >= SYSTEM_EVENT_MAX ==> !ok
  {
    id < SYSTEM_EVENT_MAX && table[id].eventId == id
  }

  /** esp_event_process_default over a dispatch table: what it returns and which
      collaborator calls happen. The handler's own result is not part of it. */
  function DispatchWith(table: seq<HandleEntry>, event: Option<Event>, o: Oracle): Outcome
    requires |table| >= SYSTEM_EVENT_MAX as int
  {
    match event
    case None => Outcome(ESP_FAIL, [])
    case Some(e) =>
      if !IdCheckPasses(table, e.eventId) then Outcome(ESP_FAIL, [])
      else match table[e.eventId].handler
        case None => Outcome(ESP_OK, [])
        case Some(h) => Outcome(ESP_OK, HandlerSpec(h, o).trace)
  }

  /** esp_event_process_default. A null event is None. The handler's return value is
      dropped: the dispatcher answers only ESP_OK or ESP_FAIL, and ESP_FAIL only
      before any collaborator was called. */
  method ProcessDefault(table: seq<HandleEntry>, event: Option<Event>, o: Oracle)
    returns (ret: EspErr, trace: seq<Action>)
    requires |table| >= SYSTEM_EVENT_MAX as int
    ensures Outcome(ret, trace) == DispatchWith(table, event, o)
    ensures ret == ESP_OK || ret == ESP_FAIL
    ensures ret == ESP_FAIL ==> trace == []
  {
    if event.None? {
      return ESP_FAIL, [];
    }
    var e := event.value;
    trace := [];
    if e.eventId < SYSTEM_EVENT_MAX && e.eventId == table[e.eventId].eventId {
      match table[e.eventId].handler {
        case None =>
        case Some(h) =>
          var handlerRet;
          handlerRet, trace := InvokeHandler(h, e, o);
      }
    } else {
      return ESP_FAIL, [];
    }
    return ESP_OK, trace;
  }

  // ---------------------------------------------------------------------------
  // The table as written.

  /** Which event ids have a default handler, and which one: seven of them. */
  function DefaultHandler(id: EventId): Option<Handler> {
    if id == SYSTEM_EVENT_STA_START then Some(StaStartHandler)
    else if id == SYSTEM_EVENT_STA_STOP then Some(StaStopHandler)
    else if id == SYSTEM_EVENT_STA_CONNECTED then Some(StaConnectedHandler)
    else if id == SYSTEM_EVENT_STA_DISCONNECTED then Some(StaDisconnectedHandler)
    else if id == SYSTEM_EVENT_STA_GOT_IP then Some(StaGotIpHandler)
    else if id == SYSTEM_EVENT_AP_START then Some(ApStartHandler)
    else if id == SYSTEM_EVENT_AP_STOP then Some(ApStopHandler)
    else None
  }

  /** Every entry of the table below SYSTEM_EVENT_MAX is the entry for its own index,
      and carries the handler DefaultHandler names. */
  lemma TableIsConsistent(id: EventId)
    requires id < SYSTEM_EVENT_MAX
    ensures |HandleTable()| == SYSTEM_EVENT_MAX as int + 1
    ensures HandleTable()[id] == HandleEntry(id, DefaultHandler(id))
  {
  }

  /** For the table as written the entry check passes exactly for the ids below
      SYSTEM_EVENT_MAX. */
  lemma IdCheckIffInRange(id: EventId)
    ensures IdCheckPasses(HandleTable(), id) <==> id < SYSTEM_EVENT_MAX
  {
    if id < SYSTEM_EVENT_MAX {
      TableIsConsistent(id);
    }
  }

  /** Handlers are present exactly for STA start/stop/connected/disconnected/got-IP and
      AP start/stop. */
  lemma HandlersPresentExactly(id: EventId)
    requires id < SYSTEM_EVENT_MAX
    ensures HandleTable()[id].handler.Some? <==>
              id in {SYSTEM_EVENT_STA_START, SYSTEM_EVENT_STA_STOP, SYSTEM_EVENT_STA_CONNECTED,
                     SYSTEM_EVENT_STA_DISCONNECTED, SYSTEM_EVENT_STA_GOT_IP,
                     SYSTEM_EVENT_AP_START, SYSTEM_EVENT_AP_STOP}
  {
    TableIsConsistent(id);
  }

  /** The reference behaviour of the dispatcher with its table: reject a null event
      and an id from SYSTEM_EVENT_MAX on; otherwise run the id's default handler if it
      has one and return ESP_OK. */
  function Dispatch(event: Option<Event>, o: Oracle): Outcome {
    match event
    case None => Outcome(ESP_FAIL, [])
    case Some(e) =>
      if e.eventId >= SYSTEM_EVENT_MAX then Outcome(ESP_FAIL, [])
      else match DefaultHandler(e.eventId)
        case None => Outcome(ESP_OK, [])
        case Some(h) => Outcome(ESP_OK, HandlerSpec(h, o).trace)
  }

  /** The dispatcher with the table as written behaves as the reference. */
  lemma DispatchMatchesReference(event: Option<Event>, o: Oracle)
    ensures DispatchWith(HandleTable(), event, o) == Dispatch(event, o)
  {
    if event.Some? {
      IdCheckIffInRange(event.value.eventId);
      if event.value.eventId < SYSTEM_EVENT_MAX {
        TableIsConsistent(event.value.eventId);
      }
    }
  }

  // ---------------------------------------------------------------------------
  // Properties of dispatch.

  /** A null event fails and nothing is called. */
  lemma NullEventRejected(o: Oracle)
    ensures DispatchWith(HandleTable(), None, o) == Outcome(ESP_FAIL, [])
  {
  }

  /** An id from SYSTEM_EVENT_MAX on fails and nothing is called. */
  lemma OutOfRangeRejected(e: Event, o: Oracle)
    requires e.eventId >= SYSTEM_EVENT_MAX
    ensures DispatchWith(HandleTable(), Some(e), o) == Outcome(ESP_FAIL, [])
  {
  }

  /** With any table, an entry that is not the one for the event's id makes the
      dispatch fail without running a handler. */
  lemma MismatchRejected(table: seq<HandleEntry>, e: Event, o: Oracle)
    requires |table| >= SYSTEM_EVENT_MAX as int
    requires e.eventId < SYSTEM_EVENT_MAX && table[e.eventId].eventId != e.eventId
    ensures DispatchWith(table, Some(e), o) == Outcome(ESP_FAIL, [])
  {
  }

  /** An event with no default handler succeeds with no collaborator call. */
  lemma NoHandlerIsNoOp(e: Event, o: Oracle)
    requires e.eventId < SYSTEM_EVENT_MAX && DefaultHandler(e.eventId).None?
    ensures DispatchWith(HandleTable(), Some(e), o) == Outcome(ESP_OK, [])
  {
    DispatchMatchesReference(Some(e), o);
  }

  /** An event with a default handler runs that handler once: the calls are exactly
      the handler's, and the dispatch returns ESP_OK even when the handler failed. */
  lemma HandlerResultDiscarded(e: Event, o: Oracle, h: Handler)
    requires e.eventId < SYSTEM_EVENT_MAX && DefaultHandler(e.eventId) == Some(h)
    ensures DispatchWith(HandleTable(), Some(e), o) == Outcome(ESP_OK, HandlerSpec(h, o).trace)
  {
    DispatchMatchesReference(Some(e), o);
  }

  // ---------------------------------------------------------------------------
  // Event injection.

  /** Only the station-connected handler sends an event: with the callback registered,
      a Stopped DHCP client and a usable address it sends exactly one got-IP event
      carrying the address it read; otherwise it sends none. */
  lemma ReconnectInjection(e: Event, o: Oracle)
    requires e.eventId == SYSTEM_EVENT_STA_CONNECTED
    ensures var ip := o.ipInfo(Sta);
      SentEvents(Dispatch(Some(e), o).trace) ==
        if o.answer(RegRxcb(Sta, StaInput)) == ESP_OK && o.dhcpStatus(Sta) == DhcpStopped && IsUsableStaticIp(ip)
        then [GotIpEvent(ip)] else []
  {
    StaConnectedCases(o);
    var ip := o.ipInfo(Sta);
    var t := Dispatch(Some(e), o).trace;
    var head := [RegRxcb(Sta, StaInput), AdapterUp(Sta), DhcpcGetStatus(Sta)];
    if o.answer(RegRxcb(Sta, StaInput)) == ESP_OK && o.dhcpStatus(Sta) == DhcpStopped && IsUsableStaticIp(ip) {
      assert t == (head + [GetIpInfo(Sta)]) + [EventSend(GotIpEvent(ip))];
      SentEventsEmpty(head + [GetIpInfo(Sta)]);
      SentEventsConcat(head + [GetIpInfo(Sta)], [EventSend(GotIpEvent(ip))]);
    } else {
      SentEventsEmpty(t);
    }
  }

  /** Any dispatch sends at most one event, and what it sends is the got-IP event for
      the station address read during that dispatch. */
  lemma InjectsAtMostOne(event: Option<Event>, o: Oracle)
    ensures |SentEvents(Dispatch(event, o).trace)| <= 1
    ensures forall ev :: ev in SentEvents(Dispatch(event, o).trace) ==> ev == GotIpEvent(o.ipInfo(Sta))
  {
    if event.Some? && event.value.eventId < SYSTEM_EVENT_MAX {
      var e := event.value;
      match DefaultHandler(e.eventId)
      case None =>
      case Some(h) =>
        match h {
          case StaStartHandler => StaStartCases(o);
          case StaStopHandler => StaStopAlways(o);
          case StaConnectedHandler => ReconnectInjection(e, o);
          case StaDisconnectedHandler => StaDisconnectedAlways(o);
          case StaGotIpHandler => StaGotIpAlways(o);
          case ApStartHandler => ApStartCases(o);
          case ApStopHandler => ApStopCases(o);
        }
    }
  }

  /** An injected event, whenever and however often the event bus delivers it, makes
      only the set-station-IP call and injects nothing, so injection never cascades. */
  lemma InjectionDoesNotCascade(event: Option<Event>, o: Oracle, later: Oracle)
    ensures forall ev :: ev in SentEvents(Dispatch(event, o).trace) ==>
              Dispatch(Some(ev), later) == Outcome(ESP_OK, [SetStaIp]) &&
              SentEvents(Dispatch(Some(ev), later).trace) == []
  {
    InjectsAtMostOne(event, o);
    StaGotIpAlways(later);
  }
}
