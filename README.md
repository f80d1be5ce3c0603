# ESP32 default system-event handlers

A Dafny model of the default system-event dispatcher of the ESP32 WiFi stack
(`esp_event_process_default`), its dispatch table `g_system_event_handle_table`,
and the seven default handlers it can run: AP start/stop and STA
start/stop/connected/disconnected/got-IP.

The model has five modules:

- `EspTypes`: fixed-width integers, `esp_err_t` with `ESP_OK`/`ESP_FAIL`, IPv4 info
  (`ip`, `netmask`, `gw`) with the any-address test, the two interfaces,
  the DHCP client status, the event ids and `system_event_t`.
- `Collaborators`: every call a handler makes into the WiFi driver, the TCP/IP
  adapter or the event bus is an `Action`. An `Oracle` supplies each call's
  return code and the values it writes into out-parameters (MAC, IP info, DHCP
  status). `Call` records one call in the trace and returns the oracle's
  answer.
- `CallCheck`: the meaning of the `WIFI_API_CALL_CHECK` macro. A handler body is a
  list of `Checked` and `Unchecked` calls. `Run` makes the calls in order and
  stops at the first checked call that does not answer `ESP_OK`, returning that
  answer. Nothing done before is undone.
- `DefaultHandlers`: each handler's call list (`Program`) and the handler as an
  imperative method. The method makes the calls one by one and returns early
  where the macro does. Each method is proved to give exactly what `Run` gives
  for its call list. Per-handler lemmas then spell out every case.
- `EventDispatch`: the table, the dispatcher method over a table, and a
  reference description (`Dispatch`, built on `DefaultHandler`). The dispatcher
  with the table as written is proved equal to the reference. Lemmas cover
  rejection, no-handler events, the discarded handler result, and event
  injection: at most one got-IP event per dispatch, and an injected event never
  injects another.

Points where the code's behaviour is easy to misread; the model follows the code:

- The dispatcher drops the handler's return value and returns `ESP_OK` whenever
  the id check passes. A handler's error never reaches the dispatcher's caller.
- Only `esp_wifi_internal_reg_rxcb`, `esp_wifi_get_mac` and
  `esp_wifi_internal_set_sta_ip` are checked. Every `tcpip_adapter_*` call and
  `esp_event_send` are unchecked, so their failures neither abort a handler nor
  change its result.
- The got-IP handler calls `esp_wifi_internal_set_sta_ip()` with no argument. The
  event's IP info is only logged, so the model's `SetStaIp` action carries no
  address.
- A failed `esp_event_send` of the synthesised got-IP event is neither checked
  nor logged.

## Model

| member | source | states |
|---|---|---|
| `CallCheck.Run` | components/esp32/event_default_handlers.c:37-44 | The macro's semantics over a handler body: a checked call that does not answer `ESP_OK` ends the body with that answer; unchecked answers are ignored. A run makes at most one call per step, and a result other than `ESP_OK` is the answer to the last call made. |
| `EspTypes.IsUsableStaticIp` | components/esp32/event_default_handlers.c:154 | The static-address test (`ip4_addr_isany_val` on each field, negated): true if and only if ip, netmask and gw are all non-zero. |
| `DefaultHandlers.DhcpFollowUp` | components/esp32/event_default_handlers.c:147-165 | The calls after the DHCP status read. All are unchecked, so nothing after the read can abort the handler. DHCP is started if and only if the status is Init. An event is sent if and only if the status is Stopped and the address is usable, and the event sent is the got-IP event carrying the IP info read. |
| `EventDispatch.HandleTable` | components/esp32/event_default_handlers.c:62-81 | The dispatch table: `SYSTEM_EVENT_MAX + 1` entries, the last being `{SYSTEM_EVENT_MAX, NULL}`. |
| `EventDispatch.IdCheckPasses` | components/esp32/event_default_handlers.c:287 | The entry check: when it passes, the id indexes the table in bounds and the indexed entry names that id; an id of `SYSTEM_EVENT_MAX` or more never passes. |
| `CallCheck.RunShape` | components/esp32/event_default_handlers.c:37-44 | The calls made are a prefix of the body's calls, in body order. `ESP_OK` means every call was made. Any other result is the answer of the last call made, and that call was a checked call that failed. |
| `CallCheck.RunStopsAtFirstFailure` | components/esp32/event_default_handlers.c:37-44 | If call k is the first checked call that fails, the handler returns that call's answer. The trace is exactly calls 0..k: earlier effects stand and no later call happens. |
| `CallCheck.RunCompletes` | components/esp32/event_default_handlers.c:37-44 | With no failing checked call, every call is made and `ESP_OK` is returned, whatever the unchecked calls answered. |
| `CallCheck.RunSucceedsIff` | components/esp32/event_default_handlers.c:37-44 | A handler body returns `ESP_OK` if and only if none of its checked calls fails. |
| `CallCheck.RunAfterCleanPrefix` | components/esp32/event_default_handlers.c:37-44 | A body whose first part has no failing checked call makes all of that part's calls, then behaves as its remainder. |
| `DefaultHandlers.StaGotIpDefault` | components/esp32/event_default_handlers.c:83-93 | The got-IP handler returns and calls exactly what `Run` gives for its call list (one checked `set_sta_ip`). |
| `DefaultHandlers.ApStartHandleDefault` | components/esp32/event_default_handlers.c:95-107 | The AP-start handler behaves exactly as `Run` of: checked reg_rxcb(AP, ap_input), checked get_mac(AP), get_ip_info(AP), adapter_start(AP, MAC read, IP read). |
| `DefaultHandlers.ApStopHandleDefault` | components/esp32/event_default_handlers.c:109-116 | The AP-stop handler behaves exactly as `Run` of: checked reg_rxcb(AP, NULL), adapter_stop(AP). |
| `DefaultHandlers.StaStartHandleDefault` | components/esp32/event_default_handlers.c:118-128 | The STA-start handler behaves exactly as `Run` of: checked get_mac(STA), get_ip_info(STA), adapter_start(STA, MAC read, IP read). |
| `DefaultHandlers.StaStopHandleDefault` | components/esp32/event_default_handlers.c:130-135 | The STA-stop handler behaves exactly as `Run` of a single unchecked adapter_stop(STA). |
| `DefaultHandlers.StaConnectedHandleDefault` | components/esp32/event_default_handlers.c:137-168 | The STA-connected handler, with its branches on the DHCP status and the address test, behaves exactly as `Run` of its call list with the DHCP follow-up for the status read. |
| `DefaultHandlers.StaDisconnectedHandleDefault` | components/esp32/event_default_handlers.c:170-175 | The STA-disconnected handler behaves exactly as `Run` of: adapter_down(STA), checked reg_rxcb(STA, NULL). |
| `DefaultHandlers.InvokeHandler` | components/esp32/event_default_handlers.c:288-290 | Calling through a table entry's function pointer runs the handler it names, with that handler's result and calls. |
| `DefaultHandlers.ApStartCases` | components/esp32/event_default_handlers.c:100-106 | A reg_rxcb failure returns that error after that one call: no MAC read and no adapter start. A get_mac failure returns that error with the callback left registered and no adapter start. Otherwise all four calls happen, the adapter starts with the MAC and IP info just read, and the result is `ESP_OK`. |
| `DefaultHandlers.ApStopCases` | components/esp32/event_default_handlers.c:111-115 | Unregistering comes before adapter_stop. If unregistering fails, its error is returned and adapter_stop never happens. Otherwise both calls happen and `ESP_OK` is returned. |
| `DefaultHandlers.StaStartCases` | components/esp32/event_default_handlers.c:123-127 | A get_mac failure returns that error after that one call. Otherwise get_mac, get_ip_info and adapter_start(STA, MAC read, IP read) happen in that order, and `ESP_OK` is returned whatever the adapter answered. |
| `DefaultHandlers.StaStopAlways` | components/esp32/event_default_handlers.c:132-134 | For every collaborator answer: exactly one adapter_stop(STA), and `ESP_OK`. |
| `DefaultHandlers.StaConnectedCases` | components/esp32/event_default_handlers.c:141-167 | A reg_rxcb failure returns that error and nothing else happens. Otherwise the trace starts reg_rxcb(STA), up, get_status. Then: Init adds dhcpc_start; Stopped with a usable address adds get_ip_info and one send of a got-IP event carrying the IP info read; Stopped with any of the three fields zero adds only get_ip_info; any other status adds nothing. Every one of these cases returns `ESP_OK`. |
| `DefaultHandlers.StaDisconnectedAlways` | components/esp32/event_default_handlers.c:172-174 | For every collaborator answer: adapter_down(STA) and then reg_rxcb(STA, NULL). The interface goes down even when unregistering fails. The result is the unregistration's answer. |
| `DefaultHandlers.StaGotIpAlways` | components/esp32/event_default_handlers.c:85-92 | Exactly one set_sta_ip call and no event sent. The result is that call's answer. |
| `EventDispatch.ProcessDefault` | components/esp32/event_default_handlers.c:279-298 | The dispatcher behaves as `DispatchWith` on its table. Its result is only ever `ESP_OK` or `ESP_FAIL`, so the handler's result is dropped. `ESP_FAIL` comes with no collaborator call. |
| `EventDispatch.TableIsConsistent` | components/esp32/event_default_handlers.c:62-81 | The table has `SYSTEM_EVENT_MAX + 1` entries. Each entry below `SYSTEM_EVENT_MAX` is the entry for its own index and holds the handler the reference `DefaultHandler` names. |
| `EventDispatch.IdCheckIffInRange` | components/esp32/event_default_handlers.c:287 | With the table as written, the id check passes if and only if the id is below `SYSTEM_EVENT_MAX`. |
| `EventDispatch.HandlersPresentExactly` | components/esp32/event_default_handlers.c:62-81 | An entry has a handler if and only if its id is STA start, stop, connected, disconnected or got-IP, or AP start or stop. |
| `EventDispatch.DispatchMatchesReference` | components/esp32/event_default_handlers.c:279-298 | The dispatcher with the table as written equals the reference: fail on null or out-of-range ids, otherwise run the id's default handler if any and return `ESP_OK`. |
| `EventDispatch.NullEventRejected` | components/esp32/event_default_handlers.c:281-284 | A null event returns `ESP_FAIL` with no handler and no collaborator call. |
| `EventDispatch.OutOfRangeRejected` | components/esp32/event_default_handlers.c:287-296 | An id of `SYSTEM_EVENT_MAX` or more returns `ESP_FAIL` with no handler run. |
| `EventDispatch.MismatchRejected` | components/esp32/event_default_handlers.c:287-296 | For any table, an in-range id whose entry names another id returns `ESP_FAIL` with no handler run. |
| `EventDispatch.NoHandlerIsNoOp` | components/esp32/event_default_handlers.c:287-297 | A valid id whose entry has a NULL handler returns `ESP_OK` with an empty trace. |
| `EventDispatch.HandlerResultDiscarded` | components/esp32/event_default_handlers.c:288-297 | A valid id with a handler runs that handler once: the trace is exactly the handler's. The result is `ESP_OK` even when the handler returned an error. |
| `EventDispatch.ReconnectInjection` | components/esp32/event_default_handlers.c:141-165 | Dispatching STA-connected sends exactly one got-IP event, carrying the IP info read, when reg_rxcb succeeded, the DHCP status is Stopped and ip, netmask and gw are all non-zero. Otherwise it sends none. |
| `EventDispatch.InjectsAtMostOne` | components/esp32/event_default_handlers.c:154-161 | Any dispatch sends at most one event. What it sends is the got-IP event for the station IP info read during that dispatch. |
| `EventDispatch.InjectionDoesNotCascade` | components/esp32/event_default_handlers.c:83-93 | Dispatching any injected event makes only the set_sta_ip call, returns `ESP_OK` and sends nothing, whatever the collaborators answer then. Injection never chains. |

## Left out

- `esp_system_event_debug` and every `ESP_LOG*` call: diagnostic text only. The dispatcher ignores the debug function's result.
- The internals of the WiFi driver, the TCP/IP adapter, the DHCP client and the event bus: foreign code. Each call is an action in the trace, and its result and out-parameter values come from the `Oracle`.
- When, and on which thread, the event bus delivers an injected event: `InjectionDoesNotCascade` holds for any later collaborator answers, so it does not depend on delivery timing.
- FreeRTOS task, queue and semaphore machinery: not used by this logic.
- The byte layout of MAC addresses and the `memcpy` of the IP info into the event. A MAC is an opaque 6-byte value, IP info is three 32-bit words, and "any" is zero.
- `esp_event.h` and `tcpip_adapter.h` are not part of this model. The event-id values follow the order of the table, and the DHCP status has the three named states plus one value for anything else.
- Uninitialised out-parameters (for example, `sta_ip` after a failed `tcpip_adapter_get_ip_info`): the oracle's value stands for whatever the call left there.
- The event passed to each handler: no handler's control flow reads it. It is passed through as in the source.
