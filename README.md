# wifi_ap: verified model of the access-point session core

`wifi_ap/main.py` turns a Windows host into a Wi-Fi Direct legacy-mode access point. It then serves a small command protocol over a websocket until a timeout. This project models the script's deterministic core in Dafny and proves properties about it:

- **Labels** (`labels.dfy`): the three label tables for the Wi-Fi Direct error code, the publisher status and the listen-state discoverability. Each lookup is plain dictionary indexing with no fallback label, so it is defined only for keys of the table. Each enum is modelled with exactly the members its table lists, and the model shows that every one of them is a key. So no lookup of a listed value can fail. It also shows that every label is a non-empty upper-case member name and that no two keys share a label.
- **Protocol** (`protocol.dfy`): decoded messages are maps over a msgpack-like `Value`. `Dispatch` answers `check_connection` and `get_status` with their fixed responses and any other command value with the empty map. `HandleConnection` is the per-connection loop. It sends one response per message, in order, and returns at the first message without a `"command"` key without answering it. Its result is proved equal to the dispatcher applied to the longest prefix of messages that all carry a command.
- **Lifecycle** (`lifecycle.dfy`): the Wi-Fi Direct publisher and connection listener form one class, `AccessPoint`. Its fields are the publisher status, the advertisement settings and the live callback tokens, and an operation log records every call in order. `RunMain` issues the calls in the order `main` does. The lemmas prove three facts about the resulting trace:
  - Setup happens exactly once and before the publisher starts.
  - Teardown happens exactly once and in order when the server run ends normally or by timeout.
  - Teardown does not happen at all when the run raises any other exception.

Teardown is not guaranteed on every exit path. The code has no `try/finally` and catches only `TimeoutError` (`wifi_ap/main.py:156`). Label lookups index the tables directly and have no fallback label.

## Model

| member | source | states |
|---|---|---|
| Labels.ErrorLabel | wifi_ap/main.py:10-14 | looking up an error code that is in the table gives a member-name label that no other code shares (used at line 80) |
| Labels.StatusLabel | wifi_ap/main.py:16-21 | looking up a publisher status that is in the table gives a member-name label that no other status shares (used at lines 72 and 80) |
| Labels.DiscoverabilityLabel | wifi_ap/main.py:23-27 | looking up a discoverability value that is in the table gives a member-name label that no other value shares (used at line 90) |
| Labels.ErrorTableIsLabelTable | wifi_ap/main.py:10-14 | every error label is a non-empty upper-case name and the table is injective |
| Labels.StatusTableIsLabelTable | wifi_ap/main.py:16-21 | every status label is a non-empty upper-case name and the table is injective |
| Labels.DiscoverabilityTableIsLabelTable | wifi_ap/main.py:23-27 | every discoverability label is a non-empty upper-case name and the table is injective |
| Labels.LookupsAreTotal | wifi_ap/main.py:72-90 | every value of each enum, declared with exactly the members its table lists, is a key of its table, so the dictionary indexing at lines 72, 80 and 90 cannot fail for a listed value |
| Protocol.Respond | wifi_ap/main.py:127-143 | only the request's `"command"` entry is read; the response is non-empty exactly when the command is recognised, and then it is well formed and echoes that command |
| Protocol.Dispatch | wifi_ap/main.py:127-143 | an unrecognised command value gives the empty map; a recognised one gives a well-formed response that echoes the command with success true and no errors; a status entry, an empty map, appears exactly for `get_status` |
| Protocol.KnownCommandResponses | wifi_ap/main.py:129-143 | a request with command `check_connection` gets exactly `{command, success: true, errors: []}`; `get_status` gets exactly the same plus `status: {}`; any other command gets `{}` |
| Protocol.RespondReadsOnlyCommand | wifi_ap/main.py:127 | two requests with the same `"command"` value get the same response, whatever their other keys |
| Protocol.AnsweredCount | wifi_ap/main.py:120-126 | the length of the longest prefix of messages that all carry a command: every message before it has one, and the message at it, if any, does not |
| Protocol.ResponsesArePairwise | wifi_ap/main.py:120-146 | a connection sends exactly as many responses as that prefix is long, and the i-th response is the dispatcher's answer to the i-th request |
| Protocol.NothingAfterMalformed | wifi_ap/main.py:122-126 | once a message lacks a command, nothing after it on that connection affects what is sent |
| Protocol.ResponsesAppend | wifi_ap/main.py:120-146 | after a run of well-formed messages the connection continues exactly as a fresh one fed the remaining messages |
| Protocol.HandleConnection | wifi_ap/main.py:119-146 | the loop sends one response per message of the longest well-formed prefix, in order; it reports that it closed early exactly when a message without a command stopped it, and then that message is the one at the prefix length |
| Lifecycle.AccessPoint.constructor | wifi_ap/main.py:71 | a new publisher is CREATED with the hardware's default advertisement, no callbacks and an empty log |
| Lifecycle.AccessPoint.AddStatusChangedHandler | wifi_ap/main.py:83 | registering the status callback returns a token not already live among the publisher's status callbacks, adds it and logs it, changing nothing else |
| Lifecycle.AccessPoint.SetAutonomousGroupOwnerEnabled | wifi_ap/main.py:88 | sets only the group-owner flag and logs the call |
| Lifecycle.AccessPoint.SetListenStateDiscoverability | wifi_ap/main.py:92-94 | sets only the discoverability and logs the call |
| Lifecycle.AccessPoint.SetLegacyEnabled | wifi_ap/main.py:95 | sets only the legacy-mode flag and logs the call |
| Lifecycle.AccessPoint.SetLegacySsid | wifi_ap/main.py:96 | sets only the SSID and logs the call |
| Lifecycle.AccessPoint.SetLegacyPassphrase | wifi_ap/main.py:97 | sets only the passphrase and logs the call |
| Lifecycle.AccessPoint.AddConnectionRequestedHandler | wifi_ap/main.py:113-114 | registering the connection callback returns a token not already live among the listener's callbacks, adds it and logs it, changing nothing else |
| Lifecycle.AccessPoint.StartPublisher | wifi_ap/main.py:117 | the publisher becomes STARTED, and the start is logged with the advertisement it carries; settings and callbacks unchanged |
| Lifecycle.AccessPoint.RunWebsocketServer | wifi_ap/main.py:148-159 | the server run, with its address, port, timeout and how it ended, is logged; no publisher state changes |
| Lifecycle.AccessPoint.StopPublisher | wifi_ap/main.py:162 | the publisher becomes STOPPED, settings and callbacks unchanged |
| Lifecycle.AccessPoint.RemoveConnectionRequestedHandler | wifi_ap/main.py:164 | removes exactly the given token from the connection callbacks and logs the call |
| Lifecycle.AccessPoint.RemoveStatusChangedHandler | wifi_ap/main.py:165 | removes exactly the given token from the status callbacks and logs the call |
| Lifecycle.RunMain | wifi_ap/main.py:71-165 | from any default advertisement, the log is the program's trace and the final advertisement is the configured one; after a normal or timed-out run the publisher is STOPPED with no callbacks live; after an uncaught exception it is left STARTED with both callbacks live |
| Lifecycle.StartOnceAfterSetup | wifi_ap/main.py:117 | the publisher is started exactly once, with the configured advertisement, and no callback is registered or setting changed after that |
| Lifecycle.StartsWithConfiguredAdvertisement | wifi_ap/main.py:88-97 | every start in a run carries an advertisement with autonomous group owner on, discoverability INTENSIVE, legacy mode on, and the SSID and passphrase from the arguments |
| Lifecycle.SetupOnceBeforeStart | wifi_ap/main.py:83-117 | both registrations and all five advertisement settings are issued exactly once each, before the start |
| Lifecycle.SetupOpOnce | wifi_ap/main.py:83-114 | each individual setup operation occurs exactly once in the trace |
| Lifecycle.TeardownExactlyOnce | wifi_ap/main.py:159-165 | after a normal or timed-out run: one stop, one removal of the connection token, one removal of the status token |
| Lifecycle.TeardownInOrder | wifi_ap/main.py:159-165 | the teardown follows the server run, with stop, then removal of the connection callback, then removal of the status callback |
| Lifecycle.RaisedSkipsTeardown | wifi_ap/main.py:149-159 | when the server run raises anything but a timeout, the publisher is never stopped and no callback is removed |
| Lifecycle.RemovedTokensWereRegistered | wifi_ap/main.py:83-165 | every removed token was obtained earlier by registering a callback of the same kind |

## Left out

- The Wi-Fi Direct (WinRT) publisher and listener are foreign objects. They appear only as the abstract state and operations of `AccessPoint`. Radio behaviour is not modelled, nor are hardware-driven status events such as STARTED→ABORTED or the callbacks firing.
- The status and connection callbacks (lines 75-81 and 105-110) only write log lines. Their label lookups are covered by the label functions and `Labels.LookupsAreTotal`, and the message text is not modelled.
- The msgpack `unpackb`/`packb` codec (lines 121 and 144) is external. Messages arrive already decoded as maps and responses leave as maps. No round trip is claimed, key order in the packed map is not modelled, and float and extension types are not in `Value`.
- Payloads that decode to something other than a map are not modelled. For those, the `in` test at line 122 would test list membership or substrings, or raise.
- The websocket server, `async for` framing, `serve_forever` and `asyncio.timeout` (lines 148-159) are networking, concurrency and wall-clock time. The run is abstracted as `ServerEnd`, which is how it ended. Sending a response is modelled as appending it to the sent sequence.
- Logging setup, log messages (lines 31-47) and argparse (lines 48-68) are I/O and CLI plumbing. The parsed arguments are an input (`Args`), and the hardware's default advertisement settings are an input to the constructor.
- Lifecycle.AccessPoint.AddStatusChangedHandler: tokens come from a per-object counter in the model (one for the publisher, one for the listener). Real tokens are opaque values from the hardware API, and only their freshness within one object is modelled. A status token and a connection token may be equal, and no property depends on them differing.
- Labels.LookupsAreTotal: each enum is declared with exactly the members its table lists, so the lemma holds by construction. It assumes the hardware API produces no other values for these enums. Whether it can is outside the model, and a value outside a table would make the lookup raise.
