# HubChat peer discovery and session engine, in Dafny

This project models `ChatService`, the object behind HubChat's local chat.
It advertises the local device under a sanitised display name, browses for
other devices of the `hubchat` service, invites each one it finds into one
session, and keeps the registry the user interface reads:

- the visible peers;
- the names currently connected;
- the latest identifier seen for each name;
- a per-name message history.

A restart tears everything down and rebuilds it under a new peer identifier.
The startup is deferred to one work item that a later restart cancels, so two
quick restarts start discovery only once.

Files:

- `types.dfy` holds the values: peer identifiers, messages, session states,
  conversations and `Option`.
- `utf8.dfy` is the text-to-bytes codec used on the wire.
- `names.dfy` holds name sanitisation and the `displayName` observer.
- `order.dfy` holds the string order behind `sorted()`.
- `registry.dfy` is the registry as a value:
  - one function per event handler, each with a lemma saying what it does to
    the registry;
  - a reference definition over event traces ("the active identifier for a
    name is the latest one sighted, unless that one was later lost").
- `chat_service.dfy` is the class itself. It has the source's fields, and one
  method per operation and delegate callback. Each registry-changing method is
  tied to the registry function of its handler. Each method also keeps the
  class invariant `Valid()`:
  - the registry is consistent;
  - the display name is sanitised;
  - advertising implies discoverable;
  - at most one startup work item is live.
- `scenarios.dfy` holds whole-service runs:
  - a double restart before the startup fires;
  - a name that reconnects under a fresh identifier and is then messaged.

Calls on the framework (advertiser, browser, session, persistent storage) are
not executed. Each one is appended to an `effects` log, and every method's
contract states the log it leaves.

Two behaviours of the code worth knowing:

- An outside assignment of an already-sanitised value to `displayName`
  persists the name and restarts networking, even when the value is
  unchanged. An unsanitised value is a different story: see "## Findings".
- The conversation list is built from the names that have an active
  identifier (`activePeersByName.keys`). Names that only have a history are
  not included.

## Model

| member | source | states |
|---|---|---|
| Utf8.DecodeEncode | message/ChatService.swift:212-214 | text that is sent as UTF-8 decodes back to exactly the same text |
| Utf8.Encode | message/ChatService.swift:212 | every character takes one to four bytes, so the encoding of n characters has between n and 4n bytes |
| Utf8.Decode | message/ChatService.swift:306 | decoded text has at least a quarter as many characters as there are bytes, and no more characters than bytes |
| Utf8.EncodeDecode | message/ChatService.swift:305-306 | every byte sequence accepted as UTF-8 is the encoding of the text it decodes to, so nothing is lost or invented |
| Utf8.DecodeEncodeChar | message/ChatService.swift:306 | decoding one encoded character gives it back and consumes exactly its bytes, whatever follows |
| Utf8.StrayContinuationRejected | message/ChatService.swift:306 | data starting with a lone continuation byte is not text, so it is dropped |
| Names.Sanitize | message/ChatService.swift:32-37 | a sanitised name always has 1 to 15 characters, all alphanumeric |
| Names.KeepAlphanumerics | message/ChatService.swift:33-34 | the alphanumerics of the name in their order; its properties are the three lemmas below |
| Names.KeepAlphanumericsShape | message/ChatService.swift:33-34 | the filtered name is no longer than the input and is entirely alphanumeric |
| Names.KeepAlphanumericsIdentity | message/ChatService.swift:33-34 | filtering an all-alphanumeric name leaves it unchanged |
| Names.KeepAlphanumericsEmpty | message/ChatService.swift:34-36 | filtering leaves nothing exactly when the input has no alphanumeric character |
| Names.SanitizeFallsBack | message/ChatService.swift:36 | a name without any alphanumeric character becomes "Guest" |
| Names.SanitizeKeepsLeadingAlphanumerics | message/ChatService.swift:34-35 | otherwise the result is a prefix of the filtered name, of length min(filtered length, 15) |
| Names.SanitizeFixedPoints | message/ChatService.swift:18-19 | sanitising leaves a name unchanged if and only if it has 1 to 15 characters, all alphanumeric |
| Names.SanitizeIdempotent | message/ChatService.swift:18-22 | sanitising twice is the same as sanitising once, so the corrective assignment is already sanitised |
| Names.DidSetAsWritten | message/ChatService.swift:17-27 | the observer as written stores the sanitised value, and persists and restarts if and only if the assigned value was already sanitised and the service is not initialising |
| Names.DidSet | message/ChatService.swift:17-27 | the corrected observer, whose corrective assignment runs the observer again, stores the sanitised value |
| Names.DidSetAsWrittenSkipsRestart | message/ChatService.swift:17-27 | as written, assigning "Alice 42!" stores "Alice42" but neither persists nor restarts |
| Names.DidSetSettlesInOnePass | message/ChatService.swift:17-27 | the corrected observer stores the sanitised value, and outside initialisation always persists and restarts |
| StringOrder.Sorted | message/ChatService.swift:88 | the sorted keys hold exactly the set's members, each once, in strictly ascending order |
| PeerRegistry.RemoveStale | message/ChatService.swift:249 | after dropping stale entries, an entry remains if and only if it has another name or is the found identifier |
| PeerRegistry.RemovePeer | message/ChatService.swift:267 | after removing the lost identifier, an entry remains if and only if it is another identifier |
| PeerRegistry.FoundPeer | message/ChatService.swift:247-257 | after a sighting the identifier is listed and is the one its name maps to, and no identifier other than it is added |
| PeerRegistry.Sighted | message/ChatService.swift:249-254 | the list after a sighting holds exactly the found identifier and the old entries of other names |
| PeerRegistry.LostPeer | message/ChatService.swift:266-272 | after a loss the identifier is not listed, its name is not connected, and the name no longer maps to it |
| PeerRegistry.StateChanged | message/ChatService.swift:292-302 | a state change leaves the list and histories alone; the name is connected afterwards if and only if the state is `connected`, or it is `connecting` and the name was connected before |
| PeerRegistry.Appended | message/ChatService.swift:223-226 | the message ends the history of its name, and every other history is unchanged |
| PeerRegistry.Reset | message/ChatService.swift:122-126 | after a restart no name maps to an identifier, the list and connected names are empty, and every history is kept |
| PeerRegistry.RemovePeerShrinks | message/ChatService.swift:267 | removing an identifier that is not listed changes nothing, and removal never lengthens the list |
| PeerRegistry.FoundPeerSpec | message/ChatService.swift:247-256 | after a sighting, the identifier is listed exactly once and is the only entry for its name; entries of other names are kept in order; the name maps to it; nothing else changes |
| PeerRegistry.SightedSpec | message/ChatService.swift:249-254 | with names unique beforehand, the list after a sighting holds the identifier exactly once, no other entry of its name, the other names' entries in their old order, and unique names |
| PeerRegistry.LostPeerSpec | message/ChatService.swift:266-271 | after a loss, the identifier is unlisted and its name is not connected; the name's mapping is cleared exactly when it held this identifier; other names are untouched |
| PeerRegistry.StateChangedSpec | message/ChatService.swift:292-301 | `connected` marks the name connected and maps it to this identifier; `notConnected` unmarks the name and keeps the mapping; `connecting` changes nothing |
| PeerRegistry.AppendedSpec | message/ChatService.swift:223-226 | one message is added at the end of one name's history, and nothing else changes |
| PeerRegistry.ResetSpec | message/ChatService.swift:122-126 | a restart empties the peers, the connected names and the mappings, and keeps every history |
| PeerRegistry.Conversations | message/ChatService.swift:87-99 | one conversation per actively mapped name, in strictly ascending name order, each with that name's history (empty if none) |
| PeerRegistry.ActiveFollowsLatestSighting | message/ChatService.swift:247-271 | over any event trace, a name maps to the identifier of its latest sighting (found or connected), unless a restart came later or that identifier was lost later |
| PeerRegistry.ActiveAfterStep | message/ChatService.swift:247-301 | one event maps a name to a sighted identifier, clears it on a restart or on the loss of the mapped identifier, and otherwise leaves it alone |
| PeerRegistry.HistoryOnlyGrows | message/ChatService.swift:223-226 | over any event trace, including restarts, every name's history only grows at its end |
| PeerRegistry.RunKeepsConsistent | message/ChatService.swift:14-15 | every event trace keeps names unique in the peer list and files every identifier under its own name |
| PeerRegistry.LateLossOfSupersededPeer | message/ChatService.swift:266-271 | a loss report for a superseded identifier keeps the fresher mapping, but the name is no longer marked connected |
| Chat.ChatService.constructor | message/ChatService.swift:58-70 | the initial name is the persisted name or the device name, sanitised; observers do not run; networking is set up once, with empty registry and log |
| Chat.ChatService.StartAdvertising | message/ChatService.swift:171-175 | the advertiser, if present, is told to start, and the flag is set |
| Chat.ChatService.StopAdvertising | message/ChatService.swift:177-181 | the advertiser, if present, is told to stop, and the flag is cleared |
| Chat.ChatService.StartBrowsing | message/ChatService.swift:183-187 | the browser, if present, is told to start, and the flag is set |
| Chat.ChatService.StopBrowsing | message/ChatService.swift:189-193 | the browser, if present, is told to stop, and the flag is cleared |
| Chat.ChatService.SetupNetworking | message/ChatService.swift:101-156 | the previous startup is cancelled; the old components are stopped and disconnected in order; the registry is reset and keeps histories; new components get a fresh identifier under the current name; exactly one startup, the new one, stays live |
| Chat.ChatService.CancelPendingStart | message/ChatService.swift:111-112 | the last startup work item is cancelled, so no older startup stays live |
| Chat.ChatService.TearDown | message/ChatService.swift:114-126 | stop advertising, stop browsing and disconnect are issued in that order; components are dropped; the registry is reset |
| Chat.ChatService.BuildComponents | message/ChatService.swift:128-153 | a new identifier under the display name, with new components and one new live startup |
| Chat.ChatService.RestartDiscovery | message/ChatService.swift:82-85 | a user restart has the full effect of a setup and cancels the previous startup |
| Chat.ChatService.FireStartup | message/ChatService.swift:142-153 | a live startup starts advertising when discoverable and always starts browsing; a cancelled one changes nothing |
| Chat.ChatService.SetDisplayName | message/ChatService.swift:16-27 | the stored name is the sanitised input; it is persisted and networking restarts under it (the corrected observer) |
| Chat.ChatService.SetDiscoverable | message/ChatService.swift:41-49 | the flag is stored, and advertising starts or stops to match it |
| Chat.ChatService.ReceivedInvitation | message/ChatService.swift:231-235 | every invitation is accepted into the current session |
| Chat.ChatService.AdvertiserDidNotStart | message/ChatService.swift:237-240 | a failed advertiser start stops advertising |
| Chat.ChatService.BrowserDidNotStart | message/ChatService.swift:275-278 | a failed browser start stops browsing |
| Chat.ChatService.BrowserFoundPeer | message/ChatService.swift:244-262 | the registry takes the found-peer step; the peer is invited with a 30-second timeout if and only if a session exists |
| Chat.ChatService.ListSighting | message/ChatService.swift:247-257 | the queued part of a sighting performs exactly the registry's found-peer step |
| Chat.ChatService.BrowserLostPeer | message/ChatService.swift:264-273 | the registry takes the lost-peer step and nothing else changes |
| Chat.ChatService.SessionDidChange | message/ChatService.swift:282-303 | the registry takes the state-change step and nothing else changes |
| Chat.ChatService.AppendMessage | message/ChatService.swift:223-227 | the message is filed at the end of the history under the peer's name |
| Chat.ChatService.SessionDidReceive | message/ChatService.swift:305-311 | valid UTF-8 is filed as a message authored by the sender's name; anything else is dropped and changes nothing |
| Chat.ChatService.SendTo | message/ChatService.swift:203-221 | without a session nothing happens; otherwise the UTF-8 text is sent to the peer, and, only if the send succeeds, filed under the peer's name with the local name as author |
| Chat.ChatService.Send | message/ChatService.swift:195-201 | a name without an active identifier sends and files nothing; otherwise the text goes to that name's latest identifier |
| Chat.ChatService.LocalConversations | message/ChatService.swift:87-99 | one conversation per name in `activePeersByName` and no other, in strictly ascending name order, each with the messages filed under its name (none if there are none) |
| Scenarios.RestartTwiceBeforeStartup | message/ChatService.swift:141-153 | after two quick restarts the first startup does nothing, the second one starts discovery, and the log holds exactly those calls |
| Scenarios.StartAs | message/ChatService.swift:58-70 | a new service, renamed and started, advertises and browses with an empty registry |
| Scenarios.Launch | message/ChatService.swift:142-153 | running the live startup leaves the service browsing, advertising as discoverable, with registry and name unchanged |
| Scenarios.BobReappears | message/ChatService.swift:247-271 | when a name is found, lost and found again under a new identifier, only the new identifier is listed and mapped |
| Scenarios.SendAfterReappearance | message/ChatService.swift:195-216 | for any local name and text, after a name reappears under a new identifier, sending to the name reaches only the new identifier and the history holds exactly that message by the sanitised local name |
| Scenarios.EndToEnd | message/ChatService.swift:195-216 | a message sent to a name that reconnected under a fresh identifier goes to the fresh one, and becomes that name's only history entry |

## Left out

- The heartbeat timer (lines 155-169): it only logs.
- The stream and resource callbacks (lines 313-327): they only log.
- All `print` output and the diagnostics on failure paths.
- Time:
  - the 1.2-second startup delay is replaced by an explicit `FireStartup(item)` call, which the caller may make for any scheduled item in any order;
  - the 30-second invitation timeout is only recorded in the invite;
  - message timestamps (`Date()`) are not modelled.
- The hops onto the main queue (`DispatchQueue.main.async`) are applied at once, in call order. Interleavings in which a queued registry update runs after a later restart are not modelled.
- `[weak self]`: the service is never deallocated in the model.
- `UserDefaults` is not modelled: the persisted name is a constructor parameter, and writing it is a `PersistName` effect.
- `defaultDeviceName` (device name plus a random suffix) is not modelled: its result is a constructor parameter.
- The framework objects (`MCPeerID`, advertiser, browser, `MCSession`) are not modelled. An identifier is a unique number plus a display name. A component is the number of the setup that built it. Each call on a component is an effect.
- Chat.ChatService.SendTo: whether `session.send` throws is a parameter (`delivered`). The UTF-8 conversion of a Swift string never fails, so its failure branch is not modelled.
- Chat.ChatService.SetDisplayName: follows the corrected observer (`Names.DidSet`). For an unsanitised value it persists and restarts, which the code as written does not do; the row under "## Findings" and `Names.DidSetAsWritten` record the code's behaviour.
- Utf8.Decode: a strict UTF-8 decoder following RFC 3629. Foundation's `String(data:encoding: .utf8)` is not modelled exactly; for example, its handling of a leading byte-order mark is not captured.
- Names.IsAlphanumeric: only ASCII letters and digits count. Swift's `CharacterSet.alphanumerics` also admits other Unicode letters, marks and digits.
- Names.Sanitize: counts Unicode scalar values. Swift's `prefix(15)` counts grapheme clusters.
- StringOrder.Less: compares names character by character. Swift's `String` comparison is on canonical equivalence (normalisation is not modelled).
- The `@unknown default` session state is not modelled: only the three documented states exist.
- Conversation metadata (participant record, `updatedAt`, `isRead`, `isPinned`, picture link) is not modelled. A conversation keeps its name and messages; a message keeps its text and author name.
- The user-interface files that display the registry are not part of this model.

## Findings

| source | as written | input that shows it | evidently intended | confidence | as-written member | corrected member |
|---|---|---|---|---|---|---|
| message/ChatService.swift:17-22 | when the assigned name is not already sanitised, the observer assigns the sanitised name and returns; Swift does not run a property's observer again for an assignment made inside that observer | `displayName = "Alice 42!"` stores "Alice42", but does not persist it and does not restart networking, so the service keeps advertising under the previous peer name | the corrective assignment goes through the observer once more, so the sanitised name is persisted and networking restarts under it | not executed | Names.DidSetAsWrittenSkipsRestart | Names.DidSetSettlesInOnePass |
