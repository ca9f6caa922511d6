/**
 * Whole-service runs built only from the ChatService contracts: the
 * debounced restart, and a discovery/churn/send sequence end to end.
 */
module Scenarios {
  import opened Types
  import Names
  import Utf8
  import opened PeerRegistry
  import opened Chat

  /**
   * Two restarts before the first startup fires: the first restart's work
   * item does nothing when the queue runs it, the second one starts
   * browsing (and advertising, when discoverable).
   */
  method RestartTwiceBeforeStartup(svc: ChatService) returns (first: nat, second: nat)
    requires svc.Valid()
    modifies svc
    ensures svc.Valid()
    ensures first != second && svc.pendingStartWorkItem == Some(second)
    ensures first !in svc.scheduledItems && second !in svc.scheduledItems
    ensures svc.isBrowsing && svc.isAdvertising == svc.isDiscoverable
    ensures svc.effects == old(svc.effects)
      + Teardown(old(svc.serviceAdvertiser), old(svc.serviceBrowser), old(svc.session))
      + Teardown(Some(first), Some(first), Some(first))
      + (if svc.isDiscoverable then [Called(StartAdvertisingPeer, second)] else [])
      + [Called(StartBrowsingForPeers, second)]
  {
    svc.RestartDiscovery();
    first := svc.pendingStartWorkItem.value;
    svc.RestartDiscovery();
    second := svc.pendingStartWorkItem.value;
    var beforeFiring := svc.effects;
    svc.FireStartup(first);
    assert svc.effects == beforeFiring && !svc.isAdvertising && !svc.isBrowsing;
    svc.FireStartup(second);
  }

  /** A fresh service renamed to `name` whose startup has run. */
  method StartAs(name: string) returns (svc: ChatService)
    ensures fresh(svc) && svc.Valid()
    ensures svc.displayName == Names.Sanitize(name)
    ensures svc.isBrowsing && svc.isAdvertising && svc.session.Some?
    ensures svc.peers == [] && svc.activePeersByName == map[] && svc.receivedMessages == map[]
  {
    svc := new ChatService(None, "Device");
    svc.SetDisplayName(name);
    Launch(svc);
  }

  /** The queue runs the startup the last setup scheduled. */
  method Launch(svc: ChatService)
    requires svc.Valid() && svc.session.Some? && svc.pendingStartWorkItem == Some(svc.generation)
    requires svc.generation in svc.scheduledItems && svc.generation !in svc.cancelledItems
    modifies svc
    ensures svc.Valid()
    ensures svc.isBrowsing && svc.isAdvertising == svc.isDiscoverable == old(svc.isDiscoverable)
    ensures svc.session == old(svc.session)
    ensures svc.Snapshot() == old(svc.Snapshot()) && svc.displayName == old(svc.displayName)
  {
    svc.FireStartup(svc.generation);
  }

  /** The peer named "Bob" is found as `x`, lost, then found again as `y`. */
  method BobReappears(svc: ChatService, x: PeerId, y: PeerId)
    requires svc.Valid() && svc.peers == [] && svc.activePeersByName == map[]
    requires x.name == y.name == "Bob" && x != y
    modifies svc
    ensures svc.Valid()
    ensures svc.peers == [y] && svc.activePeersByName == map["Bob" := y]
    ensures svc.displayName == old(svc.displayName) && svc.session == old(svc.session)
    ensures svc.receivedMessages == old(svc.receivedMessages)
  {
    assert RemoveStale([], x) == [];
    svc.BrowserFoundPeer(x);
    assert svc.peers == [x] && svc.activePeersByName == map["Bob" := x];
    assert RemovePeer([x], x) == [];
    svc.BrowserLostPeer(x);
    assert svc.activePeersByName == map[];
    assert RemoveStale([], y) == [];
    svc.BrowserFoundPeer(y);
  }

  /**
   * A service renamed to `local` and started sees "Bob" as `x`, loses `x`,
   * sees "Bob" again as `y`, and sends `text` to "Bob".
   */
  method SendAfterReappearance(local: string, x: PeerId, y: PeerId, text: string)
    returns (history: seq<Message>, lastCall: Effect, visible: seq<PeerId>)
    requires x.name == y.name == "Bob" && x != y
    ensures history == [Message(text, Names.Sanitize(local))]
    ensures visible == [y]
    ensures lastCall.SendData? && lastCall.peer == y && lastCall.data == Utf8.Encode(text)
  {
    var svc := StartAs(local);
    BobReappears(svc, x, y);
    svc.Send(text, "Bob", true);
    history := svc.receivedMessages["Bob"];
    lastCall := svc.effects[|svc.effects| - 1];
    visible := svc.peers;
  }

  /**
   * The local name is set to "Alice 42!", the startup fires, "Bob" is found
   * as X, lost, found again as Y, and "hi" is sent to "Bob": the message
   * goes to Y and Bob's history holds exactly that message, authored by
   * "Alice42".
   */
  method EndToEnd() returns (history: seq<Message>, lastCall: Effect, visible: seq<PeerId>)
    ensures history == [Message("hi", "Alice42")]
    ensures visible == [PeerId(101, "Bob")]
    ensures lastCall.SendData? && lastCall.peer == PeerId(101, "Bob") && lastCall.data == Utf8.Encode("hi")
  {
    Names.SanitizeExample();
    history, lastCall, visible := SendAfterReappearance("Alice 42!", PeerId(100, "Bob"), PeerId(101, "Bob"), "hi");
  }
}
