/**
 * The chat service: the single owner of the discovery and session state.
 * Every delegate callback is applied as one atomic step on the owner, in
 * arrival order. Calls into the transport (advertiser, browser, session)
 * and into persistent storage are recorded in `effects` instead of being
 * performed.
 */
module Chat {
  import opened Types
  import Utf8
  import Names
  import opened PeerRegistry
  import StringOrder

  const InvitationTimeout: nat := 30

  /** The calls the service makes on a transport component. */
  datatype Command =
    | StartAdvertisingPeer | StopAdvertisingPeer
    | StartBrowsingForPeers | StopBrowsingForPeers
    | Disconnect

  /** A recorded call into code outside the model. */
  datatype Effect =
    | Called(command: Command, component: nat)         // on the advertiser, browser or session built by setup `component`
    | InvitePeer(peer: PeerId, session: nat, timeout: nat)
    | AcceptInvitation(peer: PeerId, into: Option<nat>)
    | SendData(peer: PeerId, session: nat, data: seq<byte>)
    | PersistName(name: string)

  /** A call through an optional reference: made only when the component exists. */
  function CallOn(component: Option<nat>, command: Command): seq<Effect>
  {
    if component.Some? then [Called(command, component.value)] else []
  }

  /** The calls a setup makes on the components it replaces. */
  function Teardown(advertiser: Option<nat>, browser: Option<nat>, session: Option<nat>): seq<Effect>
  {
    CallOn(advertiser, StopAdvertisingPeer) + CallOn(browser, StopBrowsingForPeers) + CallOn(session, Disconnect)
  }

  class ChatService {
    // The registry, as the service publishes it.
    var peers: seq<PeerId>
    var connectedPeerNames: set<string>
    var receivedMessages: map<string, seq<Message>>
    var activePeersByName: map<string, PeerId>

    var displayName: string
    var isInitializing: bool
    var isAdvertising: bool
    var isBrowsing: bool
    var isDiscoverable: bool

    // The networking components of the current setup, named by the setup that built them.
    var generation: nat
    var myPeerId: PeerId
    var serviceAdvertiser: Option<nat>
    var serviceBrowser: Option<nat>
    var session: Option<nat>

    // The debounced startup: the last work item created, and the dispatch
    // queue's view of the items (scheduled and not yet run; cancelled).
    var pendingStartWorkItem: Option<nat>
    var scheduledItems: set<nat>
    var cancelledItems: set<nat>

    var effects: seq<Effect>

    function Snapshot(): Registry
      reads this`peers, this`connectedPeerNames, this`activePeersByName, this`receivedMessages
    {
      Registry(peers, connectedPeerNames, activePeersByName, receivedMessages)
    }

    /** At most one startup work item can still run, and it is the last one created. */
    ghost predicate DebounceValid()
      reads this`generation, this`pendingStartWorkItem, this`scheduledItems, this`cancelledItems
    {
      && (forall t :: t in scheduledItems ==> t <= generation)
      && (forall t :: t in cancelledItems ==> t <= generation)
      && (pendingStartWorkItem.Some? ==> pendingStartWorkItem.value <= generation)
      && (forall t :: t in scheduledItems && t !in cancelledItems ==> pendingStartWorkItem == Some(t))
    }

    ghost predicate Valid()
      reads this
    {
      && Consistent(Snapshot())
      && Names.Sanitize(displayName) == displayName
      && !isInitializing
      && myPeerId.name == displayName
      && (!isDiscoverable ==> !isAdvertising)
      && DebounceValid()
    }

    /**
     * Start-up: the persisted name, or else the device's default name, is
     * sanitised and networking is set up for the first time. Observers do
     * not run for assignments made by the initialiser.
     */
    constructor (persistedName: Option<string>, deviceDefaultName: string)
      ensures Valid()
      ensures displayName == Names.Sanitize(if persistedName.Some? then persistedName.value else deviceDefaultName)
      ensures isDiscoverable && !isAdvertising && !isBrowsing
      ensures peers == [] && connectedPeerNames == {} && activePeersByName == map[] && receivedMessages == map[]
      ensures pendingStartWorkItem == Some(generation) && scheduledItems == {generation} && cancelledItems == {}
      ensures myPeerId == PeerId(generation, displayName)
      ensures session == serviceAdvertiser == serviceBrowser == Some(generation)
      ensures effects == []
    {
      var rawName := if persistedName.Some? then persistedName.value else deviceDefaultName;
      var finalName := Names.Sanitize(rawName);
      peers, connectedPeerNames, receivedMessages, activePeersByName := [], {}, map[], map[];
      displayName := finalName;
      isInitializing := true;
      isAdvertising, isBrowsing, isDiscoverable := false, false, true;
      generation := 0;
      myPeerId := PeerId(0, finalName);
      serviceAdvertiser, serviceBrowser, session := None, None, None;
      pendingStartWorkItem, scheduledItems, cancelledItems := None, {}, {};
      effects := [];
      new;
      Names.SanitizeIdempotent(rawName);
      isInitializing := false;
      SetupNetworking();
    }

    // ---- Advertising and browsing flags ----

    method StartAdvertising()
      modifies this`isAdvertising, this`effects
      ensures isAdvertising
      ensures effects == old(effects) + CallOn(serviceAdvertiser, StartAdvertisingPeer)
    {
      effects := effects + CallOn(serviceAdvertiser, StartAdvertisingPeer);
      isAdvertising := true;
    }

    method StopAdvertising()
      modifies this`isAdvertising, this`effects
      ensures !isAdvertising
      ensures effects == old(effects) + CallOn(serviceAdvertiser, StopAdvertisingPeer)
    {
      effects := effects + CallOn(serviceAdvertiser, StopAdvertisingPeer);
      isAdvertising := false;
    }

    method StartBrowsing()
      modifies this`isBrowsing, this`effects
      ensures isBrowsing
      ensures effects == old(effects) + CallOn(serviceBrowser, StartBrowsingForPeers)
    {
      effects := effects + CallOn(serviceBrowser, StartBrowsingForPeers);
      isBrowsing := true;
    }

    method StopBrowsing()
      modifies this`isBrowsing, this`effects
      ensures !isBrowsing
      ensures effects == old(effects) + CallOn(serviceBrowser, StopBrowsingForPeers)
    {
      effects := effects + CallOn(serviceBrowser, StopBrowsingForPeers);
      isBrowsing := false;
    }

    // ---- Restart controller ----

    /**
     * Tears networking down and builds it again under the current name:
     * the pending startup is cancelled, advertising and browsing stop, the
     * session is disconnected, the registry is emptied except for the
     * histories, and exactly one new startup work item is scheduled.
     */
    method SetupNetworking()
      requires Consistent(Snapshot())
      requires Names.Sanitize(displayName) == displayName && !isInitializing
      requires DebounceValid()
      modifies this
      ensures Valid()
      ensures Snapshot() == Reset(old(Snapshot()))
      ensures !isAdvertising && !isBrowsing
      ensures generation == old(generation) + 1
      ensures myPeerId == PeerId(generation, displayName)
      ensures session == serviceAdvertiser == serviceBrowser == Some(generation)
      ensures pendingStartWorkItem == Some(generation)
      ensures scheduledItems == old(scheduledItems) + {generation}
      ensures cancelledItems == old(cancelledItems) + (if old(pendingStartWorkItem).Some? then {old(pendingStartWorkItem).value} else {})
      ensures forall t :: t in scheduledItems && t !in cancelledItems ==> t == generation
      ensures generation in scheduledItems && generation !in cancelledItems
      ensures effects == old(effects) + Teardown(old(serviceAdvertiser), old(serviceBrowser), old(session))
      ensures displayName == old(displayName) && isDiscoverable == old(isDiscoverable)
      ensures isInitializing == old(isInitializing)
    {
      CancelPendingStart();
      TearDown();
      BuildComponents();
    }

    /** Step 1 of a setup: the last work item created will not run. */
    method CancelPendingStart()
      requires DebounceValid()
      modifies this`cancelledItems
      ensures cancelledItems == old(cancelledItems) + (if pendingStartWorkItem.Some? then {pendingStartWorkItem.value} else {})
      ensures forall t :: t in cancelledItems ==> t <= generation
      ensures forall t :: t in scheduledItems ==> t <= generation && t in cancelledItems
    {
      if pendingStartWorkItem.Some? {
        cancelledItems := cancelledItems + {pendingStartWorkItem.value};
      }
    }

    /** Step 2: stop and drop the components; the registry keeps only the histories. */
    method TearDown()
      modifies this`isAdvertising, this`isBrowsing, this`effects
      modifies this`session, this`serviceAdvertiser, this`serviceBrowser
      modifies this`peers, this`connectedPeerNames, this`activePeersByName
      ensures !isAdvertising && !isBrowsing
      ensures effects == old(effects) + Teardown(old(serviceAdvertiser), old(serviceBrowser), old(session))
      ensures session == serviceAdvertiser == serviceBrowser == None
      ensures Snapshot() == Reset(old(Snapshot()))
    {
      effects := effects + Teardown(serviceAdvertiser, serviceBrowser, session);
      isAdvertising, isBrowsing := false, false;
      session, serviceAdvertiser, serviceBrowser := None, None, None;
      peers, connectedPeerNames, activePeersByName := [], {}, map[];
    }

    /**
     * Steps 3 and 4: a new local identity under the current name, new
     * components bound to it, and one new startup work item.
     */
    method BuildComponents()
      requires forall t :: t in cancelledItems ==> t <= generation
      requires forall t :: t in scheduledItems ==> t <= generation && t in cancelledItems
      modifies this`generation, this`myPeerId, this`session, this`serviceAdvertiser, this`serviceBrowser
      modifies this`pendingStartWorkItem, this`scheduledItems
      ensures DebounceValid()
      ensures generation in scheduledItems && generation !in cancelledItems
      ensures generation == old(generation) + 1
      ensures myPeerId == PeerId(generation, displayName)
      ensures session == serviceAdvertiser == serviceBrowser == Some(generation)
      ensures pendingStartWorkItem == Some(generation)
      ensures scheduledItems == old(scheduledItems) + {generation}
    {
      generation := generation + 1;
      myPeerId := PeerId(generation, displayName);
      session, serviceAdvertiser, serviceBrowser := Some(generation), Some(generation), Some(generation);
      pendingStartWorkItem := Some(generation);
      scheduledItems := scheduledItems + {generation};
    }

    /** A restart requested by the user. */
    method RestartDiscovery()
      requires Valid()
      modifies this
      ensures Valid()
      ensures Snapshot() == Reset(old(Snapshot()))
      ensures !isAdvertising && !isBrowsing
      ensures pendingStartWorkItem == Some(generation) && generation == old(generation) + 1
      ensures myPeerId == PeerId(generation, displayName)
      ensures session == serviceAdvertiser == serviceBrowser == Some(generation)
      ensures cancelledItems == old(cancelledItems) + (if old(pendingStartWorkItem).Some? then {old(pendingStartWorkItem).value} else {})
      ensures scheduledItems == old(scheduledItems) + {generation}
      ensures forall t :: t in scheduledItems && t !in cancelledItems ==> t == generation
      ensures generation in scheduledItems && generation !in cancelledItems
      ensures effects == old(effects) + Teardown(old(serviceAdvertiser), old(serviceBrowser), old(session))
      ensures displayName == old(displayName) && isDiscoverable == old(isDiscoverable)
    {
      SetupNetworking();
    }

    /**
     * The dispatch queue runs work item `item`. A cancelled item does
     * nothing; a live one starts advertising when the service is
     * discoverable and always starts browsing.
     */
    method FireStartup(item: nat)
      requires Valid()
      modifies this`scheduledItems, this`isAdvertising, this`isBrowsing, this`effects
      ensures Valid()
      ensures scheduledItems == old(scheduledItems) - {item}
      ensures old(item in scheduledItems && item !in cancelledItems) ==>
        && Some(item) == pendingStartWorkItem
        && isBrowsing
        && isAdvertising == isDiscoverable
        && effects == old(effects) + (if isDiscoverable then CallOn(serviceAdvertiser, StartAdvertisingPeer) else [])
                      + CallOn(serviceBrowser, StartBrowsingForPeers)
      ensures !old(item in scheduledItems && item !in cancelledItems) ==>
        && isAdvertising == old(isAdvertising) && isBrowsing == old(isBrowsing)
        && effects == old(effects)
    {
      if item in scheduledItems {
        scheduledItems := scheduledItems - {item};
        if item !in cancelledItems {
          if isDiscoverable {
            StartAdvertising();
          }
          StartBrowsing();
        }
      }
    }

    // ---- Identity ----

    /**
     * Assigns the display name. The observer stores the sanitised name, and
     * the corrective re-assignment runs the observer again, which persists
     * the name and restarts networking under it.
     */
    method SetDisplayName(newValue: string)
      requires Valid()
      modifies this
      ensures Valid()
      ensures displayName == Names.DidSet(newValue, old(isInitializing)).name
      ensures Names.DidSet(newValue, old(isInitializing)).persistsAndRestarts
      ensures myPeerId == PeerId(generation, displayName) && generation == old(generation) + 1
      ensures Snapshot() == Reset(old(Snapshot()))
      ensures !isAdvertising && !isBrowsing && pendingStartWorkItem == Some(generation)
      ensures session == serviceAdvertiser == serviceBrowser == Some(generation)
      ensures scheduledItems == old(scheduledItems) + {generation}
      ensures cancelledItems == old(cancelledItems) + (if old(pendingStartWorkItem).Some? then {old(pendingStartWorkItem).value} else {})
      ensures generation in scheduledItems && generation !in cancelledItems
      ensures forall t :: t in scheduledItems && t !in cancelledItems ==> t == generation
      ensures isDiscoverable == old(isDiscoverable)
      ensures effects == old(effects) + [PersistName(displayName)] + Teardown(old(serviceAdvertiser), old(serviceBrowser), old(session))
    {
      Names.DidSetSettlesInOnePass(newValue, isInitializing);
      displayName := Names.Sanitize(newValue);
      if !isInitializing {
        effects := effects + [PersistName(displayName)];
        SetupNetworking();
      }
    }

    /** Toggling discoverability starts or stops advertising to match. */
    method SetDiscoverable(value: bool)
      requires Valid()
      modifies this`isDiscoverable, this`isAdvertising, this`effects
      ensures Valid()
      ensures isDiscoverable == value && isAdvertising == value
      ensures effects == old(effects) + CallOn(serviceAdvertiser, if value then StartAdvertisingPeer else StopAdvertisingPeer)
    {
      isDiscoverable := value;
      if isDiscoverable {
        StartAdvertising();
      } else {
        StopAdvertising();
      }
    }

    // ---- Advertiser and browser callbacks ----

    /** Every invitation is accepted into the current session. */
    method ReceivedInvitation(from: PeerId)
      modifies this`effects
      ensures effects == old(effects) + [AcceptInvitation(from, session)]
    {
      effects := effects + [AcceptInvitation(from, session)];
    }

    /** The advertiser could not start: it is stopped and stays off. */
    method AdvertiserDidNotStart()
      requires Valid()
      modifies this`isAdvertising, this`effects
      ensures Valid()
      ensures !isAdvertising
      ensures effects == old(effects) + CallOn(serviceAdvertiser, StopAdvertisingPeer)
    {
      StopAdvertising();
    }

    /** The browser could not start: it is stopped and stays off. */
    method BrowserDidNotStart()
      requires Valid()
      modifies this`isBrowsing, this`effects
      ensures Valid()
      ensures !isBrowsing
      ensures effects == old(effects) + CallOn(serviceBrowser, StopBrowsingForPeers)
    {
      StopBrowsing();
    }

    /** The queued part of a sighting: stale entries of the name go, `p` is listed once and mapped. */
    method ListSighting(p: PeerId)
      modifies this`peers, this`activePeersByName
      ensures Snapshot() == FoundPeer(old(Snapshot()), p)
    {
      var kept := RemoveStale(peers, p);
      if p !in kept {
        kept := kept + [p];
      }
      peers := kept;
      activePeersByName := activePeersByName[p.name := p];
    }

    /** The browser found `p`: the registry takes it as the newest identifier of its name, and it is invited. */
    method BrowserFoundPeer(p: PeerId)
      requires Valid()
      modifies this`peers, this`activePeersByName, this`effects
      ensures Valid()
      ensures Snapshot() == FoundPeer(old(Snapshot()), p)
      ensures effects == old(effects) + (if session.Some? then [InvitePeer(p, session.value, InvitationTimeout)] else [])
    {
      FoundPeerSpec(Snapshot(), p);
      ListSighting(p);
      if session.Some? {
        effects := effects + [InvitePeer(p, session.value, InvitationTimeout)];
      }
    }

    /** The browser lost `p`. */
    method BrowserLostPeer(p: PeerId)
      requires Valid()
      modifies this`peers, this`connectedPeerNames, this`activePeersByName
      ensures Valid()
      ensures Snapshot() == LostPeer(old(Snapshot()), p)
    {
      LostPeerSpec(Snapshot(), p);
      peers := RemovePeer(peers, p);
      connectedPeerNames := connectedPeerNames - {p.name};
      if p.name in activePeersByName && activePeersByName[p.name] == p {
        activePeersByName := activePeersByName - {p.name};
      }
    }

    // ---- Session callbacks ----

    /** The session reports a new state for `p`. */
    method SessionDidChange(p: PeerId, state: SessionState)
      requires Valid()
      modifies this`connectedPeerNames, this`activePeersByName
      ensures Valid()
      ensures Snapshot() == StateChanged(old(Snapshot()), p, state)
    {
      match state {
        case Connected =>
          connectedPeerNames := connectedPeerNames + {p.name};
          activePeersByName := activePeersByName[p.name := p];
        case NotConnected =>
          connectedPeerNames := connectedPeerNames - {p.name};
        case Connecting =>
      }
    }

    /** Adds `m` at the end of the history filed under `peer`'s name. */
    method AppendMessage(m: Message, peer: PeerId)
      requires Valid()
      modifies this`receivedMessages
      ensures Valid()
      ensures Snapshot() == Appended(old(Snapshot()), peer.name, m)
    {
      var previous := if peer.name in receivedMessages then receivedMessages[peer.name] else [];
      receivedMessages := receivedMessages[peer.name := previous + [m]];
    }

    /**
     * Data arrived from `from`: text that decodes is appended to the
     * sender's history under the sender's name; anything else is dropped.
     */
    method SessionDidReceive(data: seq<byte>, from: PeerId)
      requires Valid()
      modifies this`receivedMessages
      ensures Valid()
      ensures Utf8.Decode(data).Some? ==>
        Snapshot() == Appended(old(Snapshot()), from.name, Message(Utf8.Decode(data).value, from.name))
      ensures Utf8.Decode(data).None? ==> Snapshot() == old(Snapshot())
    {
      match Utf8.Decode(data) {
        case Some(text) =>
          AppendMessage(Message(text, from.name), from);
        case None =>
      }
    }

    // ---- Sending ----

    /**
     * Sends `text` to `peer` over the current session. `delivered` is the
     * transport's answer: false when its send call throws. The message is
     * echoed into the local history, authored by the local name, only when
     * the call went through.
     */
    method SendTo(text: string, peer: PeerId, delivered: bool)
      requires Valid()
      modifies this`receivedMessages, this`effects
      ensures Valid()
      ensures session.None? ==> Snapshot() == old(Snapshot()) && effects == old(effects)
      ensures session.Some? ==> effects == old(effects) + [SendData(peer, session.value, Utf8.Encode(text))]
      ensures session.Some? && delivered ==>
        Snapshot() == Appended(old(Snapshot()), peer.name, Message(text, displayName))
      ensures !delivered ==> Snapshot() == old(Snapshot())
    {
      if session.None? {
        return;
      }
      var data := Utf8.Encode(text);
      effects := effects + [SendData(peer, session.value, data)];
      if delivered {
        AppendMessage(Message(text, displayName), peer);
      }
    }

    /**
     * Sends `text` to whoever currently answers to `name`. Without an active
     * identifier for the name nothing is sent and nothing changes.
     */
    method Send(text: string, name: string, delivered: bool)
      requires Valid()
      modifies this`receivedMessages, this`effects
      ensures Valid()
      ensures name !in old(activePeersByName) ==> Snapshot() == old(Snapshot()) && effects == old(effects)
      ensures name in old(activePeersByName) && session.Some? ==>
        effects == old(effects) + [SendData(activePeersByName[name], session.value, Utf8.Encode(text))]
      ensures name in old(activePeersByName) && session.Some? && delivered ==>
        Snapshot() == Appended(old(Snapshot()), name, Message(text, displayName))
      ensures session.None? || !delivered ==> Snapshot() == old(Snapshot())
      ensures session.None? ==> effects == old(effects)
    {
      if name in activePeersByName {
        SendTo(text, activePeersByName[name], delivered);
      }
    }

    /** The conversation list: one per active name, in ascending name order. */
    function LocalConversations(): (cs: seq<Conversation>)
      reads this
      ensures |cs| == |activePeersByName.Keys|
      ensures forall n :: n in activePeersByName <==> exists i :: 0 <= i < |cs| && cs[i].name == n
      ensures forall i :: 0 <= i < |cs| ==>
        cs[i].messages == (if cs[i].name in receivedMessages then receivedMessages[cs[i].name] else [])
      ensures forall i, j :: 0 <= i < j < |cs| ==> StringOrder.Less(cs[i].name, cs[j].name)
    {
      Conversations(Snapshot())
    }
  }
}
