/**
 * The peer registry as a value: the visible peers, the connected names, the
 * newest identifier per name and the per-name message history, with one
 * function per event that changes it. The chat service's handlers are
 * proved to update their fields exactly as these functions say.
 */
module PeerRegistry {
  import opened Types
  import StringOrder

  datatype Registry = Registry(
    peers: seq<PeerId>,                    // visible peers, in discovery order
    connectedNames: set<string>,           // names with an established session
    activeByName: map<string, PeerId>,     // newest identifier seen or connected per name
    history: map<string, seq<Message>>)    // messages per conversation partner

  // ---- Sequence helpers (the `removeAll(where:)` calls of the handlers) ----

  /** `s` without the entries that carry `p`'s name under another identifier. */
  function RemoveStale(s: seq<PeerId>, p: PeerId): (r: seq<PeerId>)
    ensures forall q :: q in r <==> q in s && (q.name != p.name || q == p)
  {
    if s == [] then []
    else if s[0].name == p.name && s[0] != p then RemoveStale(s[1..], p)
    else [s[0]] + RemoveStale(s[1..], p)
  }

  /** `s` without the entries equal to `p`. */
  function RemovePeer(s: seq<PeerId>, p: PeerId): (r: seq<PeerId>)
    ensures forall q :: q in r <==> q in s && q != p
  {
    if s == [] then []
    else if s[0] == p then RemovePeer(s[1..], p)
    else [s[0]] + RemovePeer(s[1..], p)
  }

  /** The entries of `s` that carry another name than `name`, in their order. */
  function OtherNames(s: seq<PeerId>, name: string): (r: seq<PeerId>)
    ensures forall q :: q in r <==> q in s && q.name != name
  {
    if s == [] then []
    else if s[0].name == name then OtherNames(s[1..], name)
    else [s[0]] + OtherNames(s[1..], name)
  }

  predicate DistinctNames(s: seq<PeerId>)
  {
    forall i, j :: 0 <= i < j < |s| ==> s[i].name != s[j].name
  }

  /** `p` is in `s` at exactly one position. */
  predicate OccursOnce(s: seq<PeerId>, p: PeerId)
  {
    p in s && forall i, j :: 0 <= i < |s| && 0 <= j < |s| && s[i] == p && s[j] == p ==> i == j
  }

  function HistoryOf(r: Registry, name: string): seq<Message>
  {
    if name in r.history then r.history[name] else []
  }

  function ActiveFor(r: Registry, name: string): Option<PeerId>
  {
    if name in r.activeByName then Some(r.activeByName[name]) else None
  }

  /**
   * What every handler keeps true: no two visible peers share a name, and
   * the mapping files each identifier under its own name.
   */
  predicate Consistent(r: Registry)
  {
    && DistinctNames(r.peers)
    && forall n :: n in r.activeByName ==> r.activeByName[n].name == n
  }

  // ---- The handlers ----

  /** Browser found `p`: drop older identifiers of its name, list it once, make it the active one. */
  function FoundPeer(r: Registry, p: PeerId): (r': Registry)
    ensures p in r'.peers && ActiveFor(r', p.name) == Some(p)
    ensures forall q :: q in r'.peers ==> q in r.peers || q == p
  {
    r.(peers := Sighted(r.peers, p), activeByName := r.activeByName[p.name := p])
  }

  /** The visible list after sighting `p`: older identifiers of its name go, `p` is appended unless listed. */
  function Sighted(s: seq<PeerId>, p: PeerId): (t: seq<PeerId>)
    ensures forall q :: q in t <==> q == p || (q in s && q.name != p.name)
  {
    var kept := RemoveStale(s, p);
    if p in kept then kept else kept + [p]
  }

  /** Browser lost `p`: unlist it, forget its name as connected, clear the mapping only if it still holds `p`. */
  function LostPeer(r: Registry, p: PeerId): (r': Registry)
    ensures p !in r'.peers && p.name !in r'.connectedNames
    ensures ActiveFor(r', p.name) != Some(p)
  {
    r.(peers := RemovePeer(r.peers, p),
       connectedNames := r.connectedNames - {p.name},
       activeByName := if p.name in r.activeByName && r.activeByName[p.name] == p
                       then r.activeByName - {p.name} else r.activeByName)
  }

  /** The session reports a new state for `p`. */
  function StateChanged(r: Registry, p: PeerId, state: SessionState): (r': Registry)
    ensures r'.peers == r.peers && r'.history == r.history
    ensures p.name in r'.connectedNames <==> state == Connected || (state == Connecting && p.name in r.connectedNames)
  {
    match state
    case Connected => r.(connectedNames := r.connectedNames + {p.name},
                         activeByName := r.activeByName[p.name := p])
    case NotConnected => r.(connectedNames := r.connectedNames - {p.name})
    case Connecting => r
  }

  /** One message added at the end of the history filed under `name`. */
  function Appended(r: Registry, name: string, m: Message): (r': Registry)
    ensures HistoryOf(r', name) == HistoryOf(r, name) + [m]
    ensures forall n :: n != name ==> HistoryOf(r', n) == HistoryOf(r, n)
  {
    r.(history := r.history[name := HistoryOf(r, name) + [m]])
  }

  /** A networking restart: everything but the history is emptied. */
  function Reset(r: Registry): (r': Registry)
    ensures forall n :: ActiveFor(r', n) == None && HistoryOf(r', n) == HistoryOf(r, n)
    ensures r'.peers == [] && r'.connectedNames == {}
  {
    Registry([], {}, map[], r.history)
  }

  /**
   * The derived conversation list: one conversation per name that has an
   * active identifier, in ascending name order, each carrying that name's
   * history (empty when there is none).
   */
  function Conversations(r: Registry): (cs: seq<Conversation>)
    ensures |cs| == |r.activeByName.Keys|
    ensures forall i :: 0 <= i < |cs| ==> cs[i].name in r.activeByName && cs[i].messages == HistoryOf(r, cs[i].name)
    ensures forall n :: n in r.activeByName ==> exists i :: 0 <= i < |cs| && cs[i].name == n
    ensures forall i, j :: 0 <= i < j < |cs| ==> StringOrder.Less(cs[i].name, cs[j].name)
  {
    var names := StringOrder.Sorted(r.activeByName.Keys);
    var cs := seq(|names|, i requires 0 <= i < |names| => Conversation(names[i], HistoryOf(r, names[i])));
    assert forall i :: 0 <= i < |cs| ==> cs[i].name == names[i];
    cs
  }

  // ---- Sequence lemmas ----

  lemma {:induction false} OtherNamesAppend(a: seq<PeerId>, b: seq<PeerId>, name: string)
    ensures OtherNames(a + b, name) == OtherNames(a, name) + OtherNames(b, name)
  {
    if a != [] {
      assert (a + b)[0] == a[0] && (a + b)[1..] == a[1..] + b;
      OtherNamesAppend(a[1..], b, name);
    } else {
      assert a + b == b;
    }
  }

  /** Dropping stale entries of `p`'s name leaves the other names' entries as they were. */
  lemma {:induction false} RemoveStaleKeepsOtherNames(s: seq<PeerId>, p: PeerId)
    ensures OtherNames(RemoveStale(s, p), p.name) == OtherNames(s, p.name)
  {
    if s != [] {
      RemoveStaleKeepsOtherNames(s[1..], p);
    }
  }

  /** Dropping `p` leaves the other names' entries as they were. */
  lemma {:induction false} RemovePeerKeepsOtherNames(s: seq<PeerId>, p: PeerId)
    ensures OtherNames(RemovePeer(s, p), p.name) == OtherNames(s, p.name)
  {
    if s != [] {
      RemovePeerKeepsOtherNames(s[1..], p);
    }
  }

  /** `RemovePeer` never lengthens the list, and changes nothing when `p` is not listed. */
  lemma {:induction false} RemovePeerShrinks(s: seq<PeerId>, p: PeerId)
    ensures |RemovePeer(s, p)| <= |s|
    ensures p !in s ==> RemovePeer(s, p) == s
  {
    if s != [] {
      RemovePeerShrinks(s[1..], p);
      assert s == [s[0]] + s[1..];
    }
  }

  lemma {:induction false} RemoveStaleKeepsDistinct(s: seq<PeerId>, p: PeerId)
    requires DistinctNames(s)
    ensures DistinctNames(RemoveStale(s, p))
  {
    if s != [] {
      RemoveStaleKeepsDistinct(s[1..], p);
      var tail := RemoveStale(s[1..], p);
      forall k | 0 <= k < |tail|
        ensures tail[k].name != s[0].name
      {
        assert tail[k] in tail;
        var j :| 0 <= j < |s[1..]| && s[1..][j] == tail[k];
        assert s[j + 1] == tail[k];
      }
    }
  }

  lemma {:induction false} RemovePeerKeepsDistinct(s: seq<PeerId>, p: PeerId)
    requires DistinctNames(s)
    ensures DistinctNames(RemovePeer(s, p))
  {
    if s != [] {
      RemovePeerKeepsDistinct(s[1..], p);
      var tail := RemovePeer(s[1..], p);
      forall k | 0 <= k < |tail|
        ensures tail[k].name != s[0].name
      {
        assert tail[k] in tail;
        var j :| 0 <= j < |s[1..]| && s[1..][j] == tail[k];
        assert s[j + 1] == tail[k];
      }
    }
  }

  lemma DistinctNamesOccursOnce(s: seq<PeerId>, p: PeerId)
    requires DistinctNames(s) && p in s
    ensures OccursOnce(s, p)
  {
  }

  // ---- Handler lemmas ----

  /**
   * After a found-peer event the new identifier is listed exactly once, no
   * other identifier of that name is left, the other names' entries keep
   * their order, and the name maps to the new identifier.
   */
  lemma FoundPeerSpec(r: Registry, p: PeerId)
    requires Consistent(r)
    ensures var r' := FoundPeer(r, p);
      && OccursOnce(r'.peers, p)
      && (forall q :: q in r'.peers && q.name == p.name ==> q == p)
      && OtherNames(r'.peers, p.name) == OtherNames(r.peers, p.name)
      && ActiveFor(r', p.name) == Some(p)
      && (forall n :: n != p.name ==> ActiveFor(r', n) == ActiveFor(r, n))
      && r'.connectedNames == r.connectedNames && r'.history == r.history
      && Consistent(r')
  {
    SightedSpec(r.peers, p);
  }

  /** The list part of a sighting, on its own. */
  lemma SightedSpec(s: seq<PeerId>, p: PeerId)
    requires DistinctNames(s)
    ensures var t := Sighted(s, p);
      && OccursOnce(t, p)
      && (forall q :: q in t && q.name == p.name ==> q == p)
      && OtherNames(t, p.name) == OtherNames(s, p.name)
      && DistinctNames(t)
  {
    var kept := RemoveStale(s, p);
    RemoveStaleKeepsDistinct(s, p);
    RemoveStaleKeepsOtherNames(s, p);
    if p !in kept {
      OtherNamesAppend(kept, [p], p.name);
      assert OtherNames([p], p.name) == [];
      forall i | 0 <= i < |kept|
        ensures kept[i].name != p.name
      {
        assert kept[i] in kept;
      }
    }
    DistinctNamesOccursOnce(Sighted(s, p), p);
  }


  /**
   * After a lost-peer event the identifier is unlisted and its name is not
   * connected; the mapping for the name is cleared exactly when it held the
   * lost identifier, so a fresher identifier survives.
   */
  lemma LostPeerSpec(r: Registry, p: PeerId)
    ensures var r' := LostPeer(r, p);
      && p !in r'.peers
      && (forall q :: q in r'.peers <==> q in r.peers && q != p)
      && OtherNames(r'.peers, p.name) == OtherNames(r.peers, p.name)
      && p.name !in r'.connectedNames
      && (forall n :: n != p.name ==> (n in r'.connectedNames <==> n in r.connectedNames))
      && (ActiveFor(r, p.name) == Some(p) ==> ActiveFor(r', p.name) == None)
      && (ActiveFor(r, p.name) != Some(p) ==> ActiveFor(r', p.name) == ActiveFor(r, p.name))
      && (forall n :: n != p.name ==> ActiveFor(r', n) == ActiveFor(r, n))
      && r'.history == r.history
      && (Consistent(r) ==> Consistent(r'))
  {
    RemovePeerKeepsOtherNames(r.peers, p);
    if Consistent(r) {
      RemovePeerKeepsDistinct(r.peers, p);
    }
  }

  /**
   * Entering `connected` marks the name connected and makes this identifier
   * the active one; entering `notConnected` unmarks the name and leaves the
   * mapping alone; `connecting` changes nothing.
   */
  lemma StateChangedSpec(r: Registry, p: PeerId, state: SessionState)
    ensures var r' := StateChanged(r, p, state);
      && r'.peers == r.peers && r'.history == r.history
      && (state == Connected ==> p.name in r'.connectedNames && ActiveFor(r', p.name) == Some(p))
      && (state == NotConnected ==> p.name !in r'.connectedNames && r'.activeByName == r.activeByName)
      && (state == Connecting ==> r' == r)
      && (forall n :: n != p.name ==> (n in r'.connectedNames <==> n in r.connectedNames))
      && (forall n :: n != p.name ==> ActiveFor(r', n) == ActiveFor(r, n))
      && (Consistent(r) ==> Consistent(r'))
  {
  }

  /** Appending adds exactly one message at the end of one history and touches nothing else. */
  lemma AppendedSpec(r: Registry, name: string, m: Message)
    ensures var r' := Appended(r, name, m);
      && HistoryOf(r', name) == HistoryOf(r, name) + [m]
      && (forall n :: n != name ==> HistoryOf(r', n) == HistoryOf(r, n))
      && r'.peers == r.peers && r'.connectedNames == r.connectedNames
      && r'.activeByName == r.activeByName
  {
  }

  /** A restart keeps every history and empties everything else. */
  lemma ResetSpec(r: Registry)
    ensures var r' := Reset(r);
      && r'.peers == [] && r'.connectedNames == {}
      && (forall n :: ActiveFor(r', n) == None)
      && (forall n :: HistoryOf(r', n) == HistoryOf(r, n))
      && Consistent(r')
  {
  }

  // ---- Event traces ----

  /** The events the owner applies to the registry, one at a time, in arrival order. */
  datatype Event =
    | Found(peer: PeerId)
    | Lost(peer: PeerId)
    | Changed(peer: PeerId, state: SessionState)
    | Delivered(name: string, message: Message)
    | Restarted

  function Step(r: Registry, e: Event): Registry
  {
    match e
    case Found(p) => FoundPeer(r, p)
    case Lost(p) => LostPeer(r, p)
    case Changed(p, st) => StateChanged(r, p, st)
    case Delivered(n, m) => Appended(r, n, m)
    case Restarted => Reset(r)
  }

  /** The registry after applying `es` in order, starting from `r`. */
  function Run(r: Registry, es: seq<Event>): Registry
  {
    if es == [] then r else Step(Run(r, es[..|es| - 1]), es[|es| - 1])
  }

  /** `e` is a sighting of an identifier for `name`: a discovery or a connection. */
  predicate IsSighting(e: Event, name: string)
  {
    (e.Found? && e.peer.name == name) || (e.Changed? && e.state == Connected && e.peer.name == name)
  }

  /** The position of the last sighting for `name` or restart in `es`, if any. */
  function LastAnchor(es: seq<Event>, name: string): (i: Option<nat>)
    ensures i.Some? ==> i.value < |es| && (IsSighting(es[i.value], name) || es[i.value].Restarted?)
  {
    if es == [] then None
    else if IsSighting(es[|es| - 1], name) || es[|es| - 1].Restarted? then Some(|es| - 1)
    else LastAnchor(es[..|es| - 1], name)
  }

  /**
   * The identifier the mapping should hold for `name` after `es`, stated
   * over the whole trace: the identifier of the most recent sighting, unless
   * a restart came later or that very identifier was lost later.
   */
  function ExpectedActive(es: seq<Event>, name: string): Option<PeerId>
  {
    match LastAnchor(es, name)
    case None => None
    case Some(i) =>
      if es[i].Restarted? || Lost(es[i].peer) in es[i + 1..] then None
      else Some(es[i].peer)
  }

  /**
   * Last writer wins: for every interleaving of discoveries, connections,
   * disconnections, losses, messages and restarts, the mapping for a name
   * is the one the trace-level rule prescribes.
   */
  lemma {:induction false} ActiveFollowsLatestSighting(r: Registry, es: seq<Event>, name: string)
    requires name !in r.activeByName
    ensures ActiveFor(Run(r, es), name) == ExpectedActive(es, name)
  {
    if es != [] {
      var n := |es| - 1;
      var prefix, e := es[..n], es[n];
      assert es == prefix + [e];
      ActiveFollowsLatestSighting(r, prefix, name);
      ActiveAfterStep(Run(r, prefix), e, name);
      ExpectedAfterStep(prefix, e, name);
    }
  }

  /** What one event does to the mapping for `name`. */
  lemma ActiveAfterStep(r: Registry, e: Event, name: string)
    ensures ActiveFor(Step(r, e), name) ==
      if IsSighting(e, name) then Some(e.peer)
      else if e.Restarted? || (e.Lost? && e.peer.name == name && ActiveFor(r, name) == Some(e.peer)) then None
      else ActiveFor(r, name)
  {
  }

  /** What one more event does to the trace-level prescription for `name`. */
  lemma ExpectedAfterStep(prefix: seq<Event>, e: Event, name: string)
    ensures ExpectedActive(prefix + [e], name) ==
      if IsSighting(e, name) then Some(e.peer)
      else if e.Restarted? || (e.Lost? && e.peer.name == name && ExpectedActive(prefix, name) == Some(e.peer)) then None
      else ExpectedActive(prefix, name)
  {
    var es := prefix + [e];
    assert es[..|es| - 1] == prefix;
    if !(IsSighting(e, name) || e.Restarted?) {
      match LastAnchor(prefix, name)
      case None =>
      case Some(i) =>
        assert es[i + 1..] == prefix[i + 1..] + [e];
    }
  }


  /** Histories are append-only: whatever happens, each old history is a prefix of the new one. */
  lemma {:induction false} HistoryOnlyGrows(r: Registry, es: seq<Event>, name: string)
    ensures HistoryOf(r, name) <= HistoryOf(Run(r, es), name)
  {
    if es != [] {
      HistoryOnlyGrows(r, es[..|es| - 1], name);
    }
  }

  /** Every handler keeps the registry consistent, so every reachable registry is. */
  lemma {:induction false} RunKeepsConsistent(r: Registry, es: seq<Event>)
    requires Consistent(r)
    ensures Consistent(Run(r, es))
  {
    if es != [] {
      var prev := Run(r, es[..|es| - 1]);
      RunKeepsConsistent(r, es[..|es| - 1]);
      match es[|es| - 1]
      case Found(p) => FoundPeerSpec(prev, p);
      case Lost(p) => LostPeerSpec(prev, p);
      case Changed(p, st) =>
      case Delivered(_, _) =>
      case Restarted =>
    }
  }

  /**
   * A loss report for a superseded identifier keeps the fresher mapping but
   * still forgets the name as connected, though the fresher peer is.
   */
  lemma LateLossOfSupersededPeer(r: Registry, x: PeerId, y: PeerId)
    requires x.name == y.name && x != y
    ensures var after := LostPeer(StateChanged(FoundPeer(r, y), y, Connected), x);
      && ActiveFor(after, y.name) == Some(y)
      && y.name !in after.connectedNames
      && x !in after.peers && y in after.peers
  {
  }
}
