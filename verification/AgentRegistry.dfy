/** The per-worker registry of connected agents: one table by host, one by agent. */
module AgentRegistry {
  import opened Wrappers

  type HostId = string
  type AgentId = string

  /** A connected agent. The fields the registry looks at never change; `socket` is the
      identity of its WebSocket and so of the session itself. */
  datatype Session = Session(agentId: AgentId, hostId: HostId, socket: nat)

  datatype Tables = Tables(byHost: map<HostId, Session>, byAgent: map<AgentId, Session>)

  function Registered(t: Tables, s: Session): Tables {
    Tables(t.byHost[s.hostId := s], t.byAgent[s.agentId := s])
  }

  // As the code does it: the agent id decides whether the host's entry goes.
  function Removed(t: Tables, s: Session): Tables {
    var host := if s.hostId in t.byHost && t.byHost[s.hostId].agentId == s.agentId
                then t.byHost - {s.hostId} else t.byHost;
    Tables(host, t.byAgent - {s.agentId})
  }

  /** As the comment on removal has it: only while this very session is the active one. */
  function RemovedIfActive(t: Tables, s: Session): Tables {
    Tables(if s.hostId in t.byHost && t.byHost[s.hostId] == s then t.byHost - {s.hostId} else t.byHost,
           if s.agentId in t.byAgent && t.byAgent[s.agentId] == s then t.byAgent - {s.agentId} else t.byAgent)
  }

  predicate OnSocket(t: Tables, h: HostId, socket: nat) {
    h in t.byHost && t.byHost[h].socket == socket
  }

  class Registry {
    var byHost: map<HostId, Session>
    var byAgent: map<AgentId, Session>

    function View(): Tables
      reads this
    {
      Tables(byHost, byAgent)
    }

    constructor ()
      ensures View() == Tables(map[], map[])
    {
      byHost, byAgent := map[], map[];
    }

    method Register(s: Session) returns (previous: Option<Session>)
      modifies this
      ensures View() == Registered(old(View()), s)
      ensures byHost == old(byHost)[s.hostId := s] && byAgent == old(byAgent)[s.agentId := s]
      ensures previous == if s.hostId in old(byHost) then Some(old(byHost)[s.hostId]) else None
    {
      previous := if s.hostId in byHost then Some(byHost[s.hostId]) else None;
      byHost := byHost[s.hostId := s];
      byAgent := byAgent[s.agentId := s];
    }

    method Remove(s: Session)
      modifies this
      ensures View() == Removed(old(View()), s)
      ensures byHost == if s.hostId in old(byHost) && old(byHost)[s.hostId].agentId == s.agentId
                        then old(byHost) - {s.hostId} else old(byHost)
      ensures byAgent == old(byAgent) - {s.agentId}
    {
      if s.hostId in byHost && byHost[s.hostId].agentId == s.agentId {
        byHost := byHost - {s.hostId};
      }
      byAgent := byAgent - {s.agentId};
    }

    /** Cleanup by WebSocket: looks through the sessions and removes the one on the socket. */
    method RemoveForSocket(socket: nat)
      modifies this
      ensures (forall h :: !OnSocket(old(View()), h, socket)) ==> View() == old(View())
      ensures (exists h :: OnSocket(old(View()), h, socket)) ==>
                exists h :: OnSocket(old(View()), h, socket) && View() == Removed(old(View()), old(byHost)[h])
    {
      var hosts := byHost.Keys;
      while hosts != {}
        invariant hosts <= byHost.Keys && View() == old(View())
        invariant forall h :: OnSocket(View(), h, socket) ==> h in hosts
        decreases hosts
      {
        var h :| h in hosts;
        if byHost[h].socket == socket {
          assert OnSocket(old(View()), h, socket);
          Remove(byHost[h]);
          return;
        }
        hosts := hosts - {h};
      }
    }
  }

  // ---- Runs of connects, disconnects and cleanups ----

  datatype Event = Connect(s: Session) | Disconnect(s: Session) | Cleanup(socket: nat)

  ghost function Cleaned(t: Tables, socket: nat): Tables {
    if exists h :: OnSocket(t, h, socket) then
      var h :| OnSocket(t, h, socket);
      Removed(t, t.byHost[h])
    else t
  }

  ghost function Run(events: seq<Event>): Tables {
    if events == [] then Tables(map[], map[])
    else
      var t := Run(events[..|events| - 1]);
      match events[|events| - 1]
      case Connect(s) => Registered(t, s)
      case Disconnect(s) => Removed(t, s)
      case Cleanup(socket) => Cleaned(t, socket)
  }

  ghost predicate Injective(agentOf: HostId -> AgentId) {
    forall g, h :: agentOf(g) == agentOf(h) ==> g == h
  }

  /** One agent per host, and one session per socket. */
  ghost predicate Paired(events: seq<Event>, agentOf: HostId -> AgentId) {
    && Injective(agentOf)
    && (forall i :: 0 <= i < |events| && !events[i].Cleanup? ==> events[i].s.agentId == agentOf(events[i].s.hostId))
    && (forall i, j :: 0 <= i < |events| && 0 <= j < |events| && events[i].Connect? && events[j].Connect?
          ==> events[i].s.socket == events[j].s.socket ==> events[i].s == events[j].s)
  }

  // Every host's session is filed under its agent too.
  ghost predicate HostsMirrored(t: Tables, agentOf: HostId -> AgentId) {
    forall h :: h in t.byHost ==>
      && t.byHost[h].hostId == h && t.byHost[h].agentId == agentOf(h)
      && agentOf(h) in t.byAgent && t.byAgent[agentOf(h)] == t.byHost[h]
  }

  // Every agent's session is filed under its host too.
  ghost predicate AgentsMirrored(t: Tables) {
    forall a :: a in t.byAgent ==>
      t.byAgent[a].agentId == a && t.byAgent[a].hostId in t.byHost && t.byHost[t.byAgent[a].hostId] == t.byAgent[a]
  }

  /** Both tables hold the same sessions, each under its own host and agent. */
  ghost predicate Lockstep(t: Tables, agentOf: HostId -> AgentId) {
    HostsMirrored(t, agentOf) && AgentsMirrored(t)
  }

  // A host's session comes from a connect in the run, so sockets identify hosts.
  ghost predicate FromRun(t: Tables, events: seq<Event>) {
    forall h :: h in t.byHost ==> exists i :: 0 <= i < |events| && events[i] == Connect(t.byHost[h])
  }

  // In lockstep the host's entry always goes: its agent is the session's.
  lemma RemovedEntry(t: Tables, s: Session, agentOf: HostId -> AgentId)
    requires HostsMirrored(t, agentOf) && s.agentId == agentOf(s.hostId)
    ensures Removed(t, s) == Tables(t.byHost - {s.hostId}, t.byAgent - {s.agentId})
  {
    if s.hostId !in t.byHost {
      assert t.byHost - {s.hostId} == t.byHost;
    }
  }

  lemma RemovedKeepsLockstep(t: Tables, s: Session, agentOf: HostId -> AgentId)
    requires Lockstep(t, agentOf) && Injective(agentOf) && s.agentId == agentOf(s.hostId)
    ensures Lockstep(Removed(t, s), agentOf)
    ensures Removed(t, s).byHost == t.byHost - {s.hostId}
  {
    RemovedEntry(t, s, agentOf);
    var u := Tables(t.byHost - {s.hostId}, t.byAgent - {s.agentId});
    forall h | h in u.byHost
      ensures u.byHost[h] == t.byHost[h] && agentOf(h) in u.byAgent && u.byAgent[agentOf(h)] == t.byAgent[agentOf(h)]
    {
      assert agentOf(h) != s.agentId;
    }
    forall a | a in u.byAgent
      ensures u.byAgent[a] == t.byAgent[a] && t.byAgent[a].hostId in u.byHost
    {
      assert t.byHost[t.byAgent[a].hostId].agentId == a;
    }
  }

  lemma RegisteredKeepsLockstep(t: Tables, s: Session, agentOf: HostId -> AgentId)
    requires Lockstep(t, agentOf) && Injective(agentOf) && s.agentId == agentOf(s.hostId)
    ensures Lockstep(Registered(t, s), agentOf)
  {
  }

  lemma PrefixFacts(events: seq<Event>, agentOf: HostId -> AgentId, t: Tables)
    requires events != [] && Paired(events, agentOf)
    ensures Paired(events[..|events| - 1], agentOf)
    ensures FromRun(t, events[..|events| - 1]) ==> FromRun(t, events)
  {
    var before := events[..|events| - 1];
    assert forall i :: 0 <= i < |before| ==> before[i] == events[i];
    if FromRun(t, before) {
      forall h | h in t.byHost ensures exists i :: 0 <= i < |events| && events[i] == Connect(t.byHost[h]) {
        var i :| 0 <= i < |before| && before[i] == Connect(t.byHost[h]);
        assert events[i] == Connect(t.byHost[h]);
      }
    }
  }

  /** In every paired run the two tables stay in lockstep. */
  lemma {:induction false} RunKeepsLockstep(events: seq<Event>, agentOf: HostId -> AgentId)
    requires Paired(events, agentOf)
    ensures Lockstep(Run(events), agentOf) && FromRun(Run(events), events)
  {
    if events != [] {
      var before, e := events[..|events| - 1], events[|events| - 1];
      var t := Run(before);
      PrefixFacts(events, agentOf, t);
      RunKeepsLockstep(before, agentOf);
      match e {
        case Connect(s) => RegisteredKeepsLockstep(t, s, agentOf);
        case Disconnect(s) => RemovedKeepsLockstep(t, s, agentOf);
        case Cleanup(socket) =>
          if h :| OnSocket(t, h, socket) {
            forall g | OnSocket(t, g, socket) ensures Lockstep(Removed(t, t.byHost[g]), agentOf) {
              RemovedKeepsLockstep(t, t.byHost[g], agentOf);
            }
          }
      }
    }
  }

  /** The session a host has after a run, read off the run alone: the last connect of the host
      counts until any session of that host disconnects or its own socket is cleaned up. */
  function ActiveSession(events: seq<Event>, h: HostId): Option<Session> {
    if events == [] then None
    else
      var before := ActiveSession(events[..|events| - 1], h);
      match events[|events| - 1]
      case Connect(s) => if s.hostId == h then Some(s) else before
      case Disconnect(s) => if s.hostId == h then None else before
      case Cleanup(socket) => if before.Some? && before.value.socket == socket then None else before
  }

  lemma SocketsIdentifyHosts(events: seq<Event>, agentOf: HostId -> AgentId, g: HostId, h: HostId, socket: nat)
    requires Paired(events, agentOf) && FromRun(Run(events), events) && Lockstep(Run(events), agentOf)
    requires OnSocket(Run(events), g, socket) && OnSocket(Run(events), h, socket)
    ensures g == h
  {
    var t := Run(events);
    var i :| 0 <= i < |events| && events[i] == Connect(t.byHost[g]);
    var j :| 0 <= j < |events| && events[j] == Connect(t.byHost[h]);
  }

  function Entry(t: Tables, h: HostId): Option<Session> {
    if h in t.byHost then Some(t.byHost[h]) else None
  }

  lemma CleanupEntry(events: seq<Event>, agentOf: HostId -> AgentId, h: HostId, socket: nat)
    requires Paired(events, agentOf)
    ensures var t := Run(events);
            Entry(Cleaned(t, socket), h) == if OnSocket(t, h, socket) then None else Entry(t, h)
  {
    RunKeepsLockstep(events, agentOf);
    var t := Run(events);
    if exists g :: OnSocket(t, g, socket) {
      forall g | OnSocket(t, g, socket)
        ensures Removed(t, t.byHost[g]).byHost == t.byHost - {g} && (OnSocket(t, h, socket) ==> g == h)
      {
        RemovedKeepsLockstep(t, t.byHost[g], agentOf);
        if OnSocket(t, h, socket) {
          SocketsIdentifyHosts(events, agentOf, g, h, socket);
        }
      }
    }
  }

  lemma DisconnectEntry(events: seq<Event>, agentOf: HostId -> AgentId, h: HostId, s: Session)
    requires Paired(events, agentOf) && s.agentId == agentOf(s.hostId)
    ensures Entry(Removed(Run(events), s), h) == if s.hostId == h then None else Entry(Run(events), h)
  {
    RunKeepsLockstep(events, agentOf);
    RemovedKeepsLockstep(Run(events), s, agentOf);
  }

  /** In every paired run each host's entry is what its own events say: hosts do not
      interfere, and a disconnect of any session of the host, current or not, ends it. */
  lemma {:induction false} RegistryMatchesRun(events: seq<Event>, agentOf: HostId -> AgentId, h: HostId)
    requires Paired(events, agentOf)
    ensures Entry(Run(events), h) == ActiveSession(events, h)
  {
    if events != [] {
      var before := events[..|events| - 1];
      PrefixFacts(events, agentOf, Run(before));
      RegistryMatchesRun(before, agentOf, h);
      match events[|events| - 1] {
        case Connect(s) =>
        case Disconnect(s) => DisconnectEntry(before, agentOf, h, s);
        case Cleanup(socket) => CleanupEntry(before, agentOf, h, socket);
      }
    }
  }

  // ---- Removal against its comment ----

  /** Removing a session does what the comment promises exactly when no other session has
      taken its host over; a superseded session takes its replacement down with it. */
  lemma RemovalMeetsCommentIff(t: Tables, s: Session, agentOf: HostId -> AgentId)
    requires Lockstep(t, agentOf) && Injective(agentOf) && s.agentId == agentOf(s.hostId)
    ensures Removed(t, s) == RemovedIfActive(t, s) <==> (s.hostId in t.byHost ==> t.byHost[s.hostId] == s)
    ensures s.hostId !in Removed(t, s).byHost && s.agentId !in Removed(t, s).byAgent
  {
    RemovedKeepsLockstep(t, s, agentOf);
    if s.hostId in t.byHost && t.byHost[s.hostId] != s {
      assert s.hostId in RemovedIfActive(t, s).byHost;
    }
    if s.hostId !in t.byHost {
      assert s.agentId !in t.byAgent;
      assert t.byHost - {s.hostId} == t.byHost && t.byAgent - {s.agentId} == t.byAgent;
    }
  }

  /** So after a reconnect, once the replaced session has closed, the host counts as
      disconnected although its new session is still open. */
  lemma ReconnectEndsDisconnected(events: seq<Event>, agentOf: HostId -> AgentId, earlier: Session, newer: Session)
    requires var all := events + [Connect(earlier), Connect(newer), Disconnect(earlier), Cleanup(earlier.socket)];
             Paired(all, agentOf) && earlier.hostId == newer.hostId && earlier != newer
    ensures var all := events + [Connect(earlier), Connect(newer), Disconnect(earlier), Cleanup(earlier.socket)];
            newer.hostId !in Run(all).byHost
    ensures var t := Run(events + [Connect(earlier), Connect(newer)]);
            newer.hostId in RemovedIfActive(t, earlier).byHost
  {
    var a1 := events + [Connect(earlier)];
    var a2 := a1 + [Connect(newer)];
    var a3 := a2 + [Disconnect(earlier)];
    var a4 := a3 + [Cleanup(earlier.socket)];
    assert a4[..|a4| - 1] == a3 && a3[..|a3| - 1] == a2 && a2[..|a2| - 1] == a1;
    assert a4 == events + [Connect(earlier), Connect(newer), Disconnect(earlier), Cleanup(earlier.socket)];
    assert a2 == events + [Connect(earlier), Connect(newer)];
    RegistryMatchesRun(a4, agentOf, newer.hostId);
    assert Run(a2).byHost[newer.hostId] == newer;
  }
}
