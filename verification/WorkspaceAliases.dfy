/** The two coordinates a workspace goes by, agent id and host id
    (apps/minds/electron/main.js:325-341). */
module WorkspaceAliases {

  type Id = string

  /** The relayed pairs, looked up either way. */
  datatype Aliases = Aliases(hostOf: map<Id, Id>, agentOf: map<Id, Id>)
  {
    /** The maps mirror each other, and no id is both an agent's and a host's. */
    predicate IsPairing()
    {
      && (forall a <- hostOf :: hostOf[a] in agentOf && agentOf[hostOf[a]] == a && a !in agentOf)
      && (forall h <- agentOf :: agentOf[h] in hostOf && hostOf[agentOf[h]] == h && h !in hostOf)
    }

    predicate Same(a: Id, b: Id)
    {
      a == b || (a in hostOf && hostOf[a] == b) || (a in agentOf && agentOf[a] == b)
    }

    function Host(id: Id): Id
    {
      if id in hostOf then hostOf[id] else id
    }
  }

  /** Two ids name one workspace exactly when they have the same host id; so
      naming the same workspace is an equivalence. */
  lemma SameIsEqualHosts(al: Aliases, a: Id, b: Id)
    requires al.IsPairing()
    ensures al.Same(a, b) <==> al.Host(a) == al.Host(b)
    ensures al.Host(al.Host(a)) == al.Host(a)
  {
    if a in al.hostOf { assert al.hostOf[a] in al.agentOf; }
    if b in al.hostOf { assert al.hostOf[b] in al.agentOf; }
  }

  /** The maps once a pair has been relayed. */
  function Relayed(al: Aliases, agent: Id, host: Id): Aliases
  {
    Aliases(al.hostOf[agent := host], al.agentOf[host := agent])
  }

  /** Relaying a pair keeps the two maps mirrored exactly when it is one already
      known, or two different ids neither of which was seen before. */
  lemma NewPairKeepsPairing(al: Aliases, agent: Id, host: Id)
    requires al.IsPairing()
    ensures Relayed(al, agent, host).IsPairing() <==>
      || (agent in al.hostOf && al.hostOf[agent] == host)
      || (agent != host && agent !in al.hostOf && agent !in al.agentOf && host !in al.hostOf && host !in al.agentOf)
    ensures agent in al.hostOf && al.hostOf[agent] == host ==> Relayed(al, agent, host) == al
  {
    var t := Relayed(al, agent, host);
    assert agent in t.hostOf && host in t.agentOf;
    if agent in al.hostOf && al.hostOf[agent] != host {
      var former := al.hostOf[agent];
      assert former in t.agentOf && t.agentOf[former] == agent;
    }
    if host in al.agentOf && al.agentOf[host] != agent {
      var former := al.agentOf[host];
      assert former in t.hostOf && t.hostOf[former] == host;
    }
    if agent in al.hostOf && al.hostOf[agent] == host {
      assert host in al.agentOf && al.agentOf[host] == agent;
      assert t.hostOf == al.hostOf && t.agentOf == al.agentOf;
    }
  }

  /** From then on the two ids name one workspace, by the host's id; and ids of
      other workspaces name what they named. */
  lemma RelayedIsSame(al: Aliases, agent: Id, host: Id, other: Id)
    requires al.IsPairing() && Relayed(al, agent, host).IsPairing()
    ensures var t := Relayed(al, agent, host);
      && t.Same(agent, host) && t.Same(host, agent) && t.Host(agent) == host && t.Host(host) == host
      && (other != agent && other != host ==> t.Host(other) == al.Host(other))
  {
    assert host in Relayed(al, agent, host).agentOf;
  }
}
