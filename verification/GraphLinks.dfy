/**
 Which session nodes the passes of module ProjectGraph add
 (packages/agent-stats/src/project-graph.ts), and what that makes of agent spans.
 */
module GraphLinks {
  import opened Common
  import opened ProjectGraph
  import opened GraphLaws
  import opened GraphTheorems
  import opened GraphEdges

  /** Some in-identity session was conducted by the agent that `e` leads to. */
  ghost predicate ConductedInput(inp: Input, e: Edge) {
    exists k | 0 <= k < |inp.sessions| :: InIdentity(inp, inp.sessions[k]) && Conducts(inp.sessions[k], e)
  }

  predicate Conducts(s: SessionInput, e: Edge) {
    Joins(e, SessionId(s), AgentNodeId(s.agentId), ConductedBy)
  }

  /** With hub edges on, the conducted-by edges are those of the in-identity
      sessions; with hub edges off there are none. */
  lemma ConductedEdgesIff(inp: Input, e: Edge)
    requires e.relation == ConductedBy
    ensures Linked(Build(inp).links, e) <==> inp.includeHubEdges && ConductedInput(inp, e)
  {
    hide Linked, Build, InIdentity;
    EdgesIff(inp, e);
  }

  // ----- agent spans in terms of the input -----

  lemma OtherNode(g: Graph, added: string, n: Node, id: string)
    requires KindOf(added) != KindOf(id)
    ensures id in AddNode(g, added, n).nodes <==> id in g.nodes
    ensures id in g.nodes ==> AddNode(g, added, n).nodes[id] == g.nodes[id]
  {
  }

  /** Neither graph knows `id`, or both have the same node for it. */
  ghost predicate SameNode(g: Graph, h: Graph, id: string) {
    (id in h.nodes <==> id in g.nodes) && (id in g.nodes ==> h.nodes[id] == g.nodes[id])
  }

  lemma {:induction false} BranchesAddOnlyBranches(inp: Input, g: Graph, s: SessionInput, branches: seq<string>,
                                                  id: string)
    requires KindOf(id) != Some(Branch)
    ensures SameNode(g, AddBranches(inp, g, s, branches), id)
  {
    hide KindOf;
    if branches != [] {
      var n := |branches| - 1;
      BranchesAddOnlyBranches(inp, g, s, branches[..n], id);
      IdsAnnounceKinds(Branch, inp.canonicalId + "__" + branches[n]);
      OtherNode(AddBranches(inp, g, s, branches[..n]), BranchId(inp, branches[n]),
                Plain(Branch, branches[n], LaneOf(inp, s)), id);
    }
  }

  lemma {:induction false} CommitsAddNoSessions(inp: Input, g: Graph, s: SessionInput, shas: seq<string>, id: string)
    requires KindOf(id) == Some(Session)
    ensures SameNode(g, AddCommits(inp, g, s, shas), id)
  {
    hide KindOf;
    if shas != [] {
      var n := |shas| - 1;
      CommitsAddNoSessions(inp, g, s, shas[..n], id);
      IdsAnnounceKinds(Commit, KnownSha(inp, shas[n]));
      OtherNode(AddCommits(inp, g, s, shas[..n]), NodeId(Commit, KnownSha(inp, shas[n])),
                SessionCommit(inp, s, shas[n]), id);
    }
  }

  lemma SessionAddsItsNode(inp: Input, g: Graph, s: SessionInput, id: string)
    requires KindOf(id) == Some(Session)
    ensures var h := SessionGraph(inp, g, s);
            && (id in h.nodes <==> id in g.nodes || id == SessionId(s))
            && (id in g.nodes ==> h.nodes[id] == g.nodes[id])
            && (id !in g.nodes && id == SessionId(s) ==> h.nodes[id].stamp == SessionStamp(s))
  {
    hide KindOf, AddBranches, AddCommits;
    IdsAnnounceKinds(Agent, s.agentId);
    var g1 := AddSessionNode(inp, g, s);
    OtherNode(g1, AgentNodeId(s.agentId), Plain(Agent, s.agentId, None), id);
    var g2 := AddAgentNode(inp, g1, s);
    BranchesAddOnlyBranches(inp, g2, s, s.branches, id);
    var g3 := if inp.includeBranches then AddBranches(inp, g2, s, s.branches) else g2;
    CommitsAddNoSessions(inp, g3, s, s.commitShas, id);
  }

  ghost predicate SeenSession(inp: Input, sessions: seq<SessionInput>, id: string) {
    exists k | 0 <= k < |sessions| :: InIdentity(inp, sessions[k]) && SessionId(sessions[k]) == id
  }

  /** The stamp of the first in-identity session whose node is `id`. */
  ghost function FirstStamp(inp: Input, sessions: seq<SessionInput>, id: string): Stamp {
    if sessions == [] then NO_STAMP
    else
      var rest, s := sessions[..|sessions| - 1], sessions[|sessions| - 1];
      if SeenSession(inp, rest, id) then FirstStamp(inp, rest, id)
      else if InIdentity(inp, s) && SessionId(s) == id then SessionStamp(s) else NO_STAMP
  }

  lemma {:induction false} SeenStep(inp: Input, sessions: seq<SessionInput>, id: string)
    requires sessions != []
    ensures var rest, s := sessions[..|sessions| - 1], sessions[|sessions| - 1];
            SeenSession(inp, sessions, id) <==>
              SeenSession(inp, rest, id) || (InIdentity(inp, s) && SessionId(s) == id)
  {
    hide InIdentity, SessionId;
    forall k | 0 <= k < |sessions| - 1
      ensures sessions[..|sessions| - 1][k] == sessions[k]
    {
    }
  }

  lemma {:induction false} SessionNodesAreFirst(inp: Input, g: Graph, sessions: seq<SessionInput>, id: string)
    requires KindOf(id) == Some(Session) && id !in g.nodes
    ensures var h := AddSessions(inp, g, sessions).g;
            && (id in h.nodes <==> SeenSession(inp, sessions, id))
            && (id in h.nodes ==> h.nodes[id].stamp == FirstStamp(inp, sessions, id))
  {
    hide KindOf, SessionGraph, InIdentity, SessionId, SessionStamp, SeenSession;
    if sessions != [] {
      var n := |sessions| - 1;
      SessionNodesAreFirst(inp, g, sessions[..n], id);
      SessionAddsItsNode(inp, AddSessions(inp, g, sessions[..n]).g, sessions[n], id);
      SeenStep(inp, sessions, id);
    } else {
      assert !SeenSession(inp, sessions, id) by {
        NothingSeen(inp, id);
      }
    }
  }

  lemma NothingSeen(inp: Input, id: string)
    ensures !SeenSession(inp, [], id)
  {
  }

  lemma {:induction false} BaseHasOnlyRepos(inp: Input, n: nat, id: string)
    requires n <= |inp.aliases| && KindOf(id) !in {Some(Project), Some(Repo)}
    ensures id !in AddRepos(inp, AddProject(inp), n).nodes
  {
    hide KindOf;
    if n > 0 {
      BaseHasOnlyRepos(inp, n - 1, id);
      IdsAnnounceKinds(Repo, inp.aliases[n - 1].name);
    } else {
      IdsAnnounceKinds(Project, inp.canonicalId);
    }
  }

  lemma {:induction false} ChainHasSameNodes(inp: Input, g: Graph, n: nat)
    requires n <= |inp.aliases|
    ensures ChainRepos(inp, g, n).nodes == g.nodes
  {
    if n > 1 {
      ChainHasSameNodes(inp, g, n - 1);
    }
  }

  /** A session node carries the interval of the first session it stands for. */
  lemma SessionNodeStamp(inp: Input, s: SessionInput)
    requires s in inp.sessions && InIdentity(inp, s)
    ensures SessionId(s) in Structure(inp).nodes
    ensures Structure(inp).nodes[SessionId(s)].stamp == FirstStamp(inp, inp.sessions, SessionId(s))
  {
    hide InIdentity, Structure, AddSessions, FirstStamp;
    var k :| 0 <= k < |inp.sessions| && inp.sessions[k] == s;
    IdsAnnounceKinds(Session, s.factId);
    StructureHolds(inp);
    BaseHasOnlyRepos(inp, |inp.aliases|, SessionId(s));
    ChainHasSameNodes(inp, AddRepos(inp, AddProject(inp), |inp.aliases|), |inp.aliases|);
    SessionNodesAreFirst(inp, Base(inp), inp.sessions, SessionId(s));
  }

  /** In the finished graph a session node has that interval still. */
  lemma SessionInterval(inp: Input, s: SessionInput)
    requires s in inp.sessions && InIdentity(inp, s)
    ensures SessionId(s) in Build(inp).nodes
    ensures Build(inp).nodes[SessionId(s)].stamp == FirstStamp(inp, inp.sessions, SessionId(s))
  {
    hide InIdentity, Structure, Build, FirstStamp;
    IdsAnnounceKinds(Session, s.factId);
    SessionNodeStamp(inp, s);
    SessionStampsStay(inp, SessionId(s));
  }

  /** When session nodes are not shared, the first stamp is the session's own. */
  lemma {:induction false} OwnStamp(inp: Input, sessions: seq<SessionInput>, k: nat)
    requires k < |sessions| && InIdentity(inp, sessions[k])
    requires forall j | 0 <= j < |sessions| && j != k && InIdentity(inp, sessions[j]) ::
               SessionId(sessions[j]) != SessionId(sessions[k])
    ensures IntervalOf(FirstStamp(inp, sessions, SessionId(sessions[k])), sessions[k])
  {
    hide InIdentity, SessionId;
    var n := |sessions| - 1;
    if k < n {
      OwnStamp(inp, sessions[..n], k);
      assert sessions[..n][k] == sessions[k];
    }
  }

  /** The known times of the in-identity sessions among `sessions` that name `agent`. */
  ghost function ConductedTimes(inp: Input, sessions: seq<SessionInput>, agent: string): seq<Option<int>> {
    if sessions == [] then []
    else
      var s := sessions[|sessions| - 1];
      ConductedTimes(inp, sessions[..|sessions| - 1], agent) +
      if InIdentity(inp, s) && AgentNodeId(s.agentId) == agent
      then var stamp := FirstStamp(inp, inp.sessions, SessionId(s)); [stamp.t, stamp.tEnd] else []
  }

  lemma {:induction false} ConductedTimesAre(inp: Input, sessions: seq<SessionInput>, agent: string, v: Option<int>)
    ensures v in ConductedTimes(inp, sessions, agent) <==>
              exists s :: s in sessions && InIdentity(inp, s) && AgentNodeId(s.agentId) == agent
                          && v in StampBounds(FirstStamp(inp, inp.sessions, SessionId(s)))
  {
    hide InIdentity, SessionId, AgentNodeId, FirstStamp;
    if sessions != [] {
      ConductedTimesAre(inp, sessions[..|sessions| - 1], agent, v);
      assert sessions == sessions[..|sessions| - 1] + [sessions[|sessions| - 1]];
    }
  }

  function StampBounds(stamp: Stamp): seq<Option<int>> {
    [stamp.t, stamp.tEnd]
  }

  lemma ConductedBoundIff(inp: Input, agent: string, v: Option<int>)
    requires inp.includeHubEdges
    ensures var g := Structure(inp);
            v in AgentBounds(g.nodes, g.links, agent) <==> v in ConductedTimes(inp, inp.sessions, agent)
  {
    hide Structure, InIdentity, FirstStamp, Build, AgentBounds, ConductedTimes, SessionId, AgentNodeId, SessionStamp;
    var g := Structure(inp);
    BuildAt(inp);
    AgentBoundsAreConducted(g.nodes, g.links, agent, v);
    ConductedTimesAre(inp, inp.sessions, agent, v);
    if v in AgentBounds(g.nodes, g.links, agent) {
      var i :| 0 <= i < |g.links| && g.links[i].relation == ConductedBy && g.links[i].target == agent
               && v in BoundsOf(g.nodes, g.links[i].source);
      assert Linked(g.links, g.links[i]);
      ConductedEdgesIff(inp, g.links[i]);
      var k :| 0 <= k < |inp.sessions| && InIdentity(inp, inp.sessions[k]) && Conducts(inp.sessions[k], g.links[i]);
      SessionNodeStamp(inp, inp.sessions[k]);
    }
    if s :| s in inp.sessions && InIdentity(inp, s) && AgentNodeId(s.agentId) == agent
            && v in StampBounds(FirstStamp(inp, inp.sessions, SessionId(s))) {
      var k :| 0 <= k < |inp.sessions| && inp.sessions[k] == s;
      SessionNodeStamp(inp, s);
      var e := Edge(SessionId(s), AgentNodeId(s.agentId), ConductedBy, NO_STAMP);
      ConductedEdgesIff(inp, e);
      assert Conducts(inp.sessions[k], e);
      var i :| 0 <= i < |g.links| && SameKey(g.links[i], e);
      assert g.links[i].relation == ConductedBy && g.links[i].target == agent;
    }
  }

  lemma HullByMembers(stamp: Stamp, a: seq<Option<int>>, b: seq<Option<int>>)
    requires forall v :: v in a <==> v in b
    ensures Hull(stamp, a) <==> Hull(stamp, b)
  {
  }

  /** With hub edges on, an agent's span is the exact hull of its in-identity sessions. */
  lemma AgentSpanOfItsSessions(inp: Input, agent: string)
    requires inp.includeHubEdges && agent in Build(inp).nodes && Build(inp).nodes[agent].kind == Agent
    ensures Hull(Build(inp).nodes[agent].stamp, ConductedTimes(inp, inp.sessions, agent))
  {
    hide Build, Structure, Hull, AgentBounds, ConductedTimes;
    AgentSpanIsHull(inp, agent);
    forall v
      ensures v in AgentBounds(Structure(inp).nodes, Structure(inp).links, agent) <==>
              v in ConductedTimes(inp, inp.sessions, agent)
    {
      ConductedBoundIff(inp, agent, v);
    }
    HullByMembers(Build(inp).nodes[agent].stamp, AgentBounds(Structure(inp).nodes, Structure(inp).links, agent),
                  ConductedTimes(inp, inp.sessions, agent));
  }

  /** With hub edges off no agent has a span, whatever its sessions' times. */
  lemma NoHubEdgesNoAgentSpans(inp: Input, agent: string)
    requires !inp.includeHubEdges && agent in Build(inp).nodes && Build(inp).nodes[agent].kind == Agent
    ensures Build(inp).nodes[agent].stamp == NO_STAMP
  {
    hide Structure, Build;
    var g := Structure(inp);
    BuildAt(inp);
    AgentSpanIsHull(inp, agent);
    forall v
      ensures v !in AgentBounds(g.nodes, g.links, agent)
    {
      AgentBoundsAreConducted(g.nodes, g.links, agent, v);
      if ConductedBound(g, agent, v) {
        var i :| 0 <= i < |g.links| && g.links[i].relation == ConductedBy && g.links[i].target == agent
                 && v in BoundsOf(g.nodes, g.links[i].source);
        assert Linked(g.links, g.links[i]);
        ConductedEdgesIff(inp, g.links[i]);
      }
    }
  }
}
