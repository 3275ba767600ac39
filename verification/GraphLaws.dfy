/**
 What holds of every graph that module ProjectGraph builds
 (packages/agent-stats/src/project-graph.ts).
 */
module GraphLaws {
  import opened Common
  import opened Sorting
  import opened ProjectGraph

  // ----- well-formedness -----

  /** Insertion order lists the nodes once each, edges join existing nodes and no
      (source, target, relation) repeats. */
  ghost predicate WellFormed(g: Graph) {
    && NoDuplicates(g.order)
    && (forall id :: id in g.order <==> id in g.nodes)
    && (forall i | 0 <= i < |g.links| :: g.links[i].source in g.nodes && g.links[i].target in g.nodes)
    && (forall i, j | 0 <= i < j < |g.links| :: !SameKey(g.links[i], g.links[j]))
  }

  /** The kind that an id announces. */
  function KindOf(id: string): Option<Kind> {
    if |id| < 3 then None
    else
      match id[0]
      case 'p' => Some(Project)
      case 'r' => Some(Repo)
      case 's' => Some(Session)
      case 'a' => Some(Agent)
      case 'b' => Some(Branch)
      case 'c' => if id[2] == 'm' then Some(Commit) else Some(Evidence)
      case _ => None
  }

  lemma IdsAnnounceKinds(kind: Kind, key: string)
    requires kind != Evidence
    ensures KindOf(NodeId(kind, key)) == Some(kind)
  {
  }

  ghost predicate NodeOk(id: string, n: Node) {
    && KindOf(id) == Some(n.kind)
    && (n.kind !in {Session, Commit} ==> n.stamp == NO_STAMP)
    && (n.kind == Commit ==> n.sha.Some? && id == NodeId(Commit, n.sha.value))
    && (n.trust == if n.kind == Evidence then Some(Unverified) else None)
  }

  ghost predicate EdgeOk(g: Graph, e: Edge) {
    && e.source in g.nodes && e.target in g.nodes
    && (e.relation in {ConductedBy, TouchedBranch, Produced} ==> KindOf(e.source) == Some(Session))
    && (e.relation == ConductedBy ==> KindOf(e.target) == Some(Agent))
    && (e.relation == Produced ==> KindOf(e.target) == Some(Commit))
  }

  /** The invariant of all passes before spans and trust. */
  ghost predicate Inv(g: Graph) {
    && WellFormed(g)
    && (forall id | id in g.nodes :: NodeOk(id, g.nodes[id]))
    && (forall i | 0 <= i < |g.links| :: EdgeOk(g, g.links[i]))
  }

  /** `h` is `g` with nodes and edges added: nothing is lost or overwritten. */
  ghost predicate Extends(g: Graph, h: Graph) {
    && (forall id | id in g.nodes :: id in h.nodes && h.nodes[id] == g.nodes[id])
    && g.links <= h.links
  }

  lemma AddNodeKeeps(g: Graph, id: string, n: Node)
    requires Inv(g) && NodeOk(id, n)
    ensures Inv(AddNode(g, id, n)) && Extends(g, AddNode(g, id, n)) && id in AddNode(g, id, n).nodes
  {
    hide NodeOk;
    var h := AddNode(g, id, n);
    if id !in g.nodes {
      assert id !in g.order;
      forall i | 0 <= i < |h.links|
        ensures EdgeOk(h, h.links[i])
      {
        assert EdgeOk(g, g.links[i]);
      }
    }
  }

  lemma AddEdgeKeeps(g: Graph, e: Edge)
    requires Inv(g) && EdgeOk(g, e)
    ensures Inv(AddEdge(g, e)) && Extends(g, AddEdge(g, e))
    ensures AddEdge(g, e).nodes == g.nodes && Linked(AddEdge(g, e).links, e)
  {
    hide NodeOk;
    var h := AddEdge(g, e);
    forall i | 0 <= i < |h.links|
      ensures EdgeOk(h, h.links[i])
    {
      if i < |g.links| {
        assert EdgeOk(g, g.links[i]);
      }
    }
    if !Linked(g.links, e) {
      assert SameKey(h.links[|g.links|], e);
    }
  }

  lemma ExtendsTransitive(g: Graph, h: Graph, k: Graph)
    requires Extends(g, h) && Extends(h, k)
    ensures Extends(g, k)
  {
  }

  // ----- the passes keep the invariant -----

  lemma {:induction false} ReposKeep(inp: Input, g: Graph, n: nat)
    requires Inv(g) && ProjectId(inp) in g.nodes && n <= |inp.aliases|
    ensures Inv(AddRepos(inp, g, n)) && Extends(g, AddRepos(inp, g, n))
    ensures forall i | 0 <= i < n :: RepoId(inp, i) in AddRepos(inp, g, n).nodes
  {
    hide Inv, NodeId, KindOf, Linked;
    if n > 0 {
      ReposKeep(inp, g, n - 1);
      var before := AddRepos(inp, g, n - 1);
      var name := inp.aliases[n - 1].name;
      IdsAnnounceKinds(Repo, name);
      AddNodeKeeps(before, RepoId(inp, n - 1), Plain(Repo, name, Some(name)));
      var g1 := AddNode(before, RepoId(inp, n - 1), Plain(Repo, name, Some(name)));
      ExtendsTransitive(g, before, g1);
      if inp.includeHubEdges {
        AddEdgeKeeps(g1, Edge(RepoId(inp, n - 1), ProjectId(inp), BelongsTo, NO_STAMP));
        ExtendsTransitive(g, g1, AddRepos(inp, g, n));
      }
    }
  }

  lemma {:induction false} ChainKeeps(inp: Input, g: Graph, n: nat)
    requires Inv(g) && n <= |inp.aliases| && forall i | 0 <= i < n :: RepoId(inp, i) in g.nodes
    ensures Inv(ChainRepos(inp, g, n)) && Extends(g, ChainRepos(inp, g, n))
  {
    hide Inv;
    if n > 1 {
      ChainKeeps(inp, g, n - 1);
      AddEdgeKeeps(ChainRepos(inp, g, n - 1),
                   Edge(RepoId(inp, n - 2), RepoId(inp, n - 1), RenameLineage, NO_STAMP));
    }
  }

  lemma BaseHolds(inp: Input)
    ensures Inv(Base(inp)) && ProjectId(inp) in Base(inp).nodes
    ensures forall i | 0 <= i < |inp.aliases| :: RepoId(inp, i) in Base(inp).nodes
  {
    IdsAnnounceKinds(Project, inp.canonicalId);
    AddNodeKeeps(Graph([], map[], []), ProjectId(inp), Plain(Project, inp.title, None));
    ReposKeep(inp, AddProject(inp), |inp.aliases|);
    ChainKeeps(inp, AddRepos(inp, AddProject(inp), |inp.aliases|), |inp.aliases|);
  }

  lemma {:induction false} BranchesKeep(inp: Input, g: Graph, s: SessionInput, branches: seq<string>)
    requires Inv(g) && SessionId(s) in g.nodes
    ensures Inv(AddBranches(inp, g, s, branches)) && Extends(g, AddBranches(inp, g, s, branches))
  {
    hide Inv;
    if branches != [] {
      var n := |branches| - 1;
      BranchesKeep(inp, g, s, branches[..n]);
      var before := AddBranches(inp, g, s, branches[..n]);
      var id := BranchId(inp, branches[n]);
      var node := Plain(Branch, branches[n], LaneOf(inp, s));
      IdsAnnounceKinds(Branch, inp.canonicalId + "__" + branches[n]);
      IdsAnnounceKinds(Session, s.factId);
      AddNodeKeeps(before, id, node);
      AddEdgeKeeps(AddNode(before, id, node), Edge(SessionId(s), id, TouchedBranch, SessionStamp(s)));
    }
  }

  lemma {:induction false} TimesHaveMetas(commits: seq<LogCommit>, key: string)
    ensures key in Times(commits) ==> key in Metas(commits)
    ensures key in Metas(commits) ==> ShaKey(Metas(commits)[key].sha) == key
  {
    if commits != [] {
      TimesHaveMetas(commits[..|commits| - 1], key);
    }
  }

  lemma SessionCommitOk(inp: Input, s: SessionInput, sha: string)
    ensures NodeOk(NodeId(Commit, KnownSha(inp, sha)), SessionCommit(inp, s, sha))
  {
    IdsAnnounceKinds(Commit, KnownSha(inp, sha));
    TimesHaveMetas(inp.commits, ShaKey(sha));
  }

  lemma {:induction false} CommitsKeep(inp: Input, g: Graph, s: SessionInput, shas: seq<string>)
    requires Inv(g) && SessionId(s) in g.nodes
    ensures Inv(AddCommits(inp, g, s, shas)) && Extends(g, AddCommits(inp, g, s, shas))
  {
    hide Inv;
    if shas != [] {
      var n := |shas| - 1;
      CommitsKeep(inp, g, s, shas[..n]);
      var before := AddCommits(inp, g, s, shas[..n]);
      var id := NodeId(Commit, KnownSha(inp, shas[n]));
      var node := SessionCommit(inp, s, shas[n]);
      SessionCommitOk(inp, s, shas[n]);
      IdsAnnounceKinds(Session, s.factId);
      AddNodeKeeps(before, id, node);
      AddEdgeKeeps(AddNode(before, id, node), Edge(SessionId(s), id, Produced, SessionStamp(s)));
    }
  }

  /** The node and edges of one session, before its branches and commits. */
  lemma SessionNodesKeep(inp: Input, g: Graph, s: SessionInput)
    requires Inv(g) && forall i | 0 <= i < |inp.aliases| :: RepoId(inp, i) in g.nodes
    ensures var h := AddAgentNode(inp, AddSessionNode(inp, g, s), s);
            && Inv(h) && Extends(g, h) && SessionId(s) in h.nodes && AgentNodeId(s.agentId) in h.nodes
            && (inp.includeHubEdges ==>
                  Linked(h.links, Edge(SessionId(s), AgentNodeId(s.agentId), ConductedBy, SessionStamp(s))))
  {
    hide Inv, NodeId, KindOf, SessionAlias, LaneOf;
    IdsAnnounceKinds(Session, s.factId);
    IdsAnnounceKinds(Agent, s.agentId);
    var node := Plain(Session, SessionTitle(s), LaneOf(inp, s)).(stamp := SessionStamp(s));
    AddNodeKeeps(g, SessionId(s), node);
    var g1 := AddNode(g, SessionId(s), node);
    var alias := SessionAlias(inp, s.cwds);
    if inp.includeHubEdges && alias.Some? && alias.value < |inp.aliases| {
      AddEdgeKeeps(g1, Edge(SessionId(s), RepoId(inp, alias.value), WorkedIn, SessionStamp(s)));
    }
    var g2 := AddSessionNode(inp, g, s);
    AddNodeKeeps(g2, AgentNodeId(s.agentId), Plain(Agent, s.agentId, None));
    var g3 := AddNode(g2, AgentNodeId(s.agentId), Plain(Agent, s.agentId, None));
    if inp.includeHubEdges {
      AddEdgeKeeps(g3, Edge(SessionId(s), AgentNodeId(s.agentId), ConductedBy, SessionStamp(s)));
    }
  }

  lemma SessionGraphKeeps(inp: Input, g: Graph, s: SessionInput)
    requires Inv(g) && forall i | 0 <= i < |inp.aliases| :: RepoId(inp, i) in g.nodes
    ensures var h := SessionGraph(inp, g, s);
            Inv(h) && Extends(g, h) && SessionId(s) in h.nodes && AgentNodeId(s.agentId) in h.nodes
  {
    hide Inv;
    SessionNodesKeep(inp, g, s);
    var g1 := AddAgentNode(inp, AddSessionNode(inp, g, s), s);
    BranchesKeep(inp, g1, s, s.branches);
    var g2 := if inp.includeBranches then AddBranches(inp, g1, s, s.branches) else g1;
    CommitsKeep(inp, g2, s, s.commitShas);
  }

  /** The maps beside the graph point at nodes of the right kind. */
  ghost predicate MapsOk(b: Progress) {
    && (forall a | a in b.agentNode :: b.agentNode[a] == AgentNodeId(a) && b.agentNode[a] in b.g.nodes)
    && (forall s | s in b.sessionNode :: b.sessionNode[s] in b.g.nodes && KindOf(b.sessionNode[s]) == Some(Session))
  }

  lemma SessionStepKeeps(inp: Input, b: Progress, s: SessionInput)
    requires Inv(b.g) && MapsOk(b) && forall i | 0 <= i < |inp.aliases| :: RepoId(inp, i) in b.g.nodes
    ensures var after := SessionStep(inp, b, s);
            Inv(after.g) && MapsOk(after) && Extends(b.g, after.g)
  {
    hide Inv, SessionGraph, InIdentity, NodeId, KindOf;
    SessionGraphKeeps(inp, b.g, s);
    IdsAnnounceKinds(Session, s.factId);
  }

  lemma {:induction false} SessionsKeep(inp: Input, g: Graph, sessions: seq<SessionInput>)
    requires Inv(g) && forall i | 0 <= i < |inp.aliases| :: RepoId(inp, i) in g.nodes
    ensures var b := AddSessions(inp, g, sessions);
            Inv(b.g) && Extends(g, b.g) && MapsOk(b)
  {
    hide Inv, SessionStep;
    if sessions != [] {
      var n := |sessions| - 1;
      SessionsKeep(inp, g, sessions[..n]);
      SessionStepKeeps(inp, AddSessions(inp, g, sessions[..n]), sessions[n]);
    }
  }

  lemma {:induction false} EvidenceKeeps(inp: Input, b: Progress, ids: seq<string>)
    requires Inv(b.g) && MapsOk(b) && "" !in ids
    ensures Inv(AddEvidence(b, ids)) && Extends(b.g, AddEvidence(b, ids))
  {
    hide Inv, NodeId, KindOf, Linked, EvidenceId;
    if ids != [] {
      var n := |ids| - 1;
      EvidenceKeeps(inp, b, ids[..n]);
      var before := AddEvidence(b, ids[..n]);
      if ids[n] !in b.ambiguous && ids[n] in b.agentNode {
        EvidenceNodeOk(ids[n]);
        AddNodeKeeps(before, EvidenceId(ids[n]), EVIDENCE_NODE);
        AddEdgeKeeps(AddNode(before, EvidenceId(ids[n]), EVIDENCE_NODE),
                     Edge(b.agentNode[ids[n]], EvidenceId(ids[n]), RegisteredIn, NO_STAMP));
      }
    }
  }

  lemma EvidenceNodeOk(id: string)
    ensures NodeOk(EvidenceId(id), EVIDENCE_NODE)
  {
    assert EvidenceId(id)[..3] == "coo";
  }

  lemma {:induction false} ParentsKeep(inp: Input, g: Graph, child: string, parents: seq<string>)
    requires Inv(g) && child in g.nodes
    ensures Inv(AddParents(inp, g, child, parents)) && Extends(g, AddParents(inp, g, child, parents))
  {
    hide Inv;
    if parents != [] {
      var n := |parents| - 1;
      ParentsKeep(inp, g, child, parents[..n]);
      var before := AddParents(inp, g, child, parents[..n]);
      var id := NodeId(Commit, parents[n]);
      IdsAnnounceKinds(Commit, parents[n]);
      var node := SkeletonCommit(inp, parents[n], None, NO_STAMP);
      AddNodeKeeps(before, id, node);
      AddEdgeKeeps(AddNode(before, id, node), Edge(child, id, CommitParent, NO_STAMP));
    }
  }

  // ----- the log -----

  lemma EnrichedCommit(inp: Input, g: Graph, c: LogCommit)
    requires Inv(g) && NodeId(Commit, c.sha) in g.nodes
    ensures NodeOk(NodeId(Commit, c.sha), Enrich(inp, g.nodes[NodeId(Commit, c.sha)], c))
  {
    hide ShaKey, Times, KindOf, NodeId, WellFormed, EdgeOk;
    IdsAnnounceKinds(Commit, c.sha);
    assert NodeOk(NodeId(Commit, c.sha), g.nodes[NodeId(Commit, c.sha)]);
  }

  /** Replacing a node by another that is in order keeps the invariant. */
  lemma ReplaceKeeps(g: Graph, id: string, n: Node)
    requires Inv(g) && id in g.nodes && NodeOk(id, n)
    ensures Inv(g.(nodes := g.nodes[id := n]))
  {
    hide NodeOk;
    var h := g.(nodes := g.nodes[id := n]);
    forall i | 0 <= i < |h.links|
      ensures EdgeOk(h, h.links[i])
    {
      assert EdgeOk(g, g.links[i]);
    }
  }

  /** One log line adds its own commit and its parents; it changes no other node. */
  lemma LogCommitKeeps(inp: Input, g: Graph, c: LogCommit)
    requires Inv(g)
    ensures var h := AddLogCommit(inp, g, c);
            && Inv(h) && NodeId(Commit, c.sha) in h.nodes
            && (forall id | id in g.nodes :: id in h.nodes)
            && (forall id | id in g.nodes && id != NodeId(Commit, c.sha) :: h.nodes[id] == g.nodes[id])
            && g.links <= h.links
  {
    hide Inv;
    var id := NodeId(Commit, c.sha);
    IdsAnnounceKinds(Commit, c.sha);
    var g1 := g;
    if id in g.nodes {
      EnrichedCommit(inp, g, c);
      ReplaceKeeps(g, id, Enrich(inp, g.nodes[id], c));
      g1 := g.(nodes := g.nodes[id := Enrich(inp, g.nodes[id], c)]);
    }
    var node := SkeletonCommit(inp, c.sha, c.subject, CommitStamp(Times(inp.commits), c.sha));
    AddNodeKeeps(g1, id, node);
    var g2 := AddNode(g1, id, node);
    ParentsKeep(inp, g2, id, c.parents);
  }

  /** Nodes and edges stay; only commit nodes may gain a date or a subject. */
  ghost predicate Grows(g: Graph, h: Graph) {
    && (forall id | id in g.nodes :: id in h.nodes && (KindOf(id) != Some(Commit) ==> h.nodes[id] == g.nodes[id]))
    && g.links <= h.links
  }

  lemma {:induction false} LogKeeps(inp: Input, g: Graph, commits: seq<LogCommit>)
    requires Inv(g)
    ensures var h := AddLog(inp, g, commits);
            && Inv(h) && Grows(g, h)
            && (forall i | 0 <= i < |commits| :: NodeId(Commit, commits[i].sha) in h.nodes)
  {
    hide Inv, AddLogCommit;
    if commits != [] {
      var n := |commits| - 1;
      LogKeeps(inp, g, commits[..n]);
      var before := AddLog(inp, g, commits[..n]);
      LogCommitKeeps(inp, before, commits[n]);
      IdsAnnounceKinds(Commit, commits[n].sha);
      forall i | 0 <= i < n
        ensures commits[i] == commits[..n][i]
      {
      }
    }
  }

  lemma HeadKeeps(inp: Input, g: Graph, h: Head)
    requires Inv(g)
    ensures Inv(AddHead(inp, g, h)) && Extends(g, AddHead(inp, g, h))
  {
    hide Inv;
    var b := BranchId(inp, h.name);
    var c := NodeId(Commit, h.sha);
    IdsAnnounceKinds(Branch, inp.canonicalId + "__" + h.name);
    IdsAnnounceKinds(Commit, h.sha);
    var node := Plain(Branch, h.name, LastLane(inp)).(skeleton := true);
    AddNodeKeeps(g, b, node);
    var g1 := AddNode(g, b, node);
    AddNodeKeeps(g1, c, SkeletonCommit(inp, h.sha, None, NO_STAMP));
    AddEdgeKeeps(AddNode(g1, c, SkeletonCommit(inp, h.sha, None, NO_STAMP)), Edge(b, c, BranchHead, NO_STAMP));
  }

  lemma {:induction false} HeadsKeep(inp: Input, g: Graph, heads: seq<Head>)
    requires Inv(g)
    ensures Inv(AddHeads(inp, g, heads)) && Extends(g, AddHeads(inp, g, heads))
  {
    hide Inv, AddHead;
    if heads != [] {
      HeadsKeep(inp, g, heads[..|heads| - 1]);
      HeadKeeps(inp, AddHeads(inp, g, heads[..|heads| - 1]), heads[|heads| - 1]);
    }
  }

  lemma {:induction false} DerivedKeep(inp: Input, b: Progress, g: Graph, sessions: seq<SessionInput>)
    requires Inv(g) && forall s | s in b.sessionNode :: b.sessionNode[s] in g.nodes
    ensures Inv(AddAllDerived(b, g, sessions)) && Extends(g, AddAllDerived(b, g, sessions))
  {
    hide Inv;
    if sessions != [] {
      var n := |sessions| - 1;
      DerivedKeep(inp, b, g, sessions[..n]);
      var before := AddAllDerived(b, g, sessions[..n]);
      var s := sessions[n];
      if s.sessionId in b.sessionNode && s.parentThread.Some? && s.parentThread.value in b.sessionNode {
        AddEdgeKeeps(before, Edge(b.sessionNode[s.sessionId], b.sessionNode[s.parentThread.value], DerivedFrom,
                                       if s.sessionId in b.temporal then b.temporal[s.sessionId] else NO_STAMP));
      }
    }
  }
}
