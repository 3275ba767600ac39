/**
 The builder of the project graph as it runs
 (packages/agent-stats/src/project-graph.ts, `buildProjectGraph`): a node map and
 an edge list filled in loops, nodes later changed in place.  Each loop is proved
 to compute the corresponding pass of module ProjectGraph.
 */
module GraphBuilder {
  import opened Common
  import opened ProjectGraph

  type EdgeKey = (string, string, Relation)

  function Key(e: Edge): EdgeKey {
    (e.source, e.target, e.relation)
  }

  // ----- lists of neighbours, in edge order -----

  function SourcesOf(links: seq<Edge>, relation: Relation, target: string): seq<string> {
    if links == [] then []
    else
      var e := links[|links| - 1];
      SourcesOf(links[..|links| - 1], relation, target) +
      if e.relation == relation && e.target == target then [e.source] else []
  }

  function TargetsOf(links: seq<Edge>, relation: Relation, source: string): seq<string> {
    if links == [] then []
    else
      var e := links[|links| - 1];
      TargetsOf(links[..|links| - 1], relation, source) +
      if e.relation == relation && e.source == source then [e.target] else []
  }

  function Lookup(m: map<string, seq<string>>, k: string): seq<string> {
    if k in m then m[k] else []
  }

  function PushTo(m: map<string, seq<string>>, k: string, v: string): map<string, seq<string>> {
    m[k := Lookup(m, k) + [v]]
  }

  function BoundsOfAll(nodes: map<string, Node>, ids: seq<string>): seq<Option<int>> {
    if ids == [] then [] else BoundsOfAll(nodes, ids[..|ids| - 1]) + BoundsOf(nodes, ids[|ids| - 1])
  }

  function StartsOfAll(nodes: map<string, Node>, ids: seq<string>): seq<Option<int>> {
    if ids == [] then [] else StartsOfAll(nodes, ids[..|ids| - 1]) + StartOf(nodes, ids[|ids| - 1])
  }

  function TouchBounds(nodes: map<string, Node>, links: seq<Edge>, ids: seq<string>): seq<Option<int>> {
    if ids == [] then []
    else
      var id := ids[|ids| - 1];
      TouchBounds(nodes, links, ids[..|ids| - 1]) +
      (BoundsOf(nodes, id) + StartsOfAll(nodes, TargetsOf(links, Produced, id)))
  }

  lemma Snoc(ids: seq<string>, id: string)
    ensures (ids + [id])[..|ids|] == ids && (ids + [])[..] == ids
  {
  }

  /** The three neighbour lists of the derived-span pass. */
  datatype Index = Index(produced: map<string, seq<string>>, touched: map<string, seq<string>>,
                         conducted: map<string, seq<string>>)

  ghost predicate Indexes(x: Index, links: seq<Edge>) {
    && (forall k :: Lookup(x.produced, k) == TargetsOf(links, Produced, k))
    && (forall k :: Lookup(x.touched, k) == SourcesOf(links, TouchedBranch, k))
    && (forall k :: Lookup(x.conducted, k) == SourcesOf(links, ConductedBy, k))
  }

  function IndexEdge(x: Index, e: Edge): Index {
    match e.relation
    case Produced => x.(produced := PushTo(x.produced, e.source, e.target))
    case TouchedBranch => x.(touched := PushTo(x.touched, e.target, e.source))
    case ConductedBy => x.(conducted := PushTo(x.conducted, e.target, e.source))
    case _ => x
  }

  lemma PushedTo(m: map<string, seq<string>>, k: string, v: string)
    ensures forall j :: Lookup(PushTo(m, k, v), j) == Lookup(m, j) + if j == k then [v] else []
  {
  }

  /** Pushing one edge into a map of sources, or leaving the map alone. */
  lemma SourcesStep(m: map<string, seq<string>>, relation: Relation, links: seq<Edge>)
    requires links != [] && forall k :: Lookup(m, k) == SourcesOf(links[..|links| - 1], relation, k)
    ensures var e := links[|links| - 1];
            forall k :: Lookup(if e.relation == relation then PushTo(m, e.target, e.source) else m, k) ==
                        SourcesOf(links, relation, k)
  {
    hide Lookup, PushTo;
    var e := links[|links| - 1];
    PushedTo(m, e.target, e.source);
  }

  lemma TargetsStep(m: map<string, seq<string>>, relation: Relation, links: seq<Edge>)
    requires links != [] && forall k :: Lookup(m, k) == TargetsOf(links[..|links| - 1], relation, k)
    ensures var e := links[|links| - 1];
            forall k :: Lookup(if e.relation == relation then PushTo(m, e.source, e.target) else m, k) ==
                        TargetsOf(links, relation, k)
  {
    hide Lookup, PushTo;
    var e := links[|links| - 1];
    PushedTo(m, e.source, e.target);
  }

  lemma IndexStep(x: Index, links: seq<Edge>)
    requires links != [] && Indexes(x, links[..|links| - 1])
    ensures Indexes(IndexEdge(x, links[|links| - 1]), links)
  {
    hide Lookup, PushTo, SourcesOf, TargetsOf;
    TargetsStep(x.produced, Produced, links);
    SourcesStep(x.touched, TouchedBranch, links);
    SourcesStep(x.conducted, ConductedBy, links);
  }

  lemma {:induction false} AgentBoundsByList(nodes: map<string, Node>, links: seq<Edge>, agent: string)
    ensures AgentBounds(nodes, links, agent) == BoundsOfAll(nodes, SourcesOf(links, ConductedBy, agent))
  {
    if links != [] {
      AgentBoundsByList(nodes, links[..|links| - 1], agent);
      Snoc(SourcesOf(links[..|links| - 1], ConductedBy, agent), links[|links| - 1].source);
    }
  }

  lemma {:induction false} ProducedStartsByList(nodes: map<string, Node>, links: seq<Edge>, session: string)
    ensures ProducedStarts(nodes, links, session) == StartsOfAll(nodes, TargetsOf(links, Produced, session))
  {
    if links != [] {
      ProducedStartsByList(nodes, links[..|links| - 1], session);
      Snoc(TargetsOf(links[..|links| - 1], Produced, session), links[|links| - 1].target);
    }
  }

  lemma {:induction false} BranchBoundsByList(nodes: map<string, Node>, all: seq<Edge>, links: seq<Edge>,
                                             branch: string)
    ensures BranchBounds(nodes, all, links, branch) == TouchBounds(nodes, all, SourcesOf(links, TouchedBranch, branch))
  {
    if links != [] {
      BranchBoundsByList(nodes, all, links[..|links| - 1], branch);
      ProducedStartsByList(nodes, all, links[|links| - 1].source);
      Snoc(SourcesOf(links[..|links| - 1], TouchedBranch, branch), links[|links| - 1].source);
    }
  }

  // ----- loops that only read -----

  /** The running minimum and maximum of the known bounds. */
  method EnvelopeOf(bounds: seq<Option<int>>) returns (stamp: Stamp)
    ensures stamp == Envelope(bounds)
  {
    var lo: Option<int>, hi: Option<int> := None, None;
    for i := 0 to |bounds|
      invariant Range(lo, hi) == RangeOf(bounds[..i])
    {
      assert bounds[..i + 1][..i] == bounds[..i];
      var v := bounds[i];
      if v.Some? {
        if lo.None? || v.value < lo.value {
          lo := v;
        }
        if hi.None? || v.value > hi.value {
          hi := v;
        }
      }
    }
    assert bounds[..|bounds|] == bounds;
    return if lo.None? then NO_STAMP else Stamp(lo, hi, Some(ChildrenSpan));
  }

  method FindAlias(inp: Input, cwd: string) returns (alias: Option<nat>)
    ensures alias == AliasForCwd(inp, cwd)
  {
    var c := Canonical(inp, cwd);
    alias := None;
    var bestLen := -1;
    for i := 0 to |inp.aliases|
      invariant Best(alias, bestLen) == BestAlias(inp, c, i)
    {
      var prefixes := inp.aliases[i].pathPrefixes;
      ghost var start := Best(alias, bestLen);
      for j := 0 to |prefixes|
        invariant Best(alias, bestLen) == BestInAlias(inp, c, i, prefixes[..j], start)
      {
        assert prefixes[..j + 1][..j] == prefixes[..j];
        var p := Canonical(inp, prefixes[j]);
        if Under(c, p) && |p| > bestLen {
          alias, bestLen := Some(i), |p|;
        }
      }
      assert prefixes[..|prefixes|] == prefixes;
    }
  }

  method FindSessionAlias(inp: Input, cwds: seq<string>) returns (alias: Option<nat>)
    ensures alias == SessionAlias(inp, cwds)
    ensures alias.Some? ==> alias.value < |inp.aliases|
  {
    SessionAliasInRange(inp, cwds);
    for i := 0 to |cwds|
      invariant SessionAlias(inp, cwds) == SessionAlias(inp, cwds[i..])
    {
      alias := FindAlias(inp, cwds[i]);
      assert cwds[i..][1..] == cwds[i + 1..];
      if alias.Some? {
        return;
      }
    }
    alias := None;
  }

  /** Dates and records of the log by 7-character prefix; the first line wins. */
  method IndexLog(commits: seq<LogCommit>) returns (times: map<string, int>, metas: map<string, LogCommit>)
    ensures times == Times(commits) && metas == Metas(commits)
  {
    times, metas := map[], map[];
    for i := 0 to |commits|
      invariant times == Times(commits[..i]) && metas == Metas(commits[..i])
    {
      assert commits[..i + 1][..i] == commits[..i];
      var k := ShaKey(commits[i].sha);
      if k !in metas {
        metas := metas[k := commits[i]];
      }
      if commits[i].committedAt.Some? && k !in times {
        times := times[k := commits[i].committedAt.value];
      }
    }
    assert commits[..|commits|] == commits;
  }

  // ----- the builder -----

  class Builder {
    const inp: Input
    var times: map<string, int>
    var metas: map<string, LogCommit>

    var order: seq<string>
    var nodes: map<string, Node>
    var links: seq<Edge>
    var linkSeen: set<EdgeKey>

    var agentNode: map<string, string>
    var agentAt: map<string, string>
    var ambiguous: set<string>
    var sessionNode: map<string, string>
    var temporal: map<string, Stamp>

    constructor (inp: Input)
      ensures this.inp == inp && Valid() && G() == Graph([], map[], [])
      ensures State() == Progress(G(), map[], map[], {}, map[], map[])
      ensures fresh(this)
    {
      this.inp := inp;
      order, nodes, links, linkSeen := [], map[], [], {};
      agentNode, agentAt, ambiguous, sessionNode, temporal := map[], map[], {}, map[], map[];
      times, metas := map[], map[];
      new;
      times, metas := IndexLog(inp.commits);
    }

    ghost predicate Valid()
      reads this
    {
      && times == Times(inp.commits) && metas == Metas(inp.commits)
      && forall e: Edge :: Key(e) in linkSeen <==> Linked(links, e)
    }

    ghost function G(): Graph
      reads this
    {
      Graph(order, nodes, links)
    }

    ghost function State(): Progress
      reads this
    {
      Progress(G(), agentNode, agentAt, ambiguous, sessionNode, temporal)
    }

    method InsertNode(id: string, n: Node)
      requires Valid()
      modifies `order, `nodes
      ensures Valid() && G() == AddNode(old(G()), id, n)
    {
      if id !in nodes {
        order, nodes := order + [id], nodes[id := n];
      }
    }

    method InsertEdge(e: Edge)
      requires Valid()
      modifies `links, `linkSeen
      ensures Valid() && G() == AddEdge(old(G()), e)
    {
      if Key(e) in linkSeen {
        return;
      }
      linkSeen := linkSeen + {Key(e)};
      links := links + [e];
      ghost var was := old(links);
      forall f: Edge
        ensures Key(f) in linkSeen <==> Linked(links, f)
      {
        LinkedWith(was, e, f);
      }
    }

    static lemma LinkedWith(was: seq<Edge>, e: Edge, f: Edge)
      ensures Linked(was + [e], f) <==> Linked(was, f) || Key(e) == Key(f)
    {
      if Linked(was, f) {
        var i :| 0 <= i < |was| && SameKey(was[i], f);
        assert SameKey((was + [e])[i], f);
      }
      if Key(e) == Key(f) {
        assert SameKey((was + [e])[|was|], f);
      }
    }

    method InsertRepos()
      requires Valid()
      modifies `order, `nodes, `links, `linkSeen
      ensures Valid() && G() == ChainRepos(inp, AddRepos(inp, old(G()), |inp.aliases|), |inp.aliases|)
    {
      for i := 0 to |inp.aliases|
        invariant Valid() && G() == AddRepos(inp, old(G()), i)
      {
        var name := inp.aliases[i].name;
        InsertNode(RepoId(inp, i), Plain(Repo, name, Some(name)));
        if inp.includeHubEdges {
          InsertEdge(Edge(RepoId(inp, i), ProjectId(inp), BelongsTo, NO_STAMP));
        }
      }
      ghost var g := G();
      var i := 0;
      while i + 1 < |inp.aliases|
        invariant i <= |inp.aliases| && (i == |inp.aliases| ==> i == 0)
        invariant Valid() && G() == ChainRepos(inp, g, if i + 1 <= |inp.aliases| then i + 1 else 0)
      {
        InsertEdge(Edge(RepoId(inp, i), RepoId(inp, i + 1), RenameLineage, NO_STAMP));
        i := i + 1;
      }
    }

    method InsertBranches(s: SessionInput, lane: Option<string>)
      requires Valid() && lane == LaneOf(inp, s)
      modifies `order, `nodes, `links, `linkSeen
      ensures Valid() && G() == AddBranches(inp, old(G()), s, s.branches)
    {
      for i := 0 to |s.branches|
        invariant Valid() && G() == AddBranches(inp, old(G()), s, s.branches[..i])
      {
        assert s.branches[..i + 1][..i] == s.branches[..i];
        var b := s.branches[i];
        InsertNode(BranchId(inp, b), Plain(Branch, b, lane));
        InsertEdge(Edge(SessionId(s), BranchId(inp, b), TouchedBranch, SessionStamp(s)));
      }
      assert s.branches[..|s.branches|] == s.branches;
    }

    method InsertCommits(s: SessionInput, lane: Option<string>)
      requires Valid() && lane == LaneOf(inp, s)
      modifies `order, `nodes, `links, `linkSeen
      ensures Valid() && G() == AddCommits(inp, old(G()), s, s.commitShas)
    {
      for i := 0 to |s.commitShas|
        invariant Valid() && G() == AddCommits(inp, old(G()), s, s.commitShas[..i])
      {
        assert s.commitShas[..i + 1][..i] == s.commitShas[..i];
        var sha := s.commitShas[i];
        var key := ShaKey(sha);
        var full := if key in metas then metas[key].sha else sha;
        var subject := if key in metas then metas[key].subject else None;
        var node := Node(Commit, Prefix7(full), lane, Some(full), subject, CommitStamp(times, sha), false, None);
        InsertNode(NodeId(Commit, full), node);
        InsertEdge(Edge(SessionId(s), NodeId(Commit, full), Produced, SessionStamp(s)));
      }
      assert s.commitShas[..|s.commitShas|] == s.commitShas;
    }

    /** Remember which agent a node stands for, and when it stands for two. */
    method NoteAgentId(agentId: string)
      requires Valid()
      modifies `agentNode, `agentAt, `ambiguous
      ensures Valid() && State() == NoteAgent(old(State()), agentId)
    {
      var id := AgentNodeId(agentId);
      if id in agentAt && agentAt[id] != "" && agentAt[id] != agentId {
        ambiguous := ambiguous + {agentAt[id], agentId};
      } else {
        agentAt := agentAt[id := agentId];
      }
      agentNode := agentNode[agentId := id];
    }

    /** The session node and its membership edge. */
    method InsertSessionNode(s: SessionInput, alias: nat)
      requires Valid() && SessionAlias(inp, s.cwds) == Some(alias) && alias < |inp.aliases|
      modifies `order, `nodes, `links, `linkSeen, `sessionNode, `temporal
      ensures Valid() && G() == AddSessionNode(inp, old(G()), s)
      ensures sessionNode == old(sessionNode)[s.sessionId := SessionId(s)]
      ensures temporal == old(temporal)[s.sessionId := SessionStamp(s)]
    {
      hide SessionAlias, ProjectGraph.AddNode, ProjectGraph.AddEdge;
      var stamp := SessionStamp(s);
      temporal := temporal[s.sessionId := stamp];
      InsertNode(SessionId(s), Plain(Session, SessionTitle(s), Some(inp.aliases[alias].name)).(stamp := stamp));
      sessionNode := sessionNode[s.sessionId := SessionId(s)];
      if inp.includeHubEdges {
        InsertEdge(Edge(SessionId(s), RepoId(inp, alias), WorkedIn, stamp));
      }
    }

    method InsertAgentNode(s: SessionInput)
      requires Valid()
      modifies `order, `nodes, `links, `linkSeen
      ensures Valid() && G() == AddAgentNode(inp, old(G()), s)
    {
      InsertNode(AgentNodeId(s.agentId), Plain(Agent, s.agentId, None));
      if inp.includeHubEdges {
        InsertEdge(Edge(SessionId(s), AgentNodeId(s.agentId), ConductedBy, SessionStamp(s)));
      }
    }

    method InsertSession(s: SessionInput)
      requires Valid()
      modifies `order, `nodes, `links, `linkSeen, `agentNode, `agentAt, `ambiguous, `sessionNode, `temporal
      ensures Valid() && State() == SessionStep(inp, old(State()), s)
    {
      hide Valid, AddBranches, AddCommits, SessionAlias, AddSessionNode, AddAgentNode;
      var alias := FindSessionAlias(inp, s.cwds);
      if alias.None? {
        return;
      }
      InsertSessionNode(s, alias.value);
      ghost var noted := State();
      NoteAgentId(s.agentId);
      InsertAgentNode(s);
      if inp.includeBranches {
        InsertBranches(s, Some(inp.aliases[alias.value].name));
      }
      if inp.includeCommits {
        InsertCommits(s, Some(inp.aliases[alias.value].name));
      }
    }

    method InsertSessions()
      requires Valid() && State() == Progress(G(), map[], map[], {}, map[], map[])
      modifies `order, `nodes, `links, `linkSeen, `agentNode, `agentAt, `ambiguous, `sessionNode, `temporal
      ensures Valid() && State() == AddSessions(inp, old(G()), inp.sessions)
    {
      hide SessionStep;
      for i := 0 to |inp.sessions|
        invariant Valid() && State() == AddSessions(inp, old(G()), inp.sessions[..i])
      {
        assert inp.sessions[..i + 1][..i] == inp.sessions[..i];
        InsertSession(inp.sessions[i]);
      }
      assert inp.sessions[..|inp.sessions|] == inp.sessions;
    }

    method InsertEvidence()
      requires Valid()
      modifies `order, `nodes, `links, `linkSeen
      ensures Valid() && G() == AddEvidence(old(State()), CoordinationIds(inp.evidence))
    {
      hide EvidenceId, CoordinationIds, Linked;
      var ids := CoordinationIds(inp.evidence);
      for i := 0 to |ids|
        invariant Valid() && G() == AddEvidence(old(State()), ids[..i])
      {
        assert ids[..i + 1][..i] == ids[..i];
        var id := ids[i];
        if id !in ambiguous && id in agentNode {
          InsertNode(EvidenceId(id), EVIDENCE_NODE);
          InsertEdge(Edge(agentNode[id], EvidenceId(id), RegisteredIn, NO_STAMP));
        }
      }
      assert ids[..|ids|] == ids;
    }

    method InsertParents(child: string, parents: seq<string>)
      requires Valid()
      modifies `order, `nodes, `links, `linkSeen
      ensures Valid() && G() == AddParents(inp, old(G()), child, parents)
    {
      for i := 0 to |parents|
        invariant Valid() && G() == AddParents(inp, old(G()), child, parents[..i])
      {
        assert parents[..i + 1][..i] == parents[..i];
        InsertNode(NodeId(Commit, parents[i]), SkeletonCommit(inp, parents[i], None, NO_STAMP));
        InsertEdge(Edge(child, NodeId(Commit, parents[i]), CommitParent, NO_STAMP));
      }
      assert parents[..|parents|] == parents;
    }

    method InsertLogCommit(c: LogCommit)
      requires Valid()
      modifies `order, `nodes, `links, `linkSeen
      ensures Valid() && G() == AddLogCommit(inp, old(G()), c)
    {
      var id := NodeId(Commit, c.sha);
      var stamp := CommitStamp(times, c.sha);
      if id in nodes {
        if nodes[id].subject.None? && c.subject.Some? {
          nodes := nodes[id := nodes[id].(subject := c.subject)];
        }
        if nodes[id].stamp.t.None? && stamp != NO_STAMP {
          nodes := nodes[id := nodes[id].(stamp := stamp)];
        }
        assert nodes == old(nodes)[id := Enrich(inp, old(nodes)[id], c)];
      }
      InsertNode(id, SkeletonCommit(inp, c.sha, c.subject, stamp));
      InsertParents(id, c.parents);
    }

    method InsertLog()
      requires Valid()
      modifies `order, `nodes, `links, `linkSeen
      ensures Valid() && G() == AddLog(inp, old(G()), inp.commits)
    {
      hide AddLogCommit;
      for i := 0 to |inp.commits|
        invariant Valid() && G() == AddLog(inp, old(G()), inp.commits[..i])
      {
        assert inp.commits[..i + 1][..i] == inp.commits[..i];
        InsertLogCommit(inp.commits[i]);
      }
      assert inp.commits[..|inp.commits|] == inp.commits;
    }

    method InsertHeads()
      requires Valid()
      modifies `order, `nodes, `links, `linkSeen
      ensures Valid() && G() == AddHeads(inp, old(G()), inp.heads)
    {
      for i := 0 to |inp.heads|
        invariant Valid() && G() == AddHeads(inp, old(G()), inp.heads[..i])
      {
        assert inp.heads[..i + 1][..i] == inp.heads[..i];
        var h := inp.heads[i];
        InsertNode(BranchId(inp, h.name), Plain(Branch, h.name, LastLane(inp)).(skeleton := true));
        InsertNode(NodeId(Commit, h.sha), SkeletonCommit(inp, h.sha, None, NO_STAMP));
        InsertEdge(Edge(BranchId(inp, h.name), NodeId(Commit, h.sha), BranchHead, NO_STAMP));
      }
      assert inp.heads[..|inp.heads|] == inp.heads;
    }

    method InsertDerived(ghost b: Progress)
      requires Valid() && sessionNode == b.sessionNode && temporal == b.temporal
      modifies `links, `linkSeen
      ensures Valid() && G() == AddAllDerived(b, old(G()), inp.sessions)
    {
      for i := 0 to |inp.sessions|
        invariant Valid() && G() == AddAllDerived(b, old(G()), inp.sessions[..i])
      {
        assert inp.sessions[..i + 1][..i] == inp.sessions[..i];
        var s := inp.sessions[i];
        if s.parentThread.Some? && s.parentThread.value != "" {
          if s.sessionId in sessionNode && s.parentThread.value in sessionNode {
            var child, parent := sessionNode[s.sessionId], sessionNode[s.parentThread.value];
            if child != "" && parent != "" && child != parent {
              InsertEdge(Edge(child, parent, DerivedFrom,
                              if s.sessionId in temporal then temporal[s.sessionId] else NO_STAMP));
            }
          }
        }
      }
      assert inp.sessions[..|inp.sessions|] == inp.sessions;
    }

    /** Commits by session, sessions by branch and sessions by agent, in edge order. */
    method IndexLinks() returns (x: Index)
      ensures Indexes(x, links)
    {
      hide Indexes;
      x := Index(map[], map[], map[]);
      IndexNothing();
      for i := 0 to |links|
        invariant Indexes(x, links[..i])
      {
        assert links[..i + 1][..i] == links[..i];
        IndexStep(x, links[..i + 1]);
        var e := links[i];
        match e.relation
        case Produced => x := x.(produced := PushTo(x.produced, e.source, e.target));
        case TouchedBranch => x := x.(touched := PushTo(x.touched, e.target, e.source));
        case ConductedBy => x := x.(conducted := PushTo(x.conducted, e.target, e.source));
        case _ =>
      }
      assert links[..|links|] == links;
    }

    static lemma IndexNothing()
      ensures Indexes(Index(map[], map[], map[]), [])
    {
    }

    method CollectBounds(ids: seq<string>) returns (bounds: seq<Option<int>>)
      ensures bounds == BoundsOfAll(nodes, ids)
    {
      bounds := [];
      for i := 0 to |ids|
        invariant bounds == BoundsOfAll(nodes, ids[..i])
      {
        assert ids[..i + 1][..i] == ids[..i];
        bounds := bounds + BoundsOf(nodes, ids[i]);
      }
      assert ids[..|ids|] == ids;
    }

    method CollectStarts(ids: seq<string>) returns (bounds: seq<Option<int>>)
      ensures bounds == StartsOfAll(nodes, ids)
    {
      bounds := [];
      for i := 0 to |ids|
        invariant bounds == StartsOfAll(nodes, ids[..i])
      {
        assert ids[..i + 1][..i] == ids[..i];
        bounds := bounds + StartOf(nodes, ids[i]);
      }
      assert ids[..|ids|] == ids;
    }

    method CollectBranch(ids: seq<string>, x: Index) returns (bounds: seq<Option<int>>)
      requires Indexes(x, links)
      ensures bounds == TouchBounds(nodes, links, ids)
    {
      bounds := [];
      for i := 0 to |ids|
        invariant bounds == TouchBounds(nodes, links, ids[..i])
      {
        assert ids[..i + 1][..i] == ids[..i];
        var starts := CollectStarts(Lookup(x.produced, ids[i]));
        bounds := bounds + (BoundsOf(nodes, ids[i]) + starts);
      }
      assert ids[..|ids|] == ids;
    }

    method CollectSessions() returns (bounds: seq<Option<int>>)
      ensures bounds == SessionBounds(nodes, order)
    {
      bounds := [];
      for i := 0 to |order|
        invariant bounds == SessionBounds(nodes, order[..i])
      {
        assert order[..i + 1][..i] == order[..i];
        if order[i] in nodes && nodes[order[i]].kind == Session {
          bounds := bounds + BoundsOf(nodes, order[i]);
        }
      }
      assert order[..|order|] == order;
    }

    /** The span of one container node, from the indexes. */
    method SpanOf(id: string, sessions: seq<Option<int>>, x: Index) returns (n: Node)
      requires id in nodes && Indexes(x, links)
      ensures n == Spanned(G(), id, sessions)
    {
      hide Envelope, Lookup, BranchBounds, AgentBounds;
      n := nodes[id];
      var bounds := sessions;
      if n.kind == Branch {
        bounds := CollectBranch(Lookup(x.touched, id), x);
        BranchBoundsByList(nodes, links, links, id);
      } else if n.kind == Agent {
        bounds := CollectBounds(Lookup(x.conducted, id));
        AgentBoundsByList(nodes, links, id);
      } else if n.kind != Project {
        return;
      }
      var stamp := EnvelopeOf(bounds);
      if stamp.t.Some? {
        n := n.(stamp := stamp);
      }
    }

    method DeriveSpans()
      modifies `nodes
      ensures G() == SpanNodes(old(G()), SessionBounds(old(nodes), order), order)
    {
      hide Spanned, Indexes;
      var x := IndexLinks();
      var sessions := CollectSessions();
      for i := 0 to |order|
        invariant G() == SpanNodes(old(G()), sessions, order[..i])
      {
        assert order[..i + 1][..i] == order[..i];
        if order[i] in nodes {
          var n := SpanOf(order[i], sessions, x);
          nodes := nodes[order[i] := n];
        }
      }
      assert order[..|order|] == order;
    }

    method StampTrust()
      modifies `nodes
      ensures G() == TrustNodes(old(G()), order)
    {
      for i := 0 to |order|
        invariant G() == TrustNodes(old(G()), order[..i])
      {
        assert order[..i + 1][..i] == order[..i];
        var id := order[i];
        if id in nodes {
          if nodes[id].trust.None? && EarnedKind(nodes[id].kind) {
            nodes := nodes[id := nodes[id].(trust := Some(Earned))];
          } else {
            assert nodes[id := nodes[id]] == nodes;
          }
        }
      }
      assert order[..|order|] == order;
    }
  }

  /** The whole of `buildProjectGraph`. */
  method BuildProjectGraph(inp: Input) returns (g: Graph)
    ensures g == Build(inp)
  {
    hide AddRepos, ChainRepos, AddSessions, AddEvidence, AddLog, AddHeads, AddAllDerived, SpanNodes, TrustNodes,
         CoordinationIds, SessionBounds;
    var b := new Builder(inp);
    b.InsertNode(ProjectId(inp), Plain(Project, inp.title, None));
    b.InsertRepos();
    b.InsertSessions();
    ghost var p := b.State();
    b.InsertEvidence();
    if inp.includeCommits {
      b.InsertLog();
    }
    if inp.includeBranches {
      b.InsertHeads();
    }
    b.InsertDerived(p);
    b.DeriveSpans();
    b.StampTrust();
    return Graph(b.order, b.nodes, b.links);
  }
}
