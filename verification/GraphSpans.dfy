/**
 The spans of branches and of the project (packages/agent-stats/src/project-graph.ts)
 in terms of the sessions of the input, their branches and their commits.
 */
module GraphSpans {
  import opened Common
  import opened ProjectGraph
  import opened GraphLaws
  import opened GraphTheorems
  import opened GraphEdges
  import opened GraphLinks
  import opened GraphCommits

  // ----- what the input says -----

  /** The interval of a session's node: that of the first in-identity session it stands for. */
  ghost function Interval(inp: Input, s: SessionInput): seq<Option<int>> {
    StampBounds(FirstStamp(inp, inp.sessions, SessionId(s)))
  }

  /** The intervals of all in-identity sessions. */
  ghost function SessionTimes(inp: Input, sessions: seq<SessionInput>): seq<Option<int>> {
    if sessions == [] then []
    else
      var s := sessions[|sessions| - 1];
      SessionTimes(inp, sessions[..|sessions| - 1]) + if InIdentity(inp, s) then Interval(inp, s) else []
  }

  /** The dates of the commits printed by the in-identity sessions that a node stands for. */
  function CommitTimes(inp: Input, shas: seq<string>): seq<Option<int>> {
    if shas == [] then []
    else CommitTimes(inp, shas[..|shas| - 1]) + [FinalStamp(inp, PrintedNode(inp, shas[|shas| - 1])).t]
  }

  function ProducedTimes(inp: Input, sessions: seq<SessionInput>, node: string): seq<Option<int>> {
    if sessions == [] || !inp.includeCommits then []
    else
      var s := sessions[|sessions| - 1];
      ProducedTimes(inp, sessions[..|sessions| - 1], node) +
      if InIdentity(inp, s) && SessionId(s) == node then CommitTimes(inp, s.commitShas) else []
  }

  /** The session lists a branch of this node. */
  ghost predicate Lists(inp: Input, s: SessionInput, branch: string) {
    exists b :: b in s.branches && BranchId(inp, b) == branch
  }

  /** The intervals of the in-identity sessions that touched the branch, with the dates
      of the commits they produced. */
  ghost function BranchTimes(inp: Input, sessions: seq<SessionInput>, branch: string): seq<Option<int>> {
    if sessions == [] || !inp.includeBranches then []
    else
      var s := sessions[|sessions| - 1];
      BranchTimes(inp, sessions[..|sessions| - 1], branch) +
      if InIdentity(inp, s) && Lists(inp, s, branch)
      then Interval(inp, s) + ProducedTimes(inp, inp.sessions, SessionId(s)) else []
  }

  // ----- members -----

  lemma {:induction false} SessionTimesAre(inp: Input, sessions: seq<SessionInput>, v: Option<int>)
    ensures v in SessionTimes(inp, sessions) <==>
              exists s :: s in sessions && InIdentity(inp, s) && v in Interval(inp, s)
  {
    hide InIdentity, Interval;
    if sessions != [] {
      SessionTimesAre(inp, sessions[..|sessions| - 1], v);
      assert sessions == sessions[..|sessions| - 1] + [sessions[|sessions| - 1]];
    }
  }

  lemma {:induction false} CommitTimesAre(inp: Input, shas: seq<string>, v: Option<int>)
    ensures v in CommitTimes(inp, shas) <==> exists sha :: sha in shas && v == FinalStamp(inp, PrintedNode(inp, sha)).t
  {
    hide FinalStamp, PrintedNode;
    if shas != [] {
      CommitTimesAre(inp, shas[..|shas| - 1], v);
      assert shas == shas[..|shas| - 1] + [shas[|shas| - 1]];
    }
  }

  lemma {:induction false} ProducedTimesAre(inp: Input, sessions: seq<SessionInput>, node: string, v: Option<int>)
    ensures v in ProducedTimes(inp, sessions, node) <==>
              inp.includeCommits &&
              exists s :: s in sessions && InIdentity(inp, s) && SessionId(s) == node
                          && v in CommitTimes(inp, s.commitShas)
  {
    hide InIdentity, SessionId, CommitTimes;
    if sessions != [] {
      ProducedTimesAre(inp, sessions[..|sessions| - 1], node, v);
      assert sessions == sessions[..|sessions| - 1] + [sessions[|sessions| - 1]];
    }
  }

  lemma {:induction false} BranchTimesAre(inp: Input, sessions: seq<SessionInput>, branch: string, v: Option<int>)
    ensures v in BranchTimes(inp, sessions, branch) <==>
              inp.includeBranches &&
              exists s :: s in sessions && InIdentity(inp, s) && Lists(inp, s, branch)
                          && (v in Interval(inp, s) || v in ProducedTimes(inp, inp.sessions, SessionId(s)))
  {
    hide InIdentity, SessionId, Interval, ProducedTimes, Lists;
    if sessions != [] {
      BranchTimesAre(inp, sessions[..|sessions| - 1], branch, v);
      assert sessions == sessions[..|sessions| - 1] + [sessions[|sessions| - 1]];
    }
  }

  ghost predicate ProducedStart(nodes: map<string, Node>, links: seq<Edge>, session: string, v: Option<int>) {
    exists i | 0 <= i < |links| ::
      links[i].relation == Produced && links[i].source == session && v in StartOf(nodes, links[i].target)
  }

  lemma {:induction false} ProducedStartsAre(nodes: map<string, Node>, links: seq<Edge>, session: string,
                                            v: Option<int>)
    ensures v in ProducedStarts(nodes, links, session) <==> ProducedStart(nodes, links, session, v)
  {
    hide StartOf;
    if links != [] {
      var n := |links| - 1;
      ProducedStartsAre(nodes, links[..n], session, v);
      forall i | 0 <= i < n
        ensures links[..n][i] == links[i]
      {
      }
      assert ProducedStart(nodes, links, session, v) <==>
             ProducedStart(nodes, links[..n], session, v)
             || (links[n].relation == Produced && links[n].source == session && v in StartOf(nodes, links[n].target));
    }
  }

  /** The edge leads from a session that touched the branch and has the bound or a commit with it. */
  ghost predicate GivesBound(nodes: map<string, Node>, all: seq<Edge>, e: Edge, branch: string, v: Option<int>) {
    && e.relation == TouchedBranch && e.target == branch
    && (v in BoundsOf(nodes, e.source) || v in ProducedStarts(nodes, all, e.source))
  }

  ghost predicate BranchBound(nodes: map<string, Node>, all: seq<Edge>, links: seq<Edge>, branch: string,
                              v: Option<int>)
  {
    exists i | 0 <= i < |links| :: GivesBound(nodes, all, links[i], branch, v)
  }

  lemma BoundOfLast(nodes: map<string, Node>, all: seq<Edge>, links: seq<Edge>, branch: string, v: Option<int>)
    requires links != []
    ensures var n := |links| - 1;
            v in BranchBounds(nodes, all, links, branch) <==>
              v in BranchBounds(nodes, all, links[..n], branch) || GivesBound(nodes, all, links[n], branch, v)
  {
    hide BoundsOf, ProducedStarts;
  }

  lemma {:induction false} BranchBoundsAre(nodes: map<string, Node>, all: seq<Edge>, links: seq<Edge>, branch: string,
                                           v: Option<int>)
    ensures v in BranchBounds(nodes, all, links, branch) <==> BranchBound(nodes, all, links, branch, v)
  {
    hide GivesBound, BranchBounds;
    if links == [] {
      NoBoundYet(nodes, all, branch, v);
    } else {
      var n := |links| - 1;
      BranchBoundsAre(nodes, all, links[..n], branch, v);
      BoundOfLast(nodes, all, links, branch, v);
      forall i | 0 <= i < n
        ensures links[..n][i] == links[i]
      {
      }
    }
  }

  lemma NoBoundYet(nodes: map<string, Node>, all: seq<Edge>, branch: string, v: Option<int>)
    ensures v !in BranchBounds(nodes, all, [], branch)
  {
  }

  // ----- the finished structure against the input -----

  /** A produced-by edge of the structure leads to a commit that a session of the input printed. */
  lemma ProducedFrom(inp: Input, e: Edge) returns (s: SessionInput, sha: string)
    requires e in Structure(inp).links && e.relation == Produced
    ensures inp.includeCommits && s in inp.sessions && InIdentity(inp, s) && SessionId(s) == e.source
    ensures sha in s.commitShas && PrintedNode(inp, sha) == e.target
  {
    hide Structure, Build, InIdentity, KnownSha;
    BuildAt(inp);
    var i :| 0 <= i < |Structure(inp).links| && Structure(inp).links[i] == e;
    assert Linked(Structure(inp).links, e);
    EdgesIff(inp, e);
    var k :| 0 <= k < |inp.sessions| && InIdentity(inp, inp.sessions[k]) && GivesRise(inp, inp.sessions[k], e);
    s := inp.sessions[k];
    sha :| sha in s.commitShas && Joins(e, SessionId(s), NodeId(Commit, KnownSha(inp, sha)), Produced);
  }

  lemma ProducedEdge(inp: Input, s: SessionInput, sha: string) returns (i: nat)
    requires inp.includeCommits && s in inp.sessions && InIdentity(inp, s) && sha in s.commitShas
    ensures i < |Structure(inp).links|
    ensures Joins(Structure(inp).links[i], SessionId(s), PrintedNode(inp, sha), Produced)
  {
    hide Structure, Build, InIdentity, KnownSha;
    BuildAt(inp);
    var k :| 0 <= k < |inp.sessions| && inp.sessions[k] == s;
    var e := Edge(SessionId(s), NodeId(Commit, KnownSha(inp, sha)), Produced, NO_STAMP);
    assert GivesRise(inp, inp.sessions[k], e);
    EdgesIff(inp, e);
    i :| 0 <= i < |Structure(inp).links| && SameKey(Structure(inp).links[i], e);
  }

  lemma TouchedFrom(inp: Input, e: Edge) returns (s: SessionInput)
    requires e in Structure(inp).links && e.relation == TouchedBranch
    ensures inp.includeBranches && s in inp.sessions && InIdentity(inp, s) && SessionId(s) == e.source
    ensures Lists(inp, s, e.target)
  {
    hide Structure, Build, InIdentity;
    BuildAt(inp);
    var i :| 0 <= i < |Structure(inp).links| && Structure(inp).links[i] == e;
    assert Linked(Structure(inp).links, e);
    EdgesIff(inp, e);
    var k :| 0 <= k < |inp.sessions| && InIdentity(inp, inp.sessions[k]) && GivesRise(inp, inp.sessions[k], e);
    s := inp.sessions[k];
    var b :| b in s.branches && Joins(e, SessionId(s), BranchId(inp, b), TouchedBranch);
    assert BranchId(inp, b) == e.target;
  }

  lemma TouchedEdge(inp: Input, s: SessionInput, branch: string) returns (i: nat)
    requires inp.includeBranches && s in inp.sessions && InIdentity(inp, s) && Lists(inp, s, branch)
    ensures i < |Structure(inp).links|
    ensures var e := Structure(inp).links[i];
            e.relation == TouchedBranch && e.source == SessionId(s) && e.target == branch
  {
    hide Structure, Build, InIdentity;
    BuildAt(inp);
    var k :| 0 <= k < |inp.sessions| && inp.sessions[k] == s;
    var b :| b in s.branches && BranchId(inp, b) == branch;
    var e := Edge(SessionId(s), BranchId(inp, b), TouchedBranch, NO_STAMP);
    assert GivesRise(inp, inp.sessions[k], e);
    EdgesIff(inp, e);
    i :| 0 <= i < |Structure(inp).links| && SameKey(Structure(inp).links[i], e);
  }

  lemma CommitStart(inp: Input, e: Edge)
    requires e in Structure(inp).links && e.relation == Produced
    ensures StartOf(Structure(inp).nodes, e.target) == [FinalStamp(inp, e.target).t]
  {
    hide Structure, FinalStamp;
    StructureHolds(inp);
    var i :| 0 <= i < |Structure(inp).links| && Structure(inp).links[i] == e;
    assert EdgeOk(Structure(inp), Structure(inp).links[i]);
    StructureStamp(inp, e.target);
  }

  lemma ProducedIff(inp: Input, node: string, v: Option<int>)
    ensures var g := Structure(inp);
            v in ProducedStarts(g.nodes, g.links, node) <==> v in ProducedTimes(inp, inp.sessions, node)
  {
    hide Structure, InIdentity, FinalStamp, PrintedNode, ProducedStarts, ProducedTimes, CommitTimes, StartOf, SessionId;
    var g := Structure(inp);
    ProducedStartsAre(g.nodes, g.links, node, v);
    ProducedTimesAre(inp, inp.sessions, node, v);
    if ProducedStart(g.nodes, g.links, node, v) {
      var i :| 0 <= i < |g.links| && g.links[i].relation == Produced && g.links[i].source == node
               && v in StartOf(g.nodes, g.links[i].target);
      var s, sha := ProducedFrom(inp, g.links[i]);
      CommitStart(inp, g.links[i]);
      CommitTimesAre(inp, s.commitShas, v);
    }
    if v in ProducedTimes(inp, inp.sessions, node) {
      var s :| s in inp.sessions && InIdentity(inp, s) && SessionId(s) == node && v in CommitTimes(inp, s.commitShas);
      CommitTimesAre(inp, s.commitShas, v);
      var sha :| sha in s.commitShas && v == FinalStamp(inp, PrintedNode(inp, sha)).t;
      var i := ProducedEdge(inp, s, sha);
      CommitStart(inp, g.links[i]);
    }
  }

  lemma SessionBoundsAre(inp: Input, s: SessionInput)
    requires s in inp.sessions && InIdentity(inp, s)
    ensures BoundsOf(Structure(inp).nodes, SessionId(s)) == Interval(inp, s)
  {
    hide Structure, InIdentity, FirstStamp;
    SessionNodeStamp(inp, s);
  }

  lemma BranchBoundIff(inp: Input, branch: string, v: Option<int>)
    ensures var g := Structure(inp);
            v in BranchBounds(g.nodes, g.links, g.links, branch) <==> v in BranchTimes(inp, inp.sessions, branch)
  {
    hide Structure, InIdentity, Interval, ProducedStarts, ProducedTimes, BranchBounds, BranchTimes, BoundsOf, Lists,
      SessionId;
    var g := Structure(inp);
    BranchBoundsAre(g.nodes, g.links, g.links, branch, v);
    BranchTimesAre(inp, inp.sessions, branch, v);
    if BranchBound(g.nodes, g.links, g.links, branch, v) {
      var i :| 0 <= i < |g.links| && GivesBound(g.nodes, g.links, g.links[i], branch, v);
      var s := TouchedFrom(inp, g.links[i]);
      SessionBoundsAre(inp, s);
      ProducedIff(inp, SessionId(s), v);
    }
    if v in BranchTimes(inp, inp.sessions, branch) {
      var s :| s in inp.sessions && InIdentity(inp, s) && Lists(inp, s, branch)
               && (v in Interval(inp, s) || v in ProducedTimes(inp, inp.sessions, SessionId(s)));
      var i := TouchedEdge(inp, s, branch);
      SessionBoundsAre(inp, s);
      ProducedIff(inp, SessionId(s), v);
      assert GivesBound(g.nodes, g.links, g.links[i], branch, v);
    }
  }

  /** A branch spans exactly the in-identity sessions that touched it and the dated
      commits these produced: the tightest interval around them, or none. */
  lemma BranchSpanOfItsSessions(inp: Input, branch: string)
    requires branch in Build(inp).nodes && Build(inp).nodes[branch].kind == Branch
    ensures Hull(Build(inp).nodes[branch].stamp, BranchTimes(inp, inp.sessions, branch))
  {
    hide Build, Structure, Hull, BranchBounds, BranchTimes;
    BranchSpanIsHull(inp, branch);
    var bounds := BranchBounds(Structure(inp).nodes, Structure(inp).links, Structure(inp).links, branch);
    forall v
      ensures v in bounds <==> v in BranchTimes(inp, inp.sessions, branch)
    {
      BranchBoundIff(inp, branch, v);
    }
    HullByMembers(Build(inp).nodes[branch].stamp, bounds, BranchTimes(inp, inp.sessions, branch));
  }

  // ----- the project -----

  lemma {:induction false} ParentsAddOnlyCommits(inp: Input, g: Graph, child: string, parents: seq<string>, id: string)
    requires KindOf(id) != Some(Commit)
    ensures id in AddParents(inp, g, child, parents).nodes <==> id in g.nodes
  {
    hide KindOf, Linked;
    if parents != [] {
      ParentsAddOnlyCommits(inp, g, child, parents[..|parents| - 1], id);
      IdsAnnounceKinds(Commit, parents[|parents| - 1]);
    }
  }

  lemma {:induction false} LogAddsOnlyCommits(inp: Input, g: Graph, commits: seq<LogCommit>, id: string)
    requires KindOf(id) != Some(Commit)
    ensures id in AddLog(inp, g, commits).nodes <==> id in g.nodes
  {
    hide KindOf, Linked, AddParents, Enrich;
    if commits != [] {
      var c := commits[|commits| - 1];
      var before := AddLog(inp, g, commits[..|commits| - 1]);
      LogAddsOnlyCommits(inp, g, commits[..|commits| - 1], id);
      IdsAnnounceKinds(Commit, c.sha);
      var own := NodeId(Commit, c.sha);
      var g1 :=
        if own in before.nodes then before.(nodes := before.nodes[own := Enrich(inp, before.nodes[own], c)])
        else before;
      var g2 := AddNode(g1, own, SkeletonCommit(inp, c.sha, c.subject, CommitStamp(Times(inp.commits), c.sha)));
      ParentsAddOnlyCommits(inp, g2, own, c.parents, id);
    }
  }

  lemma {:induction false} HeadsAddNoSessions(inp: Input, g: Graph, heads: seq<Head>, id: string)
    requires KindOf(id) == Some(Session)
    ensures id in AddHeads(inp, g, heads).nodes <==> id in g.nodes
  {
    hide KindOf, Linked;
    if heads != [] {
      var h := heads[|heads| - 1];
      HeadsAddNoSessions(inp, g, heads[..|heads| - 1], id);
      IdsAnnounceKinds(Branch, inp.canonicalId + "__" + h.name);
      IdsAnnounceKinds(Commit, h.sha);
    }
  }

  /** Session nodes come from the in-identity sessions alone. */
  lemma SessionNodeIff(inp: Input, id: string)
    requires KindOf(id) == Some(Session)
    ensures id in Structure(inp).nodes <==> SeenSession(inp, inp.sessions, id)
  {
    hide KindOf, AddSessions, AddEvidence, AddLog, AddHeads, AddAllDerived, CoordinationIds, AddRepos, ChainRepos,
      SeenSession, FirstStamp;
    var b := AfterSessions(inp);
    BaseHasOnlyRepos(inp, |inp.aliases|, id);
    ChainHasSameNodes(inp, AddRepos(inp, AddProject(inp), |inp.aliases|), |inp.aliases|);
    SessionNodesAreFirst(inp, Base(inp), inp.sessions, id);
    CoordinationMembers(inp.evidence, "");
    EvidenceAddsOnlyEvidence(b, CoordinationIds(inp.evidence), id);
    var g1 := AddEvidence(b, CoordinationIds(inp.evidence));
    LogAddsOnlyCommits(inp, g1, inp.commits, id);
    var g2 := if inp.includeCommits then AddLog(inp, g1, inp.commits) else g1;
    HeadsAddNoSessions(inp, g2, inp.heads, id);
    var g3 := if inp.includeBranches then AddHeads(inp, g2, inp.heads) else g2;
    DerivedAddNoNodes(b, g3, inp.sessions);
  }

  lemma SessionBoundIff(inp: Input, v: Option<int>)
    ensures v in AllSessionBounds(inp) <==> v in SessionTimes(inp, inp.sessions)
  {
    hide Structure, InIdentity, Interval, SessionTimes, SessionBounds, BoundsOf, KindOf;
    var g := Structure(inp);
    StructureHolds(inp);
    OrderListsNodes(g);
    SessionBoundsCover(g.nodes, g.order, v);
    SessionTimesAre(inp, inp.sessions, v);
    if v in AllSessionBounds(inp) {
      var id :| id in g.order && id in g.nodes && g.nodes[id].kind == Session && v in BoundsOf(g.nodes, id);
      assert NodeOk(id, g.nodes[id]);
      SessionNodeIff(inp, id);
      var k :| 0 <= k < |inp.sessions| && InIdentity(inp, inp.sessions[k]) && SessionId(inp.sessions[k]) == id;
      SessionBoundsAre(inp, inp.sessions[k]);
    }
    if v in SessionTimes(inp, inp.sessions) {
      var s :| s in inp.sessions && InIdentity(inp, s) && v in Interval(inp, s);
      SessionNodeStamp(inp, s);
      SessionBoundsAre(inp, s);
      IdsAnnounceKinds(Session, s.factId);
      assert NodeOk(SessionId(s), g.nodes[SessionId(s)]);
    }
  }

  /** The project spans exactly its in-identity sessions. */
  lemma ProjectSpanOfItsSessions(inp: Input)
    ensures ProjectId(inp) in Build(inp).nodes
    ensures Hull(Build(inp).nodes[ProjectId(inp)].stamp, SessionTimes(inp, inp.sessions))
  {
    hide Build, AllSessionBounds, Hull, SessionTimes;
    ProjectSpanIsHull(inp);
    forall v
      ensures v in AllSessionBounds(inp) <==> v in SessionTimes(inp, inp.sessions)
    {
      SessionBoundIff(inp, v);
    }
    HullByMembers(Build(inp).nodes[ProjectId(inp)].stamp, AllSessionBounds(inp), SessionTimes(inp, inp.sessions));
  }
}
