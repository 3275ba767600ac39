/**
 Which edges the passes of module ProjectGraph add
 (packages/agent-stats/src/project-graph.ts): of every relation exactly those
 that the input gives rise to.
 */
module GraphEdges {
  import opened Common
  import opened ProjectGraph
  import opened GraphLaws
  import opened GraphTheorems

  lemma LinkedAfter(g: Graph, added: Edge, e: Edge)
    ensures Linked(AddEdge(g, added).links, e) <==> Linked(g.links, e) || SameKey(added, e)
  {
    var h := AddEdge(g, added);
    if !Linked(g.links, added) {
      assert h.links[|g.links|] == added;
      if Linked(g.links, e) {
        var i :| 0 <= i < |g.links| && SameKey(g.links[i], e);
        assert h.links[i] == g.links[i];
      }
    }
  }

  predicate Joins(e: Edge, source: string, target: string, relation: Relation) {
    e.source == source && e.target == target && e.relation == relation
  }

  // ----- what in the input gives rise to an edge -----

  /** Every alias belongs to the project. */
  ghost predicate AliasBelongs(inp: Input, n: nat, e: Edge)
    requires n <= |inp.aliases|
  {
    inp.includeHubEdges && exists i: nat | i < n :: Joins(e, RepoId(inp, i), ProjectId(inp), BelongsTo)
  }

  /** Each alias is followed by the next one. */
  ghost predicate AliasFollows(inp: Input, n: nat, e: Edge)
    requires n <= |inp.aliases|
  {
    exists i: nat | i < n - 1 :: Joins(e, RepoId(inp, i), RepoId(inp, i + 1), RenameLineage)
  }

  /** The session worked in the repository of its alias. */
  ghost predicate WorksIn(inp: Input, s: SessionInput, e: Edge) {
    exists i: nat | i < |inp.aliases| ::
      SessionAlias(inp, s.cwds) == Some(i) && Joins(e, SessionId(s), RepoId(inp, i), WorkedIn)
  }

  ghost predicate TouchesSome(inp: Input, s: SessionInput, branches: seq<string>, e: Edge) {
    exists b :: b in branches && Joins(e, SessionId(s), BranchId(inp, b), TouchedBranch)
  }

  ghost predicate ProducesSome(inp: Input, s: SessionInput, shas: seq<string>, e: Edge) {
    exists sha :: sha in shas && Joins(e, SessionId(s), NodeId(Commit, KnownSha(inp, sha)), Produced)
  }

  /** The session gives rise to an edge with the key of `e`. */
  ghost predicate GivesRise(inp: Input, s: SessionInput, e: Edge) {
    match e.relation
    case WorkedIn => inp.includeHubEdges && WorksIn(inp, s, e)
    case ConductedBy => inp.includeHubEdges && Joins(e, SessionId(s), AgentNodeId(s.agentId), ConductedBy)
    case TouchedBranch => inp.includeBranches && TouchesSome(inp, s, s.branches, e)
    case Produced => inp.includeCommits && ProducesSome(inp, s, s.commitShas, e)
    case _ => false
  }

  /** Some in-identity session gives rise to the edge. */
  ghost predicate RisesFrom(inp: Input, sessions: seq<SessionInput>, e: Edge) {
    exists k | 0 <= k < |sessions| :: InIdentity(inp, sessions[k]) && GivesRise(inp, sessions[k], e)
  }

  /** A commit points at each parent that its log line lists. */
  ghost predicate ParentListed(child: string, parents: seq<string>, e: Edge) {
    exists p :: p in parents && Joins(e, child, NodeId(Commit, p), CommitParent)
  }

  ghost predicate LogLists(commits: seq<LogCommit>, e: Edge) {
    exists c :: c in commits && ParentListed(NodeId(Commit, c.sha), c.parents, e)
  }

  /** A branch points at its head. */
  ghost predicate HeadListed(inp: Input, heads: seq<Head>, e: Edge) {
    exists h :: h in heads && Joins(e, BranchId(inp, h.name), NodeId(Commit, h.sha), BranchHead)
  }

  /** Session `k` is the last in-identity session of the thread. */
  ghost predicate LastOf(inp: Input, sessions: seq<SessionInput>, thread: string, k: nat) {
    && k < |sessions| && InIdentity(inp, sessions[k]) && sessions[k].sessionId == thread
    && forall j | k < j < |sessions| :: !(InIdentity(inp, sessions[j]) && sessions[j].sessionId == thread)
  }

  /** The thread of the session derives from its parent thread, where both have a node
      and not the same one. */
  ghost predicate DerivesFrom(inp: Input, s: SessionInput, child: nat, parent: nat, e: Edge) {
    && s.parentThread.Some? && s.parentThread.value != ""
    && LastOf(inp, inp.sessions, s.sessionId, child) && LastOf(inp, inp.sessions, s.parentThread.value, parent)
    && SessionId(inp.sessions[child]) != SessionId(inp.sessions[parent])
    && Joins(e, SessionId(inp.sessions[child]), SessionId(inp.sessions[parent]), DerivedFrom)
  }

  ghost predicate DerivationListed(inp: Input, sessions: seq<SessionInput>, e: Edge) {
    exists s, child: nat, parent: nat :: s in sessions && DerivesFrom(inp, s, child, parent, e)
  }

  /** The input gives rise to an edge with the key of `e`; coordination evidence is left aside. */
  ghost predicate InputSays(inp: Input, e: Edge) {
    match e.relation
    case BelongsTo => AliasBelongs(inp, |inp.aliases|, e)
    case RenameLineage => AliasFollows(inp, |inp.aliases|, e)
    case CommitParent => inp.includeCommits && LogLists(inp.commits, e)
    case BranchHead => inp.includeBranches && HeadListed(inp, inp.heads, e)
    case DerivedFrom => DerivationListed(inp, inp.sessions, e)
    case RegisteredIn => false
    case _ => RisesFrom(inp, inp.sessions, e)
  }

  // ----- pass by pass -----

  lemma {:induction false} RepoLinks(inp: Input, g: Graph, n: nat, e: Edge)
    requires n <= |inp.aliases|
    ensures Linked(AddRepos(inp, g, n).links, e) <==> Linked(g.links, e) || AliasBelongs(inp, n, e)
  {
    hide Linked;
    if n > 0 {
      RepoLinks(inp, g, n - 1, e);
      var name := inp.aliases[n - 1].name;
      var g1 := AddNode(AddRepos(inp, g, n - 1), RepoId(inp, n - 1), Plain(Repo, name, Some(name)));
      LinkedAfter(g1, Edge(RepoId(inp, n - 1), ProjectId(inp), BelongsTo, NO_STAMP), e);
    }
  }

  lemma {:induction false} ChainLinks(inp: Input, g: Graph, n: nat, e: Edge)
    requires n <= |inp.aliases|
    ensures Linked(ChainRepos(inp, g, n).links, e) <==> Linked(g.links, e) || AliasFollows(inp, n, e)
  {
    hide Linked;
    if n > 1 {
      ChainLinks(inp, g, n - 1, e);
      LinkedAfter(ChainRepos(inp, g, n - 1), Edge(RepoId(inp, n - 2), RepoId(inp, n - 1), RenameLineage, NO_STAMP), e);
      assert Joins(e, RepoId(inp, n - 2), RepoId(inp, (n - 2) + 1), RenameLineage) ==> AliasFollows(inp, n, e);
    }
  }

  lemma {:induction false} TouchedLinks(inp: Input, g: Graph, s: SessionInput, branches: seq<string>, e: Edge)
    ensures Linked(AddBranches(inp, g, s, branches).links, e) <==>
              Linked(g.links, e) || TouchesSome(inp, s, branches, e)
  {
    hide Linked, Joins;
    if branches != [] {
      var n := |branches| - 1;
      TouchedLinks(inp, g, s, branches[..n], e);
      var g1 := AddNode(AddBranches(inp, g, s, branches[..n]), BranchId(inp, branches[n]),
                        Plain(Branch, branches[n], LaneOf(inp, s)));
      LinkedByKey(g1, Edge(SessionId(s), BranchId(inp, branches[n]), TouchedBranch, SessionStamp(s)), e);
      assert branches == branches[..n] + [branches[n]];
    }
  }

  lemma LinkedByKey(g: Graph, added: Edge, e: Edge)
    ensures Linked(AddEdge(g, added).links, e) <==>
              Linked(g.links, e) || Joins(e, added.source, added.target, added.relation)
  {
    LinkedAfter(g, added, e);
  }

  lemma {:induction false} ProducedLinks(inp: Input, g: Graph, s: SessionInput, shas: seq<string>, e: Edge)
    ensures Linked(AddCommits(inp, g, s, shas).links, e) <==> Linked(g.links, e) || ProducesSome(inp, s, shas, e)
  {
    hide Linked, Joins, KnownSha;
    if shas != [] {
      var n := |shas| - 1;
      ProducedLinks(inp, g, s, shas[..n], e);
      var g1 := AddNode(AddCommits(inp, g, s, shas[..n]), NodeId(Commit, KnownSha(inp, shas[n])),
                        SessionCommit(inp, s, shas[n]));
      LinkedByKey(g1, Edge(SessionId(s), NodeId(Commit, KnownSha(inp, shas[n])), Produced, SessionStamp(s)), e);
      assert shas == shas[..n] + [shas[n]];
    }
  }

  lemma SessionNodeLinks(inp: Input, g: Graph, s: SessionInput, e: Edge)
    ensures Linked(AddSessionNode(inp, g, s).links, e) <==>
              Linked(g.links, e) || (inp.includeHubEdges && WorksIn(inp, s, e))
  {
    hide Linked;
    var g1 := AddNode(g, SessionId(s), Plain(Session, SessionTitle(s), LaneOf(inp, s)).(stamp := SessionStamp(s)));
    var alias := SessionAlias(inp, s.cwds);
    if alias.Some? && alias.value < |inp.aliases| {
      LinkedByKey(g1, Edge(SessionId(s), RepoId(inp, alias.value), WorkedIn, SessionStamp(s)), e);
    }
  }

  lemma OtherRelations(inp: Input, s: SessionInput, e: Edge)
    ensures e.relation != WorkedIn ==> !WorksIn(inp, s, e)
    ensures e.relation != TouchedBranch ==> !TouchesSome(inp, s, s.branches, e)
    ensures e.relation != Produced ==> !ProducesSome(inp, s, s.commitShas, e)
  {
  }

  lemma SessionLinks(inp: Input, g: Graph, s: SessionInput, e: Edge)
    ensures Linked(SessionGraph(inp, g, s).links, e) <==> Linked(g.links, e) || GivesRise(inp, s, e)
  {
    hide Linked, WorksIn, TouchesSome, ProducesSome, AddBranches, AddCommits, AddSessionNode;
    SessionNodeLinks(inp, g, s, e);
    var g1 := AddNode(AddSessionNode(inp, g, s), AgentNodeId(s.agentId), Plain(Agent, s.agentId, None));
    LinkedByKey(g1, Edge(SessionId(s), AgentNodeId(s.agentId), ConductedBy, SessionStamp(s)), e);
    var g2 := AddAgentNode(inp, AddSessionNode(inp, g, s), s);
    TouchedLinks(inp, g2, s, s.branches, e);
    var g3 := if inp.includeBranches then AddBranches(inp, g2, s, s.branches) else g2;
    ProducedLinks(inp, g3, s, s.commitShas, e);
    OtherRelations(inp, s, e);
  }

  lemma {:induction false} AllSessionLinks(inp: Input, g: Graph, sessions: seq<SessionInput>, e: Edge)
    ensures Linked(AddSessions(inp, g, sessions).g.links, e) <==> Linked(g.links, e) || RisesFrom(inp, sessions, e)
  {
    hide Linked, SessionGraph, InIdentity, GivesRise;
    if sessions != [] {
      var n := |sessions| - 1;
      AllSessionLinks(inp, g, sessions[..n], e);
      SessionLinks(inp, AddSessions(inp, g, sessions[..n]).g, sessions[n], e);
      assert RisesFrom(inp, sessions, e) <==>
             RisesFrom(inp, sessions[..n], e) || (InIdentity(inp, sessions[n]) && GivesRise(inp, sessions[n], e))
      by {
        forall k | 0 <= k < n
          ensures sessions[..n][k] == sessions[k]
        {
        }
      }
    }
  }

  /** The evidence pass links a listed id to the agent node that carries it. */
  predicate Registers(b: Progress, id: string, e: Edge) {
    && id !in b.ambiguous && id in b.agentNode
    && Joins(e, b.agentNode[id], EvidenceId(id), RegisteredIn)
  }

  ghost predicate RegistersSome(b: Progress, ids: seq<string>, e: Edge) {
    exists id :: id in ids && Registers(b, id, e)
  }

  lemma {:induction false} EvidenceLinks(b: Progress, ids: seq<string>, e: Edge)
    ensures Linked(AddEvidence(b, ids).links, e) <==> Linked(b.g.links, e) || RegistersSome(b, ids, e)
  {
    hide Linked, Joins;
    if ids != [] {
      var n := |ids| - 1;
      EvidenceLinks(b, ids[..n], e);
      assert ids == ids[..n] + [ids[n]];
      if ids[n] !in b.ambiguous && ids[n] in b.agentNode {
        var g1 := AddNode(AddEvidence(b, ids[..n]), EvidenceId(ids[n]), EVIDENCE_NODE);
        LinkedByKey(g1, Edge(b.agentNode[ids[n]], EvidenceId(ids[n]), RegisteredIn, NO_STAMP), e);
      }
      assert RegistersSome(b, ids, e) <==> RegistersSome(b, ids[..n], e) || Registers(b, ids[n], e);
    }
  }

  lemma {:induction false} ParentLinks(inp: Input, g: Graph, child: string, parents: seq<string>, e: Edge)
    ensures Linked(AddParents(inp, g, child, parents).links, e) <==>
              Linked(g.links, e) || ParentListed(child, parents, e)
  {
    hide Linked, Joins;
    if parents != [] {
      var n := |parents| - 1;
      ParentLinks(inp, g, child, parents[..n], e);
      var id := NodeId(Commit, parents[n]);
      var g1 := AddNode(AddParents(inp, g, child, parents[..n]), id, SkeletonCommit(inp, parents[n], None, NO_STAMP));
      LinkedByKey(g1, Edge(child, id, CommitParent, NO_STAMP), e);
      assert parents == parents[..n] + [parents[n]];
    }
  }

  lemma {:induction false} LogLinks(inp: Input, g: Graph, commits: seq<LogCommit>, e: Edge)
    ensures Linked(AddLog(inp, g, commits).links, e) <==> Linked(g.links, e) || LogLists(commits, e)
  {
    hide Linked, Enrich, SkeletonCommit, ParentListed;
    if commits != [] {
      var n := |commits| - 1;
      LogLinks(inp, g, commits[..n], e);
      var g1 := AddLog(inp, g, commits[..n]);
      var c, id := commits[n], NodeId(Commit, commits[n].sha);
      var g2 := if id in g1.nodes then g1.(nodes := g1.nodes[id := Enrich(inp, g1.nodes[id], c)]) else g1;
      var g3 := AddNode(g2, id, SkeletonCommit(inp, c.sha, c.subject, CommitStamp(Times(inp.commits), c.sha)));
      ParentLinks(inp, g3, id, c.parents, e);
      assert commits == commits[..n] + [commits[n]];
    }
  }

  lemma {:induction false} HeadLinks(inp: Input, g: Graph, heads: seq<Head>, e: Edge)
    ensures Linked(AddHeads(inp, g, heads).links, e) <==> Linked(g.links, e) || HeadListed(inp, heads, e)
  {
    hide Linked, Joins;
    if heads != [] {
      var n := |heads| - 1;
      HeadLinks(inp, g, heads[..n], e);
      var b, c := BranchId(inp, heads[n].name), NodeId(Commit, heads[n].sha);
      var g1 := AddNode(AddHeads(inp, g, heads[..n]), b,
                        Plain(Branch, heads[n].name, LastLane(inp)).(skeleton := true));
      var g2 := AddNode(g1, c, SkeletonCommit(inp, heads[n].sha, None, NO_STAMP));
      LinkedByKey(g2, Edge(b, c, BranchHead, NO_STAMP), e);
      assert heads == heads[..n] + [heads[n]];
    }
  }

  // ----- threads -----

  lemma LastStep(inp: Input, sessions: seq<SessionInput>, thread: string, k: nat)
    requires sessions != []
    ensures var n := |sessions| - 1;
            LastOf(inp, sessions, thread, k) <==>
              if InIdentity(inp, sessions[n]) && sessions[n].sessionId == thread then k == n
              else LastOf(inp, sessions[..n], thread, k)
  {
    hide InIdentity;
    var n := |sessions| - 1;
    forall j | 0 <= j < n
      ensures sessions[..n][j] == sessions[j]
    {
    }
  }

  /** The maps know the node and the interval of the last in-identity session of a thread. */
  lemma {:induction false} ThreadsKnow(inp: Input, g: Graph, sessions: seq<SessionInput>, thread: string)
    ensures var b := AddSessions(inp, g, sessions);
            && (thread in b.sessionNode <==> thread in b.temporal)
            && (thread in b.sessionNode <==> exists k: nat :: LastOf(inp, sessions, thread, k))
            && forall k: nat | LastOf(inp, sessions, thread, k) ::
                 b.sessionNode[thread] == SessionId(sessions[k]) && b.temporal[thread] == SessionStamp(sessions[k])
  {
    hide InIdentity, SessionGraph, SessionId, SessionStamp, LastOf;
    if sessions == [] {
      NobodyIsLast(inp, thread);
    } else {
      var n := |sessions| - 1;
      ThreadsKnow(inp, g, sessions[..n], thread);
      forall k: nat
        ensures LastOf(inp, sessions, thread, k) <==>
                  if InIdentity(inp, sessions[n]) && sessions[n].sessionId == thread then k == n
                  else LastOf(inp, sessions[..n], thread, k)
      {
        LastStep(inp, sessions, thread, k);
      }
      LastInRange(inp, sessions[..n], thread);
      if InIdentity(inp, sessions[n]) && sessions[n].sessionId == thread {
        assert LastOf(inp, sessions, thread, n);
      }
    }
  }

  lemma NobodyIsLast(inp: Input, thread: string)
    ensures forall k: nat :: !LastOf(inp, [], thread, k)
  {
  }

  lemma LastInRange(inp: Input, sessions: seq<SessionInput>, thread: string)
    ensures forall k: nat | LastOf(inp, sessions, thread, k) :: k < |sessions|
  {
  }

  lemma SessionIdIsNotEmpty(s: SessionInput)
    ensures SessionId(s) != ""
  {
  }

  /** The parentage pass links child and parent where both threads have a node and not the same one. */
  predicate Derives(b: Progress, s: SessionInput, e: Edge) {
    && s.parentThread.Some? && s.parentThread.value != ""
    && s.sessionId in b.sessionNode && s.parentThread.value in b.sessionNode
    && b.sessionNode[s.sessionId] != b.sessionNode[s.parentThread.value]
    && b.sessionNode[s.sessionId] != "" && b.sessionNode[s.parentThread.value] != ""
    && Joins(e, b.sessionNode[s.sessionId], b.sessionNode[s.parentThread.value], DerivedFrom)
  }

  lemma {:induction false} DerivedLinks(b: Progress, g: Graph, sessions: seq<SessionInput>, e: Edge)
    ensures Linked(AddAllDerived(b, g, sessions).links, e) <==>
              Linked(g.links, e) || exists s :: s in sessions && Derives(b, s, e)
  {
    hide Linked, Joins;
    if sessions != [] {
      var n := |sessions| - 1;
      DerivedLinks(b, g, sessions[..n], e);
      DerivedLink(b, AddAllDerived(b, g, sessions[..n]), sessions[n], e);
      assert sessions == sessions[..n] + [sessions[n]];
      assert (exists s :: s in sessions && Derives(b, s, e)) <==>
             (exists s :: s in sessions[..n] && Derives(b, s, e)) || Derives(b, sessions[n], e);
    }
  }

  lemma DerivedLink(b: Progress, g: Graph, s: SessionInput, e: Edge)
    ensures Linked(AddDerived(b, g, s).links, e) <==> Linked(g.links, e) || Derives(b, s, e)
  {
    hide Linked, Joins;
    if s.parentThread.Some? && s.sessionId in b.sessionNode && s.parentThread.value in b.sessionNode {
      LinkedByKey(g, Edge(b.sessionNode[s.sessionId], b.sessionNode[s.parentThread.value], DerivedFrom,
                          if s.sessionId in b.temporal then b.temporal[s.sessionId] else NO_STAMP), e);
    }
  }

  lemma DerivesIff(inp: Input, s: SessionInput, e: Edge)
    ensures Derives(AfterSessions(inp), s, e) <==>
              exists child: nat, parent: nat :: DerivesFrom(inp, s, child, parent, e)
  {
    hide LastOf, Joins, SessionId, AddSessions, Base;
    var b := AfterSessions(inp);
    ThreadsKnow(inp, Base(inp), inp.sessions, s.sessionId);
    LastInRange(inp, inp.sessions, s.sessionId);
    if s.parentThread.Some? {
      ThreadsKnow(inp, Base(inp), inp.sessions, s.parentThread.value);
      LastInRange(inp, inp.sessions, s.parentThread.value);
    }
    if Derives(b, s, e) {
      var child: nat :| LastOf(inp, inp.sessions, s.sessionId, child);
      var parent: nat :| LastOf(inp, inp.sessions, s.parentThread.value, parent);
      assert DerivesFrom(inp, s, child, parent, e);
    }
    if child: nat, parent: nat :| DerivesFrom(inp, s, child, parent, e) {
      SessionIdIsNotEmpty(inp.sessions[child]);
      SessionIdIsNotEmpty(inp.sessions[parent]);
    }
  }

  lemma AllDerivations(inp: Input, g: Graph, e: Edge)
    ensures Linked(AddAllDerived(AfterSessions(inp), g, inp.sessions).links, e) <==>
              Linked(g.links, e) || DerivationListed(inp, inp.sessions, e)
  {
    hide Linked, Derives, DerivesFrom, AfterSessions;
    DerivedLinks(AfterSessions(inp), g, inp.sessions, e);
    forall s
      ensures Derives(AfterSessions(inp), s, e) <==>
                exists child: nat, parent: nat :: DerivesFrom(inp, s, child, parent, e)
    {
      DerivesIff(inp, s, e);
    }
  }

  // ----- all passes together -----

  lemma BaseLinks(inp: Input, e: Edge)
    ensures Linked(Base(inp).links, e) <==> AliasBelongs(inp, |inp.aliases|, e) || AliasFollows(inp, |inp.aliases|, e)
  {
    hide AddRepos, ChainRepos, AliasBelongs, AliasFollows;
    RepoLinks(inp, AddProject(inp), |inp.aliases|, e);
    ChainLinks(inp, AddRepos(inp, AddProject(inp), |inp.aliases|), |inp.aliases|, e);
  }

  /** The evidence pass has linked the key of `e`. */
  ghost predicate EvidenceSays(inp: Input, e: Edge) {
    RegistersSome(AfterSessions(inp), CoordinationIds(inp.evidence), e)
  }

  lemma EachOfItsRelation(inp: Input, e: Edge)
    ensures AliasBelongs(inp, |inp.aliases|, e) ==> e.relation == BelongsTo
    ensures AliasFollows(inp, |inp.aliases|, e) ==> e.relation == RenameLineage
    ensures RisesFrom(inp, inp.sessions, e) ==> e.relation in {WorkedIn, ConductedBy, TouchedBranch, Produced}
    ensures EvidenceSays(inp, e) ==> e.relation == RegisteredIn
    ensures LogLists(inp.commits, e) ==> e.relation == CommitParent
    ensures HeadListed(inp, inp.heads, e) ==> e.relation == BranchHead
    ensures DerivationListed(inp, inp.sessions, e) ==> e.relation == DerivedFrom
  {
    hide InIdentity, LastOf, CoordinationIds, AfterSessions;
  }

  lemma StructureLinks(inp: Input, e: Edge)
    ensures Linked(Structure(inp).links, e) <==> InputSays(inp, e) || EvidenceSays(inp, e)
  {
    hide Linked, AddEvidence, AddLog, AddHeads, AddAllDerived, AddSessions, Base, RisesFrom, RegistersSome, LogLists,
      HeadListed, DerivationListed, AliasBelongs, AliasFollows, CoordinationIds;
    BaseLinks(inp, e);
    AllSessionLinks(inp, Base(inp), inp.sessions, e);
    var g1 := WithEvidence(inp);
    EvidenceLinks(AfterSessions(inp), CoordinationIds(inp.evidence), e);
    LogLinks(inp, g1, inp.commits, e);
    var g2 := if inp.includeCommits then AddLog(inp, g1, inp.commits) else g1;
    HeadLinks(inp, g2, inp.heads, e);
    var g3 := if inp.includeBranches then AddHeads(inp, g2, inp.heads) else g2;
    AllDerivations(inp, g3, e);
    EachOfItsRelation(inp, e);
  }

  /** Whatever its relation, an edge is in the graph if and only if the input gives rise
      to it: aliases to their project and to the next alias; in-identity sessions to the
      repository, agent, branches and commits they name; commits to the parents listed
      in the log and branches to their heads; child threads to parent threads. */
  lemma EdgesIff(inp: Input, e: Edge)
    requires e.relation != RegisteredIn
    ensures Linked(Build(inp).links, e) <==> InputSays(inp, e)
  {
    hide Linked, Structure, Build, InputSays, EvidenceSays;
    BuildAt(inp);
    StructureLinks(inp, e);
    EachOfItsRelation(inp, e);
  }

  // ----- when -----

  /** The interval of a session: from its start, if that is known, to its end, if that is known too. */
  ghost predicate IntervalOf(stamp: Stamp, s: SessionInput) {
    && stamp.t == s.startedAt
    && (s.startedAt.Some? ==> stamp.tEnd == s.endedAt && stamp.src == Some(SessionStart))
    && (s.startedAt.None? ==> stamp.tEnd.None? && stamp.src.None?)
  }

  /** Edges are only added, with this stamp and a key that is new. */
  ghost predicate AddsNew(g: Graph, h: Graph, stamp: Stamp) {
    g.links <= h.links && forall e | e in h.links && e !in g.links :: e.stamp == stamp && !Linked(g.links, e)
  }

  lemma AddsNewTransitive(g: Graph, h: Graph, k: Graph, stamp: Stamp)
    requires AddsNew(g, h, stamp) && AddsNew(h, k, stamp)
    ensures AddsNew(g, k, stamp)
  {
    hide SameKey;
    forall e | e in k.links && e !in g.links
      ensures e.stamp == stamp && !Linked(g.links, e)
    {
      LinkedGrows(g.links, h.links, e);
    }
  }

  lemma LinkedGrows(a: seq<Edge>, b: seq<Edge>, e: Edge)
    requires a <= b
    ensures Linked(a, e) ==> Linked(b, e)
  {
    if Linked(a, e) {
      var i :| 0 <= i < |a| && SameKey(a[i], e);
      assert SameKey(b[i], e);
    }
  }

  /** One edge for a node that may be new. */
  lemma OneMore(g: Graph, id: string, n: Node, e: Edge)
    ensures AddsNew(g, AddEdge(AddNode(g, id, n), e), e.stamp)
    ensures AddsNew(g, AddNode(g, id, n), e.stamp)
  {
  }

  lemma {:induction false} BaseIsTimeless(inp: Input, g: Graph, n: nat)
    requires n <= |inp.aliases|
    ensures AddsNew(g, AddRepos(inp, g, n), NO_STAMP)
    ensures AddsNew(g, ChainRepos(inp, g, n), NO_STAMP)
  {
    hide Linked, AddNode, AddEdge, AddsNew;
    NothingNew(g, NO_STAMP);
    if n > 0 {
      BaseIsTimeless(inp, g, n - 1);
      var name := inp.aliases[n - 1].name;
      var before := AddRepos(inp, g, n - 1);
      OneMore(before, RepoId(inp, n - 1), Plain(Repo, name, Some(name)),
              Edge(RepoId(inp, n - 1), ProjectId(inp), BelongsTo, NO_STAMP));
      AddsNewTransitive(g, before, AddRepos(inp, g, n), NO_STAMP);
    }
    if n > 1 {
      var before := ChainRepos(inp, g, n - 1);
      OneEdge(before, Edge(RepoId(inp, n - 2), RepoId(inp, n - 1), RenameLineage, NO_STAMP));
      AddsNewTransitive(g, before, ChainRepos(inp, g, n), NO_STAMP);
    }
  }

  lemma NothingNew(g: Graph, stamp: Stamp)
    ensures AddsNew(g, g, stamp)
  {
  }

  lemma OneEdge(g: Graph, e: Edge)
    ensures AddsNew(g, AddEdge(g, e), e.stamp)
  {
  }

  lemma {:induction false} BranchesAreDated(inp: Input, g: Graph, s: SessionInput, branches: seq<string>)
    ensures AddsNew(g, AddBranches(inp, g, s, branches), SessionStamp(s))
  {
    hide Linked, AddNode, AddEdge, AddsNew;
    NothingNew(g, SessionStamp(s));
    if branches != [] {
      var n := |branches| - 1;
      BranchesAreDated(inp, g, s, branches[..n]);
      var before, b := AddBranches(inp, g, s, branches[..n]), branches[n];
      OneMore(before, BranchId(inp, b), Plain(Branch, b, LaneOf(inp, s)),
              Edge(SessionId(s), BranchId(inp, b), TouchedBranch, SessionStamp(s)));
      AddsNewTransitive(g, before, AddBranches(inp, g, s, branches), SessionStamp(s));
    }
  }

  lemma {:induction false} CommitsAreDated(inp: Input, g: Graph, s: SessionInput, shas: seq<string>)
    ensures AddsNew(g, AddCommits(inp, g, s, shas), SessionStamp(s))
  {
    hide Linked, AddNode, AddEdge, AddsNew, KnownSha;
    NothingNew(g, SessionStamp(s));
    if shas != [] {
      var n := |shas| - 1;
      CommitsAreDated(inp, g, s, shas[..n]);
      var before, id := AddCommits(inp, g, s, shas[..n]), NodeId(Commit, KnownSha(inp, shas[n]));
      OneMore(before, id, SessionCommit(inp, s, shas[n]), Edge(SessionId(s), id, Produced, SessionStamp(s)));
      AddsNewTransitive(g, before, AddCommits(inp, g, s, shas), SessionStamp(s));
    }
  }

  lemma SessionIsDated(inp: Input, g: Graph, s: SessionInput)
    ensures AddsNew(g, SessionGraph(inp, g, s), SessionStamp(s))
  {
    hide Linked, AddNode, AddEdge, AddsNew, SessionAlias, AddBranches, AddCommits;
    var stamp := SessionStamp(s);
    var node := Plain(Session, SessionTitle(s), LaneOf(inp, s)).(stamp := stamp);
    var alias := SessionAlias(inp, s.cwds);
    OneMore(g, SessionId(s), node, Edge(SessionId(s), "", WorkedIn, stamp));
    if alias.Some? && alias.value < |inp.aliases| {
      OneMore(g, SessionId(s), node, Edge(SessionId(s), RepoId(inp, alias.value), WorkedIn, stamp));
    }
    var g1 := AddSessionNode(inp, g, s);
    var agent := AgentNodeId(s.agentId);
    OneMore(g1, agent, Plain(Agent, s.agentId, None), Edge(SessionId(s), agent, ConductedBy, stamp));
    var g2 := AddAgentNode(inp, g1, s);
    AddsNewTransitive(g, g1, g2, stamp);
    BranchesAreDated(inp, g2, s, s.branches);
    var g3 := if inp.includeBranches then AddBranches(inp, g2, s, s.branches) else g2;
    NothingNew(g2, stamp);
    AddsNewTransitive(g, g2, g3, stamp);
    CommitsAreDated(inp, g3, s, s.commitShas);
    NothingNew(g3, stamp);
    AddsNewTransitive(g, g3, SessionGraph(inp, g, s), stamp);
  }

  /** Session `k` is the first in-identity session to give rise to the edge. */
  ghost predicate FirstToRise(inp: Input, sessions: seq<SessionInput>, e: Edge, k: nat) {
    && k < |sessions| && InIdentity(inp, sessions[k]) && GivesRise(inp, sessions[k], e)
    && forall j | 0 <= j < k :: !(InIdentity(inp, sessions[j]) && GivesRise(inp, sessions[j], e))
  }

  lemma {:induction false} SessionEdgesAreDated(inp: Input, g: Graph, sessions: seq<SessionInput>, e: Edge)
    returns (k: nat)
    requires e in AddSessions(inp, g, sessions).g.links && e !in g.links
    ensures FirstToRise(inp, sessions, e, k) && e.stamp == SessionStamp(sessions[k])
  {
    hide Linked, InIdentity, GivesRise, SessionGraph, SessionStamp;
    var n := |sessions| - 1;
    var before := AddSessions(inp, g, sessions[..n]).g;
    forall j | 0 <= j < n
      ensures sessions[..n][j] == sessions[j]
    {
    }
    if e in before.links {
      k := SessionEdgesAreDated(inp, g, sessions[..n], e);
    } else {
      k := n;
      SessionIsDated(inp, before, sessions[n]);
      AllSessionLinks(inp, g, sessions[..n], e);
      SessionLinks(inp, before, sessions[n], e);
      LinkedByItself(AddSessions(inp, g, sessions).g.links, e);
    }
  }

  lemma LinkedByItself(links: seq<Edge>, e: Edge)
    requires e in links
    ensures Linked(links, e)
  {
  }

  lemma {:induction false} EvidenceIsTimeless(b: Progress, ids: seq<string>)
    ensures AddsNew(b.g, AddEvidence(b, ids), NO_STAMP)
  {
    hide Linked, AddNode, AddEdge, AddsNew;
    NothingNew(b.g, NO_STAMP);
    if ids != [] {
      var n := |ids| - 1;
      EvidenceIsTimeless(b, ids[..n]);
      if ids[n] !in b.ambiguous && ids[n] in b.agentNode {
        var before := AddEvidence(b, ids[..n]);
        OneMore(before, EvidenceId(ids[n]), EVIDENCE_NODE,
                Edge(b.agentNode[ids[n]], EvidenceId(ids[n]), RegisteredIn, NO_STAMP));
        AddsNewTransitive(b.g, before, AddEvidence(b, ids), NO_STAMP);
      }
    }
  }

  lemma {:induction false} ParentsAreTimeless(inp: Input, g: Graph, child: string, parents: seq<string>)
    ensures AddsNew(g, AddParents(inp, g, child, parents), NO_STAMP)
  {
    hide Linked, AddNode, AddEdge, AddsNew;
    NothingNew(g, NO_STAMP);
    if parents != [] {
      var n := |parents| - 1;
      ParentsAreTimeless(inp, g, child, parents[..n]);
      var before, id := AddParents(inp, g, child, parents[..n]), NodeId(Commit, parents[n]);
      OneMore(before, id, SkeletonCommit(inp, parents[n], None, NO_STAMP), Edge(child, id, CommitParent, NO_STAMP));
      AddsNewTransitive(g, before, AddParents(inp, g, child, parents), NO_STAMP);
    }
  }

  lemma {:induction false} LogIsTimeless(inp: Input, g: Graph, commits: seq<LogCommit>)
    ensures AddsNew(g, AddLog(inp, g, commits), NO_STAMP)
  {
    hide Linked, AddParents, Enrich, SkeletonCommit;
    if commits != [] {
      var n := |commits| - 1;
      LogIsTimeless(inp, g, commits[..n]);
      var g1, c, id := AddLog(inp, g, commits[..n]), commits[n], NodeId(Commit, commits[n].sha);
      var g2 := if id in g1.nodes then g1.(nodes := g1.nodes[id := Enrich(inp, g1.nodes[id], c)]) else g1;
      var g3 := AddNode(g2, id, SkeletonCommit(inp, c.sha, c.subject, CommitStamp(Times(inp.commits), c.sha)));
      ParentsAreTimeless(inp, g3, id, c.parents);
      AddsNewTransitive(g, g3, AddLog(inp, g, commits), NO_STAMP);
    }
  }

  lemma {:induction false} HeadsAreTimeless(inp: Input, g: Graph, heads: seq<Head>)
    ensures AddsNew(g, AddHeads(inp, g, heads), NO_STAMP)
  {
    hide Linked, AddNode, AddEdge, AddsNew;
    NothingNew(g, NO_STAMP);
    if heads != [] {
      var n := |heads| - 1;
      HeadsAreTimeless(inp, g, heads[..n]);
      var before, b, c := AddHeads(inp, g, heads[..n]), BranchId(inp, heads[n].name), NodeId(Commit, heads[n].sha);
      var node := Plain(Branch, heads[n].name, LastLane(inp)).(skeleton := true);
      OneMore(before, b, node, Edge(b, c, BranchHead, NO_STAMP));
      var g1 := AddNode(before, b, node);
      OneMore(g1, c, SkeletonCommit(inp, heads[n].sha, None, NO_STAMP), Edge(b, c, BranchHead, NO_STAMP));
      AddsNewTransitive(before, g1, AddHeads(inp, g, heads), NO_STAMP);
      AddsNewTransitive(g, before, AddHeads(inp, g, heads), NO_STAMP);
    }
  }

  /** Session `m` is the first whose thread gives rise to the derivation. */
  ghost predicate FirstToDerive(inp: Input, e: Edge, m: nat, child: nat, parent: nat) {
    && m < |inp.sessions| && DerivesFrom(inp, inp.sessions[m], child, parent, e)
    && forall j, c: nat, p: nat | 0 <= j < m :: !DerivesFrom(inp, inp.sessions[j], c, p, e)
  }

  lemma {:induction false} DerivedEdgesAreDated(b: Progress, g: Graph, sessions: seq<SessionInput>, e: Edge)
    returns (m: nat)
    requires e in AddAllDerived(b, g, sessions).links && e !in g.links
    ensures m < |sessions| && Derives(b, sessions[m], e) && forall j | 0 <= j < m :: !Derives(b, sessions[j], e)
    ensures e.stamp == if sessions[m].sessionId in b.temporal then b.temporal[sessions[m].sessionId] else NO_STAMP
  {
    hide Linked, SameKey;
    var n := |sessions| - 1;
    var before := AddAllDerived(b, g, sessions[..n]);
    forall j | 0 <= j < n
      ensures sessions[..n][j] == sessions[j]
    {
    }
    if e in before.links {
      m := DerivedEdgesAreDated(b, g, sessions[..n], e);
    } else {
      m := n;
      DerivedLinks(b, g, sessions[..n], e);
    }
  }

  ghost predicate DatedBySession(inp: Input, e: Edge) {
    exists k: nat :: FirstToRise(inp, inp.sessions, e, k) && IntervalOf(e.stamp, inp.sessions[k])
  }

  ghost predicate DatedByChild(inp: Input, e: Edge) {
    exists m: nat, child: nat, parent: nat ::
      FirstToDerive(inp, e, m, child, parent) && IntervalOf(e.stamp, inp.sessions[child])
  }

  lemma SessionStampIs(s: SessionInput)
    ensures IntervalOf(SessionStamp(s), s)
  {
  }

  lemma DerivedIsDated(inp: Input, g: Graph, e: Edge)
    requires e in AddAllDerived(AfterSessions(inp), g, inp.sessions).links && e !in g.links
    ensures DatedByChild(inp, e) && e.relation == DerivedFrom
  {
    hide Derives, LastOf, AddSessions, Base, IntervalOf, SessionStamp, SessionId;
    var b := AfterSessions(inp);
    var m := DerivedEdgesAreDated(b, g, inp.sessions, e);
    forall s
      ensures Derives(b, s, e) <==> exists child: nat, parent: nat :: DerivesFrom(inp, s, child, parent, e)
    {
      DerivesIff(inp, s, e);
    }
    var s := inp.sessions[m];
    var child: nat, parent: nat :| DerivesFrom(inp, s, child, parent, e);
    ThreadsKnow(inp, Base(inp), inp.sessions, s.sessionId);
    LastInRange(inp, inp.sessions, s.sessionId);
    SessionStampIs(inp.sessions[child]);
    assert FirstToDerive(inp, e, m, child, parent);
  }

  lemma TimelessAfterSessions(inp: Input, g3: Graph)
    requires g3 == if inp.includeBranches then AddHeads(inp, WithLog(inp), inp.heads) else WithLog(inp)
    ensures AddsNew(AfterSessions(inp).g, g3, NO_STAMP)
  {
    hide AddsNew, AfterSessions, AddEvidence, AddLog, AddHeads, CoordinationIds;
    var g := AfterSessions(inp).g;
    EvidenceIsTimeless(AfterSessions(inp), CoordinationIds(inp.evidence));
    LogIsTimeless(inp, WithEvidence(inp), inp.commits);
    NothingNew(WithEvidence(inp), NO_STAMP);
    AddsNewTransitive(g, WithEvidence(inp), WithLog(inp), NO_STAMP);
    HeadsAreTimeless(inp, WithLog(inp), inp.heads);
    NothingNew(WithLog(inp), NO_STAMP);
    AddsNewTransitive(g, WithLog(inp), g3, NO_STAMP);
  }

  lemma BaseEdgesAreTimeless(inp: Input, e: Edge)
    requires e in Base(inp).links
    ensures e.stamp == NO_STAMP && e.relation in {BelongsTo, RenameLineage}
  {
    hide AddRepos, ChainRepos, AliasBelongs, AliasFollows, Linked;
    var g1 := AddProject(inp);
    var g2 := AddRepos(inp, g1, |inp.aliases|);
    BaseIsTimeless(inp, g1, |inp.aliases|);
    BaseIsTimeless(inp, g2, |inp.aliases|);
    AddsNewTransitive(g1, g2, Base(inp), NO_STAMP);
    LinkedByItself(Base(inp).links, e);
    BaseLinks(inp, e);
    EachOfItsRelation(inp, e);
  }

  /** What the passes between sessions and parentage add is no edge of theirs. */
  lemma NewBySessions(inp: Input, g3: Graph, e: Edge)
    requires g3 == if inp.includeBranches then AddHeads(inp, WithLog(inp), inp.heads) else WithLog(inp)
    requires e in g3.links && e !in AfterSessions(inp).g.links
    ensures e.stamp == NO_STAMP && e.relation !in {WorkedIn, ConductedBy, TouchedBranch, Produced, DerivedFrom}
  {
    hide Linked, AddSessions, Base, AddHeads, AddLog, AddEvidence, CoordinationIds, RisesFrom, LogLists, HeadListed,
      RegistersSome, AliasBelongs, AliasFollows;
    TimelessAfterSessions(inp, g3);
    LinkedByItself(g3.links, e);
    AllSessionLinks(inp, Base(inp), inp.sessions, e);
    EvidenceLinks(AfterSessions(inp), CoordinationIds(inp.evidence), e);
    LogLinks(inp, WithEvidence(inp), inp.commits, e);
    HeadLinks(inp, WithLog(inp), inp.heads, e);
    EachOfItsRelation(inp, e);
  }

  lemma RisesBySession(inp: Input, sessions: seq<SessionInput>, e: Edge, k: nat)
    requires FirstToRise(inp, sessions, e, k)
    ensures k < |sessions| && e.relation in {WorkedIn, ConductedBy, TouchedBranch, Produced}
  {
    hide InIdentity;
  }

  /** An edge of a session carries the interval of the first in-identity session that
      gives rise to it, a derivation that of the last in-identity session of the child
      thread, and every other edge is timeless. */
  lemma EdgesAreDated(inp: Input, e: Edge)
    requires e in Build(inp).links
    ensures if e.relation in {WorkedIn, ConductedBy, TouchedBranch, Produced} then DatedBySession(inp, e)
            else if e.relation == DerivedFrom then DatedByChild(inp, e)
            else e.stamp == NO_STAMP
  {
    hide Linked, Build, AddSessions, Base, AddHeads, AddAllDerived, AddLog, AddEvidence, CoordinationIds, RisesFrom,
      DatedByChild, IntervalOf, SessionStamp, FirstToRise, AddsNew;
    BuildAt(inp);
    var b := AfterSessions(inp);
    var g3 := if inp.includeBranches then AddHeads(inp, WithLog(inp), inp.heads) else WithLog(inp);
    TimelessAfterSessions(inp, g3);
    if e !in g3.links {
      DerivedIsDated(inp, g3, e);
    } else if e !in b.g.links {
      NewBySessions(inp, g3, e);
    } else if e !in Base(inp).links {
      var k := SessionEdgesAreDated(inp, Base(inp), inp.sessions, e);
      RisesBySession(inp, inp.sessions, e, k);
      SessionStampIs(inp.sessions[k]);
    } else {
      BaseEdgesAreTimeless(inp, e);
    }
  }
}
