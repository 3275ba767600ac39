/**
 Which nodes the graph has and what they look like
 (packages/agent-stats/src/project-graph.ts): every node is named by something in
 the input, and the first thing to name it decides its title, lane and sha.
 */
module GraphNodes {
  import opened Common
  import opened ProjectGraph
  import opened GraphLaws
  import opened GraphTheorems
  import opened GraphEdges
  import opened GraphLinks
  import opened GraphCommits
  import opened GraphIdentity

  predicate Looks(n: Node, kind: Kind, title: string, lane: Option<string>, sha: Option<string>, skeleton: bool) {
    n.kind == kind && n.title == title && n.lane == lane && n.sha == sha && n.skeleton == skeleton
  }

  predicate SameLook(a: Node, b: Node) {
    Looks(a, b.kind, b.title, b.lane, b.sha, b.skeleton)
  }

  // ----- what the input names -----

  ghost predicate ListsBranch(inp: Input, branches: seq<string>, id: string) {
    exists b :: b in branches && BranchId(inp, b) == id
  }

  ghost predicate Prints(inp: Input, shas: seq<string>, id: string) {
    exists sha :: sha in shas && NodeId(Commit, KnownSha(inp, sha)) == id
  }

  /** A session names itself, its agent, its branches and the commits it printed. */
  ghost predicate SessionNames(inp: Input, s: SessionInput, id: string) {
    || id == SessionId(s) || id == AgentNodeId(s.agentId)
    || (inp.includeBranches && ListsBranch(inp, s.branches, id))
    || (inp.includeCommits && Prints(inp, s.commitShas, id))
  }

  ghost predicate BranchLooks(inp: Input, branches: seq<string>, lane: Option<string>, id: string, n: Node) {
    exists b :: b in branches && BranchId(inp, b) == id && Looks(n, Branch, b, lane, None, false)
  }

  ghost predicate PrintedLooks(inp: Input, shas: seq<string>, lane: Option<string>, id: string, n: Node) {
    exists sha :: sha in shas && NodeId(Commit, KnownSha(inp, sha)) == id
                  && Looks(n, Commit, Prefix7(KnownSha(inp, sha)), lane, Some(KnownSha(inp, sha)), false)
  }

  /** What a session in this lane makes of a node that it names. */
  ghost predicate LooksFrom(inp: Input, s: SessionInput, lane: Option<string>, id: string, n: Node) {
    || (id == SessionId(s) && Looks(n, Session, SessionTitle(s), lane, None, false))
    || (id == AgentNodeId(s.agentId) && Looks(n, Agent, s.agentId, None, None, false))
    || (inp.includeBranches && BranchLooks(inp, s.branches, lane, id, n))
    || (inp.includeCommits && PrintedLooks(inp, s.commitShas, lane, id, n))
  }

  /** Session `k` is the first in-identity session to name the node. */
  ghost predicate FirstToName(inp: Input, sessions: seq<SessionInput>, id: string, k: nat) {
    && k < |sessions| && InIdentity(inp, sessions[k]) && SessionNames(inp, sessions[k], id)
    && forall j: nat | j < k :: !(InIdentity(inp, sessions[j]) && SessionNames(inp, sessions[j], id))
  }

  /** The log names its commits and their parents. */
  ghost predicate LogNames(commits: seq<LogCommit>, sha: string) {
    exists c :: c in commits && (c.sha == sha || sha in c.parents)
  }

  // ----- the nodes of one session -----

  lemma AddedNode(g: Graph, added: string, n: Node, id: string)
    ensures id in AddNode(g, added, n).nodes <==> id in g.nodes || id == added
    ensures id in g.nodes ==> AddNode(g, added, n).nodes[id] == g.nodes[id]
    ensures id !in g.nodes && id == added ==> AddNode(g, added, n).nodes[id] == n
  {
  }

  lemma {:induction false} BranchNodes(inp: Input, g: Graph, s: SessionInput, branches: seq<string>, id: string)
    ensures var h := AddBranches(inp, g, s, branches);
            && (id in h.nodes <==> id in g.nodes || ListsBranch(inp, branches, id))
            && (id in g.nodes ==> h.nodes[id] == g.nodes[id])
            && (id !in g.nodes && id in h.nodes ==> BranchLooks(inp, branches, LaneOf(inp, s), id, h.nodes[id]))
  {
    hide Linked, LaneOf, BranchId;
    if branches != [] {
      var n := |branches| - 1;
      BranchNodes(inp, g, s, branches[..n], id);
      var before := AddBranches(inp, g, s, branches[..n]);
      AddedNode(before, BranchId(inp, branches[n]), Plain(Branch, branches[n], LaneOf(inp, s)), id);
      assert branches == branches[..n] + [branches[n]];
    }
  }

  lemma {:induction false} CommitNodes(inp: Input, g: Graph, s: SessionInput, shas: seq<string>, id: string)
    ensures var h := AddCommits(inp, g, s, shas);
            && (id in h.nodes <==> id in g.nodes || Prints(inp, shas, id))
            && (id in g.nodes ==> h.nodes[id] == g.nodes[id])
            && (id !in g.nodes && id in h.nodes ==> PrintedLooks(inp, shas, LaneOf(inp, s), id, h.nodes[id]))
  {
    hide Linked, LaneOf, NodeId, KnownSha, CommitStamp, Times, Prefix7;
    if shas != [] {
      var n := |shas| - 1;
      CommitNodes(inp, g, s, shas[..n], id);
      var before := AddCommits(inp, g, s, shas[..n]);
      AddedNode(before, NodeId(Commit, KnownSha(inp, shas[n])), SessionCommit(inp, s, shas[n]), id);
      assert shas == shas[..n] + [shas[n]];
    }
  }

  lemma SessionNodes(inp: Input, g: Graph, s: SessionInput, id: string)
    ensures var h := SessionGraph(inp, g, s);
            && (id in h.nodes <==> id in g.nodes || SessionNames(inp, s, id))
            && (id in g.nodes ==> h.nodes[id] == g.nodes[id])
            && (id !in g.nodes && id in h.nodes ==> LooksFrom(inp, s, LaneOf(inp, s), id, h.nodes[id]))
  {
    hide Linked, LaneOf, SessionId, AgentNodeId, AddBranches, AddCommits, BranchLooks, PrintedLooks, ListsBranch,
      Prints, SessionTitle, SessionAlias;
    var node := Plain(Session, SessionTitle(s), LaneOf(inp, s)).(stamp := SessionStamp(s));
    AddedNode(g, SessionId(s), node, id);
    var g1 := AddSessionNode(inp, g, s);
    AddedNode(g1, AgentNodeId(s.agentId), Plain(Agent, s.agentId, None), id);
    var g2 := AddAgentNode(inp, g1, s);
    BranchNodes(inp, g2, s, s.branches, id);
    var g3 := if inp.includeBranches then AddBranches(inp, g2, s, s.branches) else g2;
    CommitNodes(inp, g3, s, s.commitShas, id);
  }

  /** What the first in-identity session to name the node makes of it, in the lane of its alias. */
  ghost predicate LooksFromFirst(inp: Input, sessions: seq<SessionInput>, id: string, n: Node) {
    exists k: nat, a: nat ::
      && FirstToName(inp, sessions, id, k) && a < |inp.aliases| && SessionAlias(inp, sessions[k].cwds) == Some(a)
      && LooksFrom(inp, sessions[k], Some(inp.aliases[a].name), id, n)
  }

  ghost predicate SomeSessionNames(inp: Input, sessions: seq<SessionInput>, id: string) {
    exists k | 0 <= k < |sessions| :: InIdentity(inp, sessions[k]) && SessionNames(inp, sessions[k], id)
  }

  lemma NamesStep(inp: Input, sessions: seq<SessionInput>, id: string)
    requires sessions != []
    ensures var n := |sessions| - 1;
            && (SomeSessionNames(inp, sessions, id) <==>
                  SomeSessionNames(inp, sessions[..n], id)
                  || (InIdentity(inp, sessions[n]) && SessionNames(inp, sessions[n], id)))
            && (forall k: nat | FirstToName(inp, sessions[..n], id, k) :: FirstToName(inp, sessions, id, k))
            && (InIdentity(inp, sessions[n]) && SessionNames(inp, sessions[n], id) ==>
                  SomeSessionNames(inp, sessions[..n], id) || FirstToName(inp, sessions, id, n))
  {
    hide InIdentity, SessionNames;
    var n := |sessions| - 1;
    forall k | 0 <= k < n
      ensures sessions[..n][k] == sessions[k]
    {
    }
  }

  lemma LooksStay(inp: Input, sessions: seq<SessionInput>, id: string, n: Node)
    requires sessions != [] && LooksFromFirst(inp, sessions[..|sessions| - 1], id, n)
    ensures LooksFromFirst(inp, sessions, id, n)
  {
    hide InIdentity, LooksFrom, SessionNames, SessionAlias;
    var rest := sessions[..|sessions| - 1];
    NamesStep(inp, sessions, id);
    var k: nat, a: nat :|
      && FirstToName(inp, rest, id, k) && a < |inp.aliases| && SessionAlias(inp, rest[k].cwds) == Some(a)
      && LooksFrom(inp, rest[k], Some(inp.aliases[a].name), id, n);
    assert sessions[k] == rest[k];
    assert FirstToName(inp, sessions, id, k);
  }

  lemma LooksFromLast(inp: Input, sessions: seq<SessionInput>, id: string, n: Node)
    requires sessions != []
    requires var s := sessions[|sessions| - 1];
             && InIdentity(inp, s) && FirstToName(inp, sessions, id, |sessions| - 1)
             && LooksFrom(inp, s, LaneOf(inp, s), id, n)
    ensures LooksFromFirst(inp, sessions, id, n)
  {
    hide SessionAlias, LooksFrom, FirstToName;
    SessionAliasInRange(inp, sessions[|sessions| - 1].cwds);
  }

  lemma {:induction false} SessionsNodes(inp: Input, g: Graph, sessions: seq<SessionInput>, id: string)
    ensures var h := AddSessions(inp, g, sessions).g;
            && (id in h.nodes <==> id in g.nodes || SomeSessionNames(inp, sessions, id))
            && (id in g.nodes ==> h.nodes[id] == g.nodes[id])
            && (id !in g.nodes && id in h.nodes ==> LooksFromFirst(inp, sessions, id, h.nodes[id]))
  {
    hide InIdentity, SessionGraph, SessionNames, LooksFrom, LooksFromFirst, FirstToName, SomeSessionNames;
    if sessions == [] {
      NobodyNames(inp, id);
    } else {
      var n := |sessions| - 1;
      SessionsNodes(inp, g, sessions[..n], id);
      var before := AddSessions(inp, g, sessions[..n]).g;
      NamesStep(inp, sessions, id);
      SessionNodes(inp, before, sessions[n], id);
      var after := AddSessions(inp, g, sessions).g;
      if id !in g.nodes && id in before.nodes {
        LooksStay(inp, sessions, id, before.nodes[id]);
      } else if id !in g.nodes && id in after.nodes {
        LooksFromLast(inp, sessions, id, after.nodes[id]);
      }
    }
  }

  lemma NobodyNames(inp: Input, id: string)
    ensures !SomeSessionNames(inp, [], id)
  {
  }

  // ----- the git skeleton -----

  /** A skeleton commit: in the lane of the latest alias, under its own sha. */
  ghost predicate SkeletonLooks(inp: Input, sha: string, id: string, n: Node) {
    && NodeId(Commit, sha) == id
    && Looks(n, Commit, Prefix7(sha), if inp.aliases == [] then None else Some(inp.aliases[|inp.aliases| - 1].name),
             Some(sha), true)
  }

  ghost predicate SkeletonBranchLooks(inp: Input, name: string, id: string, n: Node) {
    && BranchId(inp, name) == id
    && Looks(n, Branch, name, if inp.aliases == [] then None else Some(inp.aliases[|inp.aliases| - 1].name),
             None, true)
  }

  lemma {:induction false} ParentNodes(inp: Input, g: Graph, child: string, parents: seq<string>, id: string)
    ensures var h := AddParents(inp, g, child, parents);
            && (id in h.nodes <==> id in g.nodes || exists p :: p in parents && NodeId(Commit, p) == id)
            && (id in g.nodes ==> h.nodes[id] == g.nodes[id])
            && (id !in g.nodes && id in h.nodes ==>
                  exists p :: p in parents && SkeletonLooks(inp, p, id, h.nodes[id]))
  {
    hide Linked, NodeId, Prefix7;
    if parents != [] {
      var n := |parents| - 1;
      ParentNodes(inp, g, child, parents[..n], id);
      var before := AddParents(inp, g, child, parents[..n]);
      AddedNode(before, NodeId(Commit, parents[n]), SkeletonCommit(inp, parents[n], None, NO_STAMP), id);
      assert parents == parents[..n] + [parents[n]];
    }
  }

  /** The log names the commit with this node. */
  ghost predicate LogNamesNode(commits: seq<LogCommit>, id: string) {
    exists sha :: LogNames(commits, sha) && NodeId(Commit, sha) == id
  }

  ghost predicate LogLooks(inp: Input, commits: seq<LogCommit>, id: string, n: Node) {
    exists sha :: LogNames(commits, sha) && SkeletonLooks(inp, sha, id, n)
  }

  lemma LogLineNodes(inp: Input, g: Graph, c: LogCommit, id: string)
    ensures var h := AddLogCommit(inp, g, c);
            && (id in h.nodes <==> id in g.nodes || LogNamesNode([c], id))
            && (id in g.nodes ==> SameLook(h.nodes[id], g.nodes[id]))
            && (id !in g.nodes && id in h.nodes ==> LogLooks(inp, [c], id, h.nodes[id]))
  {
    hide Linked, NodeId, Prefix7, AddParents, CommitStamp, Times;
    var own := NodeId(Commit, c.sha);
    var g1 := if own in g.nodes then g.(nodes := g.nodes[own := Enrich(inp, g.nodes[own], c)]) else g;
    var g2 := AddNode(g1, own, SkeletonCommit(inp, c.sha, c.subject, CommitStamp(Times(inp.commits), c.sha)));
    ParentNodes(inp, g2, own, c.parents, id);
    assert forall sha :: LogNames([c], sha) <==> sha == c.sha || sha in c.parents by {
      assert c in [c];
    }
    var h := AddLogCommit(inp, g, c);
    if id !in g.nodes && id == own {
      assert SkeletonLooks(inp, c.sha, id, h.nodes[id]);
    } else if id !in g.nodes && id in h.nodes {
      var p :| p in c.parents && SkeletonLooks(inp, p, id, h.nodes[id]);
      assert LogNames([c], p);
    }
  }

  lemma {:induction false} LogNodes(inp: Input, g: Graph, commits: seq<LogCommit>, id: string)
    ensures var h := AddLog(inp, g, commits);
            && (id in h.nodes <==> id in g.nodes || LogNamesNode(commits, id))
            && (id in g.nodes ==> SameLook(h.nodes[id], g.nodes[id]))
            && (id !in g.nodes && id in h.nodes ==> LogLooks(inp, commits, id, h.nodes[id]))
  {
    hide AddLogCommit, NodeId, Prefix7, LogNames;
    if commits != [] {
      var n := |commits| - 1;
      LogNodes(inp, g, commits[..n], id);
      LogLineNodes(inp, AddLog(inp, g, commits[..n]), commits[n], id);
      forall sha
        ensures LogNames(commits, sha) <==> LogNames(commits[..n], sha) || LogNames([commits[n]], sha)
      {
        LogNamesStep(commits, sha);
      }
    } else {
      NothingLogged(id);
    }
  }

  lemma NothingLogged(id: string)
    ensures !LogNamesNode([], id)
  {
  }

  lemma LogNamesStep(commits: seq<LogCommit>, sha: string)
    requires commits != []
    ensures var n := |commits| - 1;
            LogNames(commits, sha) <==> LogNames(commits[..n], sha) || LogNames([commits[n]], sha)
  {
    assert commits == commits[..|commits| - 1] + [commits[|commits| - 1]];
  }

  ghost predicate HeadsNameNode(inp: Input, heads: seq<Head>, id: string) {
    exists h :: h in heads && (BranchId(inp, h.name) == id || NodeId(Commit, h.sha) == id)
  }

  ghost predicate HeadLooks(inp: Input, heads: seq<Head>, id: string, n: Node) {
    exists h :: h in heads && (SkeletonBranchLooks(inp, h.name, id, n) || SkeletonLooks(inp, h.sha, id, n))
  }

  lemma {:induction false} HeadNodes(inp: Input, g: Graph, heads: seq<Head>, id: string)
    ensures var h := AddHeads(inp, g, heads);
            && (id in h.nodes <==> id in g.nodes || HeadsNameNode(inp, heads, id))
            && (id in g.nodes ==> h.nodes[id] == g.nodes[id])
            && (id !in g.nodes && id in h.nodes ==> HeadLooks(inp, heads, id, h.nodes[id]))
  {
    hide Linked, NodeId, BranchId, Prefix7;
    if heads != [] {
      var n := |heads| - 1;
      HeadNodes(inp, g, heads[..n], id);
      var before, h := AddHeads(inp, g, heads[..n]), heads[n];
      var node := Plain(Branch, h.name, LastLane(inp)).(skeleton := true);
      AddedNode(before, BranchId(inp, h.name), node, id);
      AddedNode(AddNode(before, BranchId(inp, h.name), node), NodeId(Commit, h.sha),
                SkeletonCommit(inp, h.sha, None, NO_STAMP), id);
      assert heads == heads[..n] + [heads[n]];
    }
  }

  // ----- project, repositories and evidence -----

  ghost predicate AliasNames(inp: Input, n: nat, id: string)
    requires n <= |inp.aliases|
  {
    exists i: nat | i < n :: RepoId(inp, i) == id
  }

  ghost predicate AliasLooks(inp: Input, n: nat, id: string, node: Node)
    requires n <= |inp.aliases|
  {
    exists i: nat | i < n :: RepoId(inp, i) == id
                             && Looks(node, Repo, inp.aliases[i].name, Some(inp.aliases[i].name), None, false)
  }

  lemma {:induction false} RepoNodes(inp: Input, g: Graph, n: nat, id: string)
    requires n <= |inp.aliases|
    ensures var h := AddRepos(inp, g, n);
            && (id in h.nodes <==> id in g.nodes || AliasNames(inp, n, id))
            && (id in g.nodes ==> h.nodes[id] == g.nodes[id])
            && (id !in g.nodes && id in h.nodes ==> AliasLooks(inp, n, id, h.nodes[id]))
  {
    hide Linked, NodeId;
    if n > 0 {
      RepoNodes(inp, g, n - 1, id);
      var name := inp.aliases[n - 1].name;
      AddedNode(AddRepos(inp, g, n - 1), RepoId(inp, n - 1), Plain(Repo, name, Some(name)), id);
    }
  }

  predicate EvidenceLooks(n: Node) {
    Looks(n, Evidence, "h2a registry evidence", None, None, false)
  }

  lemma {:induction false} EvidenceNodes(b: Progress, ids: seq<string>, id: string)
    ensures var h := AddEvidence(b, ids);
            && (id in h.nodes <==>
                  || id in b.g.nodes
                  || exists x :: x in ids && x !in b.ambiguous && x in b.agentNode && EvidenceId(x) == id)
            && (id in b.g.nodes ==> h.nodes[id] == b.g.nodes[id])
            && (id !in b.g.nodes && id in h.nodes ==> EvidenceLooks(h.nodes[id]))
  {
    hide Linked, EvidenceId;
    if ids != [] {
      var n := |ids| - 1;
      EvidenceNodes(b, ids[..n], id);
      if ids[n] !in b.ambiguous && ids[n] in b.agentNode {
        AddedNode(AddEvidence(b, ids[..n]), EvidenceId(ids[n]), EVIDENCE_NODE, id);
      }
      assert ids == ids[..n] + [ids[n]];
    }
  }

  /** Some record that is attached has this node. */
  ghost predicate RecordNames(inp: Input, id: string) {
    exists x :: Attachable(inp, x) && EvidenceId(x) == id
  }

  lemma AttachedNodes(inp: Input, id: string)
    ensures var g := AfterSessions(inp).g;
            var h := WithEvidence(inp);
            && (id in h.nodes <==> id in g.nodes || RecordNames(inp, id))
            && (id in g.nodes ==> h.nodes[id] == g.nodes[id])
            && (id !in g.nodes && id in h.nodes ==> EvidenceLooks(h.nodes[id]))
  {
    hide Active, Shadowed, EvidenceId, CoordinationIds, AddSessions, Base, AgentNodeId;
    var b := AfterSessions(inp);
    EvidenceNodes(b, CoordinationIds(inp.evidence), id);
    SessionsKnow(inp, Base(inp), inp.sessions);
    forall x
      ensures (x in CoordinationIds(inp.evidence) && x !in b.ambiguous && x in b.agentNode) <==> Attachable(inp, x)
    {
      CoordinationMembers(inp.evidence, x);
    }
  }

  // ----- all nodes -----

  /** Something in the input names the node. */
  ghost predicate InputNames(inp: Input, id: string) {
    || id == ProjectId(inp) || AliasNames(inp, |inp.aliases|, id) || SomeSessionNames(inp, inp.sessions, id)
    || RecordNames(inp, id)
    || (inp.includeCommits && LogNamesNode(inp.commits, id))
    || (inp.includeBranches && HeadsNameNode(inp, inp.heads, id))
  }

  /** The node looks as the first thing to name it says; log and heads come after sessions. */
  ghost predicate NamedLooks(inp: Input, id: string, n: Node) {
    || (id == ProjectId(inp) && Looks(n, Project, inp.title, None, None, false))
    || AliasLooks(inp, |inp.aliases|, id, n)
    || LooksFromFirst(inp, inp.sessions, id, n)
    || (RecordNames(inp, id) && EvidenceLooks(n))
    || (!SomeSessionNames(inp, inp.sessions, id)
        && ((inp.includeCommits && LogLooks(inp, inp.commits, id, n))
            || (inp.includeBranches && HeadLooks(inp, inp.heads, id, n))))
  }

  lemma BaseNodes(inp: Input, id: string)
    ensures id in Base(inp).nodes <==> id == ProjectId(inp) || AliasNames(inp, |inp.aliases|, id)
    ensures id in Base(inp).nodes ==>
              (id == ProjectId(inp) && Looks(Base(inp).nodes[id], Project, inp.title, None, None, false))
              || AliasLooks(inp, |inp.aliases|, id, Base(inp).nodes[id])
  {
    hide AddRepos, ChainRepos, AliasNames, AliasLooks;
    RepoNodes(inp, AddProject(inp), |inp.aliases|, id);
    ChainHasSameNodes(inp, AddRepos(inp, AddProject(inp), |inp.aliases|), |inp.aliases|);
  }

  /** Only the look of a node counts here, not its interval, its subject or its tier. */
  lemma LooksAlike(inp: Input, id: string, a: Node, b: Node)
    requires NamedLooks(inp, id, a) && SameLook(b, a)
    ensures NamedLooks(inp, id, b)
  {
    hide NodeId, BranchId, RepoId, SessionId, AgentNodeId, KnownSha, FirstToName, LogNames, SessionTitle, Prefix7,
      SomeSessionNames, RecordNames, SessionAlias;
  }

  /** The nodes before the log: those of the project, its aliases, sessions and records. */
  lemma NodesBeforeLog(inp: Input, id: string)
    ensures id in WithEvidence(inp).nodes <==>
              || id == ProjectId(inp) || AliasNames(inp, |inp.aliases|, id) || SomeSessionNames(inp, inp.sessions, id)
              || RecordNames(inp, id)
    ensures id in WithEvidence(inp).nodes ==> NamedLooks(inp, id, WithEvidence(inp).nodes[id])
  {
    hide AddSessions, AddEvidence, CoordinationIds, Base, AliasNames, AliasLooks, SomeSessionNames, LooksFromFirst,
      RecordNames, LogLooks, HeadLooks, Looks;
    BaseNodes(inp, id);
    SessionsNodes(inp, Base(inp), inp.sessions, id);
    AttachedNodes(inp, id);
  }

  lemma StructureNodes(inp: Input, id: string)
    ensures id in Structure(inp).nodes <==> InputNames(inp, id)
    ensures id in Structure(inp).nodes ==> NamedLooks(inp, id, Structure(inp).nodes[id])
  {
    hide AfterSessions, AddEvidence, AddLog, AddHeads, AddAllDerived, CoordinationIds, AliasNames, AliasLooks,
      SomeSessionNames, LooksFromFirst, RecordNames, LogNamesNode, LogLooks, HeadsNameNode, HeadLooks, Looks;
    NodesBeforeLog(inp, id);
    var g1, g2 := WithEvidence(inp), WithLog(inp);
    LogNodes(inp, g1, inp.commits, id);
    if id in g1.nodes && inp.includeCommits {
      LooksAlike(inp, id, g1.nodes[id], g2.nodes[id]);
    }
    HeadNodes(inp, g2, inp.heads, id);
    var g3 := if inp.includeBranches then AddHeads(inp, g2, inp.heads) else g2;
    DerivedAddNoNodes(AfterSessions(inp), g3, inp.sessions);
  }

  lemma FinalLook(inp: Input, id: string)
    requires id in Structure(inp).nodes
    ensures id in Build(inp).nodes && SameLook(Build(inp).nodes[id], Structure(inp).nodes[id])
  {
    hide Structure, Build, AllSessionBounds, Spanned;
    BuildAt(inp);
    SpannedKeepsRest(Structure(inp), id, AllSessionBounds(inp));
  }

  /** A node is in the graph if and only if something in the input names it, and it looks
      as the first thing to name it says. */
  lemma NodesAreNamed(inp: Input, id: string)
    ensures id in Build(inp).nodes <==> InputNames(inp, id)
    ensures id in Build(inp).nodes ==> NamedLooks(inp, id, Build(inp).nodes[id])
  {
    hide Structure, Build, InputNames, NamedLooks, SameLook, AllSessionBounds, Spanned;
    BuildAt(inp);
    StructureNodes(inp, id);
    if id in Structure(inp).nodes {
      FinalLook(inp, id);
      LooksAlike(inp, id, Structure(inp).nodes[id], Build(inp).nodes[id]);
    }
  }

  // ----- subjects of commits -----

  function SubjectAt(g: Graph, id: string): Option<string> {
    if id in g.nodes then g.nodes[id].subject else None
  }

  /** Log line `i` is the first of this commit node to give a subject. */
  ghost predicate FirstSubject(commits: seq<LogCommit>, id: string, i: nat) {
    && i < |commits| && NodeId(Commit, commits[i].sha) == id && commits[i].subject.Some?
    && forall j: nat | j < i && NodeId(Commit, commits[j].sha) == id :: commits[j].subject.None?
  }

  function LogSubject(commits: seq<LogCommit>, id: string): Option<string> {
    if commits == [] then None
    else
      var before, c := LogSubject(commits[..|commits| - 1], id), commits[|commits| - 1];
      if before.None? && NodeId(Commit, c.sha) == id then c.subject else before
  }

  lemma {:induction false} LogSubjectIsFirst(commits: seq<LogCommit>, id: string)
    ensures LogSubject(commits, id).None? ==>
              forall i: nat | i < |commits| && NodeId(Commit, commits[i].sha) == id :: commits[i].subject.None?
    ensures LogSubject(commits, id).Some? ==>
              exists i: nat :: FirstSubject(commits, id, i) && commits[i].subject == LogSubject(commits, id)
  {
    hide NodeId;
    if commits != [] {
      var n := |commits| - 1;
      LogSubjectIsFirst(commits[..n], id);
      forall i | 0 <= i < n
        ensures commits[..n][i] == commits[i]
      {
      }
      if LogSubject(commits[..n], id).Some? {
        var i: nat :| FirstSubject(commits[..n], id, i) && commits[..n][i].subject == LogSubject(commits[..n], id);
        assert FirstSubject(commits, id, i);
      } else if LogSubject(commits, id).Some? {
        assert FirstSubject(commits, id, n);
      }
    }
  }

  lemma {:induction false} ParentsGiveNoSubject(inp: Input, g: Graph, child: string, parents: seq<string>, id: string)
    ensures SubjectAt(AddParents(inp, g, child, parents), id) == SubjectAt(g, id)
  {
    hide Linked;
    if parents != [] {
      ParentsGiveNoSubject(inp, g, child, parents[..|parents| - 1], id);
    }
  }

  lemma {:induction false} LogSubjects(inp: Input, g: Graph, commits: seq<LogCommit>, id: string)
    ensures SubjectAt(AddLog(inp, g, commits), id) ==
              if SubjectAt(g, id).Some? then SubjectAt(g, id) else LogSubject(commits, id)
  {
    hide Linked, NodeId, AddParents, CommitStamp, Times;
    if commits != [] {
      var n := |commits| - 1;
      LogSubjects(inp, g, commits[..n], id);
      var g1, c, own := AddLog(inp, g, commits[..n]), commits[n], NodeId(Commit, commits[n].sha);
      var g2 := if own in g1.nodes then g1.(nodes := g1.nodes[own := Enrich(inp, g1.nodes[own], c)]) else g1;
      var g3 := AddNode(g2, own, SkeletonCommit(inp, c.sha, c.subject, CommitStamp(Times(inp.commits), c.sha)));
      ParentsGiveNoSubject(inp, g3, own, c.parents, id);
    }
  }

  lemma {:induction false} HeadsGiveNoSubject(inp: Input, g: Graph, heads: seq<Head>, id: string)
    ensures SubjectAt(AddHeads(inp, g, heads), id) == SubjectAt(g, id)
  {
    hide Linked;
    if heads != [] {
      HeadsGiveNoSubject(inp, g, heads[..|heads| - 1], id);
    }
  }

  lemma SubjectsBeforeLog(inp: Input, id: string)
    requires KindOf(id) == Some(Commit) && id in WithEvidence(inp).nodes
    ensures SomeSessionNames(inp, inp.sessions, id)
  {
    hide KindOf, SomeSessionNames, WithEvidence, NamedLooks, Active, Shadowed;
    NodesBeforeLog(inp, id);
    IdsAnnounceKinds(Project, inp.canonicalId);
    forall i: nat | i < |inp.aliases|
      ensures KindOf(RepoId(inp, i)) == Some(Repo)
    {
      IdsAnnounceKinds(Repo, inp.aliases[i].name);
    }
    forall x | x != ""
      ensures KindOf(EvidenceId(x)) == Some(Evidence)
    {
      EvidenceIdKind(x);
    }
  }

  /** With the log included, a commit that a log line gives a subject ends with one; if no
      session names it, with that of the first such line, and with none if there is none. */
  lemma SubjectsLand(inp: Input, id: string)
    requires inp.includeCommits && id in Build(inp).nodes && KindOf(id) == Some(Commit)
    ensures var subject := Build(inp).nodes[id].subject;
            && (forall i: nat | FirstSubject(inp.commits, id, i) ::
                  && subject.Some?
                  && (!SomeSessionNames(inp, inp.sessions, id) ==> subject == inp.commits[i].subject))
            && ((forall i: nat :: !FirstSubject(inp.commits, id, i)) && !SomeSessionNames(inp, inp.sessions, id) ==>
                  subject.None?)
  {
    hide Structure, Build, KindOf, AllSessionBounds, Spanned, SomeSessionNames, NodeId;
    BuildAt(inp);
    SpannedKeepsRest(Structure(inp), id, AllSessionBounds(inp));
    SubjectInStructure(inp, id);
    LogSubjectIsFirst(inp.commits, id);
    if id in WithEvidence(inp).nodes {
      SubjectsBeforeLog(inp, id);
    }
  }

  lemma SubjectInStructure(inp: Input, id: string)
    requires inp.includeCommits
    ensures SubjectAt(Structure(inp), id) ==
              if SubjectAt(WithEvidence(inp), id).Some? then SubjectAt(WithEvidence(inp), id)
              else LogSubject(inp.commits, id)
  {
    hide AfterSessions, AddEvidence, AddLog, AddHeads, AddAllDerived, CoordinationIds, LogSubject;
    LogSubjects(inp, WithEvidence(inp), inp.commits, id);
    HeadsGiveNoSubject(inp, WithLog(inp), inp.heads, id);
    var g3 := if inp.includeBranches then AddHeads(inp, WithLog(inp), inp.heads) else WithLog(inp);
    DerivedAddNoNodes(AfterSessions(inp), g3, inp.sessions);
  }
}
