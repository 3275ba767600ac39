/**
 The project/conversation graph (packages/agent-stats/src/project-graph.ts):
 what the builder's passes add, in the order in which they add it.  Nodes are
 first-write-wins, edges are first-touch by (source, target, relation); commit
 nodes are enriched in place and container spans derived at the end.
 Timestamps are integer milliseconds and the home-directory abbreviation of
 paths is a parameter.
 */
module ProjectGraph {
  import opened Common
  import opened Sorting

  datatype Kind = Project | Repo | Session | Agent | Branch | Commit | Evidence

  datatype Source = SessionStart | CommitterDate | ChildrenSpan
  datatype Stamp = Stamp(t: Option<int>, tEnd: Option<int>, src: Option<Source>)
  const NO_STAMP := Stamp(None, None, None)

  datatype Trust = Earned | Unverified

  datatype Node = Node(
    kind: Kind, title: string, lane: Option<string>, sha: Option<string>, subject: Option<string>,
    stamp: Stamp, skeleton: bool, trust: Option<Trust>)

  datatype Relation =
    | BelongsTo | RenameLineage | WorkedIn | ConductedBy | TouchedBranch | Produced | RegisteredIn
    | CommitParent | BranchHead | DerivedFrom

  datatype Edge = Edge(source: string, target: string, relation: Relation, stamp: Stamp)

  /** `order` is the insertion order of the node map. */
  datatype Graph = Graph(order: seq<string>, nodes: map<string, Node>, links: seq<Edge>)

  // ----- input -----

  datatype Alias = Alias(name: string, pathPrefixes: seq<string>)
  datatype LogCommit = LogCommit(sha: string, parents: seq<string>, subject: Option<string>, committedAt: Option<int>)
  datatype Head = Head(name: string, sha: string)
  datatype SessionInput = SessionInput(
    factId: string, host: string, sessionId: string, agentId: string, cwds: seq<string>,
    startedAt: Option<int>, endedAt: Option<int>, branches: seq<string>, commitShas: seq<string>,
    parentThread: Option<string>)

  datatype Input = Input(
    canonicalId: string, title: string, aliases: seq<Alias>, sessions: seq<SessionInput>, evidence: seq<string>,
    commits: seq<LogCommit>, heads: seq<Head>,
    includeCommits: bool, includeBranches: bool, includeHubEdges: bool, tilde: string -> string)

  // ----- identifiers -----

  function KindName(kind: Kind): string {
    match kind
    case Project => "project"
    case Repo => "repo"
    case Session => "session"
    case Agent => "agent"
    case Branch => "branch"
    case Commit => "commit"
    case Evidence => "coordination_evidence"
  }

  predicate IsAlnum(c: char) {
    'a' <= c <= 'z' || 'A' <= c <= 'Z' || '0' <= c <= '9'
  }

  /** One character of a node id; a character beyond the first plane counts as two. */
  function CleanChar(c: char): string {
    if IsAlnum(c) || c == '_' then [LowerChar(c)] else if c as int >= 0x10000 then "__" else "_"
  }

  function Clean(s: string): string {
    if s == "" then "" else CleanChar(s[0]) + Clean(s[1..])
  }

  function NodeId(kind: Kind, key: string): string {
    KindName(kind) + "_" + Clean(key)
  }

  function HexChars(s: string): string {
    if s == "" then "" else "_" + Hex(s[0] as int) + HexChars(s[1..])
  }

  function EvidenceId(instanceId: string): string {
    KindName(Evidence) + HexChars(instanceId)
  }

  /** The key under which commits are indexed. */
  function ShaKey(sha: string): string {
    Lower(Prefix7(sha))
  }

  // ----- indexes over the log -----

  function Times(commits: seq<LogCommit>): map<string, int> {
    if commits == [] then map[]
    else
      var c := commits[|commits| - 1];
      var before := Times(commits[..|commits| - 1]);
      if c.committedAt.None? || ShaKey(c.sha) in before then before else before[ShaKey(c.sha) := c.committedAt.value]
  }

  function Metas(commits: seq<LogCommit>): map<string, LogCommit> {
    if commits == [] then map[]
    else
      var c := commits[|commits| - 1];
      var before := Metas(commits[..|commits| - 1]);
      if ShaKey(c.sha) in before then before else before[ShaKey(c.sha) := c]
  }

  /** A commit is a point in time when its prefix has a date, timeless otherwise. */
  function CommitStamp(times: map<string, int>, sha: string): Stamp {
    KeyStamp(times, ShaKey(sha))
  }

  function KeyStamp(times: map<string, int>, key: string): Stamp {
    if key in times then Stamp(Some(times[key]), Some(times[key]), Some(CommitterDate)) else NO_STAMP
  }

  function SessionStamp(s: SessionInput): Stamp {
    if s.startedAt.None? then NO_STAMP else Stamp(s.startedAt, s.endedAt, Some(SessionStart))
  }

  // ----- which alias a working directory belongs to -----

  function StripSlashes(p: string): string {
    if p != "" && p[|p| - 1] == '/' then StripSlashes(p[..|p| - 1]) else p
  }

  function Canonical(inp: Input, path: string): string {
    inp.tilde(StripSlashes(path))
  }

  /** `c` is the directory `p` or lies under it. */
  predicate Under(c: string, p: string) {
    c == p || p + "/" <= c
  }

  /** The running best: alias index, and length of its longest matching prefix. */
  datatype Best = Best(alias: Option<nat>, len: int)

  function BestInAlias(inp: Input, c: string, i: nat, prefixes: seq<string>, best: Best): Best {
    if prefixes == [] then best
    else
      var sofar := BestInAlias(inp, c, i, prefixes[..|prefixes| - 1], best);
      var p := Canonical(inp, prefixes[|prefixes| - 1]);
      if Under(c, p) && |p| > sofar.len then Best(Some(i), |p|) else sofar
  }

  function BestAlias(inp: Input, c: string, n: nat): Best
    requires n <= |inp.aliases|
  {
    if n == 0 then Best(None, -1)
    else BestInAlias(inp, c, n - 1, inp.aliases[n - 1].pathPrefixes, BestAlias(inp, c, n - 1))
  }

  function AliasForCwd(inp: Input, cwd: string): Option<nat> {
    BestAlias(inp, Canonical(inp, cwd), |inp.aliases|).alias
  }

  /** The alias of the first working directory that has one. */
  function SessionAlias(inp: Input, cwds: seq<string>): Option<nat> {
    if cwds == [] then None
    else if AliasForCwd(inp, cwds[0]).Some? then AliasForCwd(inp, cwds[0])
    else SessionAlias(inp, cwds[1..])
  }

  predicate InIdentity(inp: Input, s: SessionInput) {
    SessionAlias(inp, s.cwds).Some?
  }

  lemma {:induction false} AliasInRange(inp: Input, c: string, n: nat)
    requires n <= |inp.aliases|
    ensures BestAlias(inp, c, n).alias.Some? ==> BestAlias(inp, c, n).alias.value < n
  {
    if n > 0 {
      AliasInRange(inp, c, n - 1);
      BestInAliasKeeps(inp, c, n - 1, inp.aliases[n - 1].pathPrefixes, BestAlias(inp, c, n - 1));
    }
  }

  lemma {:induction false} BestInAliasKeeps(inp: Input, c: string, i: nat, prefixes: seq<string>, best: Best)
    ensures var after := BestInAlias(inp, c, i, prefixes, best);
            after.alias == best.alias || after.alias == Some(i)
  {
    if prefixes != [] {
      BestInAliasKeeps(inp, c, i, prefixes[..|prefixes| - 1], best);
    }
  }

  lemma {:induction false} SessionAliasInRange(inp: Input, cwds: seq<string>)
    ensures SessionAlias(inp, cwds).Some? ==> SessionAlias(inp, cwds).value < |inp.aliases|
  {
    if cwds != [] {
      AliasInRange(inp, Canonical(inp, cwds[0]), |inp.aliases|);
      SessionAliasInRange(inp, cwds[1..]);
    }
  }

  function LaneOf(inp: Input, s: SessionInput): Option<string> {
    var i := SessionAlias(inp, s.cwds);
    if i.Some? && i.value < |inp.aliases| then Some(inp.aliases[i.value].name) else None
  }

  /** Skeleton nodes belong to the latest alias. */
  function LastLane(inp: Input): Option<string> {
    if inp.aliases == [] then None else Some(inp.aliases[|inp.aliases| - 1].name)
  }

  // ----- nodes and edges -----

  function AddNode(g: Graph, id: string, n: Node): Graph {
    if id in g.nodes then g else Graph(g.order + [id], g.nodes[id := n], g.links)
  }

  predicate SameKey(a: Edge, b: Edge) {
    a.source == b.source && a.target == b.target && a.relation == b.relation
  }

  predicate Linked(links: seq<Edge>, e: Edge) {
    exists i | 0 <= i < |links| :: SameKey(links[i], e)
  }

  function AddEdge(g: Graph, e: Edge): Graph {
    if Linked(g.links, e) then g else g.(links := g.links + [e])
  }

  function Plain(kind: Kind, title: string, lane: Option<string>): Node {
    Node(kind, title, lane, None, None, NO_STAMP, false, None)
  }

  function SkeletonCommit(inp: Input, sha: string, subject: Option<string>, stamp: Stamp): Node {
    Node(Commit, Prefix7(sha), LastLane(inp), Some(sha), subject, stamp, true, None)
  }

  // ----- passes 1 and 2: project and repos -----

  function ProjectId(inp: Input): string {
    NodeId(Project, inp.canonicalId)
  }

  function RepoId(inp: Input, i: nat): string
    requires i < |inp.aliases|
  {
    NodeId(Repo, inp.aliases[i].name)
  }

  function AddProject(inp: Input): Graph {
    AddNode(Graph([], map[], []), ProjectId(inp), Plain(Project, inp.title, None))
  }

  function AddRepos(inp: Input, g: Graph, n: nat): Graph
    requires n <= |inp.aliases|
  {
    if n == 0 then g
    else
      var name := inp.aliases[n - 1].name;
      var g1 := AddNode(AddRepos(inp, g, n - 1), RepoId(inp, n - 1), Plain(Repo, name, Some(name)));
      if inp.includeHubEdges then AddEdge(g1, Edge(RepoId(inp, n - 1), ProjectId(inp), BelongsTo, NO_STAMP)) else g1
  }

  /** The rename chain over the first `n` aliases. */
  function ChainRepos(inp: Input, g: Graph, n: nat): Graph
    requires n <= |inp.aliases|
  {
    if n <= 1 then g
    else AddEdge(ChainRepos(inp, g, n - 1), Edge(RepoId(inp, n - 2), RepoId(inp, n - 1), RenameLineage, NO_STAMP))
  }

  // ----- pass 3: sessions -----

  /** The graph and the maps that the later passes read. */
  datatype Progress = Progress(
    g: Graph, agentNode: map<string, string>, agentAt: map<string, string>, ambiguous: set<string>,
    sessionNode: map<string, string>, temporal: map<string, Stamp>)

  function SessionId(s: SessionInput): string {
    NodeId(Session, s.factId)
  }

  function AgentNodeId(agentId: string): string {
    NodeId(Agent, agentId)
  }

  function BranchId(inp: Input, branch: string): string {
    NodeId(Branch, inp.canonicalId + "__" + branch)
  }

  function AddBranches(inp: Input, g: Graph, s: SessionInput, branches: seq<string>): Graph {
    if branches == [] then g
    else
      var b := branches[|branches| - 1];
      var g1 := AddNode(AddBranches(inp, g, s, branches[..|branches| - 1]), BranchId(inp, b),
                        Plain(Branch, b, LaneOf(inp, s)));
      AddEdge(g1, Edge(SessionId(s), BranchId(inp, b), TouchedBranch, SessionStamp(s)))
  }

  /** The full sha git log knows for a printed one. */
  function KnownSha(inp: Input, sha: string): string {
    var metas := Metas(inp.commits);
    if ShaKey(sha) in metas then metas[ShaKey(sha)].sha else sha
  }

  function SessionCommit(inp: Input, s: SessionInput, sha: string): Node {
    var metas := Metas(inp.commits);
    var subject := if ShaKey(sha) in metas then metas[ShaKey(sha)].subject else None;
    Node(Commit, Prefix7(KnownSha(inp, sha)), LaneOf(inp, s), Some(KnownSha(inp, sha)), subject,
         CommitStamp(Times(inp.commits), sha), false, None)
  }

  function AddCommits(inp: Input, g: Graph, s: SessionInput, shas: seq<string>): Graph {
    if shas == [] then g
    else
      var sha := shas[|shas| - 1];
      var id := NodeId(Commit, KnownSha(inp, sha));
      var g1 := AddNode(AddCommits(inp, g, s, shas[..|shas| - 1]), id, SessionCommit(inp, s, sha));
      AddEdge(g1, Edge(SessionId(s), id, Produced, SessionStamp(s)))
  }

  /** The host and the first eight characters of the session's own id. */
  function SessionTitle(s: SessionInput): string {
    s.host + ":" + if |s.sessionId| <= 8 then s.sessionId else s.sessionId[..8]
  }

  function AddSessionNode(inp: Input, g: Graph, s: SessionInput): Graph {
    var node := Plain(Session, SessionTitle(s), LaneOf(inp, s)).(stamp := SessionStamp(s));
    var g1 := AddNode(g, SessionId(s), node);
    var alias := SessionAlias(inp, s.cwds);
    if inp.includeHubEdges && alias.Some? && alias.value < |inp.aliases|
    then AddEdge(g1, Edge(SessionId(s), RepoId(inp, alias.value), WorkedIn, SessionStamp(s))) else g1
  }

  function AddAgentNode(inp: Input, g: Graph, s: SessionInput): Graph {
    var g1 := AddNode(g, AgentNodeId(s.agentId), Plain(Agent, s.agentId, None));
    if inp.includeHubEdges
    then AddEdge(g1, Edge(SessionId(s), AgentNodeId(s.agentId), ConductedBy, SessionStamp(s))) else g1
  }

  /** Node ids are lossy; two agent ids that meet at one node are both ambiguous. */
  function NoteAgent(b: Progress, agentId: string): Progress {
    var id := AgentNodeId(agentId);
    var b1 :=
      if id in b.agentAt && b.agentAt[id] != "" && b.agentAt[id] != agentId
      then b.(ambiguous := b.ambiguous + {b.agentAt[id], agentId})
      else b.(agentAt := b.agentAt[id := agentId]);
    b1.(agentNode := b1.agentNode[agentId := id])
  }

  function SessionGraph(inp: Input, g: Graph, s: SessionInput): Graph {
    var g1 := AddAgentNode(inp, AddSessionNode(inp, g, s), s);
    var g2 := if inp.includeBranches then AddBranches(inp, g1, s, s.branches) else g1;
    if inp.includeCommits then AddCommits(inp, g2, s, s.commitShas) else g2
  }

  function SessionStep(inp: Input, b: Progress, s: SessionInput): Progress {
    if !InIdentity(inp, s) then b
    else
      NoteAgent(b, s.agentId).(
        g := SessionGraph(inp, b.g, s),
        sessionNode := b.sessionNode[s.sessionId := SessionId(s)],
        temporal := b.temporal[s.sessionId := SessionStamp(s)])
  }

  function AddSessions(inp: Input, g: Graph, sessions: seq<SessionInput>): Progress {
    if sessions == [] then Progress(g, map[], map[], {}, map[], map[])
    else SessionStep(inp, AddSessions(inp, g, sessions[..|sessions| - 1]), sessions[|sessions| - 1])
  }

  // ----- pass 4: coordination evidence -----

  function NonEmpty(ids: seq<string>): seq<string> {
    if ids == [] then []
    else NonEmpty(ids[..|ids| - 1]) + if ids[|ids| - 1] == "" then [] else [ids[|ids| - 1]]
  }

  /** Distinct non-empty ids in code-point order. */
  function CoordinationIds(evidence: seq<string>): seq<string> {
    Sort(StringLe, Distinct(NonEmpty(evidence)))
  }

  const EVIDENCE_NODE := Plain(Evidence, "h2a registry evidence", None).(trust := Some(Unverified))

  function AddEvidence(b: Progress, ids: seq<string>): Graph {
    if ids == [] then b.g
    else
      var id := ids[|ids| - 1];
      var g := AddEvidence(b, ids[..|ids| - 1]);
      if id in b.ambiguous || id !in b.agentNode then g
      else
        AddEdge(AddNode(g, EvidenceId(id), EVIDENCE_NODE),
                Edge(b.agentNode[id], EvidenceId(id), RegisteredIn, NO_STAMP))
  }

  // ----- pass 5: the git skeleton -----

  /** A node that exists already gets the subject and the date it still lacks. */
  function Enrich(inp: Input, n: Node, c: LogCommit): Node {
    var n1 := if n.subject.None? && c.subject.Some? then n.(subject := c.subject) else n;
    var stamp := CommitStamp(Times(inp.commits), c.sha);
    if n1.stamp.t.None? && stamp != NO_STAMP then n1.(stamp := stamp) else n1
  }

  function AddParents(inp: Input, g: Graph, child: string, parents: seq<string>): Graph {
    if parents == [] then g
    else
      var parent := parents[|parents| - 1];
      var id := NodeId(Commit, parent);
      var g1 := AddNode(AddParents(inp, g, child, parents[..|parents| - 1]), id,
                        SkeletonCommit(inp, parent, None, NO_STAMP));
      AddEdge(g1, Edge(child, id, CommitParent, NO_STAMP))
  }

  function AddLogCommit(inp: Input, g: Graph, c: LogCommit): Graph {
    var id := NodeId(Commit, c.sha);
    var g1 := if id in g.nodes then g.(nodes := g.nodes[id := Enrich(inp, g.nodes[id], c)]) else g;
    var g2 := AddNode(g1, id, SkeletonCommit(inp, c.sha, c.subject, CommitStamp(Times(inp.commits), c.sha)));
    AddParents(inp, g2, id, c.parents)
  }

  function AddLog(inp: Input, g: Graph, commits: seq<LogCommit>): Graph {
    if commits == [] then g
    else AddLogCommit(inp, AddLog(inp, g, commits[..|commits| - 1]), commits[|commits| - 1])
  }

  function AddHead(inp: Input, g: Graph, h: Head): Graph {
    var b := BranchId(inp, h.name);
    var c := NodeId(Commit, h.sha);
    var g1 := AddNode(g, b, Plain(Branch, h.name, LastLane(inp)).(skeleton := true));
    var g2 := AddNode(g1, c, SkeletonCommit(inp, h.sha, None, NO_STAMP));
    AddEdge(g2, Edge(b, c, BranchHead, NO_STAMP))
  }

  function AddHeads(inp: Input, g: Graph, heads: seq<Head>): Graph {
    if heads == [] then g
    else AddHead(inp, AddHeads(inp, g, heads[..|heads| - 1]), heads[|heads| - 1])
  }

  // ----- pass 6: parentage -----

  function AddDerived(b: Progress, g: Graph, s: SessionInput): Graph {
    if s.parentThread.None? || s.parentThread.value == "" then g
    else if s.sessionId !in b.sessionNode || s.parentThread.value !in b.sessionNode then g
    else
      var child, parent := b.sessionNode[s.sessionId], b.sessionNode[s.parentThread.value];
      if child == parent || child == "" || parent == "" then g
      else
        AddEdge(g, Edge(child, parent, DerivedFrom,
                        if s.sessionId in b.temporal then b.temporal[s.sessionId] else NO_STAMP))
  }

  function AddAllDerived(b: Progress, g: Graph, sessions: seq<SessionInput>): Graph {
    if sessions == [] then g
    else AddDerived(b, AddAllDerived(b, g, sessions[..|sessions| - 1]), sessions[|sessions| - 1])
  }

  // ----- pass 7: derived spans -----

  /** The bounds of a node: its start and its end, as far as they are known. */
  function BoundsOf(nodes: map<string, Node>, id: string): seq<Option<int>> {
    if id in nodes then [nodes[id].stamp.t, nodes[id].stamp.tEnd] else [None, None]
  }

  function StartOf(nodes: map<string, Node>, id: string): seq<Option<int>> {
    if id in nodes then [nodes[id].stamp.t] else [None]
  }

  datatype Range = Range(lo: Option<int>, hi: Option<int>)

  function Widen(r: Range, v: Option<int>): Range {
    match v
    case None => r
    case Some(x) =>
      Range(if r.lo.None? || x < r.lo.value then v else r.lo, if r.hi.None? || x > r.hi.value then v else r.hi)
  }

  function RangeOf(bounds: seq<Option<int>>): Range {
    if bounds == [] then Range(None, None) else Widen(RangeOf(bounds[..|bounds| - 1]), bounds[|bounds| - 1])
  }

  function Envelope(bounds: seq<Option<int>>): Stamp {
    var r := RangeOf(bounds);
    if r.lo.None? then NO_STAMP else Stamp(r.lo, r.hi, Some(ChildrenSpan))
  }

  /** Bounds contributed, link by link, to an agent by the sessions it conducted. */
  function AgentBounds(nodes: map<string, Node>, links: seq<Edge>, agent: string): seq<Option<int>> {
    if links == [] then []
    else
      var e := links[|links| - 1];
      AgentBounds(nodes, links[..|links| - 1], agent) +
      if e.relation == ConductedBy && e.target == agent then BoundsOf(nodes, e.source) else []
  }

  function ProducedStarts(nodes: map<string, Node>, links: seq<Edge>, session: string): seq<Option<int>> {
    if links == [] then []
    else
      var e := links[|links| - 1];
      ProducedStarts(nodes, links[..|links| - 1], session) +
      if e.relation == Produced && e.source == session then StartOf(nodes, e.target) else []
  }

  /** A branch spans the sessions that touched it and the commits they produced. */
  function BranchBounds(nodes: map<string, Node>, all: seq<Edge>, links: seq<Edge>, branch: string): seq<Option<int>> {
    if links == [] then []
    else
      var e := links[|links| - 1];
      BranchBounds(nodes, all, links[..|links| - 1], branch) +
      if e.relation == TouchedBranch && e.target == branch
      then BoundsOf(nodes, e.source) + ProducedStarts(nodes, all, e.source) else []
  }

  function SessionBounds(nodes: map<string, Node>, order: seq<string>): seq<Option<int>> {
    if order == [] then []
    else
      var id := order[|order| - 1];
      SessionBounds(nodes, order[..|order| - 1]) +
      if id in nodes && nodes[id].kind == Session then BoundsOf(nodes, id) else []
  }

  function ApplySpan(n: Node, stamp: Stamp): Node {
    if stamp.t.None? then n else n.(stamp := stamp)
  }

  /** The node at `id` with its derived span; `sessions` are all session bounds. */
  function Spanned(g: Graph, id: string, sessions: seq<Option<int>>): Node
    requires id in g.nodes
  {
    var n := g.nodes[id];
    match n.kind
    case Branch => ApplySpan(n, Envelope(BranchBounds(g.nodes, g.links, g.links, id)))
    case Agent => ApplySpan(n, Envelope(AgentBounds(g.nodes, g.links, id)))
    case Project => ApplySpan(n, Envelope(sessions))
    case _ => n
  }

  function SpanNodes(g: Graph, sessions: seq<Option<int>>, ids: seq<string>): Graph {
    if ids == [] then g
    else
      var before := SpanNodes(g, sessions, ids[..|ids| - 1]);
      var id := ids[|ids| - 1];
      if id in before.nodes then before.(nodes := before.nodes[id := Spanned(before, id, sessions)]) else before
  }

  // ----- the trust tier -----

  predicate EarnedKind(kind: Kind) {
    kind in {Project, Repo, Session, Branch, Commit}
  }

  function Trusted(n: Node): Node {
    if n.trust.None? && EarnedKind(n.kind) then n.(trust := Some(Earned)) else n
  }

  function TrustNodes(g: Graph, ids: seq<string>): Graph {
    if ids == [] then g
    else
      var before := TrustNodes(g, ids[..|ids| - 1]);
      var id := ids[|ids| - 1];
      if id in before.nodes then before.(nodes := before.nodes[id := Trusted(before.nodes[id])]) else before
  }

  // ----- the whole build -----

  function Base(inp: Input): Graph {
    ChainRepos(inp, AddRepos(inp, AddProject(inp), |inp.aliases|), |inp.aliases|)
  }

  function AfterSessions(inp: Input): Progress {
    AddSessions(inp, Base(inp), inp.sessions)
  }

  /** Everything but spans and trust. */
  function Structure(inp: Input): Graph {
    var b := AfterSessions(inp);
    var g1 := AddEvidence(b, CoordinationIds(inp.evidence));
    var g2 := if inp.includeCommits then AddLog(inp, g1, inp.commits) else g1;
    var g3 := if inp.includeBranches then AddHeads(inp, g2, inp.heads) else g2;
    AddAllDerived(b, g3, inp.sessions)
  }

  function Build(inp: Input): Graph {
    var g := Structure(inp);
    var spanned := SpanNodes(g, SessionBounds(g.nodes, g.order), g.order);
    TrustNodes(spanned, spanned.order)
  }
}
