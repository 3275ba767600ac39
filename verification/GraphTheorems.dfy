/**
 The main results about the built project graph
 (packages/agent-stats/src/project-graph.ts): its shape, the derived spans over the
 finished structure and the trust tier.
 */
module GraphTheorems {
  import opened Common
  import opened Sorting
  import opened ProjectGraph
  import opened GraphLaws

  // ----- the structure before spans and trust -----

  lemma {:induction false} NonEmptyFacts(ids: seq<string>)
    ensures forall id :: id in NonEmpty(ids) <==> id in ids && id != ""
  {
    if ids != [] {
      NonEmptyFacts(ids[..|ids| - 1]);
      assert ids == ids[..|ids| - 1] + [ids[|ids| - 1]];
    }
  }

  lemma CoordinationMembers(evidence: seq<string>, id: string)
    ensures id in CoordinationIds(evidence) <==> id in evidence && id != ""
  {
    NonEmptyFacts(evidence);
    DistinctFacts(NonEmpty(evidence));
    SortKeepsMembers(StringLe, Distinct(NonEmpty(evidence)), id);
  }

  /** The graph after sessions and evidence, and after the git log. */
  function WithEvidence(inp: Input): Graph {
    AddEvidence(AfterSessions(inp), CoordinationIds(inp.evidence))
  }

  function WithLog(inp: Input): Graph {
    if inp.includeCommits then AddLog(inp, WithEvidence(inp), inp.commits) else WithEvidence(inp)
  }

  lemma SessionsHold(inp: Input)
    ensures Inv(AfterSessions(inp).g) && MapsOk(AfterSessions(inp)) && Extends(Base(inp), AfterSessions(inp).g)
  {
    hide Inv, AddSessions, Base;
    BaseHolds(inp);
    SessionsKeep(inp, Base(inp), inp.sessions);
  }

  lemma EvidenceHolds(inp: Input)
    ensures Inv(WithEvidence(inp)) && Extends(AfterSessions(inp).g, WithEvidence(inp))
  {
    hide Inv, AfterSessions, AddEvidence;
    SessionsHold(inp);
    CoordinationMembers(inp.evidence, "");
    EvidenceKeeps(inp, AfterSessions(inp), CoordinationIds(inp.evidence));
  }

  lemma LogHolds(inp: Input)
    ensures Inv(WithLog(inp)) && Grows(WithEvidence(inp), WithLog(inp))
    ensures inp.includeCommits ==>
              forall i | 0 <= i < |inp.commits| :: NodeId(Commit, inp.commits[i].sha) in WithLog(inp).nodes
  {
    hide Inv, WithEvidence, AddLog;
    EvidenceHolds(inp);
    if inp.includeCommits {
      LogKeeps(inp, WithEvidence(inp), inp.commits);
    }
  }

  lemma StructureHolds(inp: Input)
    ensures Inv(Structure(inp)) && Grows(AfterSessions(inp).g, Structure(inp))
    ensures inp.includeCommits ==>
              forall i | 0 <= i < |inp.commits| :: NodeId(Commit, inp.commits[i].sha) in Structure(inp).nodes
  {
    hide Inv, AfterSessions, AddEvidence, AddLog, AddHeads, AddAllDerived, MapsOk;
    var b := AfterSessions(inp);
    SessionsHold(inp);
    EvidenceHolds(inp);
    LogHolds(inp);
    HeadsKeep(inp, WithLog(inp), inp.heads);
    var g3 := if inp.includeBranches then AddHeads(inp, WithLog(inp), inp.heads) else WithLog(inp);
    assert Extends(WithLog(inp), g3);
    SessionNodesStay(b, g3);
    DerivedKeep(inp, b, g3, inp.sessions);
  }

  lemma SessionNodesStay(b: Progress, h: Graph)
    requires MapsOk(b) && forall id | id in b.g.nodes :: id in h.nodes
    ensures forall s | s in b.sessionNode :: b.sessionNode[s] in h.nodes
  {
  }

  // ----- spans and trust touch one node at a time -----

  /** `h` has the nodes of `g`, with sessions and commits as they were and every kind kept. */
  ghost predicate SameChildren(g: Graph, h: Graph) {
    && h.order == g.order && h.links == g.links && h.nodes.Keys == g.nodes.Keys
    && forall id | id in g.nodes ::
         && h.nodes[id] == g.nodes[id].(stamp := h.nodes[id].stamp)
         && (g.nodes[id].kind in {Session, Commit} ==> h.nodes[id] == g.nodes[id])
  }

  lemma {:induction false} AgentBoundsSame(g: Graph, h: Graph, n: nat, agent: string)
    requires Inv(g) && SameChildren(g, h) && n <= |g.links|
    ensures AgentBounds(h.nodes, g.links[..n], agent) == AgentBounds(g.nodes, g.links[..n], agent)
  {
    if n > 0 {
      assert g.links[..n][..n - 1] == g.links[..n - 1];
      AgentBoundsSame(g, h, n - 1, agent);
      assert EdgeOk(g, g.links[n - 1]);
      assert NodeOk(g.links[n - 1].source, g.nodes[g.links[n - 1].source]);
    }
  }

  lemma {:induction false} ProducedStartsSame(g: Graph, h: Graph, n: nat, session: string)
    requires Inv(g) && SameChildren(g, h) && n <= |g.links|
    ensures ProducedStarts(h.nodes, g.links[..n], session) == ProducedStarts(g.nodes, g.links[..n], session)
  {
    if n > 0 {
      assert g.links[..n][..n - 1] == g.links[..n - 1];
      ProducedStartsSame(g, h, n - 1, session);
      assert EdgeOk(g, g.links[n - 1]);
      assert NodeOk(g.links[n - 1].target, g.nodes[g.links[n - 1].target]);
    }
  }

  lemma {:induction false} BranchBoundsSame(g: Graph, h: Graph, n: nat, branch: string)
    requires Inv(g) && SameChildren(g, h) && n <= |g.links|
    ensures BranchBounds(h.nodes, g.links, g.links[..n], branch) == BranchBounds(g.nodes, g.links, g.links[..n], branch)
  {
    hide WellFormed, KindOf, ProducedStarts;
    if n > 0 {
      assert g.links[..n][..n - 1] == g.links[..n - 1];
      BranchBoundsSame(g, h, n - 1, branch);
      var e := g.links[n - 1];
      assert EdgeOk(g, e);
      assert NodeOk(e.source, g.nodes[e.source]);
      ProducedStartsSame(g, h, |g.links|, e.source);
      assert g.links[..|g.links|] == g.links;
    }
  }

  /** A derived span reads only sessions, commits and edges. */
  lemma SpannedSame(g: Graph, h: Graph, id: string, sessions: seq<Option<int>>)
    requires Inv(g) && SameChildren(g, h) && id in g.nodes && h.nodes[id] == g.nodes[id]
    ensures Spanned(h, id, sessions) == Spanned(g, id, sessions)
  {
    assert g.links[..|g.links|] == g.links;
    AgentBoundsSame(g, h, |g.links|, id);
    BranchBoundsSame(g, h, |g.links|, id);
  }

  lemma {:induction false} SpanNodesAt(g: Graph, sessions: seq<Option<int>>, ids: seq<string>)
    requires Inv(g) && NoDuplicates(ids) && forall id | id in ids :: id in g.nodes
    ensures var h := SpanNodes(g, sessions, ids);
            && SameChildren(g, h)
            && (forall id | id in g.nodes :: h.nodes[id] == if id in ids then Spanned(g, id, sessions) else g.nodes[id])
  {
    hide Inv, Spanned;
    if ids != [] {
      var rest, id := ids[..|ids| - 1], ids[|ids| - 1];
      assert ids == rest + [id];
      SpanNodesAt(g, sessions, rest);
      var before := SpanNodes(g, sessions, rest);
      SpannedSame(g, before, id, sessions);
      SpannedKeepsRest(g, id, sessions);
    }
  }

  lemma SpannedKeepsRest(g: Graph, id: string, sessions: seq<Option<int>>)
    requires id in g.nodes
    ensures Spanned(g, id, sessions) == g.nodes[id].(stamp := Spanned(g, id, sessions).stamp)
    ensures g.nodes[id].kind !in {Branch, Agent, Project} ==> Spanned(g, id, sessions) == g.nodes[id]
  {
  }

  lemma {:induction false} TrustNodesAt(g: Graph, ids: seq<string>)
    requires NoDuplicates(ids) && forall id | id in ids :: id in g.nodes
    ensures var h := TrustNodes(g, ids);
            && h.order == g.order && h.links == g.links && h.nodes.Keys == g.nodes.Keys
            && (forall id | id in g.nodes :: h.nodes[id] == if id in ids then Trusted(g.nodes[id]) else g.nodes[id])
  {
    if ids != [] {
      var rest, id := ids[..|ids| - 1], ids[|ids| - 1];
      assert ids == rest + [id];
      TrustNodesAt(g, rest);
    }
  }

  function AllSessionBounds(inp: Input): seq<Option<int>> {
    SessionBounds(Structure(inp).nodes, Structure(inp).order)
  }

  /** The last two passes change each node on its own: its span, then its trust. */
  lemma BuildAt(inp: Input)
    ensures var g := Structure(inp);
            var h := Build(inp);
            && h.order == g.order && h.links == g.links && h.nodes.Keys == g.nodes.Keys
            && forall id | id in g.nodes :: h.nodes[id] == Trusted(Spanned(g, id, AllSessionBounds(inp)))
  {
    hide Inv, Structure, Spanned, Trusted;
    var g := Structure(inp);
    StructureHolds(inp);
    OrderListsNodes(g);
    var spanned := SpanNodes(g, AllSessionBounds(inp), g.order);
    SpanNodesAt(g, AllSessionBounds(inp), g.order);
    TrustNodesAt(spanned, spanned.order);
  }

  lemma OrderListsNodes(g: Graph)
    requires Inv(g)
    ensures NoDuplicates(g.order) && forall id :: id in g.order <==> id in g.nodes
  {
  }

  // ----- the shape of the graph -----

  /** Every edge of the built graph joins two existing nodes, no (source, target,
      relation) repeats, every node is listed once, and its id announces its kind. */
  lemma BuiltGraphIsWellFormed(inp: Input)
    ensures WellFormed(Build(inp))
    ensures forall id | id in Build(inp).nodes :: KindOf(id) == Some(Build(inp).nodes[id].kind)
  {
    hide Structure, Spanned, Build, AllSessionBounds;
    BuildAt(inp);
    StructureHolds(inp);
    var g := Structure(inp);
    forall id | id in g.nodes
      ensures KindOf(id) == Some(Build(inp).nodes[id].kind)
    {
      assert NodeOk(id, g.nodes[id]);
      SpannedKeepsRest(g, id, AllSessionBounds(inp));
    }
  }

  /** Evidence is unverified, agents carry no tier, every other node is earned. */
  lemma TrustTier(inp: Input, id: string)
    requires id in Build(inp).nodes
    ensures var n := Build(inp).nodes[id];
            n.trust == if n.kind == Evidence then Some(Unverified) else if n.kind == Agent then None else Some(Earned)
  {
    hide Structure, Spanned, Build, AllSessionBounds;
    BuildAt(inp);
    StructureHolds(inp);
    var g := Structure(inp);
    assert NodeOk(id, g.nodes[id]);
    SpannedKeepsRest(g, id, AllSessionBounds(inp));
  }

  // ----- derived spans -----

  /** `stamp` is the exact hull of the known bounds: no bound, no span. */
  ghost predicate Hull(stamp: Stamp, bounds: seq<Option<int>>) {
    if forall v | v in bounds :: v.None? then stamp == NO_STAMP
    else
      && stamp.t.Some? && stamp.tEnd.Some? && stamp.src == Some(ChildrenSpan)
      && stamp.t in bounds && stamp.tEnd in bounds
      && forall v | v in bounds && v.Some? :: stamp.t.value <= v.value <= stamp.tEnd.value
  }

  lemma {:induction false} EnvelopeIsHull(bounds: seq<Option<int>>)
    ensures Hull(Envelope(bounds), bounds)
  {
    if bounds != [] {
      var rest, v := bounds[..|bounds| - 1], bounds[|bounds| - 1];
      assert bounds == rest + [v];
      EnvelopeIsHull(rest);
      if v.Some? {
        assert v in bounds;
        if forall w | w in rest :: w.None? {
          RangeOfNothing(rest);
        }
      } else if forall w | w in rest :: w.None? {
        assert forall w | w in bounds :: w.None?;
      }
    }
  }

  lemma {:induction false} RangeOfNothing(bounds: seq<Option<int>>)
    requires forall v | v in bounds :: v.None?
    ensures RangeOf(bounds) == Range(None, None)
  {
    if bounds != [] {
      RangeOfNothing(bounds[..|bounds| - 1]);
    }
  }

  /** `v` is a bound of a session that the graph says `agent` conducted. */
  ghost predicate ConductedBound(g: Graph, agent: string, v: Option<int>) {
    exists i | 0 <= i < |g.links| ::
      g.links[i].relation == ConductedBy && g.links[i].target == agent && v in BoundsOf(g.nodes, g.links[i].source)
  }

  lemma {:induction false} AgentBoundsAreConducted(nodes: map<string, Node>, links: seq<Edge>, agent: string,
                                                  v: Option<int>)
    ensures v in AgentBounds(nodes, links, agent) <==> ConductedBound(Graph([], nodes, links), agent, v)
  {
    if links != [] {
      var n := |links| - 1;
      AgentBoundsAreConducted(nodes, links[..n], agent, v);
      if ConductedBound(Graph([], nodes, links), agent, v) {
        var i :| 0 <= i <= n && links[i].relation == ConductedBy && links[i].target == agent
                 && v in BoundsOf(nodes, links[i].source);
        if i < n {
          assert links[..n][i] == links[i];
        }
      } else {
        assert forall i | 0 <= i < n :: links[..n][i] == links[i];
      }
    }
  }

  lemma {:induction false} SessionBoundsCover(nodes: map<string, Node>, order: seq<string>, v: Option<int>)
    ensures v in SessionBounds(nodes, order) <==>
              exists id :: id in order && id in nodes && nodes[id].kind == Session && v in BoundsOf(nodes, id)
  {
    if order != [] {
      SessionBoundsCover(nodes, order[..|order| - 1], v);
      assert order == order[..|order| - 1] + [order[|order| - 1]];
    }
  }

  /** Session nodes end as the session pass left them. */
  lemma SessionStampsStay(inp: Input, id: string)
    requires id in Structure(inp).nodes && KindOf(id) == Some(Session)
    ensures id in Build(inp).nodes && Build(inp).nodes[id].stamp == Structure(inp).nodes[id].stamp
  {
    hide Structure, Spanned, Build, AllSessionBounds;
    BuildAt(inp);
    StructureHolds(inp);
    assert NodeOk(id, Structure(inp).nodes[id]);
    SpannedKeepsRest(Structure(inp), id, AllSessionBounds(inp));
  }

  /** The span of every agent is the hull of the sessions it conducted. */
  lemma AgentSpanIsHull(inp: Input, agent: string)
    requires agent in Build(inp).nodes && Build(inp).nodes[agent].kind == Agent
    ensures var bounds := AgentBounds(Structure(inp).nodes, Structure(inp).links, agent);
            Hull(Build(inp).nodes[agent].stamp, bounds)
  {
    hide Structure, Build, AllSessionBounds, Hull, AgentBounds, WellFormed, EdgeOk, Envelope, BranchBounds;
    BuildAt(inp);
    StructureHolds(inp);
    var g := Structure(inp);
    assert NodeOk(agent, g.nodes[agent]);
    EnvelopeIsHull(AgentBounds(g.nodes, g.links, agent));
    EmptyEnvelope(AgentBounds(g.nodes, g.links, agent));
  }

  /** Applying an empty envelope to a timeless node leaves it timeless. */
  lemma EmptyEnvelope(bounds: seq<Option<int>>)
    ensures Envelope(bounds).t.None? ==> Envelope(bounds) == NO_STAMP
  {
  }

  /** The span of every branch with sessions is the hull of those that touched it and
      of the starts of the commits they produced. */
  lemma BranchSpanIsHull(inp: Input, branch: string)
    requires branch in Build(inp).nodes && Build(inp).nodes[branch].kind == Branch
    ensures var g := Structure(inp);
            Hull(Build(inp).nodes[branch].stamp, BranchBounds(g.nodes, g.links, g.links, branch))
  {
    hide Structure, Build, AllSessionBounds, Hull, BranchBounds, WellFormed, EdgeOk, Envelope, AgentBounds;
    BuildAt(inp);
    StructureHolds(inp);
    var g := Structure(inp);
    assert NodeOk(branch, g.nodes[branch]);
    EnvelopeIsHull(BranchBounds(g.nodes, g.links, g.links, branch));
    EmptyEnvelope(BranchBounds(g.nodes, g.links, g.links, branch));
  }

  lemma ProjectSpanIsHull(inp: Input)
    ensures ProjectId(inp) in Build(inp).nodes
    ensures Hull(Build(inp).nodes[ProjectId(inp)].stamp, AllSessionBounds(inp))
  {
    hide Structure, Build, AllSessionBounds, Hull, AfterSessions, Base;
    BuildAt(inp);
    StructureHolds(inp);
    BaseHolds(inp);
    SessionsHold(inp);
    var g := Structure(inp);
    IdsAnnounceKinds(Project, inp.canonicalId);
    assert ProjectId(inp) in g.nodes;
    assert NodeOk(ProjectId(inp), g.nodes[ProjectId(inp)]);
    EnvelopeIsHull(AllSessionBounds(inp));
    EmptyEnvelope(AllSessionBounds(inp));
  }

  /** Every agent span lies inside the project span. */
  lemma AgentInsideProject(inp: Input, agent: string)
    requires agent in Build(inp).nodes && Build(inp).nodes[agent].kind == Agent
    requires Build(inp).nodes[agent].stamp.t.Some?
    ensures ProjectId(inp) in Build(inp).nodes
    ensures var a := Build(inp).nodes[agent].stamp;
            var p := Build(inp).nodes[ProjectId(inp)].stamp;
            p.t.Some? && p.tEnd.Some? && a.tEnd.Some? && p.t.value <= a.t.value <= a.tEnd.value <= p.tEnd.value
  {
    hide Structure, Build, AllSessionBounds, AgentBounds;
    AgentSpanIsHull(inp, agent);
    ProjectSpanIsHull(inp);
    var a := Build(inp).nodes[agent].stamp;
    AgentBoundInProject(inp, agent, a.t);
    AgentBoundInProject(inp, agent, a.tEnd);
  }

  lemma AgentBoundInProject(inp: Input, agent: string, v: Option<int>)
    requires v in AgentBounds(Structure(inp).nodes, Structure(inp).links, agent)
    ensures v in AllSessionBounds(inp)
  {
    hide Structure;
    var g := Structure(inp);
    StructureHolds(inp);
    AgentBoundsAreConducted(g.nodes, g.links, agent, v);
    var i :| 0 <= i < |g.links| && g.links[i].relation == ConductedBy && v in BoundsOf(g.nodes, g.links[i].source);
    assert EdgeOk(g, g.links[i]);
    assert NodeOk(g.links[i].source, g.nodes[g.links[i].source]);
    SessionBoundsCover(g.nodes, g.order, v);
  }
}
