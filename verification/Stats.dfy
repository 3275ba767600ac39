/**
 The per-agent table (packages/agent-stats/src/stats.ts, `aggregate`): sessions
 and tokens from the facts, commits, branches and work packages from the links.
 The identity of a fact, its cost-weighted tokens and the label parser are given.
 */
module Stats {
  import opened Common
  import opened Sorting
  import opened Correlate

  datatype Citation = Citation(kind: string, text: string, timestamp: Option<string>)

  datatype StatFact = StatFact(
    id: string, agent: string, host: string, registered: bool, tokens: int, weighted: int, endedAt: Option<string>,
    evidence: seq<Citation>)

  datatype Acc = Acc(
    host: string, registered: bool, sessions: set<string>, tokens: int, weighted: int, confidence: Option<Confidence>,
    commits: set<string>, branches: set<string>, wps: seq<string>, lastActive: Option<string>)

  datatype Row = Row(
    agent: string, host: string, registered: bool, sessions: nat, tokens: int, weighted: int,
    confidence: Option<Confidence>, commits: nat, branches: nat, wps: seq<string>, lastActive: Option<string>)

  type Labels = string -> Option<string>

  // ----- facts -----

  predicate Given(s: Option<string>) {
    s.Some? && s.value != ""
  }

  function Later(last: Option<string>, ended: Option<string>): Option<string> {
    if Given(ended) && (!Given(last) || !StringLe(ended.value, last.value)) then ended else last
  }

  function Opened(f: StatFact): Acc {
    Acc(f.host, f.registered, {}, 0, 0, None, {}, {}, [], None)
  }

  function CountFact(a: Acc, f: StatFact): Acc {
    a.(sessions := a.sessions + {f.id}, tokens := a.tokens + f.tokens, weighted := a.weighted + f.weighted,
       lastActive := Later(a.lastActive, f.endedAt))
  }

  /** An agent's totals over the facts, absent while it has none. */
  function FactPart(facts: seq<StatFact>, agent: string): Option<Acc> {
    if facts == [] then None
    else
      var before, f := FactPart(facts[..|facts| - 1], agent), facts[|facts| - 1];
      if f.agent != agent then before
      else Some(CountFact(if before.Some? then before.value else Opened(f), f))
  }

  /** The agents in order of their first fact. */
  function Agents(facts: seq<StatFact>): seq<string> {
    if facts == [] then []
    else
      var before, f := Agents(facts[..|facts| - 1]), facts[|facts| - 1];
      if f.agent in before then before else before + [f.agent]
  }

  // ----- links -----

  /** A branch that the agent proved by printing one of its commits. */
  predicate ProvesBranch(l: Link, agent: string, branch: string) {
    && l.rule == CommitShaOutput && l.target.CommitTarget? && l.target.onBranch == Some(branch) && branch != ""
    && l.agentId == agent
  }

  predicate Proved(links: seq<Link>, agent: string, branch: string) {
    exists i | 0 <= i < |links| :: ProvesBranch(links[i], agent, branch)
  }

  /** A squash commit of a branch whose own commits are counted already. */
  predicate DupSquash(links: seq<Link>, l: Link) {
    && l.rule == PrMergeRule && l.target.CommitTarget? && Given(l.target.onBranch)
    && Proved(links, l.agentId, l.target.onBranch.value)
  }

  function Rank(c: Confidence): nat {
    match c
    case High => 3
    case Medium => 2
    case Low => 1
  }

  function Better(best: Option<Confidence>, c: Confidence): Option<Confidence> {
    if best.None? || Rank(c) > Rank(best.value) then Some(c) else best
  }

  function AddUnique(s: seq<string>, x: string): seq<string> {
    if x in s then s else s + [x]
  }

  /** The branch that a link credits, if any. */
  function BranchOf(l: Link): Option<string> {
    match l.target
    case CommitTarget(_, b) => if Given(b) then b else None
    case BranchTarget(b) => if b == "" || b == "(workspace)" then None else Some(b)
    case WpTarget(_, _) => None
  }

  function LabelOf(labels: Labels, l: Link): Option<string> {
    var text :=
      match l.target
      case WpTarget(id, wp) => if wp.Some? then wp else labels(id)
      case _ => if BranchOf(l).Some? then labels(BranchOf(l).value) else None;
    if Given(text) then text else None
  }

  predicate CountsCommit(all: seq<Link>, l: Link) {
    l.target.CommitTarget? && !DupSquash(all, l)
  }

  function CountLink(a: Acc, all: seq<Link>, l: Link, labels: Labels): Acc {
    a.(confidence := Better(a.confidence, l.confidence),
       commits := if CountsCommit(all, l) then a.commits + {Prefix7(l.target.sha)} else a.commits,
       branches := if BranchOf(l).Some? then a.branches + {BranchOf(l).value} else a.branches,
       wps := if LabelOf(labels, l).Some? then AddUnique(a.wps, LabelOf(labels, l).value) else a.wps)
  }

  function LinkPart(a: Acc, all: seq<Link>, links: seq<Link>, agent: string, labels: Labels): Acc {
    if links == [] then a
    else
      var before, l := LinkPart(a, all, links[..|links| - 1], agent, labels), links[|links| - 1];
      if l.agentId == agent then CountLink(before, all, l, labels) else before
  }

  // ----- rows -----

  function RowOf(agent: string, a: Acc): Row {
    Row(agent, a.host, a.registered, |a.sessions|, a.tokens, a.weighted, a.confidence, |a.commits|, |a.branches|,
        Sort(StringLe, a.wps), a.lastActive)
  }

  predicate RowFirst(x: Row, y: Row) {
    || x.commits > y.commits
    || (x.commits == y.commits && x.sessions > y.sessions)
    || (x.commits == y.commits && x.sessions == y.sessions && StringLe(x.agent, y.agent))
  }

  function AgentRow(facts: seq<StatFact>, links: seq<Link>, labels: Labels, agent: string): Row
    requires FactPart(facts, agent).Some?
  {
    RowOf(agent, LinkPart(FactPart(facts, agent).value, links, links, agent, labels))
  }

  lemma {:induction false} AgentsHaveFacts(facts: seq<StatFact>)
    ensures NoDuplicates(Agents(facts))
    ensures forall a :: a in Agents(facts) <==> FactPart(facts, a).Some?
  {
    if facts != [] {
      AgentsHaveFacts(facts[..|facts| - 1]);
    }
  }

  function RowsOf(facts: seq<StatFact>, links: seq<Link>, labels: Labels, agents: seq<string>): seq<Row>
    requires forall a | a in agents :: FactPart(facts, a).Some?
  {
    if agents == [] then []
    else
      RowsOf(facts, links, labels, agents[..|agents| - 1]) + [AgentRow(facts, links, labels, agents[|agents| - 1])]
  }

  function Table(facts: seq<StatFact>, links: seq<Link>, labels: Labels): seq<Row> {
    AgentsHaveFacts(facts);
    Sort(RowFirst, RowsOf(facts, links, labels, Agents(facts)))
  }

  // ----- the loops -----

  method CountFacts(facts: seq<StatFact>) returns (order: seq<string>, accs: map<string, Acc>)
    ensures order == Agents(facts)
    ensures forall a :: FactPart(facts, a) == if a in accs then Some(accs[a]) else None
  {
    order, accs := [], map[];
    for i := 0 to |facts|
      invariant order == Agents(facts[..i])
      invariant forall a :: a in order <==> a in accs
      invariant forall a :: FactPart(facts[..i], a) == if a in accs then Some(accs[a]) else None
    {
      assert facts[..i + 1][..i] == facts[..i];
      var f := facts[i];
      if f.agent !in accs {
        order := order + [f.agent];
        accs := accs[f.agent := Opened(f)];
      }
      accs := accs[f.agent := CountFact(accs[f.agent], f)];
    }
    assert facts[..|facts|] == facts;
  }

  predicate Holds(m: map<string, set<string>>, a: string, b: string) {
    a in m && b in m[a]
  }

  method ProvedBranches(links: seq<Link>) returns (proved: map<string, set<string>>)
    ensures forall a, b :: Holds(proved, a, b) <==> Proved(links, a, b)
  {
    proved := map[];
    for i := 0 to |links|
      invariant forall a, b :: Holds(proved, a, b) <==> Proved(links[..i], a, b)
    {
      var l := links[i];
      ghost var was := proved;
      if l.rule == CommitShaOutput && l.target.CommitTarget? && Given(l.target.onBranch) {
        var known := if l.agentId in proved then proved[l.agentId] else {};
        proved := proved[l.agentId := known + {l.target.onBranch.value}];
      }
      forall a, b
        ensures Holds(proved, a, b) <==> Proved(links[..i + 1], a, b)
      {
        ProvedStep(links, i, a, b);
        assert Holds(proved, a, b) <==> Holds(was, a, b) || ProvesBranch(l, a, b);
      }
    }
    assert links[..|links|] == links;
  }

  lemma ProvedStep(links: seq<Link>, i: nat, a: string, b: string)
    requires i < |links|
    ensures Proved(links[..i + 1], a, b) <==> Proved(links[..i], a, b) || ProvesBranch(links[i], a, b)
  {
    hide ProvesBranch;
    if Proved(links[..i], a, b) {
      var k :| 0 <= k < i && ProvesBranch(links[..i][k], a, b);
      assert links[..i + 1][k] == links[k];
    }
    assert links[..i + 1][i] == links[i];
    if Proved(links[..i + 1], a, b) {
      var k :| 0 <= k <= i && ProvesBranch(links[..i + 1][k], a, b);
      if k < i {
        assert links[..i][k] == links[k];
      }
    }
  }

  /** One link, field by field as the loop does it. */
  method CreditLink(a: Acc, l: Link, dup: bool, labels: Labels, ghost all: seq<Link>) returns (r: Acc)
    requires dup <==> DupSquash(all, l)
    ensures r == CountLink(a, all, l, labels)
  {
    r := a;
    if r.confidence != Some(l.confidence) && r.confidence != Some(High) {
      var cur := if r.confidence.None? then 0 else Rank(r.confidence.value);
      if Rank(l.confidence) > cur {
        r := r.(confidence := Some(l.confidence));
      }
    }
    if l.target.CommitTarget? && !dup {
      r := r.(commits := r.commits + {Prefix7(l.target.sha)});
    }
    if BranchOf(l).Some? {
      r := r.(branches := r.branches + {BranchOf(l).value});
    }
    var wp := LabelOf(labels, l);
    if wp.Some? && wp.value !in r.wps {
      r := r.(wps := r.wps + [wp.value]);
    }
  }

  /** The loop over the links; links of unknown agents are passed over. */
  method CreditLinks(links: seq<Link>, labels: Labels, start: map<string, Acc>) returns (accs: map<string, Acc>)
    ensures accs.Keys == start.Keys
    ensures forall a | a in accs :: accs[a] == LinkPart(start[a], links, links, a, labels)
  {
    hide CountLink, DupSquash, Proved;
    accs := start;
    var proved := ProvedBranches(links);
    for i := 0 to |links|
      invariant accs.Keys == start.Keys
      invariant forall a | a in accs :: accs[a] == LinkPart(start[a], links, links[..i], a, labels)
    {
      assert links[..i + 1][..i] == links[..i];
      var l := links[i];
      if l.agentId !in accs {
        continue;
      }
      var dup := l.rule == PrMergeRule && l.target.CommitTarget? && Given(l.target.onBranch)
                 && Holds(proved, l.agentId, l.target.onBranch.value);
      DupIs(links, l);
      var a := CreditLink(accs[l.agentId], l, dup, labels, links);
      accs := accs[l.agentId := a];
    }
    assert links[..|links|] == links;
  }

  method Aggregate(facts: seq<StatFact>, links: seq<Link>, labels: Labels) returns (rows: seq<Row>)
    ensures rows == Table(facts, links, labels)
  {
    hide FactPart, LinkPart, RowOf;
    AgentsHaveFacts(facts);
    var order, start := CountFacts(facts);
    var accs := CreditLinks(links, labels, start);
    rows := [];
    for i := 0 to |order|
      invariant forall a | a in order[..i] :: FactPart(facts, a).Some?
      invariant rows == RowsOf(facts, links, labels, order[..i])
    {
      assert order[..i + 1][..i] == order[..i];
      assert order[i] in Agents(facts);
      rows := rows + [RowOf(order[i], accs[order[i]])];
    }
    assert order[..|order|] == order;
    rows := Sort(RowFirst, rows);
  }

  lemma DupIs(links: seq<Link>, l: Link)
    ensures DupSquash(links, l) <==>
              && l.rule == PrMergeRule && l.target.CommitTarget? && Given(l.target.onBranch)
              && Proved(links, l.agentId, l.target.onBranch.value)
  {
  }

  // ----- what the columns mean -----

  /** Distinct abbreviated names of the agent's commits, squash duplicates left out. */
  function CommitKeys(all: seq<Link>, links: seq<Link>, agent: string): set<string> {
    set i | 0 <= i < |links| && links[i].agentId == agent && CountsCommit(all, links[i]) :: Prefix7(links[i].target.sha)
  }

  function BranchSet(links: seq<Link>, agent: string): set<string> {
    set i | 0 <= i < |links| && links[i].agentId == agent && BranchOf(links[i]).Some? :: BranchOf(links[i]).value
  }

  lemma KeysStep(all: seq<Link>, links: seq<Link>, agent: string)
    requires links != []
    ensures var rest, l := links[..|links| - 1], links[|links| - 1];
            && CommitKeys(all, links, agent) ==
                 CommitKeys(all, rest, agent) +
                 (if l.agentId == agent && CountsCommit(all, l) then {Prefix7(l.target.sha)} else {})
            && BranchSet(links, agent) ==
                 BranchSet(rest, agent) + (if l.agentId == agent && BranchOf(l).Some? then {BranchOf(l).value} else {})
  {
    hide CountsCommit, BranchOf, Prefix7;
    var n := |links| - 1;
    assert links == links[..n] + [links[n]];
    assert forall i | 0 <= i < n :: links[..n][i] == links[i];
    forall k
      ensures k in BranchSet(links, agent) <==>
                k in BranchSet(links[..n], agent) +
                     (if links[n].agentId == agent && BranchOf(links[n]).Some? then {BranchOf(links[n]).value} else {})
    {
    }
  }

  ghost predicate HasConfidence(links: seq<Link>, agent: string, c: Confidence) {
    exists i | 0 <= i < |links| :: links[i].agentId == agent && links[i].confidence == c
  }

  /** `best` is the strongest confidence among the agent's links, if it has any. */
  ghost predicate BestConfidence(links: seq<Link>, agent: string, best: Option<Confidence>) {
    if HasConfidence(links, agent, High) then best == Some(High)
    else if HasConfidence(links, agent, Medium) then best == Some(Medium)
    else if HasConfidence(links, agent, Low) then best == Some(Low)
    else best == None
  }

  lemma {:induction false} LinkPartMeans(a: Acc, all: seq<Link>, links: seq<Link>, agent: string, labels: Labels)
    requires a.commits == {} && a.branches == {} && a.confidence == None
    ensures var r := LinkPart(a, all, links, agent, labels);
            && r.commits == CommitKeys(all, links, agent)
            && r.branches == BranchSet(links, agent)
            && BestConfidence(links, agent, r.confidence)
            && r.sessions == a.sessions && r.tokens == a.tokens && r.weighted == a.weighted
            && r.host == a.host && r.registered == a.registered
  {
    hide CountsCommit, BranchOf, LabelOf, Prefix7, CommitKeys, BranchSet, BestConfidence;
    if links == [] {
      NoKeys(all, agent);
    } else {
      var rest, l := links[..|links| - 1], links[|links| - 1];
      LinkPartMeans(a, all, rest, agent, labels);
      KeysStep(all, links, agent);
      BestStep(links, agent, LinkPart(a, all, rest, agent, labels).confidence);
    }
  }

  lemma NoKeys(all: seq<Link>, agent: string)
    ensures CommitKeys(all, [], agent) == {} && BranchSet([], agent) == {} && BestConfidence([], agent, None)
  {
  }

  lemma BestStep(links: seq<Link>, agent: string, best: Option<Confidence>)
    requires links != [] && BestConfidence(links[..|links| - 1], agent, best)
    ensures var l := links[|links| - 1];
            BestConfidence(links, agent, if l.agentId == agent then Better(best, l.confidence) else best)
  {
    hide HasConfidence;
    var l := links[|links| - 1];
    forall c
      ensures HasConfidence(links, agent, c) <==>
                HasConfidence(links[..|links| - 1], agent, c) || (l.agentId == agent && l.confidence == c)
    {
      ConfidenceStep(links, agent, c);
    }
  }

  lemma ConfidenceStep(links: seq<Link>, agent: string, c: Confidence)
    requires links != []
    ensures var l := links[|links| - 1];
            HasConfidence(links, agent, c) <==>
              HasConfidence(links[..|links| - 1], agent, c) || (l.agentId == agent && l.confidence == c)
  {
    forall i | 0 <= i < |links| - 1
      ensures links[..|links| - 1][i] == links[i]
    {
    }
  }

  lemma {:induction false} FactPartStartsEmpty(facts: seq<StatFact>, agent: string)
    ensures FactPart(facts, agent).Some? ==>
              var a := FactPart(facts, agent).value;
              a.commits == {} && a.branches == {} && a.confidence == None && a.wps == []
  {
    if facts != [] {
      FactPartStartsEmpty(facts[..|facts| - 1], agent);
    }
  }

  /** The ids of the agent's facts, and their tokens added up. */
  function FactIds(facts: seq<StatFact>, agent: string): set<string> {
    set i | 0 <= i < |facts| && facts[i].agent == agent :: facts[i].id
  }

  function TokensOf(facts: seq<StatFact>, agent: string): int {
    if facts == [] then 0
    else
      var f := facts[|facts| - 1];
      TokensOf(facts[..|facts| - 1], agent) + if f.agent == agent then f.tokens else 0
  }

  function WeightedOf(facts: seq<StatFact>, agent: string): int {
    if facts == [] then 0
    else
      var f := facts[|facts| - 1];
      WeightedOf(facts[..|facts| - 1], agent) + if f.agent == agent then f.weighted else 0
  }

  lemma IdsStep(facts: seq<StatFact>, agent: string)
    requires facts != []
    ensures var rest, f := facts[..|facts| - 1], facts[|facts| - 1];
            FactIds(facts, agent) == FactIds(rest, agent) + if f.agent == agent then {f.id} else {}
  {
    var n := |facts| - 1;
    assert facts == facts[..n] + [facts[n]];
    assert forall i | 0 <= i < n :: facts[..n][i] == facts[i];
  }

  /** An agent has totals iff it has a fact, and they are those of its facts. */
  lemma {:induction false} FactPartMeans(facts: seq<StatFact>, agent: string)
    ensures var p := FactPart(facts, agent);
            && (p.None? ==> FactIds(facts, agent) == {} && TokensOf(facts, agent) == 0 && WeightedOf(facts, agent) == 0)
            && (p.Some? ==>
                  && p.value.sessions == FactIds(facts, agent)
                  && p.value.tokens == TokensOf(facts, agent) && p.value.weighted == WeightedOf(facts, agent))
  {
    if facts != [] {
      hide FactIds;
      FactPartMeans(facts[..|facts| - 1], agent);
      IdsStep(facts, agent);
    }
  }

  /** The agent printed a commit on the branch. */
  ghost predicate PrintedOn(links: seq<Link>, agent: string, branch: string) {
    exists j | 0 <= j < |links| :: links[j].agentId == agent && links[j].rule == CommitShaOutput
                                   && links[j].target.CommitTarget? && links[j].target.onBranch == Some(branch)
  }

  /** Link `i` is to a commit of the agent that is not the squash commit of a branch on
      which the agent printed a commit. */
  ghost predicate CountedAt(links: seq<Link>, agent: string, i: nat) {
    && i < |links| && links[i].agentId == agent && links[i].target.CommitTarget?
    && !(links[i].rule == PrMergeRule && Given(links[i].target.onBranch)
         && PrintedOn(links, agent, links[i].target.onBranch.value))
  }

  /** A counted commit of the agent goes by this abbreviated name. */
  ghost predicate CommitCounted(links: seq<Link>, agent: string, key: string) {
    exists i: nat :: CountedAt(links, agent, i) && key == Prefix7(links[i].target.sha)
  }

  /** A link of the agent names the branch, and it is neither empty nor a workspace. */
  ghost predicate BranchCounted(links: seq<Link>, agent: string, branch: string) {
    && branch != ""
    && exists i | 0 <= i < |links| ::
         links[i].agentId == agent
         && ((links[i].target.CommitTarget? && links[i].target.onBranch == Some(branch))
             || (links[i].target == BranchTarget(branch) && branch != "(workspace)"))
  }

  lemma CountedAtIs(links: seq<Link>, agent: string, i: nat)
    ensures CountedAt(links, agent, i) <==>
              i < |links| && links[i].agentId == agent && CountsCommit(links, links[i])
  {
    forall branch | branch != ""
      ensures Proved(links, agent, branch) <==> PrintedOn(links, agent, branch)
    {
      ProvedIsPrinted(links, agent, branch);
    }
  }

  lemma CountedCommits(links: seq<Link>, agent: string, key: string)
    ensures key in CommitKeys(links, links, agent) <==> CommitCounted(links, agent, key)
  {
    hide Prefix7, DupSquash, PrintedOn;
    forall i: nat
      ensures CountedAt(links, agent, i) <==>
                i < |links| && links[i].agentId == agent && CountsCommit(links, links[i])
    {
      CountedAtIs(links, agent, i);
    }
  }

  lemma ProvedIsPrinted(links: seq<Link>, agent: string, branch: string)
    requires branch != ""
    ensures Proved(links, agent, branch) <==> PrintedOn(links, agent, branch)
  {
    if PrintedOn(links, agent, branch) {
      var j :| 0 <= j < |links| && links[j].agentId == agent && links[j].rule == CommitShaOutput
               && links[j].target.CommitTarget? && links[j].target.onBranch == Some(branch);
      assert ProvesBranch(links[j], agent, branch);
    }
  }

  lemma CountedBranches(links: seq<Link>, agent: string, branch: string)
    ensures branch in BranchSet(links, agent) <==> BranchCounted(links, agent, branch)
  {
    forall i | 0 <= i < |links|
      ensures BranchOf(links[i]) == Some(branch) <==>
                branch != ""
                && ((links[i].target.CommitTarget? && links[i].target.onBranch == Some(branch))
                    || (links[i].target == BranchTarget(branch) && branch != "(workspace)"))
    {
    }
  }

  /** Fact `i` is the agent's first. */
  ghost predicate FirstFact(facts: seq<StatFact>, agent: string, i: nat) {
    i < |facts| && facts[i].agent == agent && forall j: nat | j < i :: facts[j].agent != agent
  }

  lemma {:induction false} OpenedByFirst(facts: seq<StatFact>, agent: string)
    ensures FactPart(facts, agent).None? ==> forall i | 0 <= i < |facts| :: facts[i].agent != agent
    ensures FactPart(facts, agent).Some? ==>
              exists i: nat :: FirstFact(facts, agent, i) && FactPart(facts, agent).value.host == facts[i].host
                               && FactPart(facts, agent).value.registered == facts[i].registered
  {
    hide Later;
    if facts != [] {
      var n := |facts| - 1;
      OpenedByFirst(facts[..n], agent);
      forall i | 0 <= i < n
        ensures facts[..n][i] == facts[i]
      {
      }
      var before := FactPart(facts[..n], agent);
      if before.Some? {
        var i: nat :| FirstFact(facts[..n], agent, i) && before.value.host == facts[..n][i].host
                      && before.value.registered == facts[..n][i].registered;
        assert FirstFact(facts, agent, i);
      } else if facts[n].agent == agent {
        assert FirstFact(facts, agent, n);
      }
    }
  }

  lemma RowCounts(facts: seq<StatFact>, links: seq<Link>, labels: Labels, agent: string)
    requires FactPart(facts, agent).Some?
    ensures var r, a := AgentRow(facts, links, labels, agent), FactPart(facts, agent).value;
            && r.host == a.host && r.registered == a.registered
            && r.sessions == |a.sessions| && r.tokens == a.tokens && r.weighted == a.weighted
            && r.commits == |CommitKeys(links, links, agent)| && r.branches == |BranchSet(links, agent)|
            && BestConfidence(links, agent, r.confidence)
  {
    hide CommitKeys, BranchSet, BestConfidence, LinkPart;
    FactPartStartsEmpty(facts, agent);
    LinkPartMeans(FactPart(facts, agent).value, links, links, agent, labels);
  }

  /** The columns of a row: host and registration of the agent's first session; its
      distinct sessions and their tokens; its distinct commits and branches; and the best
      confidence among its links. */
  lemma RowMeans(facts: seq<StatFact>, links: seq<Link>, labels: Labels, agent: string)
    requires FactPart(facts, agent).Some?
    ensures var r := AgentRow(facts, links, labels, agent);
            && (exists i: nat :: FirstFact(facts, agent, i) && r.host == facts[i].host
                                 && r.registered == facts[i].registered)
            && r.sessions == |FactIds(facts, agent)|
            && r.tokens == TokensOf(facts, agent) && r.weighted == WeightedOf(facts, agent)
            && (exists keys: set<string> ::
                  |keys| == r.commits && forall k :: k in keys <==> CommitCounted(links, agent, k))
            && (exists branches: set<string> ::
                  |branches| == r.branches && forall b :: b in branches <==> BranchCounted(links, agent, b))
            && BestConfidence(links, agent, r.confidence)
  {
    hide CommitKeys, BranchSet, BestConfidence, FactIds, LinkPart, CommitCounted, BranchCounted;
    FactPartMeans(facts, agent);
    OpenedByFirst(facts, agent);
    RowCounts(facts, links, labels, agent);
    var keys, branches := CommitKeys(links, links, agent), BranchSet(links, agent);
    forall k
      ensures k in keys <==> CommitCounted(links, agent, k)
      ensures k in branches <==> BranchCounted(links, agent, k)
    {
      CountedCommits(links, agent, k);
      CountedBranches(links, agent, k);
    }
  }

  // ----- work packages and activity -----

  /** The link carries the label: its mandate names it, or else the label parser finds it
      in the id of the mandate or in the branch of the link. */
  ghost predicate Carries(labels: Labels, l: Link, wp: string) {
    && wp != ""
    && match l.target
       case WpTarget(id, named) => if named.Some? then named == Some(wp) else labels(id) == Some(wp)
       case CommitTarget(_, branch) => Given(branch) && labels(branch.value) == Some(wp)
       case BranchTarget(branch) => branch != "" && branch != "(workspace)" && labels(branch) == Some(wp)
  }

  lemma LabelIsCarried(labels: Labels, l: Link, wp: string)
    ensures LabelOf(labels, l) == Some(wp) <==> Carries(labels, l, wp)
  {
  }

  /** Some link of the agent carries the label. */
  ghost predicate Labelled(links: seq<Link>, agent: string, labels: Labels, wp: string) {
    exists i | 0 <= i < |links| :: links[i].agentId == agent && Carries(labels, links[i], wp)
  }

  lemma LabelledStep(links: seq<Link>, agent: string, labels: Labels, wp: string)
    requires links != []
    ensures var rest, l := links[..|links| - 1], links[|links| - 1];
            Labelled(links, agent, labels, wp) <==>
              Labelled(rest, agent, labels, wp) || (l.agentId == agent && LabelOf(labels, l) == Some(wp))
  {
    hide LabelOf, Carries;
    LabelIsCarried(labels, links[|links| - 1], wp);
    var n := |links| - 1;
    forall i | 0 <= i < n
      ensures links[..n][i] == links[i]
    {
    }
  }

  lemma {:induction false} LabelsGathered(a: Acc, all: seq<Link>, links: seq<Link>, agent: string, labels: Labels)
    requires a.wps == []
    ensures var r := LinkPart(a, all, links, agent, labels);
            && NoDuplicates(r.wps)
            && (forall w :: w in r.wps <==> Labelled(links, agent, labels, w))
            && r.lastActive == a.lastActive
  {
    hide CountsCommit, BranchOf, LabelOf, Prefix7, Labelled;
    if links == [] {
      NothingLabelled(agent, labels);
    } else {
      LabelsGathered(a, all, links[..|links| - 1], agent, labels);
      forall w
        ensures Labelled(links, agent, labels, w) <==>
                  Labelled(links[..|links| - 1], agent, labels, w)
                  || (links[|links| - 1].agentId == agent && LabelOf(labels, links[|links| - 1]) == Some(w))
      {
        LabelledStep(links, agent, labels, w);
      }
    }
  }

  lemma NothingLabelled(agent: string, labels: Labels)
    ensures forall w :: !Labelled([], agent, labels, w)
  {
  }

  /** `last` is the latest end among the agent's sessions that have one. */
  ghost predicate LatestEnd(facts: seq<StatFact>, agent: string, last: Option<string>) {
    && (last.None? <==> forall i | 0 <= i < |facts| :: facts[i].agent == agent ==> !Given(facts[i].endedAt))
    && (last.Some? ==>
          && Given(last)
          && (exists i | 0 <= i < |facts| :: facts[i].agent == agent && facts[i].endedAt == last)
          && (forall i | 0 <= i < |facts| && facts[i].agent == agent && Given(facts[i].endedAt) ::
                StringLe(facts[i].endedAt.value, last.value)))
  }

  lemma LatestStep(facts: seq<StatFact>, agent: string, last: Option<string>)
    requires facts != [] && LatestEnd(facts[..|facts| - 1], agent, last)
    ensures var f := facts[|facts| - 1];
            LatestEnd(facts, agent, if f.agent == agent then Later(last, f.endedAt) else last)
  {
    hide StringLe;
    StringOrder();
    var n := |facts| - 1;
    var f := facts[n];
    forall i | 0 <= i < n
      ensures facts[..n][i] == facts[i]
    {
    }
    if last.Some? {
      var i :| 0 <= i < n && facts[..n][i].agent == agent && facts[..n][i].endedAt == last;
      assert facts[i].agent == agent && facts[i].endedAt == last;
    }
  }

  lemma {:induction false} LastActiveIsLatest(facts: seq<StatFact>, agent: string)
    ensures var p := FactPart(facts, agent);
            LatestEnd(facts, agent, if p.Some? then p.value.lastActive else None)
  {
    hide LatestEnd, Later;
    if facts != [] {
      LastActiveIsLatest(facts[..|facts| - 1], agent);
      var p := FactPart(facts[..|facts| - 1], agent);
      LatestStep(facts, agent, if p.Some? then p.value.lastActive else None);
    } else {
      NothingEnded(agent);
    }
  }

  lemma NothingEnded(agent: string)
    ensures LatestEnd([], agent, None)
  {
  }

  /** The other columns of a row: the distinct labels of its links, sorted, and the
      latest end among its sessions. */
  lemma RowLabelsAndActivity(facts: seq<StatFact>, links: seq<Link>, labels: Labels, agent: string)
    requires FactPart(facts, agent).Some?
    ensures var r := AgentRow(facts, links, labels, agent);
            && SortedBy(StringLe, r.wps) && NoDuplicates(r.wps)
            && (forall w :: w in r.wps <==> Labelled(links, agent, labels, w))
            && LatestEnd(facts, agent, r.lastActive)
  {
    hide LinkPart, Labelled, LatestEnd;
    FactPartStartsEmpty(facts, agent);
    var a := FactPart(facts, agent).value;
    LabelsGathered(a, links, links, agent, labels);
    LastActiveIsLatest(facts, agent);
    var wps := LinkPart(a, links, links, agent, labels).wps;
    StringOrder();
    SortFacts(StringLe, wps);
    forall w
      ensures w in Sort(StringLe, wps) <==> w in wps
    {
      SortKeepsMembers(StringLe, wps, w);
    }
    RearrangedStaysDistinct(Sort(StringLe, wps), wps);
  }

  // ----- totals are conserved -----

  function SumTokens(rows: seq<Row>): int {
    if rows == [] then 0 else SumTokens(rows[..|rows| - 1]) + rows[|rows| - 1].tokens
  }

  function SumWeighted(rows: seq<Row>): int {
    if rows == [] then 0 else SumWeighted(rows[..|rows| - 1]) + rows[|rows| - 1].weighted
  }

  function SumSessions(rows: seq<Row>): nat {
    if rows == [] then 0 else SumSessions(rows[..|rows| - 1]) + rows[|rows| - 1].sessions
  }

  function FactTokens(facts: seq<StatFact>): int {
    if facts == [] then 0 else FactTokens(facts[..|facts| - 1]) + facts[|facts| - 1].tokens
  }

  function FactWeighted(facts: seq<StatFact>): int {
    if facts == [] then 0 else FactWeighted(facts[..|facts| - 1]) + facts[|facts| - 1].weighted
  }

  /** Sessions told apart by agent and fact id. */
  function SessionPairs(facts: seq<StatFact>): set<(string, string)> {
    set i | 0 <= i < |facts| :: (facts[i].agent, facts[i].id)
  }

  function TokensAt(facts: seq<StatFact>, agent: string): int {
    var p := FactPart(facts, agent);
    if p.Some? then p.value.tokens else 0
  }

  function WeightedAt(facts: seq<StatFact>, agent: string): int {
    var p := FactPart(facts, agent);
    if p.Some? then p.value.weighted else 0
  }

  function SessionsAt(facts: seq<StatFact>, agent: string): set<string> {
    var p := FactPart(facts, agent);
    if p.Some? then p.value.sessions else {}
  }

  /** The sums over a list of agents, straight from the facts. */
  function TokensOver(facts: seq<StatFact>, agents: seq<string>): int {
    if agents == [] then 0 else TokensOver(facts, agents[..|agents| - 1]) + TokensAt(facts, agents[|agents| - 1])
  }

  function WeightedOver(facts: seq<StatFact>, agents: seq<string>): int {
    if agents == [] then 0 else WeightedOver(facts, agents[..|agents| - 1]) + WeightedAt(facts, agents[|agents| - 1])
  }

  function SessionsOver(facts: seq<StatFact>, agents: seq<string>): nat {
    if agents == [] then 0 else SessionsOver(facts, agents[..|agents| - 1]) + |SessionsAt(facts, agents[|agents| - 1])|
  }

  /** One more fact counts towards its own agent only. */
  lemma PartStep(facts: seq<StatFact>, agent: string)
    requires facts != []
    ensures var rest, f := facts[..|facts| - 1], facts[|facts| - 1];
            && TokensAt(facts, agent) == TokensAt(rest, agent) + (if f.agent == agent then f.tokens else 0)
            && WeightedAt(facts, agent) == WeightedAt(rest, agent) + (if f.agent == agent then f.weighted else 0)
            && |SessionsAt(facts, agent)| ==
                 |SessionsAt(rest, agent)| + (if f.agent == agent && f.id !in SessionsAt(rest, agent) then 1 else 0)
  {
    var rest, f := facts[..|facts| - 1], facts[|facts| - 1];
    if f.agent == agent {
      assert SessionsAt(facts, agent) == SessionsAt(rest, agent) + {f.id};
    }
  }

  lemma {:induction false} OverStep(facts: seq<StatFact>, agents: seq<string>)
    requires facts != [] && NoDuplicates(agents)
    ensures var rest, f := facts[..|facts| - 1], facts[|facts| - 1];
            && TokensOver(facts, agents) == TokensOver(rest, agents) + (if f.agent in agents then f.tokens else 0)
            && WeightedOver(facts, agents) == WeightedOver(rest, agents) + (if f.agent in agents then f.weighted else 0)
            && SessionsOver(facts, agents) ==
                 SessionsOver(rest, agents) +
                 (if f.agent in agents && f.id !in SessionsAt(rest, f.agent) then 1 else 0)
  {
    hide TokensAt, WeightedAt, SessionsAt;
    if agents != [] {
      var others, a := agents[..|agents| - 1], agents[|agents| - 1];
      assert agents == others + [a];
      OverStep(facts, others);
      PartStep(facts, a);
    }
  }

  lemma {:induction false} SessionsAtAre(facts: seq<StatFact>, agent: string, id: string)
    ensures id in SessionsAt(facts, agent) <==> (agent, id) in SessionPairs(facts)
  {
    if facts != [] {
      SessionsAtAre(facts[..|facts| - 1], agent, id);
      PairsStep(facts);
    }
  }

  lemma PairsStep(facts: seq<StatFact>)
    requires facts != []
    ensures var rest, f := facts[..|facts| - 1], facts[|facts| - 1];
            SessionPairs(facts) == SessionPairs(rest) + {(f.agent, f.id)}
  {
    var n := |facts| - 1;
    assert forall i | 0 <= i < n :: facts[..n][i] == facts[i];
    forall p
      ensures p in SessionPairs(facts) <==> p in SessionPairs(facts[..n]) + {(facts[n].agent, facts[n].id)}
    {
      if p in SessionPairs(facts[..n]) {
        var i :| 0 <= i < n && (facts[..n][i].agent, facts[..n][i].id) == p;
        assert (facts[i].agent, facts[i].id) == p;
      }
    }
  }

  lemma {:induction false} TotalsOverAgents(facts: seq<StatFact>)
    ensures TokensOver(facts, Agents(facts)) == FactTokens(facts)
    ensures WeightedOver(facts, Agents(facts)) == FactWeighted(facts)
    ensures SessionsOver(facts, Agents(facts)) == |SessionPairs(facts)|
  {
    hide TokensAt, WeightedAt, SessionsAt, SessionPairs, Agents, FactPart;
    if facts != [] {
      var rest, f := facts[..|facts| - 1], facts[|facts| - 1];
      TotalsOverAgents(rest);
      AgentsStep(facts);
      AgentsHaveFacts(rest);
      OverStep(facts, Agents(rest));
      PartStep(facts, f.agent);
      SessionsAtAre(rest, f.agent, f.id);
      PairsStep(facts);
      NoPart(rest, f.agent);
      OneMore(SessionPairs(rest), (f.agent, f.id));
      if f.agent !in Agents(rest) {
        assert (Agents(rest) + [f.agent])[..|Agents(rest)|] == Agents(rest);
      }
    } else {
      NoPairs();
    }
  }

  lemma AgentsStep(facts: seq<StatFact>)
    requires facts != []
    ensures var rest, f := facts[..|facts| - 1], facts[|facts| - 1];
            Agents(facts) == if f.agent in Agents(rest) then Agents(rest) else Agents(rest) + [f.agent]
  {
  }

  lemma NoPart(facts: seq<StatFact>, agent: string)
    ensures FactPart(facts, agent).None? ==>
              TokensAt(facts, agent) == 0 && WeightedAt(facts, agent) == 0 && SessionsAt(facts, agent) == {}
  {
  }

  lemma OneMore(s: set<(string, string)>, p: (string, string))
    ensures |s + {p}| == |s| + if p in s then 0 else 1
  {
    if p in s {
      assert s + {p} == s;
    }
  }

  lemma NoPairs()
    ensures SessionPairs([]) == {} && Agents([]) == []
  {
  }

  lemma {:induction false} SumsOfRows(facts: seq<StatFact>, links: seq<Link>, labels: Labels, agents: seq<string>)
    requires forall a | a in agents :: FactPart(facts, a).Some?
    ensures var rows := RowsOf(facts, links, labels, agents);
            && SumTokens(rows) == TokensOver(facts, agents)
            && SumWeighted(rows) == WeightedOver(facts, agents)
            && SumSessions(rows) == SessionsOver(facts, agents)
  {
    hide AgentRow;
    if agents != [] {
      SumsOfRows(facts, links, labels, agents[..|agents| - 1]);
      RowMeans(facts, links, labels, agents[|agents| - 1]);
      FactPartMeans(facts, agents[|agents| - 1]);
    }
  }

  lemma {:induction false} SumCons(x: Row, rows: seq<Row>)
    ensures SumTokens([x] + rows) == x.tokens + SumTokens(rows)
    ensures SumWeighted([x] + rows) == x.weighted + SumWeighted(rows)
    ensures SumSessions([x] + rows) == x.sessions + SumSessions(rows)
  {
    if rows == [] {
      assert [x] + rows == [x] && [x][..0] == [];
    } else {
      SumCons(x, rows[..|rows| - 1]);
      assert ([x] + rows)[..|rows|] == [x] + rows[..|rows| - 1];
    }
  }

  lemma {:induction false} SumInsert(x: Row, rows: seq<Row>)
    ensures SumTokens(Insert(RowFirst, x, rows)) == x.tokens + SumTokens(rows)
    ensures SumWeighted(Insert(RowFirst, x, rows)) == x.weighted + SumWeighted(rows)
    ensures SumSessions(Insert(RowFirst, x, rows)) == x.sessions + SumSessions(rows)
  {
    if rows == [] || RowFirst(x, rows[0]) {
      SumCons(x, rows);
    } else {
      SumInsert(x, rows[1..]);
      SumCons(rows[0], Insert(RowFirst, x, rows[1..]));
      SumCons(rows[0], rows[1..]);
      assert [rows[0]] + rows[1..] == rows;
    }
  }

  lemma {:induction false} SumSort(rows: seq<Row>)
    ensures SumTokens(Sort(RowFirst, rows)) == SumTokens(rows)
    ensures SumWeighted(Sort(RowFirst, rows)) == SumWeighted(rows)
    ensures SumSessions(Sort(RowFirst, rows)) == SumSessions(rows)
  {
    if rows != [] {
      SumSort(rows[1..]);
      SumInsert(rows[0], Sort(RowFirst, rows[1..]));
      SumCons(rows[0], rows[1..]);
      assert [rows[0]] + rows[1..] == rows;
    }
  }

  /** The table loses and invents nothing: tokens, weighted tokens and sessions summed
      over its rows are those of the facts. */
  lemma TotalsAreConserved(facts: seq<StatFact>, links: seq<Link>, labels: Labels)
    ensures SumTokens(Table(facts, links, labels)) == FactTokens(facts)
    ensures SumWeighted(Table(facts, links, labels)) == FactWeighted(facts)
    ensures SumSessions(Table(facts, links, labels)) == |SessionPairs(facts)|
  {
    AgentsHaveFacts(facts);
    SumsOfRows(facts, links, labels, Agents(facts));
    SumSort(RowsOf(facts, links, labels, Agents(facts)));
    TotalsOverAgents(facts);
  }

  lemma {:induction false} DistinctSessions(facts: seq<StatFact>)
    requires forall i, k | 0 <= i < k < |facts| :: facts[i].id != facts[k].id
    ensures |SessionPairs(facts)| == |facts|
  {
    if facts != [] {
      var n := |facts| - 1;
      DistinctSessions(facts[..n]);
      PairsStep(facts);
      forall i | 0 <= i < n
        ensures facts[..n][i].id != facts[n].id
      {
      }
    }
  }

  lemma RowOrder()
    ensures TotalPreorder(RowFirst)
  {
    StringOrder();
  }

  /** Each row has at least as many commits as all that follow it, of those with as many
      at least as many sessions, and of those with as many of both the smaller name. */
  ghost predicate MostCommitsFirst(rows: seq<Row>) {
    forall i, j | 0 <= i < j < |rows| ::
      && rows[i].commits >= rows[j].commits
      && (rows[i].commits == rows[j].commits ==> rows[i].sessions >= rows[j].sessions)
      && (rows[i].commits == rows[j].commits && rows[i].sessions == rows[j].sessions ==>
            StringLe(rows[i].agent, rows[j].agent))
  }

  lemma {:induction false} RowsOfAre(facts: seq<StatFact>, links: seq<Link>, labels: Labels, agents: seq<string>,
                                    r: Row)
    requires forall a | a in agents :: FactPart(facts, a).Some?
    ensures r in RowsOf(facts, links, labels, agents) <==>
              r.agent in agents && r == AgentRow(facts, links, labels, r.agent)
  {
    hide AgentRow;
    if agents != [] {
      RowsOfAre(facts, links, labels, agents[..|agents| - 1], r);
      assert agents == agents[..|agents| - 1] + [agents[|agents| - 1]];
      assert AgentRow(facts, links, labels, agents[|agents| - 1]).agent == agents[|agents| - 1] by {
        RowIsNamed(facts, links, labels, agents[|agents| - 1]);
      }
    }
  }

  lemma RowIsNamed(facts: seq<StatFact>, links: seq<Link>, labels: Labels, agent: string)
    requires FactPart(facts, agent).Some?
    ensures AgentRow(facts, links, labels, agent).agent == agent
  {
  }

  /** One row for each agent that has a session and no other, most commits first. */
  lemma TableHasOneRowPerAgent(facts: seq<StatFact>, links: seq<Link>, labels: Labels, r: Row)
    ensures MostCommitsFirst(Table(facts, links, labels))
    ensures |Table(facts, links, labels)| == |Agents(facts)|
    ensures r in Table(facts, links, labels) <==>
              FactPart(facts, r.agent).Some? && r == AgentRow(facts, links, labels, r.agent)
  {
    AgentsHaveFacts(facts);
    RowOrder();
    var rows := RowsOf(facts, links, labels, Agents(facts));
    SortFacts(RowFirst, rows);
    SortKeepsMembers(RowFirst, rows, r);
    RowsOfAre(facts, links, labels, Agents(facts), r);
    RowsOfLength(facts, links, labels, Agents(facts));
  }

  lemma {:induction false} RowsOfLength(facts: seq<StatFact>, links: seq<Link>, labels: Labels, agents: seq<string>)
    requires forall a | a in agents :: FactPart(facts, a).Some?
    ensures |RowsOf(facts, links, labels, agents)| == |agents|
  {
    if agents != [] {
      RowsOfLength(facts, links, labels, agents[..|agents| - 1]);
    }
  }
}
