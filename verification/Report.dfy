/**
 The stable report (packages/agent-stats/src/report.ts, `buildReport`): it counts
 commits and branches of each agent a second time, independently of the table, and
 keeps the strongest citations.
 */
module Report {
  import opened Common
  import opened Sorting
  import opened Correlate
  import opened Stats

  const MAX_CITATIONS := 5

  /** Commits are keyed case-insensitively; the first link of a key is kept. */
  datatype Detail = Detail(branches: seq<string>, keys: seq<string>, commits: map<string, Link>)

  const NO_DETAIL := Detail([], [], map[])

  datatype AgentReport = AgentReport(
    agent: string, sessions: nat, tokens: int, weighted: int, confidence: Option<Confidence>, branches: seq<string>,
    wps: seq<string>, commits: seq<Link>, citations: seq<Citation>)

  function DetailKey(l: Link): string
    requires l.target.CommitTarget?
  {
    Lower(Prefix7(l.target.sha))
  }

  function Describe(d: Detail, all: seq<Link>, l: Link): Detail {
    var d1 :=
      if CountsCommit(all, l) && DetailKey(l) !in d.commits
      then d.(keys := d.keys + [DetailKey(l)], commits := d.commits[DetailKey(l) := l]) else d;
    if BranchOf(l).Some? then d1.(branches := AddUnique(d1.branches, BranchOf(l).value)) else d1
  }

  function DetailPart(all: seq<Link>, links: seq<Link>, agent: string): Detail {
    if links == [] then NO_DETAIL
    else
      var before, l := DetailPart(all, links[..|links| - 1], agent), links[|links| - 1];
      if l.agentId == agent then Describe(before, all, l) else before
  }

  // ----- citations -----

  function KindOrder(kind: string): nat {
    if kind == "git-commit" then 0
    else if kind == "pr-url" then 1
    else if kind == "git-checkout" then 2
    else if kind == "git-push" then 3
    else 9
  }

  predicate StrongerKind(a: Citation, b: Citation) {
    KindOrder(a.kind) <= KindOrder(b.kind)
  }

  /** The report groups citations by fact id; the last fact with an id decides its agent. */
  function AgentOfFact(facts: seq<StatFact>, id: string): Option<string> {
    if facts == [] then None
    else if facts[|facts| - 1].id == id then Some(facts[|facts| - 1].agent)
    else AgentOfFact(facts[..|facts| - 1], id)
  }

  function Gathered(all: seq<StatFact>, facts: seq<StatFact>, agent: string): seq<Citation> {
    if facts == [] then []
    else
      var f := facts[|facts| - 1];
      Gathered(all, facts[..|facts| - 1], agent) +
      if AgentOfFact(all, f.id) == Some(agent) && agent != "" then f.evidence else []
  }

  /** The strongest kinds first, the first five of them. */
  function TopCitations(list: seq<Citation>): seq<Citation> {
    var sorted := Sort(StrongerKind, list);
    sorted[..Min(|sorted|, MAX_CITATIONS)]
  }

  function Citations(facts: seq<StatFact>, agent: string): seq<Citation> {
    TopCitations(Gathered(facts, facts, agent))
  }

  function Values(d: Detail, keys: seq<string>): seq<Link> {
    if keys == [] then []
    else
      var k := keys[|keys| - 1];
      Values(d, keys[..|keys| - 1]) + if k in d.commits then [d.commits[k]] else []
  }

  function AgentReportOf(facts: seq<StatFact>, links: seq<Link>, row: Row): AgentReport {
    var d := DetailPart(links, links, row.agent);
    AgentReport(row.agent, row.sessions, row.tokens, row.weighted, row.confidence, Sort(StringLe, d.branches),
                row.wps, Values(d, d.keys), Citations(facts, row.agent))
  }

  function ReportOf(facts: seq<StatFact>, links: seq<Link>, rows: seq<Row>): seq<AgentReport> {
    if rows == [] then []
    else ReportOf(facts, links, rows[..|rows| - 1]) + [AgentReportOf(facts, links, rows[|rows| - 1])]
  }

  // ----- the loops -----

  method DescribeLinks(links: seq<Link>) returns (details: map<string, Detail>)
    ensures forall a :: DetailPart(links, links, a) == if a in details then details[a] else NO_DETAIL
  {
    hide CountsCommit, DetailKey, BranchOf;
    var proved := ProvedBranches(links);
    details := map[];
    for i := 0 to |links|
      invariant forall a :: DetailPart(links, links[..i], a) == if a in details then details[a] else NO_DETAIL
    {
      assert links[..i + 1][..i] == links[..i];
      var l := links[i];
      var d := if l.agentId in details then details[l.agentId] else NO_DETAIL;
      var dup := l.rule == PrMergeRule && l.target.CommitTarget? && Given(l.target.onBranch)
                 && Holds(proved, l.agentId, l.target.onBranch.value);
      CountsIs(links, l);
      DupIs(links, l);
      if l.target.CommitTarget? {
        var key := DetailKey(l);
        if !dup && key !in d.commits {
          d := d.(keys := d.keys + [key], commits := d.commits[key := l]);
        }
      }
      if BranchOf(l).Some? && BranchOf(l).value !in d.branches {
        d := d.(branches := d.branches + [BranchOf(l).value]);
      }
      details := details[l.agentId := d];
    }
    assert links[..|links|] == links;
  }

  lemma CountsIs(links: seq<Link>, l: Link)
    ensures CountsCommit(links, l) <==> l.target.CommitTarget? && !DupSquash(links, l)
  {
  }

  method IndexFacts(facts: seq<StatFact>) returns (agents: map<string, string>)
    ensures forall id :: AgentOfFact(facts, id) == if id in agents then Some(agents[id]) else None
  {
    agents := map[];
    for i := 0 to |facts|
      invariant forall id :: AgentOfFact(facts[..i], id) == if id in agents then Some(agents[id]) else None
    {
      assert facts[..i + 1][..i] == facts[..i];
      agents := agents[facts[i].id := facts[i].agent];
    }
    assert facts[..|facts|] == facts;
  }

  function ListAt(lists: map<string, seq<Citation>>, agent: string): seq<Citation> {
    if agent in lists then lists[agent] else []
  }

  method GatherCitations(facts: seq<StatFact>) returns (byAgent: map<string, seq<Citation>>)
    ensures forall a :: Citations(facts, a) == ListAt(byAgent, a)
  {
    hide AgentOfFact;
    var agents := IndexFacts(facts);
    var lists: map<string, seq<Citation>> := map[];
    for i := 0 to |facts|
      invariant forall a :: Gathered(facts, facts[..i], a) == ListAt(lists, a)
    {
      assert facts[..i + 1][..i] == facts[..i];
      var f := facts[i];
      if f.id !in agents || agents[f.id] == "" {
        continue;
      }
      var agent := agents[f.id];
      lists := lists[agent := ListAt(lists, agent) + f.evidence];
    }
    assert facts[..|facts|] == facts;
    byAgent := map a | a in lists :: TopCitations(lists[a]);
    assert TopCitations([]) == [];
    forall a
      ensures Citations(facts, a) == ListAt(byAgent, a)
    {
      assert Citations(facts, a) == TopCitations(ListAt(lists, a));
    }
  }

  method BuildReport(facts: seq<StatFact>, links: seq<Link>, rows: seq<Row>) returns (agents: seq<AgentReport>)
    ensures agents == ReportOf(facts, links, rows)
  {
    hide DetailPart, Citations;
    var details := DescribeLinks(links);
    var citations := GatherCitations(facts);
    agents := [];
    for i := 0 to |rows|
      invariant agents == ReportOf(facts, links, rows[..i])
    {
      assert rows[..i + 1][..i] == rows[..i];
      var row := rows[i];
      var d := if row.agent in details then details[row.agent] else NO_DETAIL;
      agents := agents + [AgentReport(row.agent, row.sessions, row.tokens, row.weighted, row.confidence,
                                      Sort(StringLe, d.branches), row.wps, Values(d, d.keys),
                                      ListAt(citations, row.agent))];
    }
    assert rows[..|rows|] == rows;
  }

  // ----- the two counts against each other -----

  /** Case-insensitive names of the agent's counted commits. */
  function LowerKeys(all: seq<Link>, links: seq<Link>, agent: string): set<string> {
    set i | 0 <= i < |links| && links[i].agentId == agent && CountsCommit(all, links[i]) :: DetailKey(links[i])
  }

  lemma LowerStep(all: seq<Link>, links: seq<Link>, agent: string)
    requires links != []
    ensures var rest, l := links[..|links| - 1], links[|links| - 1];
            LowerKeys(all, links, agent) ==
              LowerKeys(all, rest, agent) +
              (if l.agentId == agent && CountsCommit(all, l) then {DetailKey(l)} else {})
  {
    hide CountsCommit, DetailKey;
    var n := |links| - 1;
    forall j | 0 <= j < |links|
      ensures CountsCommit(all, links[j]) ==> links[j].target.CommitTarget?
    {
      CountsIs(all, links[j]);
    }
    assert links == links[..n] + [links[n]];
    assert forall i | 0 <= i < n :: links[..n][i] == links[i];
    forall k
      ensures k in LowerKeys(all, links, agent) <==>
                k in LowerKeys(all, links[..n], agent) +
                     (if links[n].agentId == agent && CountsCommit(all, links[n]) then {DetailKey(links[n])} else {})
    {
    }
  }

  ghost predicate DetailOk(d: Detail) {
    && NoDuplicates(d.keys) && NoDuplicates(d.branches)
    && (forall k :: k in d.keys <==> k in d.commits)
  }

  lemma {:induction false} DetailMeans(all: seq<Link>, links: seq<Link>, agent: string)
    ensures var d := DetailPart(all, links, agent);
            && DetailOk(d)
            && (forall k :: k in d.keys <==> k in LowerKeys(all, links, agent))
            && (forall b :: b in d.branches <==> b in BranchSet(links, agent))
  {
    hide CountsCommit, BranchOf, DetailKey, LowerKeys, BranchSet;
    if links == [] {
      NoLowerKeys(all, agent);
      NoKeys(all, agent);
    } else {
      var rest, l := links[..|links| - 1], links[|links| - 1];
      DetailMeans(all, rest, agent);
      LowerStep(all, links, agent);
      KeysStep(all, links, agent);
      CountsIs(all, l);
    }
  }

  lemma NoLowerKeys(all: seq<Link>, agent: string)
    ensures LowerKeys(all, [], agent) == {}
  {
  }

  lemma {:induction false} CountOfList(s: seq<string>, t: set<string>)
    requires NoDuplicates(s) && forall x :: x in s <==> x in t
    ensures |s| == |t|
  {
    if s == [] {
      assert t == {};
    } else {
      var n := |s| - 1;
      assert s == s[..n] + [s[n]];
      CountOfList(s[..n], t - {s[n]});
    }
  }

  lemma {:induction false} ValuesCount(d: Detail, keys: seq<string>)
    requires forall k | k in keys :: k in d.commits
    ensures |Values(d, keys)| == |keys|
  {
    if keys != [] {
      ValuesCount(d, keys[..|keys| - 1]);
    }
  }

  /** The report lists every branch that the table counts, for every agent. */
  lemma BranchesAgree(facts: seq<StatFact>, links: seq<Link>, labels: Labels, agent: string)
    requires FactPart(facts, agent).Some?
    ensures var row := AgentRow(facts, links, labels, agent);
            var listed := AgentReportOf(facts, links, row).branches;
            && |listed| == row.branches
            && (forall b :: b in listed <==> BranchCounted(links, agent, b))
            && SortedBy(StringLe, listed)
  {
    hide AgentRow, DetailPart, BranchSet, BranchCounted, CommitCounted, BestConfidence, FactIds;
    RowIsNamed(facts, links, labels, agent);
    RowCounts(facts, links, labels, agent);
    DetailMeans(links, links, agent);
    forall b
      ensures b in BranchSet(links, agent) <==> BranchCounted(links, agent, b)
    {
      CountedBranches(links, agent, b);
    }
    var d := DetailPart(links, links, agent);
    CountOfList(d.branches, BranchSet(links, agent));
    StringOrder();
    SortFacts(StringLe, d.branches);
    forall b
      ensures b in Sort(StringLe, d.branches) <==> b in d.branches
    {
      SortKeepsMembers(StringLe, d.branches, b);
    }
  }

  /** Two counted commits of the agent whose names differ in case only. */
  ghost predicate CaseClash(links: seq<Link>, agent: string) {
    exists x, y :: CommitCounted(links, agent, x) && CommitCounted(links, agent, y) && x != y && Lower(x) == Lower(y)
  }

  lemma LoweredKeys(all: seq<Link>, links: seq<Link>, agent: string)
    ensures LowerKeys(all, links, agent) == Lowered(CommitKeys(all, links, agent))
  {
    hide CountsCommit, Prefix7;
    forall j | 0 <= j < |links|
      ensures CountsCommit(all, links[j]) ==> links[j].target.CommitTarget?
    {
      CountsIs(all, links[j]);
    }
    forall k
      ensures k in LowerKeys(all, links, agent) <==> k in Lowered(CommitKeys(all, links, agent))
    {
      if k in LowerKeys(all, links, agent) {
        var i :| 0 <= i < |links| && links[i].agentId == agent && CountsCommit(all, links[i])
                 && DetailKey(links[i]) == k;
        assert Prefix7(links[i].target.sha) in CommitKeys(all, links, agent);
      }
    }
  }

  function Lowered(s: set<string>): set<string> {
    set x | x in s :: Lower(x)
  }

  ghost predicate NoClash(s: set<string>) {
    forall x, y | x in s && y in s && Lower(x) == Lower(y) :: x == y
  }

  lemma LoweredStep(s: set<string>, x: string)
    requires x in s
    ensures Lowered(s) == Lowered(s - {x}) + {Lower(x)}
    ensures NoClash(s) <==> NoClash(s - {x}) && Lower(x) !in Lowered(s - {x})
  {
    hide Lower;
  }

  lemma {:induction false} LoweredSize(s: set<string>)
    ensures |Lowered(s)| <= |s|
    ensures |Lowered(s)| == |s| <==> NoClash(s)
  {
    hide Lowered, NoClash;
    if s == {} {
      assert Lowered(s) == {} && NoClash(s) by {
        NothingLowered();
      }
    } else {
      var x :| x in s;
      LoweredSize(s - {x});
      LoweredStep(s, x);
    }
  }

  lemma NothingLowered()
    ensures Lowered({}) == {} && NoClash({})
  {
  }

  /** Table and report agree on an agent's number of commits exactly when no two of
      its counted commit names differ in case only. */
  lemma CommitsAgreeIff(facts: seq<StatFact>, links: seq<Link>, labels: Labels, agent: string)
    requires FactPart(facts, agent).Some?
    ensures var row := AgentRow(facts, links, labels, agent);
            |AgentReportOf(facts, links, row).commits| == row.commits <==> !CaseClash(links, agent)
  {
    hide AgentRow, DetailPart, CommitKeys, Lower;
    var row := AgentRow(facts, links, labels, agent);
    RowIsNamed(facts, links, labels, agent);
    RowCounts(facts, links, labels, agent);
    DetailMeans(links, links, agent);
    var d := DetailPart(links, links, agent);
    ValuesCount(d, d.keys);
    CountOfList(d.keys, LowerKeys(links, links, agent));
    LoweredKeys(links, links, agent);
    LoweredSize(CommitKeys(links, links, agent));
    forall k
      ensures k in CommitKeys(links, links, agent) <==> CommitCounted(links, agent, k)
    {
      CountedCommits(links, agent, k);
    }
  }

  /** One commit printed in lower and in upper case is counted twice and reported once. */
  lemma CaseClashDisagrees(facts: seq<StatFact>, labels: Labels, agent: string)
    requires FactPart(facts, agent).Some?
    ensures var links := [CommitLink(agent, "abcdef0"), CommitLink(agent, "ABCDEF0")];
            var row := AgentRow(facts, links, labels, agent);
            |AgentReportOf(facts, links, row).commits| != row.commits
  {
    hide AgentRow, AgentReportOf, CommitCounted, Lower, Proved;
    var links := [CommitLink(agent, "abcdef0"), CommitLink(agent, "ABCDEF0")];
    CommitsAgreeIff(facts, links, labels, agent);
    CountsIs(links, links[0]);
    CountsIs(links, links[1]);
    KeyIsCounted(links, agent, 0);
    KeyIsCounted(links, agent, 1);
    SameInLowerCase();
    assert "abcdef0"[0] != "ABCDEF0"[0];
  }

  function CommitLink(agent: string, sha: string): Link {
    Link("f", agent, CommitTarget(sha, None), 1, CommitShaOutput, High)
  }

  lemma KeyIsCounted(links: seq<Link>, agent: string, i: nat)
    requires i < |links| && links[i].agentId == agent && CountsCommit(links, links[i])
    ensures links[i].target.CommitTarget? && CommitCounted(links, agent, Prefix7(links[i].target.sha))
  {
    hide Prefix7;
    CountsIs(links, links[i]);
    CountedAtIs(links, agent, i);
  }

  lemma SameInLowerCase()
    ensures Lower("abcdef0") == Lower("ABCDEF0")
  {
    var a, b := "abcdef0", "ABCDEF0";
    forall i | 0 <= i < 7
      ensures LowerChar(a[i]) == LowerChar(b[i])
    {
      assert a[i] == "abcdef0"[i] && b[i] == "ABCDEF0"[i];
    }
    LowerByChars(a, b);
  }

  lemma {:induction false} LowerByChars(a: string, b: string)
    requires |a| == |b| && forall i | 0 <= i < |a| :: LowerChar(a[i]) == LowerChar(b[i])
    ensures Lower(a) == Lower(b)
  {
    if a != "" {
      LowerByChars(a[1..], b[1..]);
    }
  }

  /** In particular they agree when all shas are lower case. */
  lemma CommitsAgreeForLowerCase(facts: seq<StatFact>, links: seq<Link>, labels: Labels, agent: string)
    requires FactPart(facts, agent).Some?
    requires forall i | 0 <= i < |links| && links[i].target.CommitTarget? ::
               Lower(links[i].target.sha) == links[i].target.sha
    ensures var row := AgentRow(facts, links, labels, agent);
            |AgentReportOf(facts, links, row).commits| == row.commits
  {
    hide AgentRow, AgentReportOf;
    CommitsAgreeIff(facts, links, labels, agent);
    forall x | x in CommitKeys(links, links, agent)
      ensures Lower(x) == x
    {
      var i :| 0 <= i < |links| && links[i].agentId == agent && CountsCommit(links, links[i])
               && x == Prefix7(links[i].target.sha);
      CountsIs(links, links[i]);
      LowerTake(links[i].target.sha, |x|);
      assert x == links[i].target.sha[..|x|];
    }
  }

  // ----- which commits are reported -----

  /** Link `i` is the agent's first to a counted commit of this name, whatever its case. */
  ghost predicate FirstReported(links: seq<Link>, agent: string, i: nat) {
    && CountedAt(links, agent, i)
    && forall j: nat | j < i && CountedAt(links, agent, j) ::
         Lower(Prefix7(links[j].target.sha)) != Lower(Prefix7(links[i].target.sha))
  }

  /** Among `links`, the first of the agent that counts and has this key. */
  ghost predicate FirstOfKey(all: seq<Link>, links: seq<Link>, agent: string, i: nat, key: string) {
    && i < |links| && HasDetail(all, links[i], agent, key)
    && forall j: nat | j < i :: !HasDetail(all, links[j], agent, key)
  }

  ghost predicate HasDetail(all: seq<Link>, l: Link, agent: string, key: string) {
    l.agentId == agent && CountsCommit(all, l) && DetailKey(l) == key
  }

  lemma {:induction false} DetailKeepsFirst(all: seq<Link>, links: seq<Link>, agent: string, key: string)
    ensures var d := DetailPart(all, links, agent);
            && (key in d.commits ==>
                  exists i: nat :: FirstOfKey(all, links, agent, i, key) && d.commits[key] == links[i])
            && (key !in d.commits ==> forall i | 0 <= i < |links| :: !HasDetail(all, links[i], agent, key))
  {
    hide CountsCommit, BranchOf;
    if links != [] {
      var n := |links| - 1;
      DetailKeepsFirst(all, links[..n], agent, key);
      CountsIs(all, links[n]);
      forall i | 0 <= i < n
        ensures links[..n][i] == links[i]
      {
      }
      var before := DetailPart(all, links[..n], agent);
      if key in before.commits {
        var i: nat :| FirstOfKey(all, links[..n], agent, i, key) && before.commits[key] == links[..n][i];
        assert FirstOfKey(all, links, agent, i, key);
      } else if HasDetail(all, links[n], agent, key) {
        assert FirstOfKey(all, links, agent, n, key);
      }
    }
  }

  lemma {:induction false} ValuesAre(d: Detail, keys: seq<string>, l: Link)
    ensures l in Values(d, keys) <==> exists k :: k in keys && k in d.commits && d.commits[k] == l
  {
    if keys != [] {
      ValuesAre(d, keys[..|keys| - 1], l);
      assert keys == keys[..|keys| - 1] + [keys[|keys| - 1]];
    }
  }

  lemma FirstOfKeyIs(links: seq<Link>, agent: string, i: nat, key: string)
    ensures FirstOfKey(links, links, agent, i, key) <==>
              FirstReported(links, agent, i) && Lower(Prefix7(links[i].target.sha)) == key
  {
    hide CountsCommit, Lower, Prefix7, CountedAt;
    forall j: nat
      ensures CountedAt(links, agent, j) <==> j < |links| && links[j].agentId == agent && CountsCommit(links, links[j])
      ensures j < |links| && CountsCommit(links, links[j]) ==> links[j].target.CommitTarget?
    {
      CountedAtIs(links, agent, j);
      if j < |links| {
        CountsIs(links, links[j]);
      }
    }
  }

  lemma OneFirstOfKey(all: seq<Link>, links: seq<Link>, agent: string, i: nat, j: nat, key: string)
    requires FirstOfKey(all, links, agent, i, key) && FirstOfKey(all, links, agent, j, key)
    ensures i == j
  {
    hide HasDetail;
  }

  lemma DetailFrom(links: seq<Link>, agent: string, key: string) returns (i: nat)
    requires key in DetailPart(links, links, agent).commits
    ensures i < |links| && FirstReported(links, agent, i) && DetailPart(links, links, agent).commits[key] == links[i]
  {
    hide HasDetail, Lower, Prefix7, CountedAt;
    DetailKeepsFirst(links, links, agent, key);
    i :| FirstOfKey(links, links, agent, i, key) && DetailPart(links, links, agent).commits[key] == links[i];
    FirstOfKeyIs(links, agent, i, key);
  }

  lemma DetailAt(links: seq<Link>, agent: string, i: nat) returns (key: string)
    requires FirstReported(links, agent, i)
    ensures i < |links| && key in DetailPart(links, links, agent).commits
    ensures DetailPart(links, links, agent).commits[key] == links[i]
  {
    hide DetailPart, Lower, Prefix7, CountsCommit, PrintedOn;
    key := Lower(Prefix7(links[i].target.sha));
    FirstOfKeyIs(links, agent, i, key);
    DetailKeepsFirst(links, links, agent, key);
    var j: nat :| FirstOfKey(links, links, agent, j, key) && DetailPart(links, links, agent).commits[key] == links[j];
    OneFirstOfKey(links, links, agent, i, j, key);
  }

  /** The commits reported of an agent are exactly its first links to each counted commit. */
  lemma ReportedCommits(facts: seq<StatFact>, links: seq<Link>, row: Row, l: Link)
    ensures l in AgentReportOf(facts, links, row).commits <==>
              exists i: nat :: i < |links| && FirstReported(links, row.agent, i) && l == links[i]
  {
    hide DetailPart, FirstReported, Citations;
    var d := DetailPart(links, links, row.agent);
    DetailMeans(links, links, row.agent);
    ValuesAre(d, d.keys, l);
    if l in Values(d, d.keys) {
      var k :| k in d.keys && k in d.commits && d.commits[k] == l;
      var i := DetailFrom(links, row.agent, k);
    }
    if i: nat :| i < |links| && FirstReported(links, row.agent, i) && l == links[i] {
      var k := DetailAt(links, row.agent, i);
    }
  }

  // ----- citations -----

  /** Git commits come before pull requests, these before checkouts, these before pushes,
      and all of them before any other kind. */
  predicate NotWeaker(a: string, b: string) {
    && (b == "git-commit" ==> a == "git-commit")
    && (b == "pr-url" ==> a == "git-commit" || a == "pr-url")
    && (b == "git-checkout" ==> a == "git-commit" || a == "pr-url" || a == "git-checkout")
    && (b == "git-push" ==> a == "git-commit" || a == "pr-url" || a == "git-checkout" || a == "git-push")
  }

  ghost predicate StrongestFirst(list: seq<Citation>) {
    forall i, j | 0 <= i < j < |list| :: NotWeaker(list[i].kind, list[j].kind)
  }

  lemma StrongerIsNotWeaker()
    ensures forall a, b :: StrongerKind(a, b) <==> NotWeaker(a.kind, b.kind)
  {
  }

  /** Fact `j` is the last with this id, and the agent's. */
  ghost predicate LastOwner(facts: seq<StatFact>, id: string, agent: string, j: nat) {
    && j < |facts| && facts[j].id == id && facts[j].agent == agent
    && forall k: nat | j < k < |facts| :: facts[k].id != id
  }

  lemma {:induction false} AgentOfFactIs(facts: seq<StatFact>, id: string, agent: string)
    ensures AgentOfFact(facts, id) == Some(agent) <==> exists j: nat :: LastOwner(facts, id, agent, j)
  {
    if facts != [] {
      var n := |facts| - 1;
      AgentOfFactIs(facts[..n], id, agent);
      forall i | 0 <= i < n
        ensures facts[..n][i] == facts[i]
      {
      }
      if facts[n].id == id {
        assert facts[n].agent == agent ==> LastOwner(facts, id, agent, n);
      } else {
        forall j: nat
          ensures LastOwner(facts, id, agent, j) <==> LastOwner(facts[..n], id, agent, j)
        {
        }
      }
    }
  }

  /** The citation is evidence of a fact whose id is last used by a fact of the agent. */
  ghost predicate CitedFor(facts: seq<StatFact>, agent: string, c: Citation) {
    exists f, j: nat :: f in facts && c in f.evidence && agent != "" && LastOwner(facts, f.id, agent, j)
  }

  lemma {:induction false} GatheredAre(all: seq<StatFact>, facts: seq<StatFact>, agent: string, c: Citation)
    ensures c in Gathered(all, facts, agent) <==>
              exists f :: f in facts && c in f.evidence && agent != "" && AgentOfFact(all, f.id) == Some(agent)
  {
    hide AgentOfFact;
    if facts != [] {
      GatheredAre(all, facts[..|facts| - 1], agent, c);
      assert facts == facts[..|facts| - 1] + [facts[|facts| - 1]];
    }
  }

  lemma CitedAre(facts: seq<StatFact>, agent: string, c: Citation)
    ensures c in Gathered(facts, facts, agent) <==> CitedFor(facts, agent, c)
  {
    hide LastOwner, AgentOfFact;
    GatheredAre(facts, facts, agent, c);
    forall id
      ensures AgentOfFact(facts, id) == Some(agent) <==> exists j: nat :: LastOwner(facts, id, agent, j)
    {
      AgentOfFactIs(facts, id, agent);
    }
  }

  lemma KindsAreOrdered()
    ensures TotalPreorder(StrongerKind)
  {
  }

  function Dropped(facts: seq<StatFact>, agent: string): seq<Citation> {
    var sorted := Sort(StrongerKind, Gathered(facts, facts, agent));
    sorted[Min(|sorted|, MAX_CITATIONS)..]
  }

  /** The citations of an agent are those of its facts; at most five are kept, those of
      one kind in the order in which they came, and none that is dropped is of a stronger
      kind than one that is kept. */
  lemma StrongestCitationsKept(facts: seq<StatFact>, agent: string, c: Citation, kind: string)
    ensures var all, kept, dropped := Gathered(facts, facts, agent), Citations(facts, agent), Dropped(facts, agent);
            && |kept| == Min(|all|, 5)
            && multiset(kept + dropped) == multiset(all)
            && StrongestFirst(kept + dropped)
            && Filter((x: Citation) => x.kind == kind, kept + dropped) == Filter((x: Citation) => x.kind == kind, all)
            && (c in all <==> CitedFor(facts, agent, c))
  {
    hide StrongerKind, Gathered, Sort, NotWeaker, Filter;
    KindsAreOrdered();
    StrongerIsNotWeaker();
    var all := Gathered(facts, facts, agent);
    SortFacts(StrongerKind, all);
    CitedAre(facts, agent, c);
    assert Citations(facts, agent) + Dropped(facts, agent) == Sort(StrongerKind, all);
    OneKindIsAlike(kind);
    SortStable(StrongerKind, (x: Citation) => x.kind == kind, all);
  }

  lemma OneKindIsAlike(kind: string)
    ensures Alike(StrongerKind, (x: Citation) => x.kind == kind)
  {
  }
}
