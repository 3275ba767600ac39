/**
 Evidence-ranked attribution of git work to sessions
 (packages/agent-stats/src/correlate.ts).  The agent identity of a session, its
 registered instance and the branches its checkout commands created are part of
 the fact; the human-readable evidence text of a link is not modelled.
 */
module Correlate {
  import opened Common
  import opened Sorting

  datatype Commit = Commit(sha: string, branch: Option<string>)
  datatype PrMerge = PrMerge(branch: Option<string>, mergeCommit: Option<string>)
  datatype TrackItem = TrackItem(id: string, wp: Option<string>)
  datatype TrackIndex = TrackIndex(byThreadId: map<string, seq<TrackItem>>, byH2aId: map<string, seq<TrackItem>>)

  datatype Fact = Fact(
    factId: string, agentId: string, instance: Option<string>, sessionId: string, parentThread: Option<string>,
    commitShas: seq<string>, committedBranches: seq<string>, shaBranch: map<string, string>,
    createdBranches: seq<string>, branchesObserved: seq<string>)

  datatype Input = Input(
    facts: seq<Fact>, commits: seq<Commit>, track: Option<TrackIndex>, merges: seq<PrMerge>)

  datatype Rule = CommitShaOutput | PrMergeRule | TrackThread | TrackH2a | Registry | WorktreeWindow
  datatype Confidence = Low | Medium | High
  datatype Target =
    | CommitTarget(sha: string, onBranch: Option<string>)
    | BranchTarget(branch: string)
    | WpTarget(trackItemId: string, wp: Option<string>)
  datatype Link = Link(
    factId: string, agentId: string, target: Target, rank: nat, rule: Rule, confidence: Confidence)

  // ----- finding a commit by what a session printed -----

  predicate ShaMatches(observed: string, known: string) {
    var n := Min(|observed|, |known|);
    n >= 7 && Lower(observed)[..n] == Lower(known)[..n]
  }

  /** The index key under which an observed sha is looked up. */
  function LookupKey(observed: string): string {
    Lower(Prefix7(observed))
  }

  /** Commits by 7-character prefix; the last one with a prefix stays. */
  function IndexCommits(commits: seq<Commit>): map<string, Commit> {
    if commits == [] then map[]
    else
      var c := commits[|commits| - 1];
      var before := IndexCommits(commits[..|commits| - 1]);
      if |c.sha| >= 7 then before[c.sha[..7] := c] else before
  }

  /** The first commit that matches. */
  function FindByScan(observed: string, commits: seq<Commit>): Option<Commit> {
    if commits == [] then None
    else
      var before := FindByScan(observed, commits[..|commits| - 1]);
      var c := commits[|commits| - 1];
      if before.Some? then before else if ShaMatches(observed, c.sha) then Some(c) else None
  }

  function FindCommit(observed: string, commits: seq<Commit>): Option<Commit> {
    var index := IndexCommits(commits);
    var key := LookupKey(observed);
    if key in index && ShaMatches(observed, index[key].sha) then Some(index[key]) else FindByScan(observed, commits)
  }

  lemma {:induction false} IndexIsListed(commits: seq<Commit>, key: string)
    ensures var index := IndexCommits(commits);
            key in index ==> index[key] in commits && |index[key].sha| >= 7 && index[key].sha[..7] == key
  {
    if commits != [] {
      IndexIsListed(commits[..|commits| - 1], key);
    }
  }

  lemma {:induction false} ScanFacts(observed: string, commits: seq<Commit>)
    ensures var r := FindByScan(observed, commits);
            && (r.Some? ==> r.value in commits && ShaMatches(observed, r.value.sha))
            && (r.None? ==> forall c | c in commits :: !ShaMatches(observed, c.sha))
  {
    if commits != [] {
      ScanFacts(observed, commits[..|commits| - 1]);
      assert commits == commits[..|commits| - 1] + [commits[|commits| - 1]];
    }
  }

  /** The index with its fallback finds a commit iff a linear scan does, and always
      one that matches. */
  lemma FindCommitIff(observed: string, commits: seq<Commit>)
    ensures FindCommit(observed, commits).Some? <==> exists c :: c in commits && ShaMatches(observed, c.sha)
    ensures FindCommit(observed, commits).Some? ==>
              FindCommit(observed, commits).value in commits
              && ShaMatches(observed, FindCommit(observed, commits).value.sha)
    ensures FindCommit(observed, commits).Some? <==> FindByScan(observed, commits).Some?
  {
    hide ShaMatches, LookupKey;
    IndexIsListed(commits, LookupKey(observed));
    ScanFacts(observed, commits);
  }

  /** `commits[i]` is the first that matches. */
  ghost predicate FirstMatch(observed: string, commits: seq<Commit>, i: nat) {
    && i < |commits| && ShaMatches(observed, commits[i].sha)
    && forall k | 0 <= k < i :: !ShaMatches(observed, commits[k].sha)
  }

  predicate HasPrefix(c: Commit, key: string) {
    |c.sha| >= 7 && c.sha[..7] == key
  }

  /** `commits[i]` is the last whose name begins with `key`. */
  ghost predicate LastWithPrefix(commits: seq<Commit>, key: string, i: nat) {
    && i < |commits| && HasPrefix(commits[i], key)
    && forall k | i < k < |commits| :: !HasPrefix(commits[k], key)
  }

  lemma {:induction false} ScanIsFirst(observed: string, commits: seq<Commit>, i: nat)
    requires FirstMatch(observed, commits, i)
    ensures FindByScan(observed, commits) == Some(commits[i])
  {
    hide ShaMatches;
    var n := |commits| - 1;
    if i < n {
      ScanIsFirst(observed, commits[..n], i);
    } else {
      ScanFacts(observed, commits[..n]);
    }
  }

  lemma {:induction false} IndexIsLast(commits: seq<Commit>, key: string, i: nat)
    requires LastWithPrefix(commits, key, i)
    ensures key in IndexCommits(commits) && IndexCommits(commits)[key] == commits[i]
  {
    var n := |commits| - 1;
    if i < n {
      assert !HasPrefix(commits[n], key);
      assert commits[..n][i] == commits[i];
      IndexIsLast(commits[..n], key, i);
    }
  }

  lemma {:induction false} FirstMatchExists(observed: string, commits: seq<Commit>) returns (i: nat)
    ensures FindByScan(observed, commits).Some? ==> FirstMatch(observed, commits, i)
  {
    hide ShaMatches;
    i := 0;
    if commits != [] {
      var n := |commits| - 1;
      i := FirstMatchExists(observed, commits[..n]);
      if FindByScan(observed, commits[..n]).None? {
        ScanFacts(observed, commits[..n]);
        i := n;
        forall k | 0 <= k < n
          ensures !ShaMatches(observed, commits[k].sha)
        {
          assert commits[..n][k] == commits[k];
        }
      }
    }
  }

  lemma {:induction false} LastWithPrefixExists(commits: seq<Commit>, key: string) returns (i: nat)
    ensures key in IndexCommits(commits) ==> LastWithPrefix(commits, key, i)
  {
    i := 0;
    if commits != [] {
      var n := |commits| - 1;
      if HasPrefix(commits[n], key) {
        i := n;
      } else {
        i := LastWithPrefixExists(commits[..n], key);
      }
    }
  }

  /** Index and scan find the same commit if and only if the last commit filed under
      the printed prefix, where it matches at all, is the first that matches. */
  lemma IndexAgreesIff(observed: string, commits: seq<Commit>)
    ensures FindCommit(observed, commits) == FindByScan(observed, commits) <==>
              forall i: nat, j: nat |
                FirstMatch(observed, commits, i) && LastWithPrefix(commits, LookupKey(observed), j)
                && ShaMatches(observed, commits[j].sha) :: commits[i] == commits[j]
  {
    hide ShaMatches, LookupKey, HasPrefix;
    var key := LookupKey(observed);
    forall i: nat | FirstMatch(observed, commits, i)
      ensures FindByScan(observed, commits) == Some(commits[i])
    {
      ScanIsFirst(observed, commits, i);
    }
    forall j: nat | LastWithPrefix(commits, key, j)
      ensures key in IndexCommits(commits) && IndexCommits(commits)[key] == commits[j]
    {
      IndexIsLast(commits, key, j);
    }
    var first := FirstMatchExists(observed, commits);
    var last := LastWithPrefixExists(commits, key);
    FindCommitIff(observed, commits);
  }

  lemma PrefixMatches(observed: string, sha: string)
    requires |observed| == 7 <= |sha| && sha[..7] == observed
    ensures ShaMatches(observed, sha)
  {
    LowerTake(sha, 7);
    assert Lower(observed)[..7] == Lower(observed);
  }

  /** With two commits of one printed prefix the index takes the last and the scan
      takes the first, so they differ whenever the commits do. */
  lemma AmbiguousPrefixDiffers(observed: string, c: Commit, d: Commit)
    requires |observed| == 7 && Lower(observed) == observed
    requires |c.sha| >= 7 && |d.sha| >= 7 && c.sha[..7] == observed && d.sha[..7] == observed
    ensures FindByScan(observed, [c, d]) == Some(c) && FindCommit(observed, [c, d]) == Some(d)
  {
    hide ShaMatches, Lower;
    PrefixMatches(observed, c.sha);
    PrefixMatches(observed, d.sha);
    assert [c, d][..1] == [c] && [c][..0] == [];
    assert FindByScan(observed, [c]) == Some(c);
    assert IndexCommits([c, d]) == IndexCommits([c])[observed := d];
  }

  // ----- branches -----

  /** Default and housekeeping branches never earn branch credit. */
  predicate Housekeeping(branch: string) {
    branch == "HEAD" || branch == "" || branch == "main" || branch == "master" || "worktree-agent-" <= branch
  }

  /** Branches that the session committed on or created, in that order. */
  function Worked(f: Fact): seq<string> {
    Distinct(f.committedBranches + f.createdBranches)
  }

  /** The first merged pull request of each named branch. */
  function MergeOf(merges: seq<PrMerge>, branch: string): Option<string> {
    if merges == [] then None
    else
      var before := MergeOf(merges[..|merges| - 1], branch);
      var m := merges[|merges| - 1];
      if before.Some? then before
      else if branch != "" && m.branch == Some(branch) && m.mergeCommit.Some? && m.mergeCommit.value != ""
      then m.mergeCommit else None
  }

  ghost predicate HasCommitter(facts: seq<Fact>, branch: string) {
    exists k | 0 <= k < |facts| :: branch in facts[k].committedBranches
  }

  // ----- links of one session -----

  function Rank1Link(f: Fact, observed: string, c: Commit): Link {
    var fallback := if Prefix7(observed) in f.shaBranch then Some(f.shaBranch[Prefix7(observed)]) else None;
    var branch := if c.branch.Some? then c.branch else fallback;
    Link(f.factId, f.agentId, CommitTarget(c.sha, branch), 1, CommitShaOutput, High)
  }

  function Rank1Links(inp: Input, f: Fact, shas: seq<string>): seq<Link> {
    if shas == [] then []
    else
      var observed := shas[|shas| - 1];
      var found := FindCommit(observed, inp.commits);
      Rank1Links(inp, f, shas[..|shas| - 1]) + if found.Some? then [Rank1Link(f, observed, found.value)] else []
  }

  /** The squash commit of a merged branch belongs to those who committed on the
      branch, or to those who created it when nobody did. */
  ghost predicate EarnsMerge(inp: Input, f: Fact, branch: string) {
    && !Housekeeping(branch)
    && MergeOf(inp.merges, branch).Some?
    && branch in Worked(f)
    && (branch in f.committedBranches || !HasCommitter(inp.facts, branch))
  }

  function MergeLink(f: Fact, branch: string, sha: string): Link {
    Link(f.factId, f.agentId, CommitTarget(sha, Some(branch)), 2, PrMergeRule, High)
  }

  ghost function Rank2Links(inp: Input, f: Fact, branches: seq<string>): seq<Link> {
    if branches == [] then []
    else
      var branch := branches[|branches| - 1];
      Rank2Links(inp, f, branches[..|branches| - 1]) +
      if EarnsMerge(inp, f, branch) then [MergeLink(f, branch, MergeOf(inp.merges, branch).value)] else []
  }

  function WpLink(f: Fact, item: TrackItem, rule: Rule): Link {
    Link(f.factId, f.agentId, WpTarget(item.id, item.wp), 3, rule, Medium)
  }

  predicate HasWp(links: seq<Link>, id: string) {
    exists k | 0 <= k < |links| :: links[k].target.WpTarget? && links[k].target.trackItemId == id
  }

  /** Each work package is linked once, by the first rule that reaches it. */
  function EmitWps(f: Fact, links: seq<Link>, items: seq<TrackItem>, rule: Rule): seq<Link> {
    if items == [] then links
    else
      var before := EmitWps(f, links, items[..|items| - 1], rule);
      var item := items[|items| - 1];
      if HasWp(before, item.id) then before else before + [WpLink(f, item, rule)]
  }

  /** The session's own thread and its parent's, as far as they are named. */
  function Threads(f: Fact): seq<string> {
    (if f.sessionId == "" then [] else [f.sessionId]) +
    (if f.parentThread.None? || f.parentThread.value == "" then [] else [f.parentThread.value])
  }

  function ItemsAt(m: map<string, seq<TrackItem>>, key: string): seq<TrackItem> {
    if key in m then m[key] else []
  }

  function EmitThreads(f: Fact, index: TrackIndex, threads: seq<string>): seq<Link> {
    if threads == [] then []
    else
      EmitWps(f, EmitThreads(f, index, threads[..|threads| - 1]),
              ItemsAt(index.byThreadId, Lower(threads[|threads| - 1])), TrackThread)
  }

  function Rank3Links(inp: Input, f: Fact): seq<Link> {
    if inp.track.None? then []
    else
      var byThread := EmitThreads(f, inp.track.value, Threads(f));
      if f.instance.None? then byThread
      else EmitWps(f, byThread, ItemsAt(inp.track.value.byH2aId, f.instance.value), TrackH2a)
  }

  function FirstFeature(branches: seq<string>): Option<string> {
    if branches == [] then None
    else
      var before := FirstFeature(branches[..|branches| - 1]);
      if before.Some? then before
      else if Housekeeping(branches[|branches| - 1]) then None else Some(branches[|branches| - 1])
  }

  function Rank4Links(f: Fact): seq<Link> {
    if f.instance.None? then []
    else [Link(f.factId, f.agentId, BranchTarget(FirstFeature(Worked(f)).GetOr("(workspace)")), 4, Registry, Medium)]
  }

  /** The fact already holds a rank-1 or rank-2 commit link for the branch. */
  predicate ProvenStrong(links: seq<Link>, factId: string, branch: string) {
    exists k | 0 <= k < |links| ::
      && links[k].factId == factId && links[k].rank <= 2
      && links[k].target.CommitTarget? && links[k].target.onBranch == Some(branch)
  }

  function WindowLink(f: Fact, branch: string): Link {
    Link(f.factId, f.agentId, BranchTarget(branch), 5, WorktreeWindow, Low)
  }

  function Rank5Links(f: Fact, links: seq<Link>, branches: seq<string>): seq<Link> {
    if branches == [] then links
    else
      var branch := branches[|branches| - 1];
      var before := Rank5Links(f, links, branches[..|branches| - 1]);
      if Housekeeping(branch) || ProvenStrong(before, f.factId, branch) || branch !in Worked(f) then before
      else before + [WindowLink(f, branch)]
  }

  ghost function StrongLinks(inp: Input, f: Fact): seq<Link> {
    Rank1Links(inp, f, f.commitShas) + Rank2Links(inp, f, Distinct(f.branchesObserved + Worked(f)))
  }

  /** All links so far, and those of one more session. */
  ghost function AddFact(inp: Input, links: seq<Link>, f: Fact): seq<Link> {
    Rank5Links(f, links + StrongLinks(inp, f) + Rank3Links(inp, f) + Rank4Links(f), f.branchesObserved)
  }

  ghost function CorrelateFacts(inp: Input, facts: seq<Fact>): seq<Link> {
    if facts == [] then [] else AddFact(inp, CorrelateFacts(inp, facts[..|facts| - 1]), facts[|facts| - 1])
  }

  ghost function AllLinks(inp: Input): seq<Link> {
    CorrelateFacts(inp, inp.facts)
  }

  // ----- the loops -----

  method BuildIndex(commits: seq<Commit>) returns (byPrefix: map<string, Commit>)
    ensures byPrefix == IndexCommits(commits)
  {
    byPrefix := map[];
    for i := 0 to |commits|
      invariant byPrefix == IndexCommits(commits[..i])
    {
      assert commits[..i + 1][..i] == commits[..i];
      if |commits[i].sha| >= 7 {
        byPrefix := byPrefix[commits[i].sha[..7] := commits[i]];
      }
    }
    assert commits[..|commits|] == commits;
  }

  method Scan(observed: string, commits: seq<Commit>) returns (found: Option<Commit>)
    ensures found == FindByScan(observed, commits)
  {
    for i := 0 to |commits|
      invariant FindByScan(observed, commits[..i]).None?
    {
      assert commits[..i + 1][..i] == commits[..i];
      if ShaMatches(observed, commits[i].sha) {
        ScanStops(observed, commits, i + 1);
        return Some(commits[i]);
      }
    }
    assert commits[..|commits|] == commits;
    return None;
  }

  lemma {:induction false} ScanStops(observed: string, commits: seq<Commit>, n: nat)
    requires n <= |commits| && FindByScan(observed, commits[..n]).Some?
    ensures FindByScan(observed, commits) == FindByScan(observed, commits[..n])
  {
    if n < |commits| {
      assert commits[..|commits| - 1][..n] == commits[..n];
      ScanStops(observed, commits[..|commits| - 1], n);
    } else {
      assert commits[..n] == commits;
    }
  }

  method BuildMerges(merges: seq<PrMerge>) returns (byBranch: map<string, string>)
    ensures forall b :: MergeOf(merges, b) == if b in byBranch then Some(byBranch[b]) else None
  {
    byBranch := map[];
    for i := 0 to |merges|
      invariant forall b :: MergeOf(merges[..i], b) == if b in byBranch then Some(byBranch[b]) else None
    {
      assert merges[..i + 1][..i] == merges[..i];
      var m := merges[i];
      if m.branch.Some? && m.branch.value != "" && m.mergeCommit.Some? && m.mergeCommit.value != "" {
        if m.branch.value !in byBranch {
          byBranch := byBranch[m.branch.value := m.mergeCommit.value];
        }
      }
    }
    assert merges[..|merges|] == merges;
  }

  method BuildCommitters(facts: seq<Fact>) returns (byBranch: map<string, set<string>>)
    ensures forall b :: (b in byBranch && byBranch[b] != {}) <==> HasCommitter(facts, b)
  {
    byBranch := map[];
    for i := 0 to |facts|
      invariant forall b :: (b in byBranch && byBranch[b] != {}) <==> HasCommitter(facts[..i], b)
    {
      var branches := facts[i].committedBranches;
      for j := 0 to |branches|
        invariant forall b :: (b in byBranch && byBranch[b] != {}) <==>
                    HasCommitter(facts[..i], b) || b in branches[..j]
      {
        var b := branches[j];
        var known := if b in byBranch then byBranch[b] else {};
        byBranch := byBranch[b := known + {facts[i].factId}];
        assert branches[..j + 1] == branches[..j] + [b];
      }
      assert branches[..|branches|] == branches;
      forall b
        ensures HasCommitter(facts[..i + 1], b) <==> HasCommitter(facts[..i], b) || b in branches
      {
        CommittersStep(facts, i, b);
      }
    }
    assert facts[..|facts|] == facts;
  }

  lemma CommittersStep(facts: seq<Fact>, i: nat, b: string)
    requires i < |facts|
    ensures HasCommitter(facts[..i + 1], b) <==> HasCommitter(facts[..i], b) || b in facts[i].committedBranches
  {
    if HasCommitter(facts[..i], b) {
      var k :| 0 <= k < i && b in facts[..i][k].committedBranches;
      assert facts[..i + 1][k] == facts[k];
    }
    if b in facts[i].committedBranches {
      assert facts[..i + 1][i] == facts[i];
    }
  }

  method DistinctOf(s: seq<string>) returns (r: seq<string>)
    ensures r == Distinct(s)
  {
    r := [];
    for i := 0 to |s|
      invariant r == Distinct(s[..i])
    {
      assert s[..i + 1][..i] == s[..i];
      if s[i] !in r {
        r := r + [s[i]];
      }
    }
    assert s[..|s|] == s;
  }

  method EmitItems(f: Fact, links: seq<Link>, items: seq<TrackItem>, rule: Rule, seen: set<string>)
    returns (out: seq<Link>, seenAfter: set<string>)
    requires forall id :: id in seen <==> HasWp(links, id)
    ensures out == EmitWps(f, links, items, rule)
    ensures forall id :: id in seenAfter <==> HasWp(out, id)
  {
    out, seenAfter := links, seen;
    for i := 0 to |items|
      invariant out == EmitWps(f, links, items[..i], rule)
      invariant forall id :: id in seenAfter <==> HasWp(out, id)
    {
      assert items[..i + 1][..i] == items[..i];
      var item := items[i];
      if item.id !in seenAfter {
        seenAfter := seenAfter + {item.id};
        forall id
          ensures HasWp(out + [WpLink(f, item, rule)], id) <==> HasWp(out, id) || id == item.id
        {
          WpStep(out, WpLink(f, item, rule), id);
        }
        out := out + [WpLink(f, item, rule)];
      }
    }
    assert items[..|items|] == items;
  }

  lemma WpStep(links: seq<Link>, l: Link, id: string)
    requires l.target.WpTarget?
    ensures HasWp(links + [l], id) <==> HasWp(links, id) || id == l.target.trackItemId
  {
    if HasWp(links, id) {
      var k :| 0 <= k < |links| && links[k].target.WpTarget? && links[k].target.trackItemId == id;
      assert (links + [l])[k] == links[k];
    }
    assert (links + [l])[|links|] == l;
  }

  method EmitTrack(inp: Input, f: Fact) returns (out: seq<Link>)
    ensures out == Rank3Links(inp, f)
  {
    out := [];
    if inp.track.None? {
      return;
    }
    var index, threads := inp.track.value, Threads(f);
    var seen: set<string> := {};
    for i := 0 to |threads|
      invariant out == EmitThreads(f, index, threads[..i])
      invariant forall id :: id in seen <==> HasWp(out, id)
    {
      assert threads[..i + 1][..i] == threads[..i];
      out, seen := EmitItems(f, out, ItemsAt(index.byThreadId, Lower(threads[i])), TrackThread, seen);
    }
    assert threads[..|threads|] == threads;
    if f.instance.Some? {
      out, seen := EmitItems(f, out, ItemsAt(index.byH2aId, f.instance.value), TrackH2a, seen);
    }
  }

  method EmitCommits(inp: Input, f: Fact, byPrefix: map<string, Commit>) returns (out: seq<Link>)
    requires byPrefix == IndexCommits(inp.commits)
    ensures out == Rank1Links(inp, f, f.commitShas)
  {
    hide ShaMatches, IndexCommits, LookupKey, FindByScan, Rank1Link;
    out := [];
    for i := 0 to |f.commitShas|
      invariant out == Rank1Links(inp, f, f.commitShas[..i])
    {
      assert f.commitShas[..i + 1][..i] == f.commitShas[..i];
      var observed := f.commitShas[i];
      var key := LookupKey(observed);
      var found: Option<Commit>;
      if key in byPrefix && ShaMatches(observed, byPrefix[key].sha) {
        found := Some(byPrefix[key]);
      } else {
        found := Scan(observed, inp.commits);
      }
      if found.Some? {
        out := out + [Rank1Link(f, observed, found.value)];
      }
    }
    assert f.commitShas[..|f.commitShas|] == f.commitShas;
  }

  method EmitMerges(inp: Input, f: Fact, merges: map<string, string>, committers: map<string, set<string>>,
                    worked: seq<string>) returns (out: seq<Link>)
    requires worked == Worked(f)
    requires forall b :: MergeOf(inp.merges, b) == if b in merges then Some(merges[b]) else None
    requires forall b :: (b in committers && committers[b] != {}) <==> HasCommitter(inp.facts, b)
    ensures out == Rank2Links(inp, f, Distinct(f.branchesObserved + worked))
  {
    hide Housekeeping, MergeOf, HasCommitter, Worked, Distinct;
    out := [];
    var branches := DistinctOf(f.branchesObserved + worked);
    for i := 0 to |branches|
      invariant out == Rank2Links(inp, f, branches[..i])
    {
      assert branches[..i + 1][..i] == branches[..i];
      var branch := branches[i];
      if Housekeeping(branch) || branch !in merges || branch !in worked {
        continue;
      }
      if branch !in f.committedBranches && branch in committers && committers[branch] != {} {
        continue;
      }
      out := out + [MergeLink(f, branch, merges[branch])];
    }
    assert branches[..|branches|] == branches;
  }

  method EmitWindow(f: Fact, links: seq<Link>, worked: seq<string>) returns (out: seq<Link>)
    requires worked == Worked(f)
    ensures out == Rank5Links(f, links, f.branchesObserved)
  {
    hide Housekeeping, ProvenStrong, Worked;
    out := links;
    for i := 0 to |f.branchesObserved|
      invariant out == Rank5Links(f, links, f.branchesObserved[..i])
    {
      assert f.branchesObserved[..i + 1][..i] == f.branchesObserved[..i];
      var branch := f.branchesObserved[i];
      if Housekeeping(branch) || ProvenStrong(out, f.factId, branch) || branch !in worked {
        continue;
      }
      out := out + [WindowLink(f, branch)];
    }
    assert f.branchesObserved[..|f.branchesObserved|] == f.branchesObserved;
  }

  /** The whole of `correlate`. */
  method Correlate(inp: Input) returns (links: seq<Link>)
    ensures links == AllLinks(inp)
  {
    hide Rank1Links, Rank2Links, Rank3Links, Rank4Links, Rank5Links;
    var byPrefix := BuildIndex(inp.commits);
    var merges := BuildMerges(inp.merges);
    var committers := BuildCommitters(inp.facts);
    links := [];
    for i := 0 to |inp.facts|
      invariant links == CorrelateFacts(inp, inp.facts[..i])
    {
      assert inp.facts[..i + 1][..i] == inp.facts[..i];
      var f := inp.facts[i];
      var worked := DistinctOf(f.committedBranches + f.createdBranches);
      var commits := EmitCommits(inp, f, byPrefix);
      var squashed := EmitMerges(inp, f, merges, committers, worked);
      var track := EmitTrack(inp, f);
      links := EmitWindow(f, links + (commits + squashed) + track + Rank4Links(f), worked);
    }
    assert inp.facts[..|inp.facts|] == inp.facts;
  }
}
