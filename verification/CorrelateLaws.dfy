/**
 Which links a correlation run produces (packages/agent-stats/src/correlate.ts),
 stated over all sessions at once.
 */
module CorrelateLaws {
  import opened Common
  import opened Sorting
  import opened Correlate

  // ----- the links of one session, by rank -----

  lemma {:induction false} Rank1Are(inp: Input, f: Fact, shas: seq<string>, l: Link)
    ensures l in Rank1Links(inp, f, shas) <==>
              exists k | 0 <= k < |shas| ::
                FindCommit(shas[k], inp.commits).Some?
                && l == Rank1Link(f, shas[k], FindCommit(shas[k], inp.commits).value)
  {
    hide FindCommit, Rank1Link;
    if shas != [] {
      Rank1Are(inp, f, shas[..|shas| - 1], l);
      assert shas == shas[..|shas| - 1] + [shas[|shas| - 1]];
    }
  }

  lemma {:induction false} Rank2Are(inp: Input, f: Fact, branches: seq<string>, l: Link)
    ensures l in Rank2Links(inp, f, branches) <==>
              exists b :: b in branches && EarnsMerge(inp, f, b) && l == MergeLink(f, b, MergeOf(inp.merges, b).value)
  {
    if branches != [] {
      Rank2Are(inp, f, branches[..|branches| - 1], l);
      assert branches == branches[..|branches| - 1] + [branches[|branches| - 1]];
      hide EarnsMerge, MergeLink, MergeOf;
    }
  }

  /** Links to work packages, each package once. */
  ghost predicate WpShape(f: Fact, links: seq<Link>) {
    && (forall i | 0 <= i < |links| ::
          links[i].target.WpTarget? && links[i].factId == f.factId && links[i].agentId == f.agentId
          && links[i].rank == 3 && links[i].rule in {TrackThread, TrackH2a} && links[i].confidence == Medium)
    && (forall i, k | 0 <= i < k < |links| :: links[i].target.trackItemId != links[k].target.trackItemId)
  }

  /** One of the items is the work package of the link. */
  ghost predicate Mandated(items: seq<TrackItem>, l: Link) {
    l.target.WpTarget? && exists item :: item in items && item.id == l.target.trackItemId && item.wp == l.target.wp
  }

  lemma {:induction false} EmitWpsShape(f: Fact, links: seq<Link>, items: seq<TrackItem>, rule: Rule)
    requires WpShape(f, links) && rule in {TrackThread, TrackH2a}
    ensures var r := EmitWps(f, links, items, rule);
            && links <= r && WpShape(f, r)
            && (forall i | |links| <= i < |r| :: r[i].rule == rule && Mandated(items, r[i]))
            && (forall id :: HasWp(r, id) <==> HasWp(links, id) || exists item :: item in items && item.id == id)
  {
    if items != [] {
      var rest, item := items[..|items| - 1], items[|items| - 1];
      assert items == rest + [item];
      EmitWpsShape(f, links, rest, rule);
      var before := EmitWps(f, links, rest, rule);
      forall id
        ensures HasWp(before + [WpLink(f, item, rule)], id) <==> HasWp(before, id) || id == item.id
      {
        WpStep(before, WpLink(f, item, rule), id);
      }
      forall i | 0 <= i < |before| && !HasWp(before, item.id)
        ensures before[i].target.trackItemId != item.id
      {
      }
    }
  }

  /** The work package is listed under one of these thread ids. */
  ghost predicate ListedByThread(index: TrackIndex, threads: seq<string>, id: string) {
    exists k, item | 0 <= k < |threads| && item in ItemsAt(index.byThreadId, Lower(threads[k])) :: item.id == id
  }

  /** The work package of the link is an item listed under one of these thread ids. */
  ghost predicate MandatedByThread(index: TrackIndex, threads: seq<string>, l: Link) {
    exists k | 0 <= k < |threads| :: Mandated(ItemsAt(index.byThreadId, Lower(threads[k])), l)
  }

  lemma {:induction false} EmitThreadsShape(f: Fact, index: TrackIndex, threads: seq<string>)
    ensures var r := EmitThreads(f, index, threads);
            && WpShape(f, r)
            && (forall i | 0 <= i < |r| :: r[i].rule == TrackThread && MandatedByThread(index, threads, r[i]))
            && (forall id :: HasWp(r, id) <==> ListedByThread(index, threads, id))
  {
    hide ItemsAt, HasWp;
    if threads != [] {
      var n := |threads| - 1;
      EmitThreadsShape(f, index, threads[..n]);
      var before := EmitThreads(f, index, threads[..n]);
      var items := ItemsAt(index.byThreadId, Lower(threads[n]));
      EmitWpsShape(f, before, items, TrackThread);
      forall id
        ensures ListedByThread(index, threads, id) <==>
                  ListedByThread(index, threads[..n], id) || exists item :: item in items && item.id == id
      {
        ListedStep(index, threads, id);
      }
    } else {
      NoWps();
    }
  }

  lemma NoWps()
    ensures forall id :: !HasWp([], id)
  {
  }

  lemma ListedStep(index: TrackIndex, threads: seq<string>, id: string)
    requires threads != []
    ensures var n := |threads| - 1;
            ListedByThread(index, threads, id) <==>
              ListedByThread(index, threads[..n], id)
              || exists item :: item in ItemsAt(index.byThreadId, Lower(threads[n])) && item.id == id
  {
    hide ItemsAt, Lower;
    var n := |threads| - 1;
    if ListedByThread(index, threads[..n], id) {
      var k, item :| 0 <= k < n && item in ItemsAt(index.byThreadId, Lower(threads[..n][k])) && item.id == id;
      assert threads[k] == threads[..n][k];
    }
    if ListedByThread(index, threads, id) {
      var k, item :| 0 <= k <= n && item in ItemsAt(index.byThreadId, Lower(threads[k])) && item.id == id;
      if k < n {
        assert threads[..n][k] == threads[k];
      }
    }
  }

  /** Every work package mandated to the session, by thread or by instance, is linked
      exactly once; a thread mandate takes precedence over an instance mandate. */
  lemma WorkPackagesLinkedOnce(inp: Input, f: Fact)
    requires inp.track.Some?
    ensures var r := Rank3Links(inp, f);
            var index := inp.track.value;
            && WpShape(f, r)
            && (forall id :: HasWp(r, id) <==>
                  || ListedByThread(index, Threads(f), id)
                  || (f.instance.Some?
                      && exists item :: item in ItemsAt(index.byH2aId, f.instance.value) && item.id == id))
            && (forall i | 0 <= i < |r| ::
                  (r[i].rule == TrackThread <==> ListedByThread(index, Threads(f), r[i].target.trackItemId)))
            && (forall i | 0 <= i < |r| ::
                  || MandatedByThread(index, Threads(f), r[i])
                  || (f.instance.Some? && Mandated(ItemsAt(index.byH2aId, f.instance.value), r[i])))
  {
    hide ItemsAt, ListedByThread;
    var index := inp.track.value;
    EmitThreadsShape(f, index, Threads(f));
    var byThread := EmitThreads(f, index, Threads(f));
    if f.instance.Some? {
      EmitWpsShape(f, byThread, ItemsAt(index.byH2aId, f.instance.value), TrackH2a);
      var r := Rank3Links(inp, f);
      forall i | 0 <= i < |r|
        ensures r[i].rule == TrackThread <==> ListedByThread(index, Threads(f), r[i].target.trackItemId)
      {
        if i < |byThread| {
          assert r[i] == byThread[i];
          assert HasWp(byThread, r[i].target.trackItemId);
        } else {
          forall k | 0 <= k < |byThread|
            ensures byThread[k].target.trackItemId != r[i].target.trackItemId
          {
            assert r[k] == byThread[k];
          }
        }
      }
    } else {
      forall i | 0 <= i < |byThread|
        ensures HasWp(byThread, byThread[i].target.trackItemId)
      {
      }
    }
  }

  /** What the rule of a link says about its fact and rank. */
  lemma Rank3Are(inp: Input, f: Fact, l: Link)
    requires l in Rank3Links(inp, f)
    ensures l.factId == f.factId && l.agentId == f.agentId && l.target.WpTarget?
    ensures l.rank == 3 && l.rule in {TrackThread, TrackH2a} && l.confidence == Medium
  {
    hide ItemsAt, HasWp;
    var index := inp.track.value;
    EmitThreadsShape(f, index, Threads(f));
    if f.instance.Some? {
      EmitWpsShape(f, EmitThreads(f, index, Threads(f)), ItemsAt(index.byH2aId, f.instance.value), TrackH2a);
    }
  }

  lemma StrongAre(inp: Input, f: Fact, l: Link)
    ensures l in StrongLinks(inp, f) <==>
              || (exists k | 0 <= k < |f.commitShas| ::
                    && FindCommit(f.commitShas[k], inp.commits).Some?
                    && l == Rank1Link(f, f.commitShas[k], FindCommit(f.commitShas[k], inp.commits).value))
              || (exists b :: EarnsMerge(inp, f, b) && l == MergeLink(f, b, MergeOf(inp.merges, b).value))
    ensures l in StrongLinks(inp, f) ==> l.factId == f.factId && l.rank <= 2 && l.rule in {CommitShaOutput, PrMergeRule}
  {
    hide FindCommit, MergeOf, Housekeeping;
    var branches := Distinct(f.branchesObserved + Worked(f));
    Rank1Are(inp, f, f.commitShas, l);
    Rank2Are(inp, f, branches, l);
    DistinctFacts(f.branchesObserved + Worked(f));
    assert forall b :: EarnsMerge(inp, f, b) ==> b in branches;
  }

  // ----- all sessions -----

  /** The weak link is earned: seen and worked on, and nothing stronger is known. */
  predicate EarnsWindow(f: Fact, links: seq<Link>, branch: string) {
    branch in f.branchesObserved && !Housekeeping(branch) && branch in Worked(f)
    && !ProvenStrong(links, f.factId, branch)
  }

  lemma StrongStep(links: seq<Link>, l: Link, factId: string, branch: string)
    ensures ProvenStrong(links + [l], factId, branch) <==>
              || ProvenStrong(links, factId, branch)
              || (l.factId == factId && l.rank <= 2 && l.target.CommitTarget? && l.target.onBranch == Some(branch))
  {
    if ProvenStrong(links, factId, branch) {
      var k :| 0 <= k < |links| && links[k].factId == factId && links[k].rank <= 2
               && links[k].target.CommitTarget? && links[k].target.onBranch == Some(branch);
      assert (links + [l])[k] == links[k];
    }
    assert (links + [l])[|links|] == l;
  }

  lemma {:induction false} Rank5Are(f: Fact, links: seq<Link>, branches: seq<string>, l: Link)
    ensures var r := Rank5Links(f, links, branches);
            && (l in r <==> l in links || exists b :: b in branches && !Housekeeping(b) && b in Worked(f)
                                                       && !ProvenStrong(links, f.factId, b) && l == WindowLink(f, b))
            && (forall b :: ProvenStrong(r, f.factId, b) <==> ProvenStrong(links, f.factId, b))
  {
    hide Housekeeping, ProvenStrong, Worked;
    if branches != [] {
      var rest, branch := branches[..|branches| - 1], branches[|branches| - 1];
      assert branches == rest + [branch];
      Rank5Are(f, links, rest, l);
      var before := Rank5Links(f, links, rest);
      forall b
        ensures ProvenStrong(before + [WindowLink(f, branch)], f.factId, b) <==> ProvenStrong(before, f.factId, b)
      {
        StrongStep(before, WindowLink(f, branch), f.factId, b);
      }
    }
  }

  ghost function OwnBase(inp: Input, links: seq<Link>, f: Fact): seq<Link> {
    links + StrongLinks(inp, f) + Rank3Links(inp, f) + Rank4Links(f)
  }

  /** What one session adds, and that it is all marked with the session's fact id. */
  lemma AddFactAre(inp: Input, links: seq<Link>, f: Fact, l: Link)
    ensures l in AddFact(inp, links, f) <==>
              || l in links || l in StrongLinks(inp, f) || l in Rank3Links(inp, f) || l in Rank4Links(f)
              || exists b :: EarnsWindow(f, OwnBase(inp, links, f), b) && l == WindowLink(f, b)
    ensures l in AddFact(inp, links, f) && l !in links ==> l.factId == f.factId
  {
    hide StrongLinks, Rank3Links, Housekeeping, ProvenStrong, Worked;
    Rank5Are(f, OwnBase(inp, links, f), f.branchesObserved, l);
    StrongAre(inp, f, l);
    if l in Rank3Links(inp, f) {
      Rank3Are(inp, f, l);
    }
  }

  lemma AddFactKeeps(inp: Input, links: seq<Link>, f: Fact, l: Link)
    ensures l.rule == PrMergeRule ==>
              (l in AddFact(inp, links, f) <==> l in links || l in StrongLinks(inp, f))
    ensures l.rule == WorktreeWindow ==>
              (l in AddFact(inp, links, f) <==>
                 l in links || exists b :: EarnsWindow(f, OwnBase(inp, links, f), b) && l == WindowLink(f, b))
  {
    hide StrongLinks, AddFact, EarnsWindow;
    AddFactAre(inp, links, f, l);
    StrongAre(inp, f, l);
    if l in Rank3Links(inp, f) {
      Rank3Are(inp, f, l);
    }
  }

  // ----- every link on its fields -----

  /** The commit that a printed sha stands for: the last one filed under its prefix, where
      that one matches, or else the first in the log that matches. */
  ghost predicate Identifies(commits: seq<Commit>, observed: string, c: Commit) {
    || (exists j: nat :: LastWithPrefix(commits, LookupKey(observed), j) && ShaMatches(observed, commits[j].sha)
                         && c == commits[j])
    || ((forall j: nat | LastWithPrefix(commits, LookupKey(observed), j) :: !ShaMatches(observed, commits[j].sha))
        && exists i: nat :: FirstMatch(observed, commits, i) && c == commits[i])
  }

  lemma FoundIffIdentified(commits: seq<Commit>, observed: string, c: Commit)
    ensures FindCommit(observed, commits) == Some(c) <==> Identifies(commits, observed, c)
  {
    hide ShaMatches, LookupKey, HasPrefix;
    var key := LookupKey(observed);
    forall i: nat | FirstMatch(observed, commits, i)
      ensures FindByScan(observed, commits) == Some(commits[i])
    {
      ScanIsFirst(observed, commits, i);
    }
    forall j: nat | LastWithPrefix(commits, key, j)
      ensures key in IndexCommits(commits) && IndexCommits(commits)[key] == commits[j]
    {
      IndexIsLast(commits, key, j);
    }
    var first := FirstMatchExists(observed, commits);
    var last := LastWithPrefixExists(commits, key);
  }

  /** The branch of a commit: the one the log reports, or else the one the session printed beside it. */
  ghost predicate OnBranch(f: Fact, observed: string, c: Commit, branch: Option<string>) {
    if c.branch.Some? then branch == c.branch
    else if Prefix7(observed) in f.shaBranch then branch == Some(f.shaBranch[Prefix7(observed)])
    else branch == None
  }

  /** A session that printed the commit holds it, with high confidence, at rank 1. */
  ghost predicate ClaimsCommit(inp: Input, f: Fact, l: Link) {
    && l.factId == f.factId && l.agentId == f.agentId && l.rank == 1 && l.rule == CommitShaOutput
    && l.confidence == High && l.target.CommitTarget?
    && exists observed, c :: observed in f.commitShas && Identifies(inp.commits, observed, c)
                             && l.target.sha == c.sha && OnBranch(f, observed, c, l.target.onBranch)
  }

  /** Pull request `i` is the first that merged the branch as a commit. */
  ghost predicate FirstMerge(merges: seq<PrMerge>, branch: string, i: nat) {
    && i < |merges| && MergesBranch(merges[i], branch) && forall j: nat | j < i :: !MergesBranch(merges[j], branch)
  }

  predicate MergesBranch(m: PrMerge, branch: string) {
    branch != "" && m.branch == Some(branch) && m.mergeCommit.Some? && m.mergeCommit.value != ""
  }

  lemma {:induction false} MergeOfIsFirst(merges: seq<PrMerge>, branch: string)
    ensures MergeOf(merges, branch).None? ==> forall i | 0 <= i < |merges| :: !MergesBranch(merges[i], branch)
    ensures MergeOf(merges, branch).Some? ==>
              exists i: nat :: FirstMerge(merges, branch, i) && MergeOf(merges, branch) == merges[i].mergeCommit
  {
    hide MergesBranch;
    if merges != [] {
      var n := |merges| - 1;
      MergeOfIsFirst(merges[..n], branch);
      MergeOfStep(merges, branch);
      forall i | 0 <= i < n
        ensures merges[..n][i] == merges[i]
      {
      }
      if MergeOf(merges[..n], branch).Some? {
        var i: nat :| FirstMerge(merges[..n], branch, i) && MergeOf(merges[..n], branch) == merges[..n][i].mergeCommit;
        assert FirstMerge(merges, branch, i);
      } else if MergesBranch(merges[n], branch) {
        assert FirstMerge(merges, branch, n);
      }
    }
  }

  lemma MergeOfStep(merges: seq<PrMerge>, branch: string)
    requires merges != []
    ensures var before, m := MergeOf(merges[..|merges| - 1], branch), merges[|merges| - 1];
            && MergeOf(merges, branch) ==
                 (if before.Some? then before else if MergesBranch(m, branch) then m.mergeCommit else None)
            && (MergesBranch(m, branch) ==> m.mergeCommit.Some?)
  {
  }

  lemma OneFirstMerge(merges: seq<PrMerge>, branch: string, i: nat, j: nat)
    requires FirstMerge(merges, branch, i) && FirstMerge(merges, branch, j)
    ensures i == j
  {
    hide MergesBranch;
  }

  /** A session that committed on a merged branch, or created it where nobody committed,
      holds the squash commit of its first merge, with high confidence, at rank 2. */
  ghost predicate ClaimsMerge(inp: Input, f: Fact, l: Link) {
    && l.factId == f.factId && l.agentId == f.agentId && l.rank == 2 && l.rule == PrMergeRule
    && l.confidence == High && l.target.CommitTarget? && l.target.onBranch.Some?
    && var b := l.target.onBranch.value;
       && !Housekeeping(b)
       && (b in f.committedBranches || (b in f.createdBranches && !HasCommitter(inp.facts, b)))
       && exists i: nat :: FirstMerge(inp.merges, b, i) && inp.merges[i].mergeCommit == Some(l.target.sha)
  }

  lemma WorkedAre(f: Fact, b: string)
    ensures b in Worked(f) <==> b in f.committedBranches || b in f.createdBranches
  {
    DistinctFacts(f.committedBranches + f.createdBranches);
  }

  lemma MergeClaimIff(inp: Input, f: Fact, l: Link)
    ensures ClaimsMerge(inp, f, l) <==>
              exists b :: EarnsMerge(inp, f, b) && l == MergeLink(f, b, MergeOf(inp.merges, b).value)
  {
    hide MergeOf, Housekeeping, HasCommitter, Worked, FirstMerge;
    forall b
      ensures b in Worked(f) <==> b in f.committedBranches || b in f.createdBranches
      ensures MergeOf(inp.merges, b).Some? ==>
                exists i: nat :: FirstMerge(inp.merges, b, i) && i < |inp.merges|
                                 && MergeOf(inp.merges, b) == inp.merges[i].mergeCommit
      ensures forall i: nat | FirstMerge(inp.merges, b, i) ::
                i < |inp.merges| && MergeOf(inp.merges, b) == inp.merges[i].mergeCommit
    {
      WorkedAre(f, b);
      MergeOfIsFirst(inp.merges, b);
      FirstMergeDecides(inp.merges, b);
    }
    if ClaimsMerge(inp, f, l) {
      var b := l.target.onBranch.value;
      assert EarnsMerge(inp, f, b);
    }
  }

  lemma FirstMergeDecides(merges: seq<PrMerge>, branch: string)
    ensures forall i: nat | FirstMerge(merges, branch, i) ::
              i < |merges| && MergeOf(merges, branch) == merges[i].mergeCommit
  {
    MergeOfIsFirst(merges, branch);
    forall i: nat, j: nat | FirstMerge(merges, branch, i) && FirstMerge(merges, branch, j)
      ensures i == j
    {
      OneFirstMerge(merges, branch, i, j);
    }
  }

  lemma CommitClaimIff(inp: Input, f: Fact, l: Link)
    ensures ClaimsCommit(inp, f, l) <==>
              exists k | 0 <= k < |f.commitShas| ::
                FindCommit(f.commitShas[k], inp.commits).Some?
                && l == Rank1Link(f, f.commitShas[k], FindCommit(f.commitShas[k], inp.commits).value)
  {
    hide FindCommit, Identifies, Prefix7;
    forall observed, c
      ensures FindCommit(observed, inp.commits) == Some(c) <==> Identifies(inp.commits, observed, c)
    {
      FoundIffIdentified(inp.commits, observed, c);
    }
  }

  /** The first branch that the session committed on, or else created, and that earns credit. */
  ghost predicate FirstCredited(branches: seq<string>, i: nat) {
    i < |branches| && !Housekeeping(branches[i]) && forall j: nat | j < i :: Housekeeping(branches[j])
  }

  /** A session of a registered instance holds that branch, or its workspace where there is none. */
  ghost predicate ClaimsRegistry(f: Fact, l: Link) {
    && f.instance.Some?
    && l.factId == f.factId && l.agentId == f.agentId && l.rank == 4 && l.rule == Registry && l.confidence == Medium
    && l.target.BranchTarget?
    && var branches := f.committedBranches + f.createdBranches;
       || (exists i: nat :: FirstCredited(branches, i) && l.target.branch == branches[i])
       || ((forall b | b in branches :: Housekeeping(b)) && l.target.branch == "(workspace)")
  }

  lemma {:induction false} FirstFeatureIs(branches: seq<string>)
    ensures FirstFeature(branches).None? <==> forall b | b in branches :: Housekeeping(b)
    ensures FirstFeature(branches).Some? ==>
              exists i: nat :: FirstCredited(branches, i) && FirstFeature(branches) == Some(branches[i])
    ensures FirstFeature(Distinct(branches)) == FirstFeature(branches)
  {
    hide Housekeeping;
    if branches != [] {
      var n := |branches| - 1;
      FirstFeatureIs(branches[..n]);
      DistinctFacts(branches[..n]);
      assert branches == branches[..n] + [branches[n]];
      var before := Distinct(branches[..n]);
      assert (before + [branches[n]])[..|before|] == before;
      if FirstFeature(branches[..n]).Some? {
        var i: nat :| FirstCredited(branches[..n], i) && FirstFeature(branches[..n]) == Some(branches[..n][i]);
        assert FirstCredited(branches, i);
      } else if !Housekeeping(branches[n]) {
        assert FirstCredited(branches, n);
      }
    }
  }

  lemma RegistryClaimIff(f: Fact, l: Link)
    ensures ClaimsRegistry(f, l) <==> l in Rank4Links(f)
  {
    hide Housekeeping, FirstFeature, Distinct;
    var branches := f.committedBranches + f.createdBranches;
    FirstFeatureIs(branches);
    forall i: nat, j: nat | FirstCredited(branches, i) && FirstCredited(branches, j)
      ensures i == j
    {
      OneFirstCredited(branches, i, j);
    }
  }

  lemma OneFirstCredited(branches: seq<string>, i: nat, j: nat)
    requires FirstCredited(branches, i) && FirstCredited(branches, j)
    ensures i == j
  {
    hide Housekeeping;
  }

  /** The window link of a branch, on its fields. */
  predicate ClaimsWindow(f: Fact, branch: string, l: Link) {
    && l.factId == f.factId && l.agentId == f.agentId && l.rank == 5 && l.rule == WorktreeWindow
    && l.confidence == Low && l.target == BranchTarget(branch)
  }

  /** Commit, merge and registry links of one session on their fields. */
  ghost predicate Claims(inp: Input, f: Fact, l: Link) {
    match l.rule
    case CommitShaOutput => ClaimsCommit(inp, f, l)
    case PrMergeRule => ClaimsMerge(inp, f, l)
    case Registry => ClaimsRegistry(f, l)
    case _ => l in Rank3Links(inp, f)
  }

  /** What one session adds, window links aside, is what it claims. */
  lemma AddedAreClaimed(inp: Input, links: seq<Link>, f: Fact, l: Link)
    requires l.rule != WorktreeWindow
    ensures l in AddFact(inp, links, f) <==> l in links || Claims(inp, f, l)
  {
    hide AddFact, StrongLinks, Rank3Links, EarnsWindow, ClaimsCommit, ClaimsMerge, EarnsMerge, FindCommit, MergeOf,
      FirstFeature, Housekeeping, Worked;
    AddFactAre(inp, links, f, l);
    StrongAre(inp, f, l);
    CommitClaimIff(inp, f, l);
    MergeClaimIff(inp, f, l);
    RegistryClaimIff(f, l);
    if l in Rank3Links(inp, f) {
      Rank3Are(inp, f, l);
    }
  }

  /** All links but those of the window rule are exactly what the sessions claim. */
  lemma {:induction false} LinksAreClaimed(inp: Input, facts: seq<Fact>, l: Link)
    requires l.rule != WorktreeWindow
    ensures l in CorrelateFacts(inp, facts) <==> exists f :: f in facts && Claims(inp, f, l)
  {
    hide AddFact, Claims;
    if facts != [] {
      var n := |facts| - 1;
      LinksAreClaimed(inp, facts[..n], l);
      AddedAreClaimed(inp, CorrelateFacts(inp, facts[..n]), facts[n], l);
      assert facts == facts[..n] + [facts[n]];
    }
  }

  /** Committer precedence: once anybody committed on a branch, its squash commit is
      linked only to sessions that did. */
  lemma CommittersTakeTheMerge(inp: Input, l: Link, branch: string)
    requires l in AllLinks(inp) && l.rule == PrMergeRule && l.target.CommitTarget? && l.target.onBranch == Some(branch)
    requires HasCommitter(inp.facts, branch)
    ensures exists f :: f in inp.facts && f.factId == l.factId && branch in f.committedBranches
  {
    hide Housekeeping, FirstMerge, CorrelateFacts, HasCommitter;
    LinksAreClaimed(inp, inp.facts, l);
  }

  // ----- rank 5 against ranks 1 and 2 -----

  ghost predicate DistinctFactIds(facts: seq<Fact>) {
    forall i, k | 0 <= i < k < |facts| :: facts[i].factId != facts[k].factId
  }

  lemma {:induction false} LinksHaveKnownFacts(inp: Input, facts: seq<Fact>, l: Link)
    requires l in CorrelateFacts(inp, facts)
    ensures exists k | 0 <= k < |facts| :: facts[k].factId == l.factId
  {
    hide AddFact;
    var n := |facts| - 1;
    var before := CorrelateFacts(inp, facts[..n]);
    if l in before {
      LinksHaveKnownFacts(inp, facts[..n], l);
      var k :| 0 <= k < n && facts[..n][k].factId == l.factId;
      assert facts[k].factId == l.factId;
    } else {
      AddFactAre(inp, before, facts[n], l);
    }
  }

  lemma StrongOnlyByMembers(a: seq<Link>, b: seq<Link>, factId: string)
    requires forall l: Link | l.factId == factId && l.rank <= 2 :: l in a <==> l in b
    ensures forall branch :: ProvenStrong(a, factId, branch) <==> ProvenStrong(b, factId, branch)
  {
    forall branch
      ensures ProvenStrong(a, factId, branch) <==> ProvenStrong(b, factId, branch)
    {
      if ProvenStrong(a, factId, branch) {
        var k :| 0 <= k < |a| && a[k].factId == factId && a[k].rank <= 2
                 && a[k].target.CommitTarget? && a[k].target.onBranch == Some(branch);
        assert a[k] in b;
      }
      if ProvenStrong(b, factId, branch) {
        var k :| 0 <= k < |b| && b[k].factId == factId && b[k].rank <= 2
                 && b[k].target.CommitTarget? && b[k].target.onBranch == Some(branch);
        assert b[k] in a;
      }
    }
  }

  /** The weak links of session `k` are those earned against all links. */
  ghost predicate WindowRule(inp: Input, facts: seq<Fact>, k: nat)
    requires k < |facts|
  {
    forall b :: WindowLink(facts[k], b) in CorrelateFacts(inp, facts) <==>
                EarnsWindow(facts[k], CorrelateFacts(inp, facts), b)
  }

  lemma NewFactWindow(inp: Input, facts: seq<Fact>)
    requires facts != [] && DistinctFactIds(facts)
    ensures WindowRule(inp, facts, |facts| - 1)
  {
    hide StrongLinks, Rank3Links, Housekeeping, ProvenStrong, Worked, AddFact, EarnsWindow;
    var n := |facts| - 1;
    var before, f := CorrelateFacts(inp, facts[..n]), facts[n];
    var after := AddFact(inp, before, f);
    NoEarlierLinks(inp, facts);
    forall l: Link | l.factId == f.factId && l.rank <= 2
      ensures l in after <==> l in OwnBase(inp, before, f)
    {
      AddFactAre(inp, before, f, l);
    }
    StrongOnlyByMembers(after, OwnBase(inp, before, f), f.factId);
    forall b
      ensures WindowLink(f, b) in after <==> EarnsWindow(f, after, b)
    {
      AddFactKeeps(inp, before, f, WindowLink(f, b));
      WindowsAgree(f, after, OwnBase(inp, before, f), b);
    }
  }

  lemma WindowsAgree(f: Fact, a: seq<Link>, b: seq<Link>, branch: string)
    requires ProvenStrong(a, f.factId, branch) <==> ProvenStrong(b, f.factId, branch)
    ensures EarnsWindow(f, a, branch) <==> EarnsWindow(f, b, branch)
  {
  }

  lemma NoEarlierLinks(inp: Input, facts: seq<Fact>)
    requires facts != [] && DistinctFactIds(facts)
    ensures forall l | l in CorrelateFacts(inp, facts[..|facts| - 1]) :: l.factId != facts[|facts| - 1].factId
  {
    hide CorrelateFacts;
    forall l | l in CorrelateFacts(inp, facts[..|facts| - 1])
      ensures l.factId != facts[|facts| - 1].factId
    {
      LinksHaveKnownFacts(inp, facts[..|facts| - 1], l);
    }
  }

  lemma OldFactWindow(inp: Input, facts: seq<Fact>, k: nat)
    requires k < |facts| - 1 && DistinctFactIds(facts) && WindowRule(inp, facts[..|facts| - 1], k)
    ensures WindowRule(inp, facts, k)
  {
    hide ProvenStrong, AddFact, EarnsWindow;
    var n := |facts| - 1;
    var before, g := CorrelateFacts(inp, facts[..n]), facts[k];
    var after := AddFact(inp, before, facts[n]);
    forall l: Link | l.factId == g.factId
      ensures l in after <==> l in before
    {
      AddFactAre(inp, before, facts[n], l);
    }
    StrongOnlyByMembers(after, before, g.factId);
    forall b
      ensures WindowLink(g, b) in after <==> EarnsWindow(g, after, b)
    {
      assert facts[..n][k] == g;
      WindowsAgree(g, after, before, b);
    }
  }

  lemma {:induction false} WindowRules(inp: Input, facts: seq<Fact>, k: nat)
    requires k < |facts| && DistinctFactIds(facts)
    ensures WindowRule(inp, facts, k)
  {
    hide WindowRule;
    if k == |facts| - 1 {
      NewFactWindow(inp, facts);
    } else {
      WindowRules(inp, facts[..|facts| - 1], k);
      OldFactWindow(inp, facts, k);
    }
  }

  lemma {:induction false} WindowLinksAreClaimed(inp: Input, facts: seq<Fact>, l: Link)
    requires l in CorrelateFacts(inp, facts) && l.rule == WorktreeWindow
    ensures exists f, branch :: f in facts && ClaimsWindow(f, branch, l)
  {
    hide AddFact, EarnsWindow;
    var n := |facts| - 1;
    assert facts == facts[..n] + [facts[n]];
    if l in CorrelateFacts(inp, facts[..n]) {
      WindowLinksAreClaimed(inp, facts[..n], l);
    } else {
      AddFactKeeps(inp, CorrelateFacts(inp, facts[..n]), facts[n], l);
      var b :| EarnsWindow(facts[n], OwnBase(inp, CorrelateFacts(inp, facts[..n]), facts[n]), b)
               && l == WindowLink(facts[n], b);
      assert ClaimsWindow(facts[n], b, l);
    }
  }

  /** With distinct fact ids, a session holds the weak link for a branch, and no other of
      this rule, exactly when it saw and worked on the branch and holds no rank-1 or rank-2
      commit on it. */
  lemma WeakLinkIff(inp: Input, l: Link)
    requires DistinctFactIds(inp.facts) && l.rule == WorktreeWindow
    ensures l in AllLinks(inp) <==>
              exists f, branch :: f in inp.facts && ClaimsWindow(f, branch, l) && EarnsWindow(f, AllLinks(inp), branch)
  {
    hide EarnsWindow, CorrelateFacts;
    forall f, branch | f in inp.facts && ClaimsWindow(f, branch, l)
      ensures l in AllLinks(inp) <==> EarnsWindow(f, AllLinks(inp), branch)
    {
      var k :| 0 <= k < |inp.facts| && inp.facts[k] == f;
      WindowRules(inp, inp.facts, k);
      assert l == WindowLink(f, branch);
    }
    if l in AllLinks(inp) {
      WindowLinksAreClaimed(inp, inp.facts, l);
    }
  }
}
