/**
 The date of every commit node of the project graph
 (packages/agent-stats/src/project-graph.ts), in terms of the input: sessions
 mention commits first, then log lines date what is still timeless; parent stubs
 and branch heads never date anything.
 */
module GraphCommits {
  import opened Common
  import opened ProjectGraph
  import opened GraphLaws
  import opened GraphTheorems
  import opened GraphLinks

  // ----- what the input says about a commit node -----

  /** The node of a sha that a session printed. */
  function PrintedNode(inp: Input, sha: string): string {
    NodeId(Commit, KnownSha(inp, sha))
  }

  /** The stamp of the first of `shas` whose node is `id`. */
  function MentionIn(inp: Input, shas: seq<string>, id: string): Option<Stamp> {
    if shas == [] then None
    else
      var before := MentionIn(inp, shas[..|shas| - 1], id);
      var sha := shas[|shas| - 1];
      if before.Some? then before
      else if PrintedNode(inp, sha) == id then Some(CommitStamp(Times(inp.commits), sha)) else None
  }

  /** The stamp of the first mention by an in-identity session. */
  function SessionMention(inp: Input, sessions: seq<SessionInput>, id: string): Option<Stamp> {
    if sessions == [] || !inp.includeCommits then None
    else
      var before := SessionMention(inp, sessions[..|sessions| - 1], id);
      var s := sessions[|sessions| - 1];
      if before.Some? || !InIdentity(inp, s) then before else MentionIn(inp, s.commitShas, id)
  }

  /** The first date that log lines of the node add to a start that may be timeless. */
  function LogDate(inp: Input, commits: seq<LogCommit>, id: string, start: Stamp): Stamp {
    if commits == [] then start
    else
      var before := LogDate(inp, commits[..|commits| - 1], id, start);
      var c := commits[|commits| - 1];
      if before == NO_STAMP && NodeId(Commit, c.sha) == id then CommitStamp(Times(inp.commits), c.sha) else before
  }

  /** The date of a commit node: its first mention by a session, or else by the log. */
  function FinalStamp(inp: Input, id: string): Stamp {
    LogDate(inp, if inp.includeCommits then inp.commits else [], id,
            SessionMention(inp, inp.sessions, id).GetOr(NO_STAMP))
  }

  // ----- each pass against it -----

  function StampAt(g: Graph, id: string): Stamp {
    if id in g.nodes then g.nodes[id].stamp else NO_STAMP
  }

  /** The first write of a commit node stays. */
  lemma {:induction false} CommitsMention(inp: Input, g: Graph, s: SessionInput, shas: seq<string>, id: string)
    ensures var h := AddCommits(inp, g, s, shas);
            && (id in h.nodes <==> id in g.nodes || MentionIn(inp, shas, id).Some?)
            && StampAt(h, id) == if id in g.nodes then StampAt(g, id) else MentionIn(inp, shas, id).GetOr(NO_STAMP)
  {
    hide KnownSha, CommitStamp, Times, Linked;
    if shas != [] {
      CommitsMention(inp, g, s, shas[..|shas| - 1], id);
    }
  }

  lemma SessionMentions(inp: Input, g: Graph, s: SessionInput, id: string)
    requires KindOf(id) == Some(Commit)
    ensures var h := SessionGraph(inp, g, s);
            var mention := if inp.includeCommits then MentionIn(inp, s.commitShas, id) else None;
            && (id in h.nodes <==> id in g.nodes || mention.Some?)
            && StampAt(h, id) == if id in g.nodes then StampAt(g, id) else mention.GetOr(NO_STAMP)
  {
    hide KindOf, AddBranches, AddCommits, MentionIn, Linked;
    IdsAnnounceKinds(Session, s.factId);
    IdsAnnounceKinds(Agent, s.agentId);
    OtherNode(g, SessionId(s), Plain(Session, SessionTitle(s), LaneOf(inp, s)).(stamp := SessionStamp(s)), id);
    var g1 := AddSessionNode(inp, g, s);
    OtherNode(g1, AgentNodeId(s.agentId), Plain(Agent, s.agentId, None), id);
    var g2 := AddAgentNode(inp, g1, s);
    BranchesAddOnlyBranches(inp, g2, s, s.branches, id);
    var g3 := if inp.includeBranches then AddBranches(inp, g2, s, s.branches) else g2;
    CommitsMention(inp, g3, s, s.commitShas, id);
  }

  lemma {:induction false} SessionsMention(inp: Input, g: Graph, sessions: seq<SessionInput>, id: string)
    requires KindOf(id) == Some(Commit) && id !in g.nodes
    ensures var h := AddSessions(inp, g, sessions).g;
            && (id in h.nodes <==> SessionMention(inp, sessions, id).Some?)
            && StampAt(h, id) == SessionMention(inp, sessions, id).GetOr(NO_STAMP)
  {
    hide KindOf, SessionGraph, InIdentity, MentionIn;
    if sessions != [] {
      var n := |sessions| - 1;
      SessionsMention(inp, g, sessions[..n], id);
      SessionMentions(inp, AddSessions(inp, g, sessions[..n]).g, sessions[n], id);
    }
  }

  lemma EvidenceIdKind(instanceId: string)
    requires instanceId != ""
    ensures KindOf(EvidenceId(instanceId)) == Some(Evidence)
  {
    assert EvidenceId(instanceId)[..3] == "coo";
  }

  lemma {:induction false} EvidenceAddsOnlyEvidence(b: Progress, ids: seq<string>, id: string)
    requires KindOf(id) != Some(Evidence) && "" !in ids
    ensures var h := AddEvidence(b, ids);
            (id in h.nodes <==> id in b.g.nodes) && (id in b.g.nodes ==> h.nodes[id] == b.g.nodes[id])
  {
    hide KindOf, Linked;
    if ids != [] {
      var n := |ids| - 1;
      assert ids[n] in ids;
      EvidenceAddsOnlyEvidence(b, ids[..n], id);
      EvidenceIdKind(ids[n]);
      OtherNode(AddEvidence(b, ids[..n]), EvidenceId(ids[n]), EVIDENCE_NODE, id);
    }
  }

  lemma {:induction false} ParentsDateNothing(inp: Input, g: Graph, child: string, parents: seq<string>, id: string)
    ensures StampAt(AddParents(inp, g, child, parents), id) == StampAt(g, id)
  {
    hide Linked;
    if parents != [] {
      ParentsDateNothing(inp, g, child, parents[..|parents| - 1], id);
    }
  }

  /** A dated stamp or none at all. */
  predicate DatedOrNone(s: Stamp) {
    s == NO_STAMP || s.t.Some?
  }

  lemma LogLineDates(inp: Input, g: Graph, c: LogCommit, id: string)
    requires DatedOrNone(StampAt(g, id))
    ensures StampAt(AddLogCommit(inp, g, c), id) ==
              if StampAt(g, id) == NO_STAMP && NodeId(Commit, c.sha) == id then CommitStamp(Times(inp.commits), c.sha)
              else StampAt(g, id)
  {
    hide AddParents, Times, NodeId;
    var own := NodeId(Commit, c.sha);
    var g1 := if own in g.nodes then g.(nodes := g.nodes[own := Enrich(inp, g.nodes[own], c)]) else g;
    var g2 := AddNode(g1, own, SkeletonCommit(inp, c.sha, c.subject, CommitStamp(Times(inp.commits), c.sha)));
    ParentsDateNothing(inp, g2, own, c.parents, id);
  }

  lemma {:induction false} LogDates(inp: Input, g: Graph, commits: seq<LogCommit>, id: string)
    requires DatedOrNone(StampAt(g, id))
    ensures StampAt(AddLog(inp, g, commits), id) == LogDate(inp, commits, id, StampAt(g, id))
    ensures DatedOrNone(LogDate(inp, commits, id, StampAt(g, id)))
  {
    hide AddLogCommit, NodeId;
    if commits != [] {
      LogDates(inp, g, commits[..|commits| - 1], id);
      LogLineDates(inp, AddLog(inp, g, commits[..|commits| - 1]), commits[|commits| - 1], id);
    }
  }

  lemma {:induction false} HeadsDateNothing(inp: Input, g: Graph, heads: seq<Head>, id: string)
    ensures StampAt(AddHeads(inp, g, heads), id) == StampAt(g, id)
  {
    hide Linked;
    if heads != [] {
      HeadsDateNothing(inp, g, heads[..|heads| - 1], id);
    }
  }

  lemma {:induction false} DerivedAddNoNodes(b: Progress, g: Graph, sessions: seq<SessionInput>)
    ensures AddAllDerived(b, g, sessions).nodes == g.nodes
  {
    hide Linked;
    if sessions != [] {
      DerivedAddNoNodes(b, g, sessions[..|sessions| - 1]);
    }
  }

  lemma {:induction false} MentionIsDatedOrNone(inp: Input, sessions: seq<SessionInput>, id: string)
    ensures DatedOrNone(SessionMention(inp, sessions, id).GetOr(NO_STAMP))
  {
    hide InIdentity;
    if sessions != [] {
      MentionIsDatedOrNone(inp, sessions[..|sessions| - 1], id);
      ShasAreDatedOrNone(inp, sessions[|sessions| - 1].commitShas, id);
    }
  }

  lemma {:induction false} ShasAreDatedOrNone(inp: Input, shas: seq<string>, id: string)
    ensures DatedOrNone(MentionIn(inp, shas, id).GetOr(NO_STAMP))
  {
    hide Times, KnownSha;
    if shas != [] {
      ShasAreDatedOrNone(inp, shas[..|shas| - 1], id);
    }
  }

  lemma StructureStamp(inp: Input, id: string)
    requires KindOf(id) == Some(Commit)
    ensures StampAt(Structure(inp), id) == FinalStamp(inp, id)
  {
    hide KindOf, AddSessions, AddEvidence, AddLog, AddHeads, AddAllDerived, SessionMention, LogDate, CoordinationIds,
      AddRepos, ChainRepos;
    var b := AfterSessions(inp);
    BaseHasOnlyRepos(inp, |inp.aliases|, id);
    ChainHasSameNodes(inp, AddRepos(inp, AddProject(inp), |inp.aliases|), |inp.aliases|);
    SessionsMention(inp, Base(inp), inp.sessions, id);
    CoordinationMembers(inp.evidence, "");
    EvidenceAddsOnlyEvidence(b, CoordinationIds(inp.evidence), id);
    MentionIsDatedOrNone(inp, inp.sessions, id);
    var g1 := AddEvidence(b, CoordinationIds(inp.evidence));
    LogDates(inp, g1, inp.commits, id);
    NoLog(inp, id, StampAt(g1, id));
    var g2 := if inp.includeCommits then AddLog(inp, g1, inp.commits) else g1;
    HeadsDateNothing(inp, g2, inp.heads, id);
    var g3 := if inp.includeBranches then AddHeads(inp, g2, inp.heads) else g2;
    DerivedAddNoNodes(b, g3, inp.sessions);
  }

  lemma NoLog(inp: Input, id: string, start: Stamp)
    ensures LogDate(inp, [], id, start) == start
  {
  }

  // ----- the dates of the built graph -----

  /** Every commit node, however it came in, carries exactly the date of its first
      mention by a session, or, where that is timeless, of the first of its log lines
      whose prefix is dated. */
  lemma CommitNodeDate(inp: Input, id: string)
    requires id in Build(inp).nodes && Build(inp).nodes[id].kind == Commit
    ensures Build(inp).nodes[id].stamp == FinalStamp(inp, id)
  {
    hide Structure, Spanned, Build, AllSessionBounds, FinalStamp;
    BuildAt(inp);
    StructureHolds(inp);
    assert NodeOk(id, Structure(inp).nodes[id]);
    SpannedKeepsRest(Structure(inp), id, AllSessionBounds(inp));
    StructureStamp(inp, id);
  }

  /** A commit node is dated exactly when its first mention by a session has a dated
      prefix, or one of its log lines has; parents and heads alone leave it timeless. */
  lemma CommitIsDatedIff(inp: Input, id: string)
    requires id in Build(inp).nodes && Build(inp).nodes[id].kind == Commit
    ensures Build(inp).nodes[id].stamp.t.Some? <==>
              || SessionMention(inp, inp.sessions, id).GetOr(NO_STAMP) != NO_STAMP
              || (inp.includeCommits && LogDated(inp, inp.commits, id))
  {
    hide Build, SessionMention, LogDate, LogDated;
    CommitNodeDate(inp, id);
    MentionIsDatedOrNone(inp, inp.sessions, id);
    var start := SessionMention(inp, inp.sessions, id).GetOr(NO_STAMP);
    LogDatesIff(inp, inp.commits, id, start);
    NoLog(inp, id, start);
  }

  /** Some log line of the node has a dated prefix. */
  ghost predicate LogDated(inp: Input, commits: seq<LogCommit>, id: string) {
    exists c :: c in commits && NodeId(Commit, c.sha) == id && ShaKey(c.sha) in Times(inp.commits)
  }

  lemma {:induction false} LogDatesIff(inp: Input, commits: seq<LogCommit>, id: string, start: Stamp)
    requires DatedOrNone(start)
    ensures DatedOrNone(LogDate(inp, commits, id, start))
    ensures LogDate(inp, commits, id, start) != NO_STAMP <==> start != NO_STAMP || LogDated(inp, commits, id)
  {
    hide NodeId, ShaKey, Times;
    if commits != [] {
      var n := |commits| - 1;
      LogDatesIff(inp, commits[..n], id, start);
      assert commits == commits[..n] + [commits[n]];
      assert LogDated(inp, commits, id) <==>
             LogDated(inp, commits[..n], id)
             || (NodeId(Commit, commits[n].sha) == id && ShaKey(commits[n].sha) in Times(inp.commits));
    }
  }

  // ----- names that share a node -----

  /** Whatever mentions the node, in a session or in the log, has the index key `key`. */
  ghost predicate OneKey(inp: Input, id: string, key: string) {
    && (forall k, sha | 0 <= k < |inp.sessions| && InIdentity(inp, inp.sessions[k]) && sha in inp.sessions[k].commitShas
                        && PrintedNode(inp, sha) == id :: ShaKey(sha) == key)
    && (forall c | c in inp.commits && NodeId(Commit, c.sha) == id :: ShaKey(c.sha) == key)
  }

  predicate Alnum(s: string) {
    forall i | 0 <= i < |s| :: IsAlnum(s[i])
  }

  lemma {:induction false} CleanOfAlnum(a: string)
    requires Alnum(a)
    ensures Clean(a) == Lower(a) && |Lower(a)| == |a|
  {
    if a != "" {
      assert Alnum(a[1..]);
      CleanOfAlnum(a[1..]);
    }
  }

  lemma {:induction false} CleanMarksOthers(b: string)
    ensures Alnum(Clean(b)) ==> Alnum(b)
  {
    if b != "" && Alnum(Clean(b)) {
      var head := CleanChar(b[0]);
      assert Clean(b) == head + Clean(b[1..]);
      assert IsAlnum(Clean(b)[0]);
      forall i | 0 <= i < |Clean(b[1..])|
        ensures IsAlnum(Clean(b[1..])[i])
      {
        assert Clean(b[1..])[i] == Clean(b)[|head| + i];
      }
      CleanMarksOthers(b[1..]);
    }
  }

  lemma {:induction false} LowerKeepsAlnum(a: string)
    requires Alnum(a)
    ensures Alnum(Lower(a))
  {
    if a != "" {
      LowerKeepsAlnum(a[1..]);
    }
  }

  /** Whatever shares a commit node with an alphanumeric name is alphanumeric too
      and shares its index key. */
  lemma SameNodeSameKey(a: string, b: string)
    requires Alnum(a) && NodeId(Commit, a) == NodeId(Commit, b)
    ensures Alnum(b) && ShaKey(a) == ShaKey(b)
  {
    var stem := KindName(Commit) + "_";
    assert (stem + Clean(a))[|stem|..] == Clean(a);
    assert (stem + Clean(b))[|stem|..] == Clean(b);
    CleanOfAlnum(a);
    LowerKeepsAlnum(a);
    CleanMarksOthers(b);
    CleanOfAlnum(b);
    LowerTake(a, |Prefix7(a)|);
    LowerTake(b, |Prefix7(b)|);
    assert a[..|Prefix7(a)|] == Prefix7(a) && b[..|Prefix7(b)|] == Prefix7(b);
  }

  /** Alphanumeric names, as git's object names are, meet only names of their own key. */
  lemma AlnumHasOneKey(inp: Input, sha: string)
    requires Alnum(sha)
    ensures OneKey(inp, NodeId(Commit, sha), ShaKey(sha))
  {
    hide NodeId, Alnum, Times, InIdentity, ShaKey;
    forall printed | PrintedNode(inp, printed) == NodeId(Commit, sha)
      ensures ShaKey(printed) == ShaKey(sha)
    {
      SameNodeSameKey(sha, KnownSha(inp, printed));
      TimesHaveMetas(inp.commits, ShaKey(printed));
    }
    forall c | c in inp.commits && NodeId(Commit, c.sha) == NodeId(Commit, sha)
      ensures ShaKey(c.sha) == ShaKey(sha)
    {
      SameNodeSameKey(sha, c.sha);
    }
  }

  lemma {:induction false} MentionsOfKey(inp: Input, shas: seq<string>, id: string, key: string)
    requires forall sha | sha in shas && PrintedNode(inp, sha) == id :: ShaKey(sha) == key
    ensures MentionIn(inp, shas, id) in {None, Some(KeyStamp(Times(inp.commits), key))}
  {
    hide ShaKey, Times, PrintedNode;
    if shas != [] {
      MentionsOfKey(inp, shas[..|shas| - 1], id, key);
      assert shas[|shas| - 1] in shas;
    }
  }

  lemma {:induction false} SessionMentionsOfKey(inp: Input, n: nat, id: string, key: string)
    requires n <= |inp.sessions| && OneKey(inp, id, key)
    ensures SessionMention(inp, inp.sessions[..n], id) in {None, Some(KeyStamp(Times(inp.commits), key))}
  {
    hide ShaKey, Times, PrintedNode, InIdentity, KeyStamp;
    if n > 0 {
      assert inp.sessions[..n][..n - 1] == inp.sessions[..n - 1];
      SessionMentionsOfKey(inp, n - 1, id, key);
      if InIdentity(inp, inp.sessions[n - 1]) {
        MentionsOfKey(inp, inp.sessions[n - 1].commitShas, id, key);
      }
    }
  }

  lemma {:induction false} LogOfKey(inp: Input, n: nat, id: string, key: string, start: Stamp)
    requires n <= |inp.commits| && OneKey(inp, id, key) && start in {NO_STAMP, KeyStamp(Times(inp.commits), key)}
    ensures var end := LogDate(inp, inp.commits[..n], id, start);
            && end in {NO_STAMP, KeyStamp(Times(inp.commits), key)}
            && ((exists i | 0 <= i < n :: NodeId(Commit, inp.commits[i].sha) == id) ==>
                  end == KeyStamp(Times(inp.commits), key))
  {
    hide ShaKey, Times, PrintedNode, InIdentity, NodeId;
    if n > 0 {
      assert inp.commits[..n][..n - 1] == inp.commits[..n - 1];
      LogOfKey(inp, n - 1, id, key, start);
      assert inp.commits[n - 1] in inp.commits;
    }
  }

  /** Whatever order sessions, log lines, parent stubs and branch heads mention a
      commit in, it ends as a point at the date indexed for its prefix. */
  lemma LogCommitIsDated(inp: Input, i: nat)
    requires inp.includeCommits && i < |inp.commits|
    requires OneKey(inp, NodeId(Commit, inp.commits[i].sha), ShaKey(inp.commits[i].sha))
    ensures var id := NodeId(Commit, inp.commits[i].sha);
            && id in Build(inp).nodes
            && Build(inp).nodes[id].stamp == CommitStamp(Times(inp.commits), inp.commits[i].sha)
  {
    hide Structure, Spanned, Build, AllSessionBounds, LogDate, SessionMention, OneKey, ShaKey, Times, NodeId;
    var id, key := NodeId(Commit, inp.commits[i].sha), ShaKey(inp.commits[i].sha);
    BuildAt(inp);
    StructureHolds(inp);
    IdsAnnounceKinds(Commit, inp.commits[i].sha);
    assert NodeOk(id, Structure(inp).nodes[id]);
    SpannedKeepsRest(Structure(inp), id, AllSessionBounds(inp));
    CommitNodeDate(inp, id);
    assert inp.sessions[..|inp.sessions|] == inp.sessions && inp.commits[..|inp.commits|] == inp.commits;
    SessionMentionsOfKey(inp, |inp.sessions|, id, key);
    LogOfKey(inp, |inp.commits|, id, key, SessionMention(inp, inp.sessions, id).GetOr(NO_STAMP));
  }

  // ----- which log line a printed sha stands for -----

  /** Log line `i` is the first that agrees with the sha in its first seven characters, whatever their case. */
  ghost predicate FirstListed(commits: seq<LogCommit>, sha: string, i: nat) {
    && i < |commits| && Lower(Prefix7(commits[i].sha)) == Lower(Prefix7(sha))
    && forall j: nat | j < i :: Lower(Prefix7(commits[j].sha)) != Lower(Prefix7(sha))
  }

  lemma {:induction false} MetasIsFirstListed(commits: seq<LogCommit>, sha: string)
    ensures ShaKey(sha) in Metas(commits) ==>
              exists i: nat :: FirstListed(commits, sha, i) && Metas(commits)[ShaKey(sha)] == commits[i]
    ensures ShaKey(sha) !in Metas(commits) ==> forall i: nat | i < |commits| :: ShaKey(commits[i].sha) != ShaKey(sha)
  {
    hide Lower, Prefix7;
    if commits != [] {
      var n := |commits| - 1;
      MetasIsFirstListed(commits[..n], sha);
      forall i | 0 <= i < n
        ensures commits[..n][i] == commits[i]
      {
      }
      if ShaKey(sha) in Metas(commits[..n]) {
        var i: nat :| FirstListed(commits[..n], sha, i) && Metas(commits[..n])[ShaKey(sha)] == commits[..n][i];
        assert FirstListed(commits, sha, i);
      } else if ShaKey(sha) in Metas(commits) {
        assert FirstListed(commits, sha, n);
      }
    }
  }

  /** A printed sha stands for the first commit of the log with its prefix, and for itself
      if there is none. */
  lemma KnownShaIsFirstListed(inp: Input, sha: string)
    ensures forall i: nat | FirstListed(inp.commits, sha, i) :: KnownSha(inp, sha) == inp.commits[i].sha
    ensures (forall i: nat :: !FirstListed(inp.commits, sha, i)) ==> KnownSha(inp, sha) == sha
  {
    hide Lower, Prefix7, Metas;
    MetasIsFirstListed(inp.commits, sha);
  }

  // ----- which date is indexed for a prefix -----

  /** The date indexed for a key is that of the first dated log line with that key. */
  lemma {:induction false} TimesIsFirstDate(commits: seq<LogCommit>, key: string) returns (i: nat)
    ensures key in Times(commits) ==>
              && i < |commits| && ShaKey(commits[i].sha) == key && commits[i].committedAt == Some(Times(commits)[key])
              && NoDateBefore(commits, key, i)
    ensures key !in Times(commits) ==> NoDateBefore(commits, key, |commits|)
  {
    hide ShaKey;
    i := 0;
    if commits != [] {
      var n := |commits| - 1;
      i := TimesIsFirstDate(commits[..n], key);
      if key in Times(commits[..n]) {
        NoDateInPrefix(commits, key, n, i);
      } else {
        NoDateInPrefix(commits, key, n, n);
        i := n;
      }
    }
  }

  /** None of the first `i` log lines dates this key. */
  ghost predicate NoDateBefore(commits: seq<LogCommit>, key: string, i: nat)
    requires i <= |commits|
  {
    forall j | 0 <= j < i :: ShaKey(commits[j].sha) != key || commits[j].committedAt.None?
  }

  lemma NoDateInPrefix(commits: seq<LogCommit>, key: string, n: nat, i: nat)
    requires i <= n <= |commits|
    ensures NoDateBefore(commits[..n], key, i) <==> NoDateBefore(commits, key, i)
  {
    hide ShaKey;
    forall j | 0 <= j < i
      ensures commits[..n][j] == commits[j]
    {
    }
  }

  /** A dated log commit ends with `t = t_end =` its own committer date exactly when
      no earlier dated log line with the same 7-character prefix has another date. */
  lemma OwnDateIff(inp: Input, i: nat)
    requires inp.includeCommits && i < |inp.commits| && inp.commits[i].committedAt.Some?
    requires OneKey(inp, NodeId(Commit, inp.commits[i].sha), ShaKey(inp.commits[i].sha))
    ensures
      var c := inp.commits[i];
      (NodeId(Commit, c.sha) in Build(inp).nodes
       && Build(inp).nodes[NodeId(Commit, c.sha)].stamp == Stamp(c.committedAt, c.committedAt, Some(CommitterDate)))
      <==> FirstDateAgrees(inp.commits, i)
  {
    hide Build, OneKey;
    LogCommitIsDated(inp, i);
    var first := TimesIsFirstDate(inp.commits, ShaKey(inp.commits[i].sha));
    if !FirstDateAgrees(inp.commits, i) {
      var j :| 0 <= j < i && FirstOfItsKey(inp.commits, j) && ShaKey(inp.commits[j].sha) == ShaKey(inp.commits[i].sha)
               && inp.commits[j].committedAt != inp.commits[i].committedAt;
      assert j == first;
    } else if first < i {
      assert FirstOfItsKey(inp.commits, first);
    }
  }

  /** No dated log line before `j` has its prefix. */
  ghost predicate FirstOfItsKey(commits: seq<LogCommit>, j: nat)
    requires j < |commits|
  {
    commits[j].committedAt.Some? && NoDateBefore(commits, ShaKey(commits[j].sha), j)
  }

  ghost predicate FirstDateAgrees(commits: seq<LogCommit>, i: nat)
    requires i < |commits|
  {
    forall j | 0 <= j < i && FirstOfItsKey(commits, j) && ShaKey(commits[j].sha) == ShaKey(commits[i].sha) ::
      commits[j].committedAt == commits[i].committedAt
  }

  /** In particular, distinct prefixes give every dated commit its own date. */
  lemma DistinctPrefixesKeepOwnDates(inp: Input, i: nat)
    requires inp.includeCommits && i < |inp.commits| && inp.commits[i].committedAt.Some?
    requires OneKey(inp, NodeId(Commit, inp.commits[i].sha), ShaKey(inp.commits[i].sha))
    requires forall j, k | 0 <= j < k < |inp.commits| :: ShaKey(inp.commits[j].sha) != ShaKey(inp.commits[k].sha)
    ensures var c := inp.commits[i];
            && NodeId(Commit, c.sha) in Build(inp).nodes
            && Build(inp).nodes[NodeId(Commit, c.sha)].stamp == Stamp(c.committedAt, c.committedAt, Some(CommitterDate))
  {
    hide Build, OneKey;
    OwnDateIff(inp, i);
  }

  /** Of two log commits that share a prefix the second shows the date of the first. */
  lemma SharedPrefixTakesFirstDate(inp: Input)
    requires inp.includeCommits
    requires inp.commits == [LogCommit("aaaaaaa1", [], None, Some(1)), LogCommit("aaaaaaa2", [], None, Some(2))]
    ensures NodeId(Commit, "aaaaaaa2") in Build(inp).nodes
    ensures Build(inp).nodes[NodeId(Commit, "aaaaaaa2")].stamp == Stamp(Some(1), Some(1), Some(CommitterDate))
  {
    hide Build, OneKey, Lower, NodeId;
    AlnumHasOneKey(inp, inp.commits[1].sha);
    LogCommitIsDated(inp, 1);
    assert inp.commits[..1] == [inp.commits[0]] && inp.commits[..1][..0] == [];
    assert Prefix7(inp.commits[0].sha) == Prefix7(inp.commits[1].sha) == "aaaaaaa";
    assert Times(inp.commits[..1])[ShaKey(inp.commits[0].sha)] == 1;
  }
}
