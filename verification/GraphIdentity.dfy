/**
 Who is who in the project graph (packages/agent-stats/src/project-graph.ts):
 which alias a working directory belongs to, and which coordination records are
 attached to which agents.
 */
module GraphIdentity {
  import opened Common
  import opened Sorting
  import opened ProjectGraph
  import opened GraphTheorems
  import opened GraphEdges

  // ----- aliases -----

  /** Prefix `j` of alias `i` covers the directory `c`. */
  ghost predicate Covers(inp: Input, c: string, i: nat, j: nat) {
    i < |inp.aliases| && j < |inp.aliases[i].pathPrefixes| && Under(c, PrefixOf(inp, i, j))
  }

  ghost function PrefixOf(inp: Input, i: nat, j: nat): string
    requires i < |inp.aliases| && j < |inp.aliases[i].pathPrefixes|
  {
    Canonical(inp, inp.aliases[i].pathPrefixes[j])
  }

  /** `best` beats every covering prefix of the first `n` prefixes of alias `i`
      and of all prefixes of earlier aliases; on equal lengths the earlier alias wins. */
  ghost predicate BestOf(inp: Input, c: string, i: nat, n: nat, best: Best) {
    && (best.alias.None? <==> best.len == -1)
    && (forall k: nat, j: nat | Covers(inp, c, k, j) && (k < i || (k == i && j < n)) ::
          && best.alias.Some? && |PrefixOf(inp, k, j)| <= best.len
          && (k < best.alias.value ==> |PrefixOf(inp, k, j)| < best.len))
    && (best.alias.Some? ==>
          && best.alias.value <= i
          && exists j: nat :: Covers(inp, c, best.alias.value, j) && |PrefixOf(inp, best.alias.value, j)| == best.len)
  }

  lemma {:induction false} BestInAliasIsBest(inp: Input, c: string, i: nat, n: nat, best: Best)
    requires i < |inp.aliases| && n <= |inp.aliases[i].pathPrefixes| && BestOf(inp, c, i, 0, best)
    ensures BestOf(inp, c, i, n, BestInAlias(inp, c, i, inp.aliases[i].pathPrefixes[..n], best))
  {
    hide Under, Canonical;
    if n > 0 {
      var prefixes := inp.aliases[i].pathPrefixes;
      assert prefixes[..n][..n - 1] == prefixes[..n - 1];
      BestInAliasIsBest(inp, c, i, n - 1, best);
      var sofar := BestInAlias(inp, c, i, prefixes[..n - 1], best);
      var after := BestInAlias(inp, c, i, prefixes[..n], best);
      var p := PrefixOf(inp, i, n - 1);
      assert Covers(inp, c, i, n - 1) <==> Under(c, p);
      if after != sofar {
        assert after == Best(Some(i), |p|);
      }
    }
  }

  lemma {:induction false} BestAliasIsBest(inp: Input, c: string, n: nat)
    requires n <= |inp.aliases|
    ensures BestOf(inp, c, n, 0, BestAlias(inp, c, n))
  {
    hide Under, Canonical;
    if n > 0 {
      BestAliasIsBest(inp, c, n - 1);
      var prefixes := inp.aliases[n - 1].pathPrefixes;
      assert prefixes[..|prefixes|] == prefixes;
      BestInAliasIsBest(inp, c, n - 1, |prefixes|, BestAlias(inp, c, n - 1));
    }
  }

  /** No covering prefix is longer than this one, and those of earlier aliases are shorter. */
  ghost predicate LongestAt(inp: Input, c: string, i: nat, j: nat)
    requires Covers(inp, c, i, j)
  {
    forall k: nat, m: nat | Covers(inp, c, k, m) ::
      && |PrefixOf(inp, k, m)| <= |PrefixOf(inp, i, j)|
      && (k < i ==> |PrefixOf(inp, k, m)| < |PrefixOf(inp, i, j)|)
  }

  /** A directory belongs to no alias iff no prefix covers it; otherwise to the
      earliest of the aliases that own a longest covering prefix. */
  lemma AliasIsLongestMatch(inp: Input, cwd: string)
    ensures var c := Canonical(inp, cwd);
            var r := AliasForCwd(inp, cwd);
            && (r.None? <==> !exists k: nat, j: nat :: Covers(inp, c, k, j))
            && (r.Some? ==> exists j: nat :: Covers(inp, c, r.value, j) && LongestAt(inp, c, r.value, j))
  {
    hide Under, Canonical, BestAlias;
    BestAliasIsBest(inp, Canonical(inp, cwd), |inp.aliases|);
  }

  /** Working directory `j` is the first that belongs to an alias. */
  ghost predicate FirstPlaced(inp: Input, cwds: seq<string>, j: nat) {
    j < |cwds| && AliasForCwd(inp, cwds[j]).Some? && forall m: nat | m < j :: AliasForCwd(inp, cwds[m]).None?
  }

  /** A session belongs to the alias of its first working directory that has one, and to
      the project if there is such a directory. */
  lemma {:induction false} SessionIsPlacedByFirst(inp: Input, cwds: seq<string>)
    ensures SessionAlias(inp, cwds).Some? <==> exists j: nat :: FirstPlaced(inp, cwds, j)
    ensures forall j: nat | FirstPlaced(inp, cwds, j) :: SessionAlias(inp, cwds) == AliasForCwd(inp, cwds[j])
  {
    hide AliasForCwd;
    if cwds != [] {
      SessionIsPlacedByFirst(inp, cwds[1..]);
      if AliasForCwd(inp, cwds[0]).Some? {
        assert FirstPlaced(inp, cwds, 0);
      } else {
        forall j: nat
          ensures FirstPlaced(inp, cwds, j) <==> j > 0 && FirstPlaced(inp, cwds[1..], j - 1)
        {
          PlacedLater(inp, cwds, j);
        }
        if k: nat :| FirstPlaced(inp, cwds[1..], k) {
          assert FirstPlaced(inp, cwds, k + 1);
        }
      }
    }
  }

  lemma PlacedLater(inp: Input, cwds: seq<string>, j: nat)
    requires cwds != [] && AliasForCwd(inp, cwds[0]).None?
    ensures FirstPlaced(inp, cwds, j) <==> j > 0 && FirstPlaced(inp, cwds[1..], j - 1)
  {
    hide AliasForCwd;
    forall m | 0 <= m < |cwds| - 1
      ensures cwds[1..][m] == cwds[m + 1]
    {
    }
    if j > 0 && j < |cwds| && FirstPlaced(inp, cwds[1..], j - 1) {
      forall m: nat | m < j
        ensures AliasForCwd(inp, cwds[m]).None?
      {
        if m > 0 {
          assert cwds[m] == cwds[1..][m - 1];
        }
      }
    }
  }

  // ----- evidence ids -----

  function DigitValue(c: char): nat {
    if '0' <= c <= '9' then c as nat - 48 else if 'a' <= c <= 'f' then c as nat - 87 else 0
  }

  function HexValue(s: string): nat {
    if s == "" then 0 else 16 * HexValue(s[..|s| - 1]) + DigitValue(s[|s| - 1])
  }

  lemma DigitValueOf(d: nat)
    requires d < 16
    ensures DigitValue(HexDigit(d)) == d
  {
    if d < 8 {
    } else {
    }
  }

  lemma {:induction false} HexRoundTrip(n: nat)
    ensures HexValue(Hex(n)) == n
  {
    DigitValueOf(n % 16);
    if n >= 16 {
      HexRoundTrip(n / 16);
      assert Hex(n)[..|Hex(n)| - 1] == Hex(n / 16);
    }
  }

  lemma {:induction false} HexCharsInjective(s: string, t: string)
    requires HexChars(s) == HexChars(t)
    ensures s == t
  {
    hide Hex, HexValue;
    if s == "" || t == "" {
    } else {
      HexIsHex(s[0] as int);
      HexIsHex(t[0] as int);
      assert HexChars(s)[1..] == Hex(s[0] as int) + HexChars(s[1..]);
      assert HexChars(t)[1..] == Hex(t[0] as int) + HexChars(t[1..]);
      PiecesAgree('_', Hex(s[0] as int), HexChars(s[1..]), Hex(t[0] as int), HexChars(t[1..]));
      HexRoundTrip(s[0] as int);
      HexRoundTrip(t[0] as int);
      HexCharsInjective(s[1..], t[1..]);
      assert s == [s[0]] + s[1..] && t == [t[0]] + t[1..];
    }
  }

  /** Evidence ids, unlike agent node ids, never collide. */
  lemma EvidenceIdInjective(a: string, b: string)
    requires EvidenceId(a) == EvidenceId(b)
    ensures a == b
  {
    var stem := KindName(Evidence);
    assert (stem + HexChars(a))[|stem|..] == HexChars(a);
    assert (stem + HexChars(b))[|stem|..] == HexChars(b);
    HexCharsInjective(a, b);
  }

  // ----- edge keys -----

  function RelationName(r: Relation): string {
    match r
    case BelongsTo => "belongs-to"
    case RenameLineage => "rename-lineage"
    case WorkedIn => "worked-in"
    case ConductedBy => "conducted-by"
    case TouchedBranch => "touched-branch"
    case Produced => "produced"
    case RegisteredIn => "registered-in"
    case CommitParent => "commit-parent"
    case BranchHead => "branch-head"
    case DerivedFrom => "derived-from"
  }

  /** The text under which the builder remembers an edge. */
  function KeyText(e: Edge): string {
    e.source + ("|" + (e.target + ("|" + RelationName(e.relation))))
  }

  lemma {:induction false} CleanHasNoBar(s: string)
    ensures Without('|', Clean(s))
  {
    if s != "" {
      CleanHasNoBar(s[1..]);
    }
  }

  /** No node id contains the separator of edge keys. */
  lemma NodeIdsHaveNoBar(kind: Kind, key: string)
    ensures Without('|', NodeId(kind, key))
  {
    CleanHasNoBar(key);
    assert Without('|', KindName(kind) + "_");
  }

  lemma RelationNamesDiffer(a: Relation, b: Relation)
    requires RelationName(a) == RelationName(b)
    ensures a == b
  {
    var n := RelationName(a);
    assert RelationName(b)[0] == n[0] && RelationName(b)[1] == n[1] && |RelationName(b)| == |n|;
  }

  /** Two edges between nodes have the same key text iff the builder treats them as one edge. */
  lemma KeyTextIff(e: Edge, f: Edge)
    requires Without('|', e.source) && Without('|', e.target) && Without('|', f.source) && Without('|', f.target)
    ensures KeyText(e) == KeyText(f) <==> SameKey(e, f)
  {
    if KeyText(e) == KeyText(f) {
      var x, y := "|" + RelationName(e.relation), "|" + RelationName(f.relation);
      PiecesAgree('|', e.source, "|" + (e.target + x), f.source, "|" + (f.target + y));
      assert ("|" + (e.target + x))[1..] == e.target + x && ("|" + (f.target + y))[1..] == f.target + y;
      PiecesAgree('|', e.target, x, f.target, y);
      assert x[1..] == RelationName(e.relation) && y[1..] == RelationName(f.relation);
      RelationNamesDiffer(e.relation, f.relation);
    }
  }

  // ----- agents -----

  /** Some in-identity session names this agent. */
  ghost predicate Active(inp: Input, sessions: seq<SessionInput>, agentId: string) {
    exists k | 0 <= k < |sessions| :: InIdentity(inp, sessions[k]) && sessions[k].agentId == agentId
  }

  /** Another agent of the project has the same lossy node id. */
  ghost predicate Shadowed(inp: Input, sessions: seq<SessionInput>, agentId: string) {
    exists other :: other != agentId && Active(inp, sessions, other) && AgentNodeId(other) == AgentNodeId(agentId)
  }

  lemma NodeIdGrows(kind: Kind, key: string)
    ensures key != "" ==> |NodeId(kind, key)| > |NodeId(kind, "")|
  {
  }

  lemma OnlyTheEmptyNameIsEmpty(a: string)
    requires AgentNodeId(a) == AgentNodeId("")
    ensures a == ""
  {
    NodeIdGrows(Agent, a);
  }

  /** What the identity maps know after a run of sessions. */
  ghost predicate Knows(inp: Input, sessions: seq<SessionInput>, b: Progress) {
    && KnowsNames(inp, sessions, b)
    && (forall a :: a in b.ambiguous <==> Active(inp, sessions, a) && Shadowed(inp, sessions, a))
  }

  ghost predicate KnowsNames(inp: Input, sessions: seq<SessionInput>, b: Progress) {
    && (forall a :: a in b.agentNode <==> Active(inp, sessions, a))
    && (forall a | a in b.agentNode :: b.agentNode[a] == AgentNodeId(a))
    && (forall n | n in b.agentAt :: Active(inp, sessions, b.agentAt[n]) && AgentNodeId(b.agentAt[n]) == n)
    && (forall a | Active(inp, sessions, a) :: AgentNodeId(a) in b.agentAt)
  }

  lemma ActiveStep(inp: Input, sessions: seq<SessionInput>, a: string)
    requires sessions != []
    ensures var n := |sessions| - 1;
            Active(inp, sessions, a) <==>
              Active(inp, sessions[..n], a) || (InIdentity(inp, sessions[n]) && sessions[n].agentId == a)
  {
    hide InIdentity;
    forall k | 0 <= k < |sessions| - 1
      ensures sessions[..|sessions| - 1][k] == sessions[k]
    {
    }
  }

  lemma {:induction false} SessionsKnow(inp: Input, g: Graph, sessions: seq<SessionInput>)
    ensures Knows(inp, sessions, AddSessions(inp, g, sessions))
  {
    hide InIdentity, SessionGraph, Active, AgentNodeId, Shadowed;
    if sessions == [] {
      NobodyActive(inp);
    } else {
      var n := |sessions| - 1;
      SessionsKnow(inp, g, sessions[..n]);
      var before := AddSessions(inp, g, sessions[..n]);
      forall a
        ensures Active(inp, sessions, a) <==>
                  Active(inp, sessions[..n], a) || (InIdentity(inp, sessions[n]) && sessions[n].agentId == a)
      {
        ActiveStep(inp, sessions, a);
      }
      if InIdentity(inp, sessions[n]) {
        var x := sessions[n].agentId;
        NoteAgentKnowsNames(inp, sessions, before, x);
        forall a
          ensures a in NoteAgent(before, x).ambiguous <==> Active(inp, sessions, a) && Shadowed(inp, sessions, a)
        {
          AmbiguityStep(inp, sessions, before, x, a);
        }
      } else {
        SameActiveSameShadowed(inp, sessions, sessions[..n]);
      }
    }
  }

  lemma SameActiveSameShadowed(inp: Input, sessions: seq<SessionInput>, others: seq<SessionInput>)
    requires forall a :: Active(inp, sessions, a) <==> Active(inp, others, a)
    ensures forall a :: Shadowed(inp, sessions, a) <==> Shadowed(inp, others, a)
  {
    hide Active, AgentNodeId;
  }

  lemma NobodyActive(inp: Input)
    ensures forall a :: !Active(inp, [], a)
  {
  }

  /** The last session is in identity and names `x`. */
  ghost predicate Names(inp: Input, sessions: seq<SessionInput>, x: string) {
    && sessions != [] && sessions[|sessions| - 1].agentId == x
    && forall a :: Active(inp, sessions, a) <==> Active(inp, sessions[..|sessions| - 1], a) || a == x
  }

  lemma NoteAgentKnowsNames(inp: Input, sessions: seq<SessionInput>, before: Progress, x: string)
    requires Names(inp, sessions, x) && KnowsNames(inp, sessions[..|sessions| - 1], before)
    ensures KnowsNames(inp, sessions, NoteAgent(before, x))
  {
    hide Active, AgentNodeId;
    if AgentNodeId(x) in before.agentAt {
      EmptyAtNode(x, before);
    }
  }

  lemma EmptyAtNode(x: string, b: Progress)
    requires AgentNodeId(x) in b.agentAt && AgentNodeId(b.agentAt[AgentNodeId(x)]) == AgentNodeId(x)
    ensures b.agentAt[AgentNodeId(x)] == "" ==> x == ""
  {
    if b.agentAt[AgentNodeId(x)] == "" {
      OnlyTheEmptyNameIsEmpty(x);
    }
  }

  lemma AmbiguityStep(inp: Input, sessions: seq<SessionInput>, before: Progress, x: string, a: string)
    requires Names(inp, sessions, x) && Knows(inp, sessions[..|sessions| - 1], before)
    ensures a in NoteAgent(before, x).ambiguous <==> Active(inp, sessions, a) && Shadowed(inp, sessions, a)
  {
    hide Active, AgentNodeId;
    var id := AgentNodeId(x);
    if id in before.agentAt {
      EmptyAtNode(x, before);
      var first := before.agentAt[id];
      SharedNodeShadows(inp, sessions, x, first);
      SharedNodeShadows(inp, sessions, first, x);
    }
  }

  /** A record is attached exactly when it is listed, not empty, names an agent of
      the project, and no other agent of the project shares that agent's node. */
  ghost predicate Attachable(inp: Input, id: string) {
    id in inp.evidence && id != "" && Active(inp, inp.sessions, id) && !Shadowed(inp, inp.sessions, id)
  }

  /** The registered-in edges are exactly those from the one agent a listed record
      unambiguously names to the record's own node. */
  lemma EvidenceEdgesIff(inp: Input, e: Edge)
    requires e.relation == RegisteredIn
    ensures Linked(Build(inp).links, e) <==>
              exists id :: Attachable(inp, id) && e.source == AgentNodeId(id) && e.target == EvidenceId(id)
  {
    hide Linked, Structure, Build, Base, AddSessions, Active, Shadowed, AgentNodeId, EvidenceId, CoordinationIds;
    BuildAt(inp);
    StructureLinks(inp, e);
    SessionsKnow(inp, Base(inp), inp.sessions);
    var b := AfterSessions(inp);
    forall id
      ensures (id in CoordinationIds(inp.evidence) && Registers(b, id, e)) <==>
              (Attachable(inp, id) && e.source == AgentNodeId(id) && e.target == EvidenceId(id))
    {
      CoordinationMembers(inp.evidence, id);
    }
  }

  lemma SharedNodeShadows(inp: Input, sessions: seq<SessionInput>, a: string, b: string)
    ensures a != b && Active(inp, sessions, b) && AgentNodeId(a) == AgentNodeId(b) ==> Shadowed(inp, sessions, a)
  {
    hide Active, AgentNodeId;
  }

  /** No record is attached to two agents, and no two records share a node. */
  lemma EvidenceHasOneOwner(inp: Input, e: Edge, f: Edge)
    requires e.relation == f.relation == RegisteredIn
    requires Linked(Build(inp).links, e) && Linked(Build(inp).links, f)
    ensures e.target == f.target <==> e.source == f.source
  {
    hide Build, AgentNodeId, EvidenceId, Active, Linked;
    EvidenceEdgesIff(inp, e);
    EvidenceEdgesIff(inp, f);
    var a :| Attachable(inp, a) && e.source == AgentNodeId(a) && e.target == EvidenceId(a);
    var b :| Attachable(inp, b) && f.source == AgentNodeId(b) && f.target == EvidenceId(b);
    if e.target == f.target {
      EvidenceIdInjective(a, b);
    }
    SharedNodeShadows(inp, inp.sessions, a, b);
  }

  /** The order of registry records, repeats and empty ids make no difference. */
  lemma RegistryOrderIsForgotten(a: seq<string>, b: seq<string>)
    ensures CoordinationIds(a) == CoordinationIds(b) <==>
              forall id | id != "" :: id in a <==> id in b
  {
    hide Sort, Distinct, NonEmpty, StringLe, CoordinationIds;
    if CoordinationIds(a) == CoordinationIds(b) {
      forall id | id != ""
        ensures id in a <==> id in b
      {
        CoordinationMembers(a, id);
        CoordinationMembers(b, id);
      }
    }
    if forall id | id != "" :: id in a <==> id in b {
      SameIdsSameOrder(a, b);
    }
  }

  lemma SameIdsSameOrder(a: seq<string>, b: seq<string>)
    requires forall id | id != "" :: id in a <==> id in b
    ensures CoordinationIds(a) == CoordinationIds(b)
  {
    hide Sort, Distinct, NonEmpty, StringLe;
    NonEmptyFacts(a);
    NonEmptyFacts(b);
    DistinctFacts(NonEmpty(a));
    DistinctFacts(NonEmpty(b));
    SameElementsSameMultiset(Distinct(NonEmpty(a)), Distinct(NonEmpty(b)));
    StringOrder();
    StringsSeparate(Distinct(NonEmpty(a)));
    SortForgetsOrder(StringLe, Distinct(NonEmpty(a)), Distinct(NonEmpty(b)));
  }
}
