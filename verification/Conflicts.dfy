/**
 Commits claimed by more than one agent (packages/agent-stats/src/correlate.ts,
 `detectCommitConflicts`).  Locale comparison is modelled as comparison by code
 point.
 */
module Conflicts {
  import opened Common
  import opened Sorting
  import opened Correlate

  datatype Claim = Claim(agentId: string, rule: Rule, confidence: Confidence, rank: nat)
  datatype Entry = Entry(branch: Option<string>, agents: seq<string>, claims: map<string, Claim>)
  datatype Conflict = Conflict(sha: string, branch: Option<string>, agents: seq<Claim>)

  /** Entries by commit key; `order` is the order in which keys were first seen. */
  datatype Ledger = Ledger(order: seq<string>, entries: map<string, Entry>)

  function KeyOf(sha: string): string {
    Lower(Prefix7(sha))
  }

  predicate Claims(l: Link, key: string) {
    l.target.CommitTarget? && KeyOf(l.target.sha) == key
  }

  function ClaimOf(l: Link): Claim {
    Claim(l.agentId, l.rule, l.confidence, l.rank)
  }

  predicate NoBranch(branch: Option<string>) {
    branch.None? || branch.value == ""
  }

  function AddClaim(e: Entry, l: Link, branch: Option<string>): Entry {
    var named := if NoBranch(e.branch) && !NoBranch(branch) then branch else e.branch;
    if l.agentId !in e.claims then Entry(named, e.agents + [l.agentId], e.claims[l.agentId := ClaimOf(l)])
    else if l.rank < e.claims[l.agentId].rank then Entry(named, e.agents, e.claims[l.agentId := ClaimOf(l)])
    else Entry(named, e.agents, e.claims)
  }

  function Record(b: Ledger, l: Link): Ledger {
    if !l.target.CommitTarget? then b
    else
      var key := KeyOf(l.target.sha);
      var branch := l.target.onBranch;
      if key in b.entries then b.(entries := b.entries[key := AddClaim(b.entries[key], l, branch)])
      else Ledger(b.order + [key], b.entries[key := AddClaim(Entry(branch, [], map[]), l, branch)])
  }

  function Tally(links: seq<Link>): Ledger {
    if links == [] then Ledger([], map[]) else Record(Tally(links[..|links| - 1]), links[|links| - 1])
  }

  predicate StrongerFirst(a: Claim, b: Claim) {
    a.rank < b.rank || (a.rank == b.rank && StringLe(a.agentId, b.agentId))
  }

  predicate BySha(a: Conflict, b: Conflict) {
    StringLe(a.sha, b.sha)
  }

  function ClaimsOf(e: Entry, agents: seq<string>): seq<Claim>
    requires forall a | a in agents :: a in e.claims
  {
    if agents == [] then []
    else ClaimsOf(e, agents[..|agents| - 1]) + [e.claims[agents[|agents| - 1]]]
  }

  /** Every agent of an entry is listed once and has a claim under its own name. */
  ghost predicate EntryOk(e: Entry) {
    && NoDuplicates(e.agents)
    && (forall a :: a in e.agents <==> a in e.claims)
    && (forall a | a in e.claims :: e.claims[a].agentId == a)
  }

  ghost predicate LedgerOk(b: Ledger) {
    && NoDuplicates(b.order)
    && (forall k :: k in b.order <==> k in b.entries)
    && (forall k | k in b.entries :: EntryOk(b.entries[k]))
  }

  lemma {:induction false} TallyOk(links: seq<Link>)
    ensures LedgerOk(Tally(links))
  {
    hide AddClaim, EntryOk, KeyOf;
    if links != [] {
      var b, l := Tally(links[..|links| - 1]), links[|links| - 1];
      TallyOk(links[..|links| - 1]);
      if l.target.CommitTarget? {
        var key := KeyOf(l.target.sha);
        NewEntryOk(l.target.onBranch);
        AddClaimOk(if key in b.entries then b.entries[key] else Entry(l.target.onBranch, [], map[]), l,
                   l.target.onBranch);
      }
    }
  }

  lemma NewEntryOk(branch: Option<string>)
    ensures EntryOk(Entry(branch, [], map[]))
  {
  }

  lemma AddClaimOk(e: Entry, l: Link, branch: Option<string>)
    requires EntryOk(e)
    ensures EntryOk(AddClaim(e, l, branch))
  {
  }

  ghost function ConflictOf(b: Ledger, key: string): Conflict
    requires LedgerOk(b) && key in b.entries
  {
    var e := b.entries[key];
    assert EntryOk(e);
    Conflict(key, e.branch, Sort(StrongerFirst, ClaimsOf(e, e.agents)))
  }

  ghost function ConflictsIn(b: Ledger, keys: seq<string>): seq<Conflict>
    requires LedgerOk(b) && forall k | k in keys :: k in b.entries
  {
    if keys == [] then []
    else
      var key := keys[|keys| - 1];
      ConflictsIn(b, keys[..|keys| - 1]) + if |b.entries[key].claims| < 2 then [] else [ConflictOf(b, key)]
  }

  ghost function AllConflicts(links: seq<Link>): seq<Conflict> {
    TallyOk(links);
    var b := Tally(links);
    Sort(BySha, ConflictsIn(b, b.order))
  }

  method DetectCommitConflicts(links: seq<Link>) returns (conflicts: seq<Conflict>)
    ensures conflicts == AllConflicts(links)
  {
    TallyOk(links);
    var order: seq<string> := [];
    var entries: map<string, Entry> := map[];
    for i := 0 to |links|
      invariant Ledger(order, entries) == Tally(links[..i])
    {
      assert links[..i + 1][..i] == links[..i];
      var l := links[i];
      if !l.target.CommitTarget? {
        continue;
      }
      var key := KeyOf(l.target.sha);
      var entry := Entry(l.target.onBranch, [], map[]);
      if key in entries {
        entry := entries[key];
      } else {
        order := order + [key];
      }
      if NoBranch(entry.branch) && !NoBranch(l.target.onBranch) {
        entry := entry.(branch := l.target.onBranch);
      }
      if l.agentId !in entry.claims {
        entry := entry.(agents := entry.agents + [l.agentId], claims := entry.claims[l.agentId := ClaimOf(l)]);
      } else if l.rank < entry.claims[l.agentId].rank {
        entry := entry.(claims := entry.claims[l.agentId := ClaimOf(l)]);
      }
      entries := entries[key := entry];
    }
    assert links[..|links|] == links;
    ghost var b := Ledger(order, entries);
    conflicts := [];
    for i := 0 to |order|
      invariant conflicts == ConflictsIn(b, order[..i])
    {
      assert order[..i + 1][..i] == order[..i];
      var entry := entries[order[i]];
      assert EntryOk(entry);
      if |entry.claims| < 2 {
        continue;
      }
      conflicts := conflicts + [Conflict(order[i], entry.branch, Sort(StrongerFirst, ClaimsOf(entry, entry.agents)))];
    }
    assert order[..|order|] == order;
    conflicts := Sort(BySha, conflicts);
  }

  // ----- what the ledger knows -----

  /** Agent `a` claims the commit `key` in some link. */
  ghost predicate Claimed(links: seq<Link>, key: string, a: string) {
    exists i | 0 <= i < |links| :: Claims(links[i], key) && links[i].agentId == a
  }

  predicate Says(l: Link, key: string, c: Claim) {
    && Claims(l, key) && l.agentId == c.agentId && l.rank == c.rank
    && l.rule == c.rule && l.confidence == c.confidence
  }

  /** `c` is the claim of one of the agent's links, and none of them is stronger. */
  ghost predicate BestClaim(links: seq<Link>, key: string, c: Claim) {
    && (exists i | 0 <= i < |links| :: Says(links[i], key, c))
    && (forall i | 0 <= i < |links| && Claims(links[i], key) && links[i].agentId == c.agentId ::
          c.rank <= links[i].rank)
  }

  ghost function ClaimAt(b: Ledger, key: string, a: string): Option<Claim> {
    if key in b.entries && a in b.entries[key].claims then Some(b.entries[key].claims[a]) else None
  }

  ghost predicate Knows(b: Ledger, links: seq<Link>) {
    forall key, a ::
      && (ClaimAt(b, key, a).Some? <==> Claimed(links, key, a))
      && (ClaimAt(b, key, a).Some? ==>
            ClaimAt(b, key, a).value.agentId == a && BestClaim(links, key, ClaimAt(b, key, a).value))
  }

  lemma RecordClaim(b: Ledger, l: Link, key: string, a: string)
    ensures ClaimAt(Record(b, l), key, a) ==
              if Claims(l, key) && l.agentId == a
                 && (ClaimAt(b, key, a).None? || l.rank < ClaimAt(b, key, a).value.rank)
              then Some(ClaimOf(l)) else ClaimAt(b, key, a)
  {
    hide KeyOf;
  }

  lemma ClaimedStep(links: seq<Link>, key: string, a: string)
    requires links != []
    ensures var n := |links| - 1;
            Claimed(links, key, a) <==>
              Claimed(links[..n], key, a) || (Claims(links[n], key) && links[n].agentId == a)
  {
    hide Claims;
    forall i | 0 <= i < |links| - 1
      ensures links[..|links| - 1][i] == links[i]
    {
    }
  }

  lemma BestStep(links: seq<Link>, key: string, c: Claim)
    requires links != []
    ensures var n := |links| - 1;
            && (BestClaim(links[..n], key, c) &&
                  !(Claims(links[n], key) && links[n].agentId == c.agentId && links[n].rank < c.rank)
                ==> BestClaim(links, key, c))
            && (Claims(links[n], key) && c == ClaimOf(links[n]) &&
                  (!Claimed(links[..n], key, c.agentId) ||
                   exists d :: BestClaim(links[..n], key, d) && d.agentId == c.agentId && c.rank < d.rank)
                ==> BestClaim(links, key, c))
  {
    hide Claims;
    var n := |links| - 1;
    forall i | 0 <= i < n
      ensures links[..n][i] == links[i]
    {
    }
  }

  lemma {:induction false} TallyKnows(links: seq<Link>)
    ensures Knows(Tally(links), links)
  {
    if links != [] {
      var n := |links| - 1;
      TallyKnows(links[..n]);
      forall key, a
        ensures var c := ClaimAt(Tally(links), key, a);
                && (c.Some? <==> Claimed(links, key, a))
                && (c.Some? ==> c.value.agentId == a && BestClaim(links, key, c.value))
      {
        TallyStep(links, key, a);
      }
    }
  }

  lemma TallyStep(links: seq<Link>, key: string, a: string)
    requires links != [] && Knows(Tally(links[..|links| - 1]), links[..|links| - 1])
    ensures var c := ClaimAt(Tally(links), key, a);
            && (c.Some? <==> Claimed(links, key, a))
            && (c.Some? ==> c.value.agentId == a && BestClaim(links, key, c.value))
  {
    hide BestClaim, Claimed, Claims, ClaimAt, Record;
    var n := |links| - 1;
    var before := Tally(links[..n]);
    ClaimedStep(links, key, a);
    RecordClaim(before, links[n], key, a);
    BestStep(links, key, ClaimOf(links[n]));
    if ClaimAt(before, key, a).Some? {
      BestStep(links, key, ClaimAt(before, key, a).value);
    }
  }

  // ----- the reported conflicts -----

  lemma {:induction false} ClaimsOfAre(e: Entry, agents: seq<string>)
    requires EntryOk(e) && forall a | a in agents :: a in e.claims
    ensures var r := ClaimsOf(e, agents);
            |r| == |agents| && forall i | 0 <= i < |r| :: r[i] == e.claims[agents[i]]
  {
    if agents != [] {
      ClaimsOfAre(e, agents[..|agents| - 1]);
    }
  }

  lemma {:induction false} ConflictsInAre(b: Ledger, keys: seq<string>, c: Conflict)
    requires LedgerOk(b) && forall k | k in keys :: k in b.entries
    ensures c in ConflictsIn(b, keys) <==>
              exists k :: k in keys && |b.entries[k].claims| >= 2 && c == ConflictOf(b, k)
  {
    hide ConflictOf, EntryOk;
    if keys != [] {
      ConflictsInAre(b, keys[..|keys| - 1], c);
      assert keys == keys[..|keys| - 1] + [keys[|keys| - 1]];
    }
  }

  lemma TwoKeys(m: map<string, Claim>)
    ensures |m| >= 2 <==> exists a, b :: a != b && a in m && b in m
  {
    assert m.Keys == set k | k in m;
    if |m| >= 2 {
      var a :| a in m;
      var rest := m.Keys - {a};
      assert |rest| >= 1;
      var b :| b in rest;
      assert a != b && a in m && b in m;
    }
    if a, b :| a != b && a in m && b in m {
      assert {a, b} <= m.Keys;
      SubsetSize({a, b}, m.Keys);
    }
  }

  lemma {:induction false} SubsetSize(a: set<string>, b: set<string>)
    requires a <= b
    ensures |a| <= |b|
  {
    if a != {} {
      var x :| x in a;
      SubsetSize(a - {x}, b - {x});
    }
  }

  /** Two different agents claim the commit. */
  ghost predicate Contested(links: seq<Link>, key: string) {
    exists a, b :: a != b && Claimed(links, key, a) && Claimed(links, key, b)
  }

  /** A commit is reported exactly when two different agents claim it. */
  lemma ConflictIff(links: seq<Link>, key: string)
    ensures (exists c :: c in AllConflicts(links) && c.sha == key) <==> Contested(links, key)
  {
    hide Claimed, ConflictsIn, Tally, EntryOk;
    TallyOk(links);
    TallyKnows(links);
    var b := Tally(links);
    if c :| c in AllConflicts(links) && c.sha == key {
      SortKeepsMembers(BySha, ConflictsIn(b, b.order), c);
      ConflictsInAre(b, b.order, c);
      TwoKeys(b.entries[key].claims);
      var x, y :| x != y && x in b.entries[key].claims && y in b.entries[key].claims;
      assert ClaimAt(b, key, x).Some? && ClaimAt(b, key, y).Some?;
    }
    if Contested(links, key) {
      var x, y :| x != y && Claimed(links, key, x) && Claimed(links, key, y);
      assert ClaimAt(b, key, x).Some? && ClaimAt(b, key, y).Some?;
      TwoKeys(b.entries[key].claims);
      var c := ConflictOf(b, key);
      ConflictsInAre(b, b.order, c);
      SortKeepsMembers(BySha, ConflictsIn(b, b.order), c);
    }
  }

  /** Link `i` is the first to claim the commit, and does so on this branch or on none. */
  ghost predicate FirstClaiming(links: seq<Link>, key: string, i: nat, branch: Option<string>) {
    && i < |links| && Claims(links[i], key) && links[i].target.onBranch == branch
    && forall j: nat | j < i :: !Claims(links[j], key)
  }

  /** Link `i` is the first to claim the commit on a named branch, which is this one. */
  ghost predicate FirstNaming(links: seq<Link>, key: string, i: nat, branch: Option<string>) {
    && i < |links| && NamesBranch(links[i], key) && links[i].target.onBranch == branch
    && forall j: nat | j < i :: !NamesBranch(links[j], key)
  }

  predicate NamesBranch(l: Link, key: string) {
    Claims(l, key) && l.target.onBranch.Some? && l.target.onBranch.value != ""
  }

  /** The branch of the first link that names one, or else what the first link says. */
  ghost predicate BranchFrom(links: seq<Link>, key: string, branch: Option<string>) {
    || (exists i: nat :: FirstNaming(links, key, i, branch))
    || ((forall j | 0 <= j < |links| :: !NamesBranch(links[j], key))
        && exists i: nat :: FirstClaiming(links, key, i, branch))
  }

  lemma {:induction false} TallyBranch(links: seq<Link>, key: string)
    ensures key in Tally(links).entries ==> BranchFrom(links, key, Tally(links).entries[key].branch)
    ensures key !in Tally(links).entries ==> forall i | 0 <= i < |links| :: !Claims(links[i], key)
  {
    hide KeyOf;
    if links != [] {
      var n := |links| - 1;
      TallyBranch(links[..n], key);
      forall i | 0 <= i < n
        ensures links[..n][i] == links[i]
      {
      }
      if Claims(links[n], key) && key !in Tally(links[..n]).entries {
        assert FirstClaiming(links, key, n, links[n].target.onBranch);
        assert NamesBranch(links[n], key) ==> FirstNaming(links, key, n, links[n].target.onBranch);
      } else if key in Tally(links[..n]).entries {
        BranchStep(links, key, Tally(links[..n]).entries[key].branch);
      }
    }
  }

  lemma FirstsStay(links: seq<Link>, key: string, i: nat, branch: Option<string>)
    requires links != []
    ensures FirstNaming(links[..|links| - 1], key, i, branch) ==>
              FirstNaming(links, key, i, branch) && !NoBranch(branch)
    ensures FirstClaiming(links[..|links| - 1], key, i, branch) ==>
              FirstClaiming(links, key, i, branch) && (NoBranch(branch) <==> !NamesBranch(links[i], key))
  {
    hide Claims;
    forall j | 0 <= j < |links| - 1
      ensures links[..|links| - 1][j] == links[j]
    {
    }
  }

  lemma BranchStep(links: seq<Link>, key: string, branch: Option<string>)
    requires links != [] && BranchFrom(links[..|links| - 1], key, branch)
    ensures var l := links[|links| - 1];
            BranchFrom(links, key, if NoBranch(branch) && NamesBranch(l, key) then l.target.onBranch else branch)
  {
    hide NoBranch, NamesBranch, FirstNaming, FirstClaiming;
    var n := |links| - 1;
    forall j | 0 <= j < n
      ensures links[..n][j] == links[j]
    {
    }
    if i: nat :| FirstNaming(links[..n], key, i, branch) {
      FirstsStay(links, key, i, branch);
    } else {
      var i: nat :| FirstClaiming(links[..n], key, i, branch);
      FirstsStay(links, key, i, branch);
      if NamesBranch(links[n], key) {
        NamedAtLast(links, key);
        InFront(links[..n], key, i, branch);
      }
    }
  }

  lemma NamedAtLast(links: seq<Link>, key: string)
    requires links != [] && NamesBranch(links[|links| - 1], key)
    requires forall j | 0 <= j < |links| - 1 :: !NamesBranch(links[j], key)
    ensures links[|links| - 1].target.CommitTarget?
    ensures FirstNaming(links, key, |links| - 1, links[|links| - 1].target.onBranch)
  {
  }

  lemma InFront(links: seq<Link>, key: string, i: nat, branch: Option<string>)
    requires FirstClaiming(links, key, i, branch)
    ensures i < |links|
  {
  }

  /** Conflicts come in the order of their commits, one for each. */
  lemma ConflictsInOrder(links: seq<Link>, i: nat, j: nat)
    requires i < j < |AllConflicts(links)|
    ensures var a, b := AllConflicts(links)[i].sha, AllConflicts(links)[j].sha; StringLe(a, b) && a != b
  {
    hide StringLe, Tally;
    TallyOk(links);
    var b := Tally(links);
    var all := ConflictsIn(b, b.order);
    ByShaIsTotal();
    SortFacts(BySha, all);
    OneConflictPerKey(b, b.order);
    DistinctBySha(all, Sort(BySha, all));
  }

  /** A reported conflict names every claiming agent once, with its strongest claim,
      strongest claims first and those of one rank by agent, and the branch that the
      first claim to name one names. */
  lemma ConflictNamesClaimants(links: seq<Link>, c: Conflict)
    requires c in AllConflicts(links)
    ensures forall a :: Claimed(links, c.sha, a) <==> exists i | 0 <= i < |c.agents| :: c.agents[i].agentId == a
    ensures forall i | 0 <= i < |c.agents| :: BestClaim(links, c.sha, c.agents[i])
    ensures forall i, k | 0 <= i < k < |c.agents| ::
              && c.agents[i].rank <= c.agents[k].rank && c.agents[i].agentId != c.agents[k].agentId
              && (c.agents[i].rank == c.agents[k].rank ==> StringLe(c.agents[i].agentId, c.agents[k].agentId))
    ensures BranchFrom(links, c.sha, c.branch)
  {
    hide Claimed, BestClaim, ConflictsIn, Tally, StringLe, BranchFrom;
    TallyOk(links);
    TallyKnows(links);
    var b := Tally(links);
    SortKeepsMembers(BySha, ConflictsIn(b, b.order), c);
    ConflictsInAre(b, b.order, c);
    var e := b.entries[c.sha];
    assert EntryOk(e);
    TallyBranch(links, c.sha);
    SortedClaims(e);
    forall i | 0 <= i < |c.agents|
      ensures BestClaim(links, c.sha, c.agents[i])
    {
      assert ClaimAt(b, c.sha, c.agents[i].agentId) == Some(c.agents[i]);
    }
    forall a
      ensures Claimed(links, c.sha, a) <==> a in e.claims
    {
      assert ClaimAt(b, c.sha, a).Some? <==> a in e.claims;
    }
  }

  lemma ByShaIsTotal()
    ensures TotalPreorder(BySha)
  {
    StringOrder();
  }

  ghost predicate OnePerKey(r: seq<Conflict>, keys: seq<string>) {
    && (forall i | 0 <= i < |r| :: r[i].sha in keys)
    && (forall i, j | 0 <= i < j < |r| :: r[i].sha != r[j].sha)
  }

  lemma {:induction false} OneConflictPerKey(b: Ledger, keys: seq<string>)
    requires LedgerOk(b) && NoDuplicates(keys) && forall k | k in keys :: k in b.entries
    ensures OnePerKey(ConflictsIn(b, keys), keys)
  {
    hide EntryOk, Sort, ClaimsOf;
    if keys != [] {
      var n := |keys| - 1;
      assert keys == keys[..n] + [keys[n]];
      OneConflictPerKey(b, keys[..n]);
    }
  }

  lemma DistinctBySha(s: seq<Conflict>, r: seq<Conflict>)
    requires multiset(s) == multiset(r) && exists keys :: OnePerKey(s, keys)
    ensures forall i, j | 0 <= i < j < |r| :: r[i].sha != r[j].sha
  {
    var keys :| OnePerKey(s, keys);
    forall i, j | 0 <= i < j < |r|
      ensures r[i].sha != r[j].sha
    {
      assert NoDuplicates(s);
      RearrangedStaysDistinct(r, s);
      assert r[i] in multiset(s) && r[j] in multiset(s);
      var x :| 0 <= x < |s| && s[x] == r[i];
      var y :| 0 <= y < |s| && s[y] == r[j];
    }
  }

  lemma StrongerFirstIsTotal()
    ensures TotalPreorder(StrongerFirst)
  {
    StringOrder();
  }

  /** Sorting the claims of an entry keeps one claim per agent. */
  lemma SortedClaims(e: Entry)
    requires EntryOk(e)
    ensures var r := Sort(StrongerFirst, ClaimsOf(e, e.agents));
            && SortedBy(StrongerFirst, r)
            && (forall i | 0 <= i < |r| :: r[i].agentId in e.claims && r[i] == e.claims[r[i].agentId])
            && (forall a | a in e.claims :: exists i | 0 <= i < |r| :: r[i].agentId == a)
            && (forall i, k | 0 <= i < k < |r| :: r[i].agentId != r[k].agentId)
  {
    hide StrongerFirst, Sort, ClaimsOf;
    StrongerFirstIsTotal();
    ClaimsOfAre(e, e.agents);
    var s := ClaimsOf(e, e.agents);
    var r := Sort(StrongerFirst, s);
    SortFacts(StrongerFirst, s);
    forall x
      ensures x in r <==> x in s
    {
      SortKeepsMembers(StrongerFirst, s, x);
    }
    forall i | 0 <= i < |r|
      ensures r[i].agentId in e.claims && r[i] == e.claims[r[i].agentId]
    {
      assert r[i] in s;
    }
    forall a | a in e.claims
      ensures exists i | 0 <= i < |r| :: r[i].agentId == a
    {
      var k :| 0 <= k < |e.agents| && e.agents[k] == a;
      assert s[k] == e.claims[a] && s[k] in r;
    }
    assert NoDuplicates(s);
    RearrangedStaysDistinct(r, s);
  }
}
