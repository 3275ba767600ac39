/**
 Pending decisions as the focus deck orders them
 (packages/focus-interactive/src/contract.ts): one per key, first occurrence wins,
 most urgent first.  Locale comparison is modelled as comparison by code point.
 */
module FocusDeck {
  import opened Common
  import opened Sorting

  datatype Channel = Advise | Decide | Alert

  /** `body` stands for the parts of a decision that neither ordering nor
      de-duplication looks at. */
  datatype Decision = Decision(key: string, channel: Option<Channel>, createdAt: string, body: string)

  function ChannelRank(channel: Option<Channel>): nat {
    match channel
    case Some(Alert) => 0
    case Some(Decide) => 1
    case Some(Advise) => 2
    case None => 3
  }

  /** Zero, negative or positive as `localeCompare` and the ranks say. */
  function CompareText(a: string, b: string): int {
    if a == b then 0 else if StringLe(a, b) then -1 else 1
  }

  function Compare(a: Decision, b: Decision): int {
    var byChannel := ChannelRank(a.channel) - ChannelRank(b.channel);
    if byChannel != 0 then byChannel
    else
      var byTime := CompareText(a.createdAt, b.createdAt);
      if byTime != 0 then byTime else CompareText(a.key, b.key)
  }

  predicate Before(a: Decision, b: Decision) {
    Compare(a, b) <= 0
  }

  lemma CompareTextIs(a: string, b: string)
    ensures CompareText(a, b) <= 0 <==> StringLe(a, b)
    ensures CompareText(a, b) == -CompareText(b, a)
  {
    StringLeTotal(a, b);
    StringOrder();
  }

  /** `a` is at least as urgent as `b`: alerts come first, then decisions, then advice,
      then what has no channel; in one channel the one that has waited longer, and of
      two from the same moment the one with the smaller key. */
  ghost predicate AsUrgent(a: Decision, b: Decision) {
    && (b.channel == Some(Alert) ==> a.channel == Some(Alert))
    && (b.channel == Some(Decide) ==> a.channel == Some(Alert) || a.channel == Some(Decide))
    && (b.channel == Some(Advise) ==> a.channel != None)
    && (a.channel == b.channel ==> StringLe(a.createdAt, b.createdAt))
    && (a.channel == b.channel && a.createdAt == b.createdAt ==> StringLe(a.key, b.key))
  }

  /** Every card is at least as urgent as all that follow it. */
  ghost predicate MostUrgentFirst(ds: seq<Decision>) {
    forall i, j | 0 <= i < j < |ds| :: AsUrgent(ds[i], ds[j])
  }

  lemma BeforeIsUrgency()
    ensures forall a, b :: Before(a, b) <==> AsUrgent(a, b)
    ensures forall ds :: SortedBy(Before, ds) <==> MostUrgentFirst(ds)
  {
    hide StringLe;
    forall a: Decision, b: Decision
      ensures Before(a, b) <==> AsUrgent(a, b)
    {
      CompareTextIs(a.createdAt, b.createdAt);
      CompareTextIs(a.key, b.key);
    }
  }

  /** The comparison ranks by urgency, and it is a total order: it never contradicts
      itself and calls only decisions of one key equal. */
  lemma DecisionOrder()
    ensures TotalPreorder(Before)
    ensures forall a, b :: Compare(a, b) <= 0 <==> AsUrgent(a, b)
    ensures forall a, b :: Compare(a, b) == -Compare(b, a)
    ensures forall a, b :: Before(a, b) && Before(b, a) ==> a.key == b.key
  {
    hide StringLe, AsUrgent;
    BeforeIsUrgency();
    forall a: Decision, b: Decision
      ensures Compare(a, b) == -Compare(b, a)
      ensures Before(a, b) || Before(b, a)
      ensures Before(a, b) && Before(b, a) ==> a.key == b.key
    {
      CompareTextIs(a.createdAt, b.createdAt);
      CompareTextIs(a.key, b.key);
    }
    forall a: Decision, b: Decision, c: Decision | Before(a, b) && Before(b, c)
      ensures Before(a, c)
    {
      BeforeTransitive(a, b, c);
    }
  }

  lemma BeforeTransitive(a: Decision, b: Decision, c: Decision)
    requires Before(a, b) && Before(b, c)
    ensures Before(a, c)
  {
    hide StringLe, CompareText;
    CompareTextIs(a.createdAt, b.createdAt);
    CompareTextIs(b.createdAt, c.createdAt);
    CompareTextIs(a.createdAt, c.createdAt);
    CompareTextIs(a.key, b.key);
    CompareTextIs(b.key, c.key);
    CompareTextIs(a.key, c.key);
    TextOrderChains(a.createdAt, b.createdAt, c.createdAt);
    TextOrderChains(a.key, b.key, c.key);
  }

  lemma TextOrderChains(a: string, b: string, c: string)
    ensures CompareText(a, b) <= 0 && CompareText(b, c) <= 0 ==> CompareText(a, c) <= 0
    ensures CompareText(a, b) <= 0 && CompareText(b, c) <= 0 && CompareText(a, c) == 0 ==>
              CompareText(a, b) == 0 && CompareText(b, c) == 0
    ensures CompareText(a, b) == 0 <==> a == b
  {
    hide StringLe;
    CompareTextIs(a, b);
    CompareTextIs(b, c);
    CompareTextIs(a, c);
    StringOrder();
    StringLeTotal(a, b);
    StringLeTotal(b, c);
  }

  // ----- one decision per key -----

  predicate HasKey(ds: seq<Decision>, key: string) {
    exists i | 0 <= i < |ds| :: ds[i].key == key
  }

  function Dedup(ds: seq<Decision>): seq<Decision> {
    if ds == [] then []
    else
      var before, d := Dedup(ds[..|ds| - 1]), ds[|ds| - 1];
      if HasKey(before, d.key) then before else before + [d]
  }

  function Aggregate(ds: seq<Decision>): seq<Decision> {
    Sort(Before, Dedup(ds))
  }

  method AggregatePendingDecisions(ds: seq<Decision>) returns (r: seq<Decision>)
    ensures r == Aggregate(ds)
  {
    var order: seq<Decision> := [];
    var keys: set<string> := {};
    for i := 0 to |ds|
      invariant order == Dedup(ds[..i])
      invariant forall k :: k in keys <==> HasKey(order, k)
    {
      assert ds[..i + 1][..i] == ds[..i];
      if ds[i].key !in keys {
        KeyStep(order, ds[i]);
        order, keys := order + [ds[i]], keys + {ds[i].key};
      }
    }
    assert ds[..|ds|] == ds;
    return Sort(Before, order);
  }

  lemma KeyStep(ds: seq<Decision>, d: Decision)
    ensures forall k :: HasKey(ds + [d], k) <==> HasKey(ds, k) || k == d.key
  {
    forall k
      ensures HasKey(ds + [d], k) <==> HasKey(ds, k) || k == d.key
    {
      if HasKey(ds, k) {
        var i :| 0 <= i < |ds| && ds[i].key == k;
        assert (ds + [d])[i] == ds[i];
      }
      assert (ds + [d])[|ds|] == d;
    }
  }

  /** `d` is the first decision of its key. */
  ghost predicate FirstIn(ds: seq<Decision>, d: Decision) {
    exists i | 0 <= i < |ds| :: ds[i] == d && forall j | 0 <= j < i :: ds[j].key != d.key
  }

  ghost predicate DistinctKeys(ds: seq<Decision>) {
    forall i, j | 0 <= i < j < |ds| :: ds[i].key != ds[j].key
  }

  lemma FirstInStep(ds: seq<Decision>, x: Decision, d: Decision)
    ensures FirstIn(ds + [x], d) <==> FirstIn(ds, d) || (x == d && !HasKey(ds, d.key))
  {
    var s := ds + [x];
    assert forall i | 0 <= i < |ds| :: s[i] == ds[i];
    if FirstIn(ds, d) {
      var i :| 0 <= i < |ds| && ds[i] == d && forall j | 0 <= j < i :: ds[j].key != d.key;
      assert s[i] == d;
    }
    if x == d && !HasKey(ds, d.key) {
      assert s[|ds|] == d;
    }
  }

  lemma {:induction false} DedupFacts(ds: seq<Decision>)
    ensures DistinctKeys(Dedup(ds))
    ensures forall k :: HasKey(Dedup(ds), k) <==> HasKey(ds, k)
    ensures forall d :: d in Dedup(ds) <==> FirstIn(ds, d)
  {
    hide HasKey, FirstIn;
    if ds == [] {
      NothingIn();
    } else {
      var n := |ds| - 1;
      DedupFacts(ds[..n]);
      assert ds == ds[..n] + [ds[n]];
      KeyStep(ds[..n], ds[n]);
      KeyStep(Dedup(ds[..n]), ds[n]);
      forall d
        ensures FirstIn(ds, d) <==> FirstIn(ds[..n], d) || (ds[n] == d && !HasKey(ds[..n], d.key))
      {
        FirstInStep(ds[..n], ds[n], d);
      }
      AbsentKey(Dedup(ds[..n]), ds[n].key);
    }
  }

  lemma NothingIn()
    ensures forall k :: !HasKey([], k)
    ensures forall d :: !FirstIn([], d)
  {
  }

  lemma AbsentKey(ds: seq<Decision>, k: string)
    ensures !HasKey(ds, k) <==> forall i | 0 <= i < |ds| :: ds[i].key != k
  {
  }

  /** The deck shows exactly the first decision of each key, most urgent first. */
  lemma AggregateMeans(ds: seq<Decision>)
    ensures MostUrgentFirst(Aggregate(ds))
    ensures DistinctKeys(Aggregate(ds))
    ensures forall d :: d in Aggregate(ds) <==> FirstIn(ds, d)
  {
    hide Before, FirstIn, Dedup, MostUrgentFirst;
    DecisionOrder();
    BeforeIsUrgency();
    DedupFacts(ds);
    SortFacts(Before, Dedup(ds));
    forall d
      ensures d in Aggregate(ds) <==> d in Dedup(ds)
    {
      SortKeepsMembers(Before, Dedup(ds), d);
    }
    DistinctUnderSorting(Dedup(ds));
  }

  lemma {:induction false} DistinctUnderSorting(ds: seq<Decision>)
    requires DistinctKeys(ds)
    ensures DistinctKeys(Sort(Before, ds))
  {
    hide Before;
    if ds != [] {
      DistinctUnderSorting(ds[1..]);
      forall d | d in Sort(Before, ds[1..])
        ensures d.key != ds[0].key
      {
        SortKeepsMembers(Before, ds[1..], d);
      }
      DistinctUnderInsert(ds[0], Sort(Before, ds[1..]));
    }
  }

  lemma {:induction false} DistinctUnderInsert(x: Decision, s: seq<Decision>)
    requires DistinctKeys(s) && forall d | d in s :: d.key != x.key
    ensures DistinctKeys(Insert(Before, x, s))
  {
    hide Before;
    if s != [] && !Before(x, s[0]) {
      DistinctUnderInsert(x, s[1..]);
      InsertKeeps(Before, x, s[1..]);
      var r := Insert(Before, x, s[1..]);
      forall i | 0 <= i < |r|
        ensures r[i].key != s[0].key
      {
        assert r[i] in r;
      }
    }
  }

  /** Two inputs with the same first decisions give the same deck. */
  lemma SameFirstsSameDeck(a: seq<Decision>, b: seq<Decision>)
    requires forall d :: FirstIn(a, d) <==> FirstIn(b, d)
    ensures Aggregate(a) == Aggregate(b)
  {
    hide Before, FirstIn, Dedup;
    DecisionOrder();
    DedupFacts(a);
    DedupFacts(b);
    DistinctKeysNoDuplicates(Dedup(a));
    DistinctKeysNoDuplicates(Dedup(b));
    SameElementsSameMultiset(Dedup(a), Dedup(b));
    SortForgetsOrder(Before, Dedup(a), Dedup(b));
  }

  lemma DistinctKeysNoDuplicates(ds: seq<Decision>)
    requires DistinctKeys(ds)
    ensures NoDuplicates(ds)
    ensures Separates(Before, ds)
  {
    hide Before;
    DecisionOrder();
    forall x, y | x in ds && y in ds && Before(x, y) && Before(y, x)
      ensures x == y
    {
      var i :| 0 <= i < |ds| && ds[i] == x;
      var j :| 0 <= j < |ds| && ds[j] == y;
      assert x.key == y.key;
    }
  }

  /** The deck is the only arrangement that puts the most urgent first, has one decision
      per key and shows the first of each. */
  lemma DeckIsUnique(ds: seq<Decision>, r: seq<Decision>)
    requires MostUrgentFirst(r) && DistinctKeys(r) && forall d :: d in r <==> FirstIn(ds, d)
    ensures r == Aggregate(ds)
  {
    hide Before, FirstIn, Dedup, MostUrgentFirst;
    BeforeIsUrgency();
    DedupFacts(ds);
    DistinctKeysNoDuplicates(Dedup(ds));
    DistinctKeysNoDuplicates(r);
    SameElementsSameMultiset(r, Dedup(ds));
    DecisionOrder();
    SortFacts(Before, Dedup(ds));
    SortedIsUnique(Before, r, Sort(Before, Dedup(ds)));
  }

  lemma FirstInDistinct(ds: seq<Decision>, d: Decision)
    requires DistinctKeys(ds)
    ensures FirstIn(ds, d) <==> d in ds
  {
    if d in ds {
      var i :| 0 <= i < |ds| && ds[i] == d;
      assert forall j | 0 <= j < i :: ds[j].key != d.key;
    }
  }

  /** Aggregating a deck again changes nothing. */
  lemma AggregateIdempotent(ds: seq<Decision>)
    ensures Aggregate(Aggregate(ds)) == Aggregate(ds)
  {
    hide Before, Dedup, FirstIn, Aggregate, MostUrgentFirst;
    AggregateMeans(ds);
    forall d
      ensures d in Aggregate(ds) <==> FirstIn(Aggregate(ds), d)
    {
      FirstInDistinct(Aggregate(ds), d);
    }
    DeckIsUnique(Aggregate(ds), Aggregate(ds));
  }

  // ----- stacked lanes -----

  function Concat(lanes: seq<seq<Decision>>): seq<Decision> {
    if lanes == [] then [] else Concat(lanes[..|lanes| - 1]) + lanes[|lanes| - 1]
  }

  function EachAggregated(lanes: seq<seq<Decision>>): seq<seq<Decision>> {
    if lanes == [] then [] else EachAggregated(lanes[..|lanes| - 1]) + [Aggregate(lanes[|lanes| - 1])]
  }

  /** `d` is at `i`, and none before it has its key. */
  predicate FirstAt(ds: seq<Decision>, i: nat, d: Decision) {
    i < |ds| && ds[i] == d && forall j | 0 <= j < i :: ds[j].key != d.key
  }

  lemma FirstInA(a: seq<Decision>, b: seq<Decision>, i: nat, d: Decision)
    requires i < |a|
    ensures FirstAt(a + b, i, d) <==> FirstAt(a, i, d)
  {
    var s := a + b;
    forall j | 0 <= j < |a|
      ensures s[j] == a[j]
    {
    }
  }

  lemma FirstInB(a: seq<Decision>, b: seq<Decision>, i: nat, d: Decision)
    ensures FirstAt(a + b, |a| + i, d) <==> FirstAt(b, i, d) && !HasKey(a, d.key)
  {
    var s := a + b;
    forall j | 0 <= j < |b|
      ensures s[|a| + j] == b[j]
    {
    }
    forall j | 0 <= j < |a|
      ensures s[j] == a[j]
    {
    }
    if FirstAt(s, |a| + i, d) {
      forall j | 0 <= j < i
        ensures b[j].key != d.key
      {
        assert s[|a| + j] == b[j];
      }
    }
    if FirstAt(b, i, d) && !HasKey(a, d.key) {
      forall j | 0 <= j < |a| + i
        ensures s[j].key != d.key
      {
        assert j >= |a| ==> s[j] == b[j - |a|];
      }
    }
  }

  lemma FirstInConcat(a: seq<Decision>, b: seq<Decision>, d: Decision)
    ensures FirstIn(a + b, d) <==> FirstIn(a, d) || (FirstIn(b, d) && !HasKey(a, d.key))
  {
    hide FirstAt, HasKey;
    FirstInIs(a, d);
    FirstInIs(b, d);
    FirstInIs(a + b, d);
    if i: nat :| FirstAt(a + b, i, d) {
      if i < |a| {
        FirstInA(a, b, i, d);
      } else {
        FirstInB(a, b, i - |a|, d);
      }
    }
    if i: nat :| FirstAt(a, i, d) {
      FirstInRange(a, i, d);
      FirstInA(a, b, i, d);
    }
    if i: nat :| FirstAt(b, i, d) {
      FirstInB(a, b, i, d);
    }
  }

  lemma FirstInIs(ds: seq<Decision>, d: Decision)
    ensures FirstIn(ds, d) <==> exists i: nat :: FirstAt(ds, i, d)
  {
    if FirstIn(ds, d) {
      var i :| 0 <= i < |ds| && ds[i] == d && forall j | 0 <= j < i :: ds[j].key != d.key;
      assert FirstAt(ds, i, d);
    }
  }

  lemma FirstInRange(ds: seq<Decision>, i: nat, d: Decision)
    requires FirstAt(ds, i, d)
    ensures i < |ds|
  {
  }

  lemma HasKeyConcat(a: seq<Decision>, b: seq<Decision>, k: string)
    ensures HasKey(a + b, k) <==> HasKey(a, k) || HasKey(b, k)
  {
    var s := a + b;
    if HasKey(a, k) {
      var i :| 0 <= i < |a| && a[i].key == k;
      assert s[i] == a[i];
    }
    if HasKey(b, k) {
      var i :| 0 <= i < |b| && b[i].key == k;
      assert s[|a| + i] == b[i];
    }
  }

  lemma KeysOfFirsts(ds: seq<Decision>, k: string)
    ensures HasKey(ds, k) <==> exists d :: FirstIn(ds, d) && d.key == k
  {
    hide FirstIn;
    DedupFacts(ds);
    if HasKey(ds, k) {
      var i :| 0 <= i < |Dedup(ds)| && Dedup(ds)[i].key == k;
      assert Dedup(ds)[i] in Dedup(ds);
    }
    if d :| FirstIn(ds, d) && d.key == k {
      assert d in Dedup(ds);
    }
  }

  lemma AggregateKeepsFirsts(ds: seq<Decision>)
    ensures forall d :: FirstIn(Aggregate(ds), d) <==> FirstIn(ds, d)
    ensures forall k :: HasKey(Aggregate(ds), k) <==> HasKey(ds, k)
  {
    hide FirstIn, HasKey, Aggregate;
    AggregateMeans(ds);
    forall d
      ensures FirstIn(Aggregate(ds), d) <==> FirstIn(ds, d)
    {
      FirstInDistinct(Aggregate(ds), d);
    }
    forall k
      ensures HasKey(Aggregate(ds), k) <==> HasKey(ds, k)
    {
      KeysOfFirsts(ds, k);
      KeysOfFirsts(Aggregate(ds), k);
    }
  }

  lemma {:induction false} LanesKeepFirsts(lanes: seq<seq<Decision>>)
    ensures forall d :: FirstIn(Concat(EachAggregated(lanes)), d) <==> FirstIn(Concat(lanes), d)
    ensures forall k :: HasKey(Concat(EachAggregated(lanes)), k) <==> HasKey(Concat(lanes), k)
  {
    hide FirstIn, HasKey, Aggregate;
    if lanes != [] {
      var n := |lanes| - 1;
      LanesKeepFirsts(lanes[..n]);
      AggregateKeepsFirsts(lanes[n]);
      var a, b := Concat(lanes[..n]), Concat(EachAggregated(lanes[..n]));
      assert EachAggregated(lanes)[..n] == EachAggregated(lanes[..n]) by {
        EachAggregatedLength(lanes[..n]);
      }
      assert Concat(EachAggregated(lanes)) == b + Aggregate(lanes[n]) by {
        EachAggregatedLength(lanes[..n]);
      }
      forall d
        ensures FirstIn(b + Aggregate(lanes[n]), d) <==> FirstIn(a + lanes[n], d)
      {
        FirstInConcat(a, lanes[n], d);
        FirstInConcat(b, Aggregate(lanes[n]), d);
      }
      forall k
        ensures HasKey(b + Aggregate(lanes[n]), k) <==> HasKey(a + lanes[n], k)
      {
        HasKeyConcat(a, lanes[n], k);
        HasKeyConcat(b, Aggregate(lanes[n]), k);
      }
    }
  }

  lemma {:induction false} EachAggregatedLength(lanes: seq<seq<Decision>>)
    ensures |EachAggregated(lanes)| == |lanes|
    ensures forall i | 0 <= i < |lanes| :: EachAggregated(lanes)[i] == Aggregate(lanes[i])
  {
    hide Aggregate;
    if lanes != [] {
      EachAggregatedLength(lanes[..|lanes| - 1]);
    }
  }

  /** Aggregating lanes that are aggregated already equals aggregating the raw decisions. */
  lemma LanesCompose(lanes: seq<seq<Decision>>)
    ensures Aggregate(Concat(EachAggregated(lanes))) == Aggregate(Concat(lanes))
  {
    hide FirstIn, Aggregate, Concat, EachAggregated;
    LanesKeepFirsts(lanes);
    SameFirstsSameDeck(Concat(EachAggregated(lanes)), Concat(lanes));
  }
}
