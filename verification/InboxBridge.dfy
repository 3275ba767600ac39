/**
 The inbox bridge between the local store and the Pods
 (packages/h2a-runtime/src/h2a-bridge.ts): a plan that only copies, carried out Pod
 by Pod.  Files are `directory/name` entries; the transport may fail on any of them.
 */
module InboxBridge {
  import opened Sorting

  type Data = string
  type Files = map<string, Data>

  // ----- entry names -----

  predicate StartChar(c: char) {
    'a' <= c <= 'z' || 'A' <= c <= 'Z' || '0' <= c <= '9'
  }

  predicate NameChar(c: char) {
    StartChar(c) || c == '.' || c == '_' || c == '-'
  }

  predicate SafeName(s: string) {
    s != "" && StartChar(s[0]) && forall i | 0 <= i < |s| :: NameChar(s[i])
  }

  /** Index of the first slash, the length when there is none. */
  function Slash(s: string): (k: nat)
    ensures k <= |s| && (k < |s| ==> s[k] == '/') && forall i | 0 <= i < k :: s[i] != '/'
  {
    if s == "" || s[0] == '/' then 0 else Slash(s[1..]) + 1
  }

  datatype File = File(dir: string, name: string)

  function SplitEntry(e: string): File {
    var k := Slash(e);
    File(e[..k], if k < |e| then e[k + 1..] else e)
  }

  /** The names that may appear in a command: `dir/name.json`, both parts tame. */
  predicate SafeEntry(e: string) {
    var f := SplitEntry(e);
    && Slash(e) < |e| && SafeName(f.dir)
    && |f.name| > 5 && f.name[|f.name| - 5..] == ".json" && SafeName(f.name[..|f.name| - 5])
  }

  function DirOf(e: string): string {
    SplitEntry(e).dir
  }

  // ----- the plan -----

  datatype Plan = Plan(pull: seq<string>, push: seq<string>, skipped: nat, ignored: nat)

  function SafeOnly(entries: seq<string>): seq<string> {
    Distinct(Filter(SafeEntry, entries))
  }

  predicate Outbound(dirs: set<string>, e: string) {
    DirOf(e) !in dirs
  }

  /** The entries of one side that go out to the other: in scope and not there yet. */
  function Missing(side: seq<string>, other: seq<string>, dirs: set<string>, outbound: bool): seq<string> {
    Filter((e: string) => (Outbound(dirs, e) <==> outbound) && e !in other, side)
  }

  function Present(side: seq<string>, other: seq<string>, dirs: set<string>, outbound: bool): seq<string> {
    Filter((e: string) => (Outbound(dirs, e) <==> outbound) && e in other, side)
  }

  function InScope(side: seq<string>, dirs: set<string>, outbound: bool): seq<string> {
    Filter((e: string) => Outbound(dirs, e) <==> outbound, side)
  }

  function Unsafe(entries: seq<string>): nat {
    |Filter((e: string) => !SafeEntry(e), entries)|
  }

  function PlanOf(podFiles: seq<string>, localFiles: seq<string>, dirs: set<string>): Plan {
    var pod, local := SafeOnly(podFiles), SafeOnly(localFiles);
    Plan(Missing(pod, local, dirs, true), Missing(local, pod, dirs, false),
         |Present(pod, local, dirs, true)| + |Present(local, pod, dirs, false)|,
         Unsafe(podFiles) + Unsafe(localFiles))
  }

  method KeepSafe(entries: seq<string>) returns (safe: seq<string>, ignored: nat)
    ensures safe == SafeOnly(entries) && ignored == Unsafe(entries)
  {
    hide SafeEntry, Distinct;
    assert Distinct<string>([]) == [] by {
      NoEntries();
    }
    safe, ignored := [], 0;
    ghost var bad := (e: string) => !SafeEntry(e);
    for i := 0 to |entries|
      invariant safe == Distinct(Filter(SafeEntry, entries[..i]))
      invariant ignored == |Filter(bad, entries[..i])|
    {
      assert entries[..i + 1][..i] == entries[..i];
      if !SafeEntry(entries[i]) {
        ignored := ignored + 1;
        assert Filter(SafeEntry, entries[..i + 1]) == Filter(SafeEntry, entries[..i]);
        continue;
      }
      assert Filter(SafeEntry, entries[..i + 1]) == Filter(SafeEntry, entries[..i]) + [entries[i]];
      DistinctSnoc(Filter(SafeEntry, entries[..i]), entries[i]);
      if entries[i] !in safe {
        safe := safe + [entries[i]];
      }
    }
    assert entries[..|entries|] == entries;
  }

  lemma NoEntries()
    ensures Distinct<string>([]) == []
  {
  }

  lemma DistinctSnoc(s: seq<string>, x: string)
    ensures Distinct(s + [x]) == if x in Distinct(s) then Distinct(s) else Distinct(s) + [x]
  {
    assert (s + [x])[..|s|] == s;
  }

  /** One of the two loops over a listing. */
  method Compare(side: seq<string>, other: seq<string>, dirs: set<string>, outbound: bool)
    returns (missing: seq<string>, present: nat)
    ensures missing == Missing(side, other, dirs, outbound)
    ensures present == |Present(side, other, dirs, outbound)|
  {
    hide Outbound;
    missing, present := [], 0;
    ghost var absent := (e: string) => (Outbound(dirs, e) <==> outbound) && e !in other;
    ghost var there := (e: string) => (Outbound(dirs, e) <==> outbound) && e in other;
    for i := 0 to |side|
      invariant missing == Filter(absent, side[..i]) && present == |Filter(there, side[..i])|
    {
      assert side[..i + 1][..i] == side[..i];
      if Outbound(dirs, side[i]) != outbound {
        continue;
      }
      if side[i] in other {
        present := present + 1;
      } else {
        missing := missing + [side[i]];
      }
    }
    assert side[..|side|] == side;
  }

  method PlanBridge(podFiles: seq<string>, localFiles: seq<string>, dirs: set<string>) returns (plan: Plan)
    ensures plan == PlanOf(podFiles, localFiles, dirs)
  {
    var pod, podIgnored := KeepSafe(podFiles);
    var local, localIgnored := KeepSafe(localFiles);
    var pull, skippedPod := Compare(pod, local, dirs, true);
    var push, skippedLocal := Compare(local, pod, dirs, false);
    return Plan(pull, push, skippedPod + skippedLocal, podIgnored + localIgnored);
  }

  lemma SafeOnlyFacts(entries: seq<string>)
    ensures NoDuplicates(SafeOnly(entries))
    ensures forall e :: e in SafeOnly(entries) <==> e in entries && SafeEntry(e)
  {
    hide SafeEntry;
    DistinctFacts(Filter(SafeEntry, entries));
    FilterMembers(SafeEntry, entries);
  }

  /** A letter or digit, and then letters, digits, dots, underscores and dashes. */
  predicate Tame(s: string) {
    && s != "" && ('a' <= s[0] <= 'z' || 'A' <= s[0] <= 'Z' || '0' <= s[0] <= '9')
    && forall i | 0 <= i < |s| ::
         'a' <= s[i] <= 'z' || 'A' <= s[i] <= 'Z' || '0' <= s[i] <= '9' || s[i] == '.' || s[i] == '_' || s[i] == '-'
  }

  /** The entry is the file `stem.json` of the directory `dir`, both names tame. */
  predicate IsEntry(e: string, dir: string, stem: string) {
    e == dir + ("/" + (stem + ".json")) && Tame(dir) && Tame(stem)
  }

  lemma {:induction false} SlashAt(dir: string, x: string)
    requires forall i | 0 <= i < |dir| :: dir[i] != '/'
    ensures Slash(dir + ("/" + x)) == |dir|
  {
    if dir != "" {
      assert (dir + ("/" + x))[1..] == dir[1..] + ("/" + x);
      SlashAt(dir[1..], x);
    }
  }

  lemma EntryParts(e: string, dir: string, stem: string)
    requires IsEntry(e, dir, stem)
    ensures SafeEntry(e) && DirOf(e) == dir
  {
    hide Slash;
    var name := stem + ".json";
    TameHasNoSlash(dir);
    SlashAt(dir, name);
    assert e[..|dir|] == dir && e[|dir| + 1..] == name;
    assert name[|name| - 5..] == ".json" && name[..|name| - 5] == stem;
    TameIsSafe(dir);
    TameIsSafe(stem);
  }

  lemma TameHasNoSlash(s: string)
    requires Tame(s)
    ensures forall i | 0 <= i < |s| :: s[i] != '/'
  {
  }

  lemma TameIsSafe(s: string)
    ensures Tame(s) <==> SafeName(s)
  {
  }

  lemma SafeIsEntry(e: string)
    requires SafeEntry(e)
    ensures exists stem :: IsEntry(e, DirOf(e), stem)
  {
    var f := SplitEntry(e);
    var stem := f.name[..|f.name| - 5];
    assert e == f.dir + ("/" + (stem + ".json"));
    assert IsEntry(e, DirOf(e), stem);
  }

  /** A well-named entry whose directory is, or is not, one of the Pod's own. */
  ghost predicate Named(e: string, dirs: set<string>, own: bool) {
    exists dir, stem :: IsEntry(e, dir, stem) && (dir in dirs <==> own)
  }

  lemma NamedIff(e: string, dirs: set<string>, own: bool)
    ensures Named(e, dirs, own) <==> SafeEntry(e) && (Outbound(dirs, e) <==> !own)
  {
    hide SafeEntry, IsEntry, DirOf;
    forall dir, stem | IsEntry(e, dir, stem)
      ensures SafeEntry(e) && DirOf(e) == dir
    {
      EntryParts(e, dir, stem);
    }
    if SafeEntry(e) {
      SafeIsEntry(e);
    }
  }

  /** Pulled are, once each, the Pod's well-named files outside its own directories that
      the local store lacks; pushed are the local ones of its directories that it lacks. */
  lemma PlanMeans(podFiles: seq<string>, localFiles: seq<string>, dirs: set<string>)
    ensures var plan := PlanOf(podFiles, localFiles, dirs);
            && (forall e :: e in plan.pull <==> e in podFiles && e !in localFiles && Named(e, dirs, false))
            && (forall e :: e in plan.push <==> e in localFiles && e !in podFiles && Named(e, dirs, true))
            && NoDuplicates(plan.pull) && NoDuplicates(plan.push)
  {
    hide SafeEntry, Outbound, SafeOnly, Filter, Named, NoDuplicates;
    SafeOnlyFacts(podFiles);
    SafeOnlyFacts(localFiles);
    var pod, local := SafeOnly(podFiles), SafeOnly(localFiles);
    var pulled := (e: string) => (Outbound(dirs, e) <==> true) && e !in local;
    var pushed := (e: string) => (Outbound(dirs, e) <==> false) && e !in pod;
    FilterMembers(pulled, pod);
    FilterMembers(pushed, local);
    FilterStaysDistinct(pulled, pod);
    FilterStaysDistinct(pushed, local);
    forall e
      ensures Named(e, dirs, false) <==> SafeEntry(e) && Outbound(dirs, e)
      ensures Named(e, dirs, true) <==> SafeEntry(e) && !Outbound(dirs, e)
    {
      NamedIff(e, dirs, false);
      NamedIff(e, dirs, true);
    }
  }

  lemma {:induction false} FilterStaysDistinct(p: string -> bool, s: seq<string>)
    requires NoDuplicates(s)
    ensures NoDuplicates(Filter(p, s))
  {
    if s != [] {
      FilterStaysDistinct(p, s[..|s| - 1]);
      FilterMembers(p, s[..|s| - 1]);
    }
  }

  lemma {:induction false} MissingOrPresent(side: seq<string>, other: seq<string>, dirs: set<string>, outbound: bool)
    ensures |Missing(side, other, dirs, outbound)| + |Present(side, other, dirs, outbound)| ==
            |InScope(side, dirs, outbound)|
  {
    hide Outbound;
    if side != [] {
      MissingOrPresent(side[..|side| - 1], other, dirs, outbound);
    }
  }

  /** Every safe in-scope entry of either side is counted once: to be copied, or skipped. */
  lemma PlanAccountsForAll(podFiles: seq<string>, localFiles: seq<string>, dirs: set<string>)
    ensures var plan := PlanOf(podFiles, localFiles, dirs);
            |plan.pull| + |plan.push| + plan.skipped ==
            |InScope(SafeOnly(podFiles), dirs, true)| + |InScope(SafeOnly(localFiles), dirs, false)|
  {
    hide SafeOnly, Filter;
    MissingOrPresent(SafeOnly(podFiles), SafeOnly(localFiles), dirs, true);
    MissingOrPresent(SafeOnly(localFiles), SafeOnly(podFiles), dirs, false);
  }

  // ----- carrying out a plan -----

  /** Copy the listed files; one that is there already is never overwritten, and the
      transport may fail. */
  function Copied(from: Files, to: Files, entries: seq<string>, broken: set<string>): Files {
    if entries == [] then to
    else
      var before, e := Copied(from, to, entries[..|entries| - 1], broken), entries[|entries| - 1];
      if e in before || e !in from || e in broken then before else before[e := from[e]]
  }

  datatype Counts = Counts(copied: nat, skipped: nat, failed: nat)

  method CopyAll(from: Files, to: Files, entries: seq<string>, broken: set<string>)
    returns (r: Files, counts: Counts)
    ensures r == Copied(from, to, entries, broken)
    ensures counts.copied + counts.skipped + counts.failed == |entries|
  {
    r := to;
    var copied, skipped, failed := 0, 0, 0;
    for i := 0 to |entries|
      invariant r == Copied(from, to, entries[..i], broken)
      invariant copied + skipped + failed == i
    {
      assert entries[..i + 1][..i] == entries[..i];
      var e := entries[i];
      if e in r {
        skipped := skipped + 1;
        continue;
      }
      if e !in from || e in broken {
        failed := failed + 1;
        continue;
      }
      r := r[e := from[e]];
      copied := copied + 1;
    }
    assert entries[..|entries|] == entries;
    return r, Counts(copied, skipped, failed);
  }

  lemma {:induction false} CopiedFacts(from: Files, to: Files, entries: seq<string>, broken: set<string>)
    ensures var r := Copied(from, to, entries, broken);
            && (forall e | e in to :: e in r && r[e] == to[e])
            && (forall e | e in r && e !in to :: e in entries && e in from && e !in broken && r[e] == from[e])
            && (forall e | e in entries && e in from && e !in broken :: e in r)
  {
    if entries != [] {
      CopiedFacts(from, to, entries[..|entries| - 1], broken);
      assert entries == entries[..|entries| - 1] + [entries[|entries| - 1]];
    }
  }

  // ----- rounds over one local store and any number of Pods -----

  datatype Pod = Pod(files: Files, dirs: set<string>)
  datatype World = World(local: Files, pods: seq<Pod>)

  /** The entries to copy each way between one Pod and the local store. */
  function ToPull(p: Pod, local: Files): set<string> {
    set e | e in p.files && SafeEntry(e) && Outbound(p.dirs, e) && e !in local
  }

  function ToPush(p: Pod, local: Files): set<string> {
    set e | e in local && SafeEntry(e) && !Outbound(p.dirs, e) && e !in p.files
  }

  function Merge(from: Files, to: Files, entries: set<string>, broken: set<string>): Files {
    map e | e in to.Keys + entries && (e in to || (e in from && e !in broken)) :: if e in to then to[e] else from[e]
  }

  /** Listings show each file of a store once, in some order. */
  ghost predicate Lists(listing: seq<string>, files: Files) {
    forall e :: e in listing <==> e in files
  }

  /** Carrying out the plan of any two listings merges the planned files, in whatever
      order the listings show them. */
  lemma PassIsMerge(p: Pod, local: Files, podFiles: seq<string>, localFiles: seq<string>, broken: set<string>)
    requires Lists(podFiles, p.files) && Lists(localFiles, local)
    ensures var plan := PlanOf(podFiles, localFiles, p.dirs);
            && Copied(p.files, local, plan.pull, broken) == Merge(p.files, local, ToPull(p, local), broken)
            && Copied(local, p.files, plan.push, broken) == Merge(local, p.files, ToPush(p, local), broken)
  {
    hide SafeEntry, Outbound, PlanOf;
    var plan := PlanOf(podFiles, localFiles, p.dirs);
    PlanMeans(podFiles, localFiles, p.dirs);
    forall e
      ensures Named(e, p.dirs, false) <==> SafeEntry(e) && Outbound(p.dirs, e)
      ensures Named(e, p.dirs, true) <==> SafeEntry(e) && !Outbound(p.dirs, e)
    {
      NamedIff(e, p.dirs, false);
      NamedIff(e, p.dirs, true);
    }
    CopiedFacts(p.files, local, plan.pull, broken);
    CopiedFacts(local, p.files, plan.push, broken);
    SameFiles(Copied(p.files, local, plan.pull, broken), Merge(p.files, local, ToPull(p, local), broken));
    SameFiles(Copied(local, p.files, plan.push, broken), Merge(local, p.files, ToPush(p, local), broken));
  }

  lemma SameFiles(a: Files, b: Files)
    requires forall e :: (e in a <==> e in b) && (e in a ==> a[e] == b[e])
    ensures a == b
  {
  }

  function PassPod(w: World, i: nat, broken: set<string>): World
    requires i < |w.pods|
  {
    var p := w.pods[i];
    World(Merge(p.files, w.local, ToPull(p, w.local), broken),
          w.pods[i := p.(files := Merge(w.local, p.files, ToPush(p, w.local), broken))])
  }

  /** Copying from a store that has only gained files since the plan was made copies the same. */
  lemma {:induction false} CopiedFromLater(early: Files, late: Files, to: Files, entries: seq<string>,
                                          broken: set<string>)
    requires forall e | e in entries :: e in early && e in late && late[e] == early[e]
    ensures Copied(late, to, entries, broken) == Copied(early, to, entries, broken)
  {
    if entries != [] {
      CopiedFromLater(early, late, to, entries[..|entries| - 1], broken);
      assert entries[|entries| - 1] in entries;
    }
  }

  /** One pass over one Pod: list, plan, pull, push.  It computes the merge above and
      accounts for every safe in-scope entry. */
  method BridgeSession(p: Pod, local: Files, podFiles: seq<string>, localFiles: seq<string>, broken: set<string>)
    returns (podAfter: Pod, localAfter: Files, pulled: nat, pushed: nat, skipped: nat, failed: nat)
    requires Lists(podFiles, p.files) && Lists(localFiles, local)
    ensures World(localAfter, [podAfter]) == PassPod(World(local, [p]), 0, broken)
    ensures pulled + pushed + skipped + failed ==
            |InScope(SafeOnly(podFiles), p.dirs, true)| + |InScope(SafeOnly(localFiles), p.dirs, false)|
  {
    hide SafeEntry, Outbound, PlanOf, Merge, ToPull, ToPush, InScope, SafeOnly;
    var plan := PlanBridge(podFiles, localFiles, p.dirs);
    PlanMeans(podFiles, localFiles, p.dirs);
    PlanAccountsForAll(podFiles, localFiles, p.dirs);
    PassIsMerge(p, local, podFiles, localFiles, broken);
    var pulls, pushes: Counts;
    localAfter, pulls := CopyAll(p.files, local, plan.pull, broken);
    CopiedFacts(p.files, local, plan.pull, broken);
    CopiedFromLater(local, localAfter, p.files, plan.push, broken);
    var files: Files;
    files, pushes := CopyAll(localAfter, p.files, plan.push, broken);
    podAfter := p.(files := files);
    assert [p][0 := podAfter] == [podAfter];
    pulled, pushed, failed := pulls.copied, pushes.copied, pulls.failed + pushes.failed;
    skipped := plan.skipped + pulls.skipped + pushes.skipped;
  }

  /** The passes of the first `n` Pods, in order; `broken` names the transfers that fail in each. */
  function Passes(w: World, n: nat, broken: nat -> set<string>): World
    requires n <= |w.pods|
    ensures |Passes(w, n, broken).pods| == |w.pods|
  {
    if n == 0 then w else PassPod(Passes(w, n - 1, broken), n - 1, broken(n - 1))
  }

  function Round(w: World, broken: nat -> set<string>): World {
    Passes(w, |w.pods|, broken)
  }

  /** Everything is where it was, with the contents it had. */
  ghost predicate Kept(w: World, v: World) {
    && |v.pods| == |w.pods|
    && (forall e | e in w.local :: e in v.local && v.local[e] == w.local[e])
    && (forall i | 0 <= i < |w.pods| :: KeptIn(w.pods[i], v.pods[i]))
  }

  ghost predicate KeptIn(p: Pod, q: Pod) {
    q.dirs == p.dirs && forall e | e in p.files :: e in q.files && q.files[e] == p.files[e]
  }

  lemma KeptTransitive(u: World, v: World, w: World)
    requires Kept(u, v) && Kept(v, w)
    ensures Kept(u, w)
  {
    forall i | 0 <= i < |u.pods|
      ensures KeptIn(u.pods[i], w.pods[i])
    {
      assert KeptIn(u.pods[i], v.pods[i]) && KeptIn(v.pods[i], w.pods[i]);
    }
  }

  /** No pass removes or overwrites a file, whatever fails. */
  lemma {:induction false} PassesKeep(w: World, n: nat, broken: nat -> set<string>)
    requires n <= |w.pods|
    ensures Kept(w, Passes(w, n, broken))
  {
    hide Kept, PassPod;
    if n > 0 {
      PassesKeep(w, n - 1, broken);
      PassKeeps(Passes(w, n - 1, broken), n - 1, broken(n - 1));
      KeptTransitive(w, Passes(w, n - 1, broken), Passes(w, n, broken));
    } else {
      KeptAsIs(w);
    }
  }

  lemma KeptAsIs(w: World)
    ensures Kept(w, w)
  {
  }

  lemma PassKeeps(w: World, i: nat, broken: set<string>)
    requires i < |w.pods|
    ensures Kept(w, PassPod(w, i, broken))
  {
    hide SafeEntry, Outbound;
  }

  /** All outbound files of a Pod are local, or all local files for it have arrived. */
  ghost predicate Collected(w: World, i: nat)
    requires i < |w.pods|
  {
    ToPull(w.pods[i], w.local) == {}
  }

  ghost predicate Delivered(w: World, i: nat)
    requires i < |w.pods|
  {
    ToPush(w.pods[i], w.local) == {}
  }

  /** No transfer fails. */
  const NONE: nat -> set<string> := (i: nat) => {}

  /** A pass settles its own Pod and leaves what had been collected from the others collected. */
  lemma PassSettles(w: World, i: nat, broken: set<string>)
    requires i < |w.pods| && broken == {}
    ensures var v := PassPod(w, i, broken);
            && Collected(v, i) && Delivered(v, i)
            && (forall k | 0 <= k < |w.pods| && k != i && Collected(w, k) :: Collected(v, k))
  {
    hide SafeEntry, Outbound;
    var v := PassPod(w, i, broken);
    forall k | 0 <= k < |w.pods| && k != i && Collected(w, k)
      ensures Collected(v, k)
    {
      forall e
        ensures e !in ToPull(v.pods[k], v.local)
      {
        assert e !in ToPull(w.pods[k], w.local);
      }
    }
  }

  lemma {:induction false} FirstRoundCollects(w: World, n: nat)
    requires n <= |w.pods|
    ensures forall k | 0 <= k < n :: Collected(Passes(w, n, NONE), k)
  {
    hide PassPod, Collected;
    if n > 0 {
      FirstRoundCollects(w, n - 1);
      PassSettles(Passes(w, n - 1, NONE), n - 1, NONE(n - 1));
      PassLength(Passes(w, n - 1, NONE), n - 1, NONE(n - 1));
    }
  }

  lemma PassLength(w: World, i: nat, broken: set<string>)
    requires i < |w.pods|
    ensures |PassPod(w, i, broken).pods| == |w.pods|
  {
  }

  /** With everything collected, a pass leaves the local store and the other Pods alone. */
  lemma PassAfterCollection(w: World, i: nat, broken: set<string>)
    requires i < |w.pods| && broken == {} && forall k | 0 <= k < |w.pods| :: Collected(w, k)
    ensures var v := PassPod(w, i, broken);
            && v.local == w.local
            && (forall k | 0 <= k < |w.pods| :: Collected(v, k))
            && Delivered(v, i)
            && (forall k | 0 <= k < |w.pods| && Delivered(w, k) :: Delivered(v, k))
  {
    hide SafeEntry, Outbound;
    PassSettles(w, i, broken);
    assert Collected(w, i);
    var v := PassPod(w, i, broken);
    assert v.local == w.local;
  }

  lemma {:induction false} SecondRoundDelivers(w: World, n: nat)
    requires n <= |w.pods| && forall k | 0 <= k < |w.pods| :: Collected(w, k)
    ensures forall k | 0 <= k < |w.pods| :: Collected(Passes(w, n, NONE), k)
    ensures forall k | 0 <= k < n :: Delivered(Passes(w, n, NONE), k)
  {
    hide PassPod, Collected, Delivered;
    if n > 0 {
      SecondRoundDelivers(w, n - 1);
      PassAfterCollection(Passes(w, n - 1, NONE), n - 1, NONE(n - 1));
      PassLength(Passes(w, n - 1, NONE), n - 1, NONE(n - 1));
    }
  }

  ghost predicate Quiescent(w: World) {
    forall k | 0 <= k < |w.pods| :: Collected(w, k) && Delivered(w, k)
  }

  /** Two full rounds without failures reach a state in which no plan moves anything. */
  lemma TwoRoundsSuffice(w: World)
    ensures Quiescent(Round(Round(w, NONE), NONE))
  {
    hide PassPod, Collected, Delivered;
    FirstRoundCollects(w, |w.pods|);
    SecondRoundDelivers(Round(w, NONE), |w.pods|);
  }

  // ----- when one round is enough -----

  /** The Pod has the entry and sends it out. */
  predicate Emits(p: Pod, e: string) {
    e in p.files && SafeEntry(e) && Outbound(p.dirs, e)
  }

  /** The entry is local, or one of the first `n` Pods sends it out. */
  ghost predicate Reaches(w: World, n: nat, e: string) {
    e in w.local || exists j | 0 <= j < n && j < |w.pods| :: Emits(w.pods[j], e)
  }

  /** A safe entry is addressed to the Pod. */
  predicate AddressedTo(p: Pod, e: string) {
    SafeEntry(e) && !Outbound(p.dirs, e)
  }

  lemma ReachesStep(w: World, n: nat, e: string)
    requires n < |w.pods|
    ensures Reaches(w, n + 1, e) <==> Reaches(w, n, e) || Emits(w.pods[n], e)
  {
    hide Emits;
  }

  lemma PassMoves(w: World, i: nat, broken: set<string>, e: string)
    requires i < |w.pods| && broken == {}
    ensures var v := PassPod(w, i, broken);
            && (e in v.local <==> e in w.local || Emits(w.pods[i], e))
            && (e in v.pods[i].files <==> e in w.pods[i].files || (e in w.local && AddressedTo(w.pods[i], e)))
  {
    hide SafeEntry, Outbound;
  }

  lemma PassFrames(w: World, i: nat, broken: set<string>)
    requires i < |w.pods|
    ensures var v := PassPod(w, i, broken);
            && |v.pods| == |w.pods| && v.pods[i].dirs == w.pods[i].dirs
            && (forall k | 0 <= k < |w.pods| && k != i :: v.pods[k] == w.pods[k])
  {
  }

  /** After `n` passes an entry is local iff it was or one of these Pods sends it out. */
  lemma {:induction false} LocalAfter(w: World, n: nat, e: string)
    requires n <= |w.pods|
    ensures e in Passes(w, n, NONE).local <==> Reaches(w, n, e)
    ensures forall k | n <= k < |w.pods| :: Passes(w, n, NONE).pods[k] == w.pods[k]
  {
    hide Emits, PassPod;
    if n > 0 {
      LocalAfter(w, n - 1, e);
      PassMoves(Passes(w, n - 1, NONE), n - 1, NONE(n - 1), e);
      PassFrames(Passes(w, n - 1, NONE), n - 1, NONE(n - 1));
      ReachesStep(w, n - 1, e);
    }
  }

  /** After its turn a Pod holds its own entries and those addressed to it that had
      become local before. */
  lemma {:induction false} PodAfter(w: World, n: nat, i: nat, e: string)
    requires i < n <= |w.pods|
    ensures var q := Passes(w, n, NONE).pods[i];
            && q.dirs == w.pods[i].dirs
            && (e in q.files <==> e in w.pods[i].files || (Reaches(w, i, e) && AddressedTo(w.pods[i], e)))
  {
    hide Reaches, AddressedTo, PassPod;
    PassFrames(Passes(w, n - 1, NONE), n - 1, NONE(n - 1));
    if i < n - 1 {
      PodAfter(w, n - 1, i, e);
    } else {
      LocalAfter(w, i, e);
      PassMoves(Passes(w, i, NONE), i, NONE(i), e);
      SameAddress(w.pods[i], Passes(w, i, NONE).pods[i], e);
    }
  }

  lemma SameAddress(p: Pod, q: Pod, e: string)
    requires p.dirs == q.dirs
    ensures AddressedTo(p, e) <==> AddressedTo(q, e)
  {
  }

  /** The entry is addressed to a Pod that lacks it, and is sent out only by Pods whose
      turn is not before that one's. */
  ghost predicate TooLate(w: World, i: nat, e: string) {
    && i < |w.pods| && AddressedTo(w.pods[i], e) && e !in w.pods[i].files
    && !Reaches(w, i, e) && Reaches(w, |w.pods|, e)
  }

  lemma UndeliveredIff(w: World, i: nat, e: string)
    requires i < |w.pods|
    ensures e in ToPush(Round(w, NONE).pods[i], Round(w, NONE).local) <==> TooLate(w, i, e)
  {
    hide Reaches, SafeEntry, Outbound, Passes;
    LocalAfter(w, |w.pods|, e);
    PodAfter(w, |w.pods|, i, e);
  }

  /** One round without failures leaves nothing to do if and only if no entry is sent
      out only after the turn of a Pod that it is addressed to and that lacks it. */
  lemma OneRoundSufficesIff(w: World)
    ensures Quiescent(Round(w, NONE)) <==> !exists i, e :: TooLate(w, i, e)
  {
    hide TooLate, ToPush, Passes, Collected;
    var v := Round(w, NONE);
    FirstRoundCollects(w, |w.pods|);
    forall i, e | 0 <= i < |w.pods|
      ensures e in ToPush(v.pods[i], v.local) <==> TooLate(w, i, e)
    {
      UndeliveredIff(w, i, e);
    }
    if late: nat, e :| TooLate(w, late, e) {
      LateInRange(w, late, e);
      assert e in ToPush(v.pods[late], v.local);
      assert !Delivered(v, late);
    }
    if !Quiescent(v) {
      var i :| 0 <= i < |v.pods| && !Delivered(v, i);
      var e :| e in ToPush(v.pods[i], v.local);
      assert TooLate(w, i, e);
    }
  }

  lemma LateInRange(w: World, i: nat, e: string)
    requires TooLate(w, i, e)
    ensures i < |w.pods|
  {
  }

  /** With a single Pod one round is enough. */
  lemma OneRoundSufficesForOnePod(w: World)
    requires |w.pods| == 1
    ensures Quiescent(Round(w, NONE))
  {
    hide SafeEntry, Outbound, Quiescent;
    OneRoundSufficesIff(w);
  }

  /** With two Pods one round can be too few: mail from the later Pod to the earlier one
      is collected after the earlier one's turn. */
  lemma OneRoundCanBeTooFew(e: string, data: Data)
    requires SafeEntry(e)
    ensures var w := World(map[], [Pod(map[], {DirOf(e)}), Pod(map[e := data], {})]);
            !Quiescent(Round(w, NONE))
  {
    hide SafeEntry, DirOf, Quiescent, Round;
    var w := World(map[], [Pod(map[], {DirOf(e)}), Pod(map[e := data], {})]);
    OneRoundSufficesIff(w);
    assert Emits(w.pods[1], e);
    assert TooLate(w, 0, e);
  }
}
