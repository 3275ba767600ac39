/**
 Merging the enroll hooks into existing settings
 (packages/h2a-runtime/src/enroll.ts, `installClaudeHooks` without the file access).
 Keys of a hook or matcher that the merge does not look at are kept as `rest`.
 */
module HookSettings {
  import opened Common
  import opened Sorting

  datatype Hook = Hook(command: Option<string>, rest: string)
  /** A matcher without a list of hooks is passed through as it is. */
  datatype Matcher = Opaque(rest: string) | Group(hooks: seq<Hook>, rest: string)
  /** What the settings hold for an event: a list of matchers, or something else. */
  datatype EventValue = Matchers(list: seq<Matcher>) | Other(rest: string)

  /** The command to install for an event and the one it replaces. */
  datatype Wanted = Wanted(event: string, command: string, legacy: string)

  const START := Wanted("SessionStart", "h2a enroll --hook claude-start", "remote enroll --hook claude-start")
  const END := Wanted("SessionEnd", "h2a enroll --hook claude-end", "remote enroll --hook claude-end")

  predicate Canonical(w: Wanted, h: Hook) {
    h.command == Some(w.command)
  }

  predicate Legacy(w: Wanted, h: Hook) {
    h.command == Some(w.legacy) && w.legacy != w.command
  }

  predicate Unrelated(w: Wanted, h: Hook) {
    !Canonical(w, h) && !Legacy(w, h)
  }

  function Canonicals(w: Wanted, hooks: seq<Hook>): nat {
    |Filter((h: Hook) => Canonical(w, h), hooks)|
  }

  function Legacies(w: Wanted, hooks: seq<Hook>): nat {
    |Filter((h: Hook) => Legacy(w, h), hooks)|
  }

  function Foreign(w: Wanted, hooks: seq<Hook>): seq<Hook> {
    Filter((h: Hook) => Unrelated(w, h), hooks)
  }

  function HooksIn(m: Matcher): seq<Hook> {
    match m
    case Group(hooks, _) => hooks
    case Opaque(_) => []
  }

  function AllHooks(matchers: seq<Matcher>): seq<Hook> {
    if matchers == [] then []
    else
      AllHooks(matchers[..|matchers| - 1]) + HooksIn(matchers[|matchers| - 1])
  }

  // ----- the merge -----

  datatype HookScan = HookScan(kept: bool, normalised: bool, hooks: seq<Hook>)

  function HookStep(w: Wanted, has: bool, st: HookScan, h: Hook): HookScan {
    if Canonical(w, h) then
      if st.kept then st.(normalised := true) else HookScan(true, st.normalised, st.hooks + [h])
    else if Legacy(w, h) then
      if has || st.kept then st.(normalised := true)
      else HookScan(true, true, st.hooks + [h.(command := Some(w.command))])
    else st.(hooks := st.hooks + [h])
  }

  function ScanHooks(w: Wanted, has: bool, kept: bool, normalised: bool, hooks: seq<Hook>): HookScan {
    if hooks == [] then HookScan(kept, normalised, [])
    else HookStep(w, has, ScanHooks(w, has, kept, normalised, hooks[..|hooks| - 1]), hooks[|hooks| - 1])
  }

  datatype MatcherScan = MatcherScan(kept: bool, normalised: bool, matchers: seq<Matcher>)

  function MatcherStep(w: Wanted, has: bool, st: MatcherScan, m: Matcher): MatcherScan {
    match m
    case Opaque(_) => st.(matchers := st.matchers + [m])
    case Group(hooks, rest) =>
      var r := ScanHooks(w, has, st.kept, st.normalised, hooks);
      if r.hooks != [] then MatcherScan(r.kept, r.normalised, st.matchers + [Group(r.hooks, rest)])
      else if hooks == [] then MatcherScan(r.kept, r.normalised, st.matchers + [m])
      else MatcherScan(r.kept, true, st.matchers)
  }

  function ScanMatchers(w: Wanted, has: bool, matchers: seq<Matcher>): MatcherScan {
    if matchers == [] then MatcherScan(false, false, [])
    else MatcherStep(w, has, ScanMatchers(w, has, matchers[..|matchers| - 1]), matchers[|matchers| - 1])
  }

  /** The matchers after the merge, and whether a hook was installed or normalised. */
  datatype Merge = Merge(matchers: seq<Matcher>, installed: bool, migrated: bool)

  function MergeEvent(w: Wanted, matchers: seq<Matcher>): Merge {
    var st := ScanMatchers(w, Canonicals(w, AllHooks(matchers)) > 0, matchers);
    Merge(if st.kept then st.matchers else st.matchers + [Group([Hook(Some(w.command), "command")], "")],
          !st.kept, st.normalised)
  }

  method HasCanonical(w: Wanted, matchers: seq<Matcher>) returns (has: bool)
    ensures has <==> Canonicals(w, AllHooks(matchers)) > 0
  {
    ghost var ours := (h: Hook) => Canonical(w, h);
    for i := 0 to |matchers|
      invariant Canonicals(w, AllHooks(matchers[..i])) == 0
    {
      assert matchers[..i + 1][..i] == matchers[..i];
      if matchers[i].Opaque? {
        assert AllHooks(matchers[..i + 1]) == AllHooks(matchers[..i]);
      } else {
        var hooks := matchers[i].hooks;
        FilterConcat(ours, AllHooks(matchers[..i]), hooks);
        for j := 0 to |hooks|
          invariant Canonicals(w, hooks[..j]) == 0
        {
          assert hooks[..j + 1][..j] == hooks[..j];
          if Canonical(w, hooks[j]) {
            CanonicalInside(w, matchers, i, j);
            return true;
          }
        }
        assert hooks[..|hooks|] == hooks;
      }
    }
    assert matchers[..|matchers|] == matchers;
    return false;
  }

  lemma {:induction false} CanonicalInside(w: Wanted, matchers: seq<Matcher>, i: nat, j: nat)
    requires i < |matchers| && matchers[i].Group? && j < |matchers[i].hooks| && Canonical(w, matchers[i].hooks[j])
    ensures Canonicals(w, AllHooks(matchers)) > 0
  {
    var ours := (h: Hook) => Canonical(w, h);
    var n := |matchers| - 1;
    if i < n {
      CanonicalInside(w, matchers[..n], i, j);
    }
    match matchers[n]
    case Opaque(_) => assert AllHooks(matchers) == AllHooks(matchers[..n]);
    case Group(hooks, _) =>
      FilterConcat(ours, AllHooks(matchers[..n]), hooks);
      FilterMembers(ours, hooks);
      if i == n {
        assert hooks[j] in Filter(ours, hooks);
      }
  }

  /** The inner loop, over the hooks of one matcher. */
  method MergeHooks(w: Wanted, has: bool, kept: bool, normalised: bool, hooks: seq<Hook>) returns (r: HookScan)
    ensures r == ScanHooks(w, has, kept, normalised, hooks)
  {
    var canonicalKept, changed := kept, normalised;
    var next: seq<Hook> := [];
    for i := 0 to |hooks|
      invariant HookScan(canonicalKept, changed, next) == ScanHooks(w, has, kept, normalised, hooks[..i])
    {
      assert hooks[..i + 1][..i] == hooks[..i];
      var hook := hooks[i];
      if Canonical(w, hook) {
        if canonicalKept {
          changed := true;
          continue;
        }
        canonicalKept := true;
        next := next + [hook];
        continue;
      }
      if Legacy(w, hook) {
        changed := true;
        if has || canonicalKept {
          continue;
        }
        canonicalKept := true;
        next := next + [hook.(command := Some(w.command))];
        continue;
      }
      next := next + [hook];
    }
    assert hooks[..|hooks|] == hooks;
    return HookScan(canonicalKept, changed, next);
  }

  method MergeMatchers(w: Wanted, matchers: seq<Matcher>) returns (r: Merge)
    ensures r == MergeEvent(w, matchers)
  {
    hide ScanHooks;
    var has := HasCanonical(w, matchers);
    var canonicalKept, normalised := false, false;
    var next: seq<Matcher> := [];
    for i := 0 to |matchers|
      invariant MatcherScan(canonicalKept, normalised, next) == ScanMatchers(w, has, matchers[..i])
    {
      assert matchers[..i + 1][..i] == matchers[..i];
      match matchers[i]
      case Opaque(_) =>
        next := next + [matchers[i]];
      case Group(hooks, rest) =>
        var scan := MergeHooks(w, has, canonicalKept, normalised, hooks);
        canonicalKept, normalised := scan.kept, scan.normalised;
        if scan.hooks != [] {
          next := next + [Group(scan.hooks, rest)];
        } else if hooks == [] {
          next := next + [matchers[i]];
        } else {
          normalised := true;
        }
    }
    assert matchers[..|matchers|] == matchers;
    var installed := !canonicalKept;
    if !canonicalKept {
      next := next + [Group([Hook(Some(w.command), "command")], "")];
    }
    return Merge(next, installed, normalised);
  }

  // ----- what the merge does to the hooks -----

  lemma CountsSnoc(w: Wanted, hooks: seq<Hook>, h: Hook)
    ensures Canonicals(w, hooks + [h]) == Canonicals(w, hooks) + if Canonical(w, h) then 1 else 0
    ensures Legacies(w, hooks + [h]) == Legacies(w, hooks) + if Legacy(w, h) then 1 else 0
    ensures Foreign(w, hooks + [h]) == Foreign(w, hooks) + if Unrelated(w, h) then [h] else []
  {
    assert (hooks + [h])[..|hooks|] == hooks;
  }

  lemma CountsConcat(w: Wanted, a: seq<Hook>, b: seq<Hook>)
    ensures Canonicals(w, a + b) == Canonicals(w, a) + Canonicals(w, b)
    ensures Legacies(w, a + b) == Legacies(w, a) + Legacies(w, b)
    ensures Foreign(w, a + b) == Foreign(w, a) + Foreign(w, b)
  {
    FilterConcat((h: Hook) => Canonical(w, h), a, b);
    FilterConcat((h: Hook) => Legacy(w, h), a, b);
    FilterConcat((h: Hook) => Unrelated(w, h), a, b);
  }

  /** Unrelated hooks stay, at most one canonical hook is kept, no legacy one is; the
      list is called normalised exactly when a hook of ours was dropped or replaced. */
  ghost predicate HooksMerged(w: Wanted, has: bool, kept: bool, normalised: bool, hooks: seq<Hook>, r: HookScan) {
    && Foreign(w, r.hooks) == Foreign(w, hooks)
    && Canonicals(w, r.hooks) == (if r.kept && !kept then 1 else 0)
    && Legacies(w, r.hooks) == 0
    && (r.kept <==> kept || Canonicals(w, hooks) > 0 || (!has && Legacies(w, hooks) > 0))
    && (r.normalised <==> normalised || Legacies(w, hooks) > 0 || Canonicals(w, hooks) > if kept then 0 else 1)
    && (!r.normalised ==> r.hooks == hooks)
    && (hooks == [] ==> r.hooks == [])
  }

  lemma {:induction false} ScanHooksMerges(w: Wanted, has: bool, kept: bool, normalised: bool, hooks: seq<Hook>)
    requires !has ==> Canonicals(w, hooks) == 0
    ensures HooksMerged(w, has, kept, normalised, hooks, ScanHooks(w, has, kept, normalised, hooks))
  {
    hide Canonicals, Legacies, Foreign;
    if hooks == [] {
      NoHooks(w);
    } else {
      var rest, h := hooks[..|hooks| - 1], hooks[|hooks| - 1];
      assert hooks == rest + [h];
      CountsSnoc(w, rest, h);
      ScanHooksMerges(w, has, kept, normalised, rest);
      var before := ScanHooks(w, has, kept, normalised, rest);
      CountsSnoc(w, before.hooks, h);
      CountsSnoc(w, before.hooks, h.(command := Some(w.command)));
    }
  }

  lemma NoHooks(w: Wanted)
    ensures Canonicals(w, []) == 0 && Legacies(w, []) == 0 && Foreign(w, []) == []
  {
  }

  /** A matcher with our own commands taken out; one that held nothing else goes. */
  function StrippedOne(w: Wanted, m: Matcher): seq<Matcher> {
    match m
    case Opaque(_) => [m]
    case Group(hooks, rest) =>
      if hooks == [] then [m] else if Foreign(w, hooks) == [] then [] else [Group(Foreign(w, hooks), rest)]
  }

  function Stripped(w: Wanted, matchers: seq<Matcher>): seq<Matcher> {
    if matchers == [] then []
    else Stripped(w, matchers[..|matchers| - 1]) + StrippedOne(w, matchers[|matchers| - 1])
  }

  lemma MatchersSnoc(w: Wanted, matchers: seq<Matcher>, m: Matcher)
    ensures Stripped(w, matchers + [m]) == Stripped(w, matchers) + StrippedOne(w, m)
    ensures AllHooks(matchers + [m]) == AllHooks(matchers) + HooksIn(m)
  {
    hide StrippedOne, HooksIn;
    assert (matchers + [m])[..|matchers|] == matchers;
  }

  ghost predicate Merged(w: Wanted, has: bool, matchers: seq<Matcher>, st: MatcherScan) {
    var hooks, after := AllHooks(matchers), AllHooks(st.matchers);
    && Stripped(w, st.matchers) == Stripped(w, matchers)
    && Canonicals(w, after) == (if st.kept then 1 else 0)
    && Legacies(w, after) == 0
    && (st.kept <==> Canonicals(w, hooks) > 0 || (!has && Legacies(w, hooks) > 0))
    && (st.normalised <==> Legacies(w, hooks) > 0 || Canonicals(w, hooks) > 1)
    && (!st.normalised ==> st.matchers == matchers)
  }

  lemma {:induction false} ScanMatchersMerges(w: Wanted, has: bool, matchers: seq<Matcher>)
    requires !has ==> Canonicals(w, AllHooks(matchers)) == 0
    ensures Merged(w, has, matchers, ScanMatchers(w, has, matchers))
  {
    hide Canonicals, Legacies, Foreign, ScanHooks;
    if matchers == [] {
      NoHooks(w);
    } else {
      var rest, m := matchers[..|matchers| - 1], matchers[|matchers| - 1];
      assert matchers == rest + [m];
      MatchersSnoc(w, rest, m);
      CountsConcat(w, AllHooks(rest), HooksIn(m));
      ScanMatchersMerges(w, has, rest);
      var before := ScanMatchers(w, has, rest);
      match m
      case Opaque(_) => OpaqueMerges(w, has, rest, before, m);
      case Group(hooks, text) => GroupMerges(w, has, rest, before, hooks, text);
    }
  }

  lemma OpaqueMerges(w: Wanted, has: bool, rest: seq<Matcher>, before: MatcherScan, m: Matcher)
    requires Merged(w, has, rest, before) && m.Opaque?
    ensures Merged(w, has, rest + [m], MatcherStep(w, has, before, m))
  {
    hide Canonicals, Legacies, Foreign;
    MatchersSnoc(w, rest, m);
    MatchersSnoc(w, before.matchers, m);
    assert AllHooks(rest) + [] == AllHooks(rest) && AllHooks(before.matchers) + [] == AllHooks(before.matchers);
  }

  lemma GroupMerges(w: Wanted, has: bool, rest: seq<Matcher>, before: MatcherScan, hooks: seq<Hook>, text: string)
    requires Merged(w, has, rest, before)
    requires !has ==> Canonicals(w, AllHooks(rest + [Group(hooks, text)])) == 0
    ensures Merged(w, has, rest + [Group(hooks, text)], MatcherStep(w, has, before, Group(hooks, text)))
  {
    hide Canonicals, Legacies, Foreign, ScanHooks, Stripped, AllHooks, HooksMerged;
    var r := ScanHooks(w, has, before.kept, before.normalised, hooks);
    MatchersSnoc(w, rest, Group(hooks, text));
    CountsConcat(w, AllHooks(rest), hooks);
    ScanHooksMerges(w, has, before.kept, before.normalised, hooks);
    if r.hooks != [] {
      GroupKept(w, has, rest, before, hooks, text, r);
    } else {
      GroupEmptied(w, has, rest, before, hooks, text, r);
    }
  }

  lemma GroupKept(w: Wanted, has: bool, rest: seq<Matcher>, before: MatcherScan, hooks: seq<Hook>, text: string,
                  r: HookScan)
    requires Merged(w, has, rest, before) && r.hooks != []
    requires HooksMerged(w, has, before.kept, before.normalised, hooks, r)
    ensures Merged(w, has, rest + [Group(hooks, text)],
                   MatcherScan(r.kept, r.normalised, before.matchers + [Group(r.hooks, text)]))
  {
    hide Canonicals, Legacies, Foreign, Stripped, AllHooks;
    MatchersSnoc(w, rest, Group(hooks, text));
    MatchersSnoc(w, before.matchers, Group(r.hooks, text));
    CountsConcat(w, AllHooks(rest), hooks);
    CountsConcat(w, AllHooks(before.matchers), r.hooks);
    NoHooks(w);
  }

  lemma GroupEmptied(w: Wanted, has: bool, rest: seq<Matcher>, before: MatcherScan, hooks: seq<Hook>, text: string,
                     r: HookScan)
    requires Merged(w, has, rest, before) && r.hooks == []
    requires HooksMerged(w, has, before.kept, before.normalised, hooks, r)
    ensures hooks == [] ==>
              Merged(w, has, rest + [Group(hooks, text)],
                     MatcherScan(r.kept, r.normalised, before.matchers + [Group(hooks, text)]))
    ensures hooks != [] ==>
              Merged(w, has, rest + [Group(hooks, text)], MatcherScan(r.kept, true, before.matchers))
  {
    hide Canonicals, Legacies, Foreign, Stripped, AllHooks;
    MatchersSnoc(w, rest, Group(hooks, text));
    MatchersSnoc(w, before.matchers, Group(hooks, text));
    CountsConcat(w, AllHooks(rest), hooks);
    CountsConcat(w, AllHooks(before.matchers), r.hooks);
    NoHooks(w);
    assert AllHooks(before.matchers) + [] == AllHooks(before.matchers) && AllHooks(rest) + [] == AllHooks(rest);
    assert Stripped(w, rest) + [] == Stripped(w, rest);
  }

  /** Exactly one canonical command, and no legacy one. */
  ghost predicate InForm(w: Wanted, matchers: seq<Matcher>) {
    Canonicals(w, AllHooks(matchers)) == 1 && Legacies(w, AllHooks(matchers)) == 0
  }

  /** The merge brings an event into form, keeps every unrelated hook and matcher in
      its place and order, and reports a change exactly when the event was not in form
      before; without a report the matchers are as they were. */
  lemma MergeNormalises(w: Wanted, matchers: seq<Matcher>)
    requires w.legacy != w.command
    ensures var r := MergeEvent(w, matchers);
            && InForm(w, r.matchers)
            && Stripped(w, r.matchers) == Stripped(w, matchers)
            && (r.installed <==> Canonicals(w, AllHooks(matchers)) == 0 && Legacies(w, AllHooks(matchers)) == 0)
            && (r.migrated <==> Legacies(w, AllHooks(matchers)) > 0 || Canonicals(w, AllHooks(matchers)) > 1)
            && (r.installed || r.migrated <==> !InForm(w, matchers))
            && (!r.installed && !r.migrated ==> r.matchers == matchers)
  {
    hide Canonicals, Legacies, Foreign, ScanMatchers;
    var has := Canonicals(w, AllHooks(matchers)) > 0;
    ScanMatchersMerges(w, has, matchers);
    var st := ScanMatchers(w, has, matchers);
    var ours := Hook(Some(w.command), "command");
    MatchersSnoc(w, st.matchers, Group([ours], ""));
    CountsConcat(w, AllHooks(st.matchers), [ours]);
    OurHook(w, ours);
  }

  lemma OurHook(w: Wanted, ours: Hook)
    requires ours.command == Some(w.command)
    ensures Canonicals(w, [ours]) == 1 && Legacies(w, [ours]) == 0 && Foreign(w, [ours]) == []
  {
    NoHooks(w);
    CountsSnoc(w, [], ours);
    assert [] + [ours] == [ours];
  }

  // ----- where our command ends up -----

  lemma {:induction false} ScanAppend(w: Wanted, has: bool, kept: bool, normalised: bool, a: seq<Hook>, b: seq<Hook>)
    ensures var x := ScanHooks(w, has, kept, normalised, a);
            var y := ScanHooks(w, has, x.kept, x.normalised, b);
            ScanHooks(w, has, kept, normalised, a + b) == HookScan(y.kept, y.normalised, x.hooks + y.hooks)
  {
    hide Canonical, Legacy;
    if b == [] {
      assert a + b == a;
    } else {
      var n := |b| - 1;
      ScanAppend(w, has, kept, normalised, a, b[..n]);
      assert (a + b)[..|a + b| - 1] == a + b[..n];
    }
  }

  lemma {:induction false} NormalisedIsOnlyNoted(w: Wanted, has: bool, kept: bool, x: bool, y: bool, hooks: seq<Hook>)
    ensures var a, b := ScanHooks(w, has, kept, x, hooks), ScanHooks(w, has, kept, y, hooks);
            a.kept == b.kept && a.hooks == b.hooks
  {
    hide Canonical, Legacy;
    if hooks != [] {
      NormalisedIsOnlyNoted(w, has, kept, x, y, hooks[..|hooks| - 1]);
    }
  }

  /** The scan of matchers and that of a list of hooks have seen the same. */
  predicate Alike(st: MatcherScan, flat: HookScan) {
    st.kept == flat.kept && AllHooks(st.matchers) == flat.hooks
  }

  lemma FlatStep(w: Wanted, has: bool, st: MatcherScan, m: Matcher)
    ensures var r := ScanHooks(w, has, st.kept, st.normalised, HooksIn(m));
            var after := MatcherStep(w, has, st, m);
            after.kept == r.kept && AllHooks(after.matchers) == AllHooks(st.matchers) + r.hooks
  {
    hide ScanHooks;
    NothingScannedFrom(w, has, st.kept, st.normalised);
    MatchersSnoc(w, st.matchers, m);
    match m
    case Opaque(_) =>
    case Group(hooks, rest) =>
      var r := ScanHooks(w, has, st.kept, st.normalised, hooks);
      MatchersSnoc(w, st.matchers, Group(r.hooks, rest));
      assert r.hooks == [] ==> AllHooks(st.matchers) + r.hooks == AllHooks(st.matchers);
  }

  /** Matcher by matcher the scan sees the hooks as it would see them in one list. */
  lemma {:induction false} ScanIsFlat(w: Wanted, has: bool, matchers: seq<Matcher>)
    ensures Alike(ScanMatchers(w, has, matchers), ScanHooks(w, has, false, false, AllHooks(matchers)))
  {
    hide ScanHooks, MatcherStep, HooksIn;
    if matchers == [] {
      NothingScanned(w, has);
    } else {
      var n := |matchers| - 1;
      ScanIsFlat(w, has, matchers[..n]);
      var st, m := ScanMatchers(w, has, matchers[..n]), matchers[n];
      var flat := ScanHooks(w, has, false, false, AllHooks(matchers[..n]));
      ScanAppend(w, has, false, false, AllHooks(matchers[..n]), HooksIn(m));
      NormalisedIsOnlyNoted(w, has, st.kept, st.normalised, flat.normalised, HooksIn(m));
      FlatStep(w, has, st, m);
    }
  }

  lemma NothingScanned(w: Wanted, has: bool)
    ensures ScanHooks(w, has, false, false, []) == HookScan(false, false, [])
  {
  }

  lemma NothingScannedFrom(w: Wanted, has: bool, kept: bool, normalised: bool)
    ensures ScanHooks(w, has, kept, normalised, []) == HookScan(kept, normalised, [])
  {
  }

  /** Once a hook is kept, and before one is, the scan passes on the unrelated hooks alone. */
  lemma {:induction false} OnlyForeignPass(w: Wanted, has: bool, kept: bool, normalised: bool, hooks: seq<Hook>)
    requires kept || forall i | 0 <= i < |hooks| :: !Canonical(w, hooks[i]) && (has || !Legacy(w, hooks[i]))
    ensures var r := ScanHooks(w, has, kept, normalised, hooks);
            r.kept == kept && r.hooks == Foreign(w, hooks)
  {
    if hooks != [] {
      var n := |hooks| - 1;
      OnlyForeignPass(w, has, kept, normalised, hooks[..n]);
      assert hooks == hooks[..n] + [hooks[n]];
    }
  }

  /** Hook `s` is the first with our command or, where none has it, the first with the old one. */
  ghost predicate FirstOurs(w: Wanted, hooks: seq<Hook>, s: nat) {
    && s < |hooks|
    && if exists i | 0 <= i < |hooks| :: hooks[i].command == Some(w.command)
       then hooks[s].command == Some(w.command) && forall i | 0 <= i < s :: hooks[i].command != Some(w.command)
       else hooks[s].command == Some(w.legacy) && forall i | 0 <= i < s :: hooks[i].command != Some(w.legacy)
  }

  lemma {:induction false} CanonicalsCount(w: Wanted, hooks: seq<Hook>)
    ensures Canonicals(w, hooks) > 0 <==> exists i | 0 <= i < |hooks| :: hooks[i].command == Some(w.command)
  {
    if hooks != [] {
      var n := |hooks| - 1;
      CanonicalsCount(w, hooks[..n]);
      forall i | 0 <= i < n
        ensures hooks[..n][i] == hooks[i]
      {
      }
    }
  }

  /** The hook with our command, and otherwise as it is. */
  function InPlace(w: Wanted, h: Hook): Hook {
    h.(command := Some(w.command))
  }

  /** Our command stays where it stands first, or takes the place of the old one where
      that stands first, or else comes last; all other hooks of ours go and all unrelated
      ones stay. */
  lemma OurCommandStays(w: Wanted, matchers: seq<Matcher>)
    requires w.legacy != w.command
    ensures var hooks, after := AllHooks(matchers), AllHooks(MergeEvent(w, matchers).matchers);
            && (forall s: nat | FirstOurs(w, hooks, s) ::
                  after == Foreign(w, hooks[..s]) + [InPlace(w, hooks[s])] + Foreign(w, hooks[s + 1..]))
            && ((forall i | 0 <= i < |hooks| :: Unrelated(w, hooks[i])) ==>
                  after == hooks + [Hook(Some(w.command), "command")])
  {
    hide ScanHooks, Foreign, Canonicals;
    var hooks := AllHooks(matchers);
    var has := Canonicals(w, hooks) > 0;
    CanonicalsCount(w, hooks);
    ScanIsFlat(w, has, matchers);
    forall s: nat | FirstOurs(w, hooks, s)
      ensures var r := ScanHooks(w, has, false, false, hooks);
              && r.kept
              && r.hooks == Foreign(w, hooks[..s]) + [InPlace(w, hooks[s])] + Foreign(w, hooks[s + 1..])
    {
      ScanAtFirst(w, hooks, s);
    }
    if forall i | 0 <= i < |hooks| :: Unrelated(w, hooks[i]) {
      OnlyForeignPass(w, has, false, false, hooks);
      AllForeign(w, hooks);
      MatchersSnoc(w, ScanMatchers(w, has, matchers).matchers, Group([Hook(Some(w.command), "command")], ""));
    }
  }

  lemma ScanAtFirst(w: Wanted, hooks: seq<Hook>, s: nat)
    requires w.legacy != w.command && FirstOurs(w, hooks, s)
    ensures var r := ScanHooks(w, Canonicals(w, hooks) > 0, false, false, hooks);
            && r.kept
            && r.hooks == Foreign(w, hooks[..s]) + [InPlace(w, hooks[s])] + Foreign(w, hooks[s + 1..])
  {
    hide Foreign, Canonicals;
    CanonicalsCount(w, hooks);
    var has := Canonicals(w, hooks) > 0;
    var a, h, b := hooks[..s], hooks[s], hooks[s + 1..];
    assert hooks == (a + [h]) + b && (a + [h])[..s] == a;
    OnlyForeignPass(w, has, false, false, a);
    var before := ScanHooks(w, has, false, false, a);
    var x := ScanHooks(w, has, false, false, a + [h]);
    assert x.kept && x.hooks == before.hooks + [h.(command := Some(w.command))];
    ScanAppend(w, has, false, false, a + [h], b);
    OnlyForeignPass(w, has, true, x.normalised, b);
  }

  lemma {:induction false} AllForeign(w: Wanted, hooks: seq<Hook>)
    requires forall i | 0 <= i < |hooks| :: Unrelated(w, hooks[i])
    ensures Foreign(w, hooks) == hooks
  {
    if hooks != [] {
      AllForeign(w, hooks[..|hooks| - 1]);
      assert hooks == hooks[..|hooks| - 1] + [hooks[|hooks| - 1]];
    }
  }

  // ----- both events -----

  datatype Installed = Installed(
    hooks: map<string, EventValue>, changed: bool, installed: seq<string>, migrated: seq<string>)

  /** Anything that is not a list of matchers counts as an empty list. */
  function MatchersAt(hooks: map<string, EventValue>, event: string): seq<Matcher> {
    if event in hooks && hooks[event].Matchers? then hooks[event].list else []
  }

  function WithMerge(hooks: map<string, EventValue>, w: Wanted): map<string, EventValue> {
    hooks[w.event := Matchers(MergeEvent(w, MatchersAt(hooks, w.event)).matchers)]
  }

  method InstallHooks(hooks: map<string, EventValue>) returns (r: Installed)
    ensures r.hooks == WithMerge(WithMerge(hooks, START), END)
    ensures var a, b := MergeEvent(START, MatchersAt(hooks, START.event)),
                        MergeEvent(END, MatchersAt(hooks, END.event));
            && r.installed == (if a.installed then [START.event] else []) + (if b.installed then [END.event] else [])
            && r.migrated == (if a.migrated then [START.event] else []) + (if b.migrated then [END.event] else [])
            && r.changed == (r.installed != [] || r.migrated != [])
  {
    hide MergeEvent;
    assert START.event != END.event;
    var installed: seq<string>, migrated: seq<string> := [], [];
    var next := hooks;
    var a := MergeMatchers(START, MatchersAt(next, START.event));
    if a.installed {
      installed := installed + [START.event];
    }
    if a.migrated {
      migrated := migrated + [START.event];
    }
    next := next[START.event := Matchers(a.matchers)];
    var b := MergeMatchers(END, MatchersAt(next, END.event));
    if b.installed {
      installed := installed + [END.event];
    }
    if b.migrated {
      migrated := migrated + [END.event];
    }
    next := next[END.event := Matchers(b.matchers)];
    return Installed(next, installed != [] || migrated != [], installed, migrated);
  }

  /** What has been merged once is in form and merges to itself. */
  lemma MergeAgain(w: Wanted, matchers: seq<Matcher>)
    requires w.legacy != w.command
    ensures var once := MergeEvent(w, matchers).matchers;
            InForm(w, once) && MergeEvent(w, once) == Merge(once, false, false)
  {
    hide MergeEvent, InForm, Stripped, Canonicals, Legacies, AllHooks;
    MergeNormalises(w, matchers);
    MergeNormalises(w, MergeEvent(w, matchers).matchers);
  }

  /** Installing is a projection: afterwards both events are in form, hooks of other
      events are untouched, and installing again changes nothing. */
  lemma InstallIsIdempotent(hooks: map<string, EventValue>)
    ensures var next := WithMerge(WithMerge(hooks, START), END);
            && InForm(START, MatchersAt(next, START.event)) && InForm(END, MatchersAt(next, END.event))
            && (forall event | event in hooks && event != START.event && event != END.event ::
                  event in next && next[event] == hooks[event])
            && !MergeEvent(START, MatchersAt(next, START.event)).installed
            && !MergeEvent(START, MatchersAt(next, START.event)).migrated
            && !MergeEvent(END, MatchersAt(next, END.event)).installed
            && !MergeEvent(END, MatchersAt(next, END.event)).migrated
            && WithMerge(WithMerge(next, START), END) == next
  {
    hide MergeEvent, InForm;
    assert START.event != END.event && START.legacy != START.command && END.legacy != END.command;
    var next := WithMerge(WithMerge(hooks, START), END);
    MergeAgain(START, MatchersAt(hooks, START.event));
    MergeAgain(END, MatchersAt(hooks, END.event));
    assert MatchersAt(next, START.event) == MergeEvent(START, MatchersAt(hooks, START.event)).matchers;
    assert MatchersAt(next, END.event) == MergeEvent(END, MatchersAt(hooks, END.event)).matchers;
    assert WithMerge(next, START) == next;
    assert WithMerge(next, END) == next;
  }

  /** A value that is not a list of matchers is lost: the event then holds our hook alone. */
  lemma OtherValuesAreReplaced(hooks: map<string, EventValue>, w: Wanted)
    requires w.event in hooks && hooks[w.event].Other?
    ensures WithMerge(hooks, w)[w.event] == Matchers([Group([Hook(Some(w.command), "command")], "")])
  {
    NoHooks(w);
  }
}
