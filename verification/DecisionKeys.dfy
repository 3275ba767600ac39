/**
 Keys of pending decisions (packages/focus-interactive/src/decision-key.ts):
 project hash, source and decision id, joined by colons.
 */
module DecisionKeys {
  import opened Common
  import opened TextSplit

  datatype Parts = Parts(projectHash: string, source: string, decisionId: string)
  datatype KeyError = BadProjectHash | UnknownSource | EmptyId | Malformed
  datatype Result<T> = Ok(value: T) | Err(error: KeyError)

  predicate IsSource(s: string) {
    s == "escalate" || s == "track" || s == "loop"
  }

  function DecisionKey(p: Parts): Result<string> {
    if p.projectHash == "" || IndexOf(p.projectHash, ":").Some? then Err(BadProjectHash)
    else if !IsSource(p.source) then Err(UnknownSource)
    else if p.decisionId == "" then Err(EmptyId)
    else Ok(p.projectHash + (":" + (p.source + (":" + p.decisionId))))
  }

  function ParseDecisionKey(key: string): Result<Parts> {
    IndexOfFits(key, ":");
    var first := IndexOf(key, ":");
    if first.None? || first.value == 0 then Err(Malformed)
    else
      var tail := key[first.value + 1..];
      IndexOfFits(tail, ":");
      var second := IndexOf(tail, ":");
      if second.None? then Err(Malformed)
      else
        var parts := Parts(key[..first.value], tail[..second.value], tail[second.value + 1..]);
        if !IsSource(parts.source) then Err(UnknownSource)
        else if parts.decisionId == "" then Err(EmptyId)
        else Ok(parts)
  }

  lemma {:induction false} NoSeparatorInside(a: string)
    ensures IndexOf(a, ":").None? <==> Without(':', a)
  {
    if a != "" {
      NoSeparatorInside(a[1..]);
      assert ":" <= a <==> a[0] == ':' by {
        assert |a[..1]| == 1;
      }
      if Without(':', a) {
        assert forall i | 0 <= i < |a[1..]| :: a[1..][i] == a[i + 1];
      } else {
        var i :| 0 <= i < |a| && a[i] == ':';
        assert i == 0 || a[1..][i - 1] == ':';
      }
    }
  }

  lemma {:induction false} IndexOfJoin(a: string, x: string)
    requires Without(':', a)
    ensures IndexOf(a + (":" + x), ":") == Some(|a|)
  {
    var s := a + (":" + x);
    if a == "" {
      assert s[..1] == ":";
    } else {
      assert s[0] == a[0] && s[1..] == a[1..] + (":" + x);
      IndexOfJoin(a[1..], x);
    }
  }

  lemma SourceHasNoColon(s: string)
    requires IsSource(s)
    ensures Without(':', s)
  {
  }

  /** What is put together is taken apart again, whatever colons the id holds. */
  lemma ParseOfKey(p: Parts)
    requires DecisionKey(p).Ok?
    ensures ParseDecisionKey(DecisionKey(p).value) == Ok(p)
  {
    hide IndexOf;
    var tail := p.source + (":" + p.decisionId);
    var key := p.projectHash + (":" + tail);
    NoSeparatorInside(p.projectHash);
    SourceHasNoColon(p.source);
    IndexOfJoin(p.projectHash, tail);
    IndexOfJoin(p.source, p.decisionId);
    assert key[..|p.projectHash|] == p.projectHash && key[|p.projectHash| + 1..] == tail;
    assert tail[..|p.source|] == p.source && tail[|p.source| + 1..] == p.decisionId;
  }

  lemma {:induction false} FirstIndex(s: string)
    requires IndexOf(s, ":").Some?
    ensures var k := IndexOf(s, ":").value;
            k < |s| && Without(':', s[..k]) && s == s[..k] + (":" + s[k + 1..])
  {
    hide IndexOf, Split;
    IndexOfFits(s, ":");
    var k := IndexOf(s, ":").value;
    NoEarlierOccurrence(s, ":", k);
    NoSeparatorInside(s[..k]);
    SplitUnfold(s, ":", k);
    assert s[..k] + ":" + s[k + 1..] == s[..k] + (":" + s[k + 1..]);
  }

  /** What is taken apart is put together again: parsing accepts keys and nothing else. */
  lemma KeyOfParse(key: string)
    requires ParseDecisionKey(key).Ok?
    ensures DecisionKey(ParseDecisionKey(key).value) == Ok(key)
  {
    hide IndexOf;
    var p := ParseDecisionKey(key).value;
    FirstIndex(key);
    var tail := key[IndexOf(key, ":").value + 1..];
    FirstIndex(tail);
    NoSeparatorInside(p.projectHash);
    assert tail == p.source + (":" + p.decisionId);
  }

  /** Keys of different decisions never collide. */
  lemma KeysAreInjective(p: Parts, q: Parts)
    requires DecisionKey(p).Ok? && DecisionKey(p) == DecisionKey(q)
    ensures p == q
  {
    ParseOfKey(p);
    ParseOfKey(q);
  }

  // ----- the project hash -----

  const FNV_OFFSET: bv32 := 0x811c9dc5
  const FNV_PRIME: bv32 := 0x01000193

  /** Multiplication wraps to 32 bits. */
  function FnvStep(hash: bv32, unit: bv16): bv32 {
    (hash ^ (unit as bv32)) * FNV_PRIME
  }

  /** 32-bit FNV-1a over UTF-16 code units. */
  function Fnv(units: seq<bv16>): bv32 {
    if units == [] then FNV_OFFSET else FnvStep(Fnv(units[..|units| - 1]), units[|units| - 1])
  }

  function HashText(units: seq<bv16>): string {
    PadZeros(Hex(Fnv(units) as nat), 8)
  }

  method ProjectHash(units: seq<bv16>) returns (text: string)
    ensures text == HashText(units)
  {
    hide FnvStep, PadZeros, Hex;
    var hash := FNV_OFFSET;
    for i := 0 to |units|
      invariant hash == Fnv(units[..i])
    {
      assert units[..i + 1][..i] == units[..i];
      hash := FnvStep(hash, units[i]);
    }
    assert units[..|units|] == units;
    return PadZeros(Hex(hash as nat), 8);
  }

  /** The published values of 32-bit FNV-1a for the texts "", "a", "foo" and "foobar". */
  lemma PublishedValues()
    ensures Fnv([]) == 0x811c9dc5
    ensures Fnv([0x61]) == 0xe40c292c
    ensures Fnv([0x66, 0x6f, 0x6f]) == 0xa9f37ed7
    ensures Fnv([0x66, 0x6f, 0x6f, 0x62, 0x61, 0x72]) == 0xbf9cf968
  {
    hide Fnv, FnvStep;
    var none: seq<bv16>, f, fo, foo := [], [0x66], [0x66, 0x6f], [0x66, 0x6f, 0x6f];
    var foob, fooba := foo + [0x62], foo + [0x62] + [0x61];
    FnvOfNothing();
    KnownSteps();
    FnvAfter(none, 0x61, 0x811c9dc5);
    assert none + [0x61] == [0x61];
    FnvAfter(none, 0x66, 0x811c9dc5);
    assert none + [0x66] == f;
    FnvAfter(f, 0x6f, 0xe30c2799);
    assert f + [0x6f] == fo;
    FnvAfter(fo, 0x6f, 0x6222e842);
    assert fo + [0x6f] == foo;
    FnvAfter(foo, 0x62, 0xa9f37ed7);
    FnvAfter(foob, 0x61, 0x3f5076ef);
    FnvAfter(fooba, 0x72, 0x39aaa18a);
    assert fooba + [0x72] == [0x66, 0x6f, 0x6f, 0x62, 0x61, 0x72];
  }

  lemma FnvOfNothing()
    ensures Fnv([]) == 0x811c9dc5
  {
  }

  lemma KnownSteps()
    ensures FnvStep(0x811c9dc5, 0x61) == 0xe40c292c && FnvStep(0x811c9dc5, 0x66) == 0xe30c2799
    ensures FnvStep(0xe30c2799, 0x6f) == 0x6222e842 && FnvStep(0x6222e842, 0x6f) == 0xa9f37ed7
    ensures FnvStep(0xa9f37ed7, 0x62) == 0x3f5076ef && FnvStep(0x3f5076ef, 0x61) == 0x39aaa18a
    ensures FnvStep(0x39aaa18a, 0x72) == 0xbf9cf968
  {
  }

  lemma FnvAfter(units: seq<bv16>, unit: bv16, before: bv32)
    requires Fnv(units) == before
    ensures Fnv(units + [unit]) == FnvStep(before, unit)
  {
    assert (units + [unit])[..|units|] == units;
  }

  function Pow16(k: nat): nat {
    if k == 0 then 1 else 16 * Pow16(k - 1)
  }

  lemma {:induction false} HexWidth(n: nat, k: nat)
    requires k >= 1 && n < Pow16(k)
    ensures |Hex(n)| <= k
  {
    if n >= 16 {
      assert k >= 2;
      HexWidth(n / 16, k - 1);
    }
  }

  lemma {:induction false} PadFacts(s: string, width: nat)
    requires forall i | 0 <= i < |s| :: IsHexDigit(s[i])
    ensures var r := PadZeros(s, width);
            (|s| <= width ==> |r| == width) && forall i | 0 <= i < |r| :: IsHexDigit(r[i])
    decreases width - |s|
  {
    if |s| < width {
      PadFacts("0" + s, width);
    }
  }

  /** The hash of any project root is eight hexadecimal digits, so it can stand in a key. */
  lemma HashIsEightHexDigits(units: seq<bv16>)
    ensures var h := HashText(units);
            |h| == 8 && (forall i | 0 <= i < 8 :: IsHexDigit(h[i])) && IndexOf(h, ":").None?
  {
    hide Fnv, IndexOf;
    var n := Fnv(units) as nat;
    assert Pow16(4) == 0x10000 && Pow16(8) == 0x1_0000_0000 by {
      PowersOf16();
    }
    HexIsHex(n);
    HexWidth(n, 8);
    PadFacts(Hex(n), 8);
    NoSeparatorInside(HashText(units));
  }

  lemma PowersOf16()
    ensures Pow16(4) == 0x10000 && Pow16(8) == 0x1_0000_0000
  {
    assert Pow16(2) == 256 && Pow16(4) == 256 * Pow16(2) && Pow16(6) == 256 * Pow16(4) && Pow16(8) == 256 * Pow16(6);
  }
}
