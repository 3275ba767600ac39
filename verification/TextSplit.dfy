/**
 Splitting a growing text at a separator, the way both stream readers do it:
 `buffer.split(separator)`, the last piece kept back as the new buffer.
 */
module TextSplit {
  import opened Common

  datatype Pieces = Pieces(parts: seq<string>, rest: string)

  /** Index of the first occurrence of `sep` in `s`. */
  function IndexOf(s: string, sep: string): Option<nat> {
    if |s| < |sep| then None
    else if sep <= s then Some(0)
    else if s == "" then None
    else
      match IndexOf(s[1..], sep)
      case None => None
      case Some(k) => Some(k + 1)
  }

  lemma {:induction false} IndexOfFits(s: string, sep: string)
    ensures IndexOf(s, sep).Some? ==>
              IndexOf(s, sep).value + |sep| <= |s| && sep <= s[IndexOf(s, sep).value..]
  {
    if |s| >= |sep| && !(sep <= s) && s != "" {
      IndexOfFits(s[1..], sep);
      if IndexOf(s[1..], sep).Some? {
        assert s[1..][IndexOf(s[1..], sep).value..] == s[IndexOf(s, sep).value..];
      }
    }
  }

  function Split(s: string, sep: string): Pieces
    requires sep != ""
    decreases |s|
  {
    IndexOfFits(s, sep);
    match IndexOf(s, sep)
    case None => Pieces([], s)
    case Some(k) =>
      var later := Split(s[k + |sep|..], sep);
      Pieces([s[..k]] + later.parts, later.rest)
  }

  function Glue(parts: seq<string>, sep: string, rest: string): string {
    if parts == [] then rest else parts[0] + sep + Glue(parts[1..], sep, rest)
  }

  predicate Contains(s: string, sep: string) {
    IndexOf(s, sep).Some?
  }

  lemma SplitUnfold(s: string, sep: string, k: nat)
    requires sep != "" && IndexOf(s, sep) == Some(k)
    ensures k + |sep| <= |s| && s == s[..k] + sep + s[k + |sep|..]
    ensures Split(s, sep) == Pieces([s[..k]] + Split(s[k + |sep|..], sep).parts, Split(s[k + |sep|..], sep).rest)
  {
    IndexOfFits(s, sep);
    assert s[k..][..|sep|] == s[k..k + |sep|];
  }

  /** Splitting loses nothing, and the separator survives in no piece. */
  lemma {:induction false} SplitIsExact(s: string, sep: string)
    requires sep != ""
    ensures Glue(Split(s, sep).parts, sep, Split(s, sep).rest) == s
    ensures !Contains(Split(s, sep).rest, sep)
    ensures forall i | 0 <= i < |Split(s, sep).parts| :: !Contains(Split(s, sep).parts[i], sep)
    decreases |s|
  {
    match IndexOf(s, sep)
    case None =>
    case Some(k) =>
      SplitUnfold(s, sep, k);
      var tail := s[k + |sep|..];
      SplitIsExact(tail, sep);
      NoEarlierOccurrence(s, sep, k);
      var later := Split(tail, sep).parts;
      assert ([s[..k]] + later)[1..] == later;
  }

  lemma {:induction false} NoEarlierOccurrence(s: string, sep: string, k: nat)
    requires sep != "" && IndexOf(s, sep) == Some(k)
    ensures k <= |s| && !Contains(s[..k], sep)
  {
    IndexOfFits(s, sep);
    if k > 0 {
      NoEarlierOccurrence(s[1..], sep, k - 1);
      assert s[1..][..k - 1] == s[..k][1..];
      assert sep <= s[..k] ==> sep <= s;
    }
  }

  lemma {:induction false} IndexOfAppend(a: string, b: string, sep: string)
    requires IndexOf(a, sep).Some?
    ensures IndexOf(a + b, sep) == IndexOf(a, sep)
  {
    assert |a| >= |sep|;
    assert sep <= a + b <==> sep <= a by {
      assert (a + b)[..|sep|] == a[..|sep|];
    }
    if !(sep <= a) {
      IndexOfAppend(a[1..], b, sep);
      assert (a + b)[1..] == a[1..] + b;
    }
  }

  /** Pieces of a text whose first part is `head`. */
  function Prepend(head: string, later: Pieces): Pieces {
    Pieces([head] + later.parts, later.rest)
  }

  function Continue(first: Pieces, second: Pieces): Pieces {
    Pieces(first.parts + second.parts, second.rest)
  }

  lemma SplitAtFirst(head: string, sep: string, tail: string)
    requires sep != "" && IndexOf(head + sep + tail, sep) == Some(|head|)
    ensures Split(head + sep + tail, sep) == Prepend(head, Split(tail, sep))
  {
    var s := head + sep + tail;
    SplitUnfold(s, sep, |head|);
    assert s[..|head|] == head && s[|head| + |sep|..] == tail;
  }

  /** Reading `a` and then `b`, with the rest of `a` kept back, finds the same
      pieces as reading `a + b` at once. */
  lemma {:induction false} SplitAppend(a: string, b: string, sep: string)
    requires sep != ""
    ensures Split(a + b, sep) == Continue(Split(a, sep), Split(Split(a, sep).rest + b, sep))
    decreases |a|, 1
  {
    if IndexOf(a, sep).None? {
      assert Split(a, sep) == Pieces([], a);
    } else {
      var k := IndexOf(a, sep).value;
      SplitUnfold(a, sep, k);
      IndexOfAppend(a, b, sep);
      SplitAppendStep(a[..k], sep, a[k + |sep|..], b);
      assert a == a[..k] + sep + a[k + |sep|..];
    }
  }

  lemma {:induction false} SplitAppendStep(head: string, sep: string, tail: string, b: string)
    requires sep != ""
    requires IndexOf(head + sep + tail, sep) == Some(|head|)
    requires IndexOf((head + sep + tail) + b, sep) == Some(|head|)
    ensures var a := head + sep + tail;
            Split(a + b, sep) == Continue(Split(a, sep), Split(Split(a, sep).rest + b, sep))
    decreases |head + sep + tail|, 0
  {
    var a := head + sep + tail;
    SplitAtFirst(head, sep, tail);
    assert Split(a + b, sep) == Prepend(head, Split(tail + b, sep)) by {
      assert a + b == head + sep + (tail + b);
      SplitAtFirst(head, sep, tail + b);
    }
    SplitAppend(tail, b, sep);
    PrependContinue(head, Split(tail, sep), Split(Split(tail, sep).rest + b, sep));
  }

  lemma PrependContinue(head: string, first: Pieces, second: Pieces)
    ensures Prepend(head, Continue(first, second)) == Continue(Prepend(head, first), second)
  {
  }
}
