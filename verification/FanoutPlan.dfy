/**
 Names of the members of a remote fan-out (packages/h2a-runtime/src/fanout.ts,
 `planRemoteFanout`): base label and zero-padded number.
 */
module FanoutPlan {
  import opened Common
  import opened Sorting

  const DEFAULT_FANOUT_MAX := 16

  datatype Member = Member(index: nat, name: string)
  datatype PlanError = BadMax | BadCount | OverCap | UnsafeBase
  datatype Plan = Members(members: seq<Member>) | Refused(error: PlanError)

  predicate SafeChar(c: char) {
    'a' <= c <= 'z' || 'A' <= c <= 'Z' || '0' <= c <= '9' || c == '_' || c == '-'
  }

  predicate SafeBase(s: string) {
    s != "" && forall i | 0 <= i < |s| :: SafeChar(s[i])
  }

  function Digit(d: nat): char
    requires d < 10
  {
    (d + 48) as char
  }

  function Decimal(n: nat): string {
    if n < 10 then [Digit(n)] else Decimal(n / 10) + [Digit(n % 10)]
  }

  function Padded(index: nat, count: nat): string {
    PadZeros(Decimal(index), |Decimal(count)|)
  }

  function NameOf(base: string, index: nat, count: nat): string {
    base + ("-" + Padded(index, count))
  }

  function MembersUpTo(base: string, count: nat, n: nat): seq<Member> {
    if n == 0 then [] else MembersUpTo(base, count, n - 1) + [Member(n, NameOf(base, n, count))]
  }

  /** `max` and `count` may be any integers; the caller's fractions are refused the same way. */
  function PlanRemoteFanout(base: string, count: int, max: Option<int>): Plan {
    var cap := max.GetOr(DEFAULT_FANOUT_MAX);
    if cap < 1 then Refused(BadMax)
    else if count < 1 then Refused(BadCount)
    else if count > cap then Refused(OverCap)
    else if !SafeBase(base) then Refused(UnsafeBase)
    else if count == 1 then Members([Member(1, base)])
    else Members(MembersUpTo(base, count, count))
  }

  // ----- numbers written with a fixed number of digits -----

  function Pow10(k: nat): nat {
    if k == 0 then 1 else 10 * Pow10(k - 1)
  }

  /** `n` written with exactly `width` digits. */
  function Fixed(n: nat, width: nat): string {
    if width == 0 then "" else Fixed(n / 10, width - 1) + [Digit(n % 10)]
  }

  lemma {:induction false} FixedLength(n: nat, width: nat)
    ensures |Fixed(n, width)| == width
    ensures forall i | 0 <= i < width :: SafeChar(Fixed(n, width)[i])
  {
    if width > 0 {
      FixedLength(n / 10, width - 1);
    }
  }

  lemma {:induction false} PadSnoc(s: string, c: char, width: nat)
    requires |s| <= width
    ensures PadZeros(s + [c], width + 1) == PadZeros(s, width) + [c]
    decreases width - |s|
  {
    if |s| < width {
      PadSnoc("0" + s, c, width);
      assert "0" + (s + [c]) == ("0" + s) + [c];
    }
  }

  lemma {:induction false} DecimalWidth(n: nat, width: nat)
    requires width >= 1
    ensures |Decimal(n)| <= width <==> n < Pow10(width)
  {
    if n >= 10 {
      if width == 1 {
        assert Pow10(1) == 10;
        assert |Decimal(n / 10)| >= 1;
      } else {
        DecimalWidth(n / 10, width - 1);
      }
    } else {
      PowAtLeast10(width);
    }
  }

  lemma {:induction false} PowAtLeast10(k: nat)
    requires k >= 1
    ensures Pow10(k) >= 10
  {
    if k > 1 {
      PowAtLeast10(k - 1);
    }
  }

  lemma {:induction false} PadZero(width: nat)
    requires width >= 1
    ensures PadZeros("0", width) == Fixed(0, width)
  {
    if width > 1 {
      PadZero(width - 1);
      PadSnoc("", '0', width - 1);
      ZeroPads(width - 1);
      assert "" + ['0'] == "0" && Digit(0) == '0';
      assert Fixed(0, width) == Fixed(0, width - 1) + ['0'];
    } else {
      assert Fixed(0, 1) == "" + ['0'];
    }
  }

  lemma {:induction false} ZeroPads(width: nat)
    requires width >= 1
    ensures PadZeros("", width) == PadZeros("0", width)
  {
    assert "0" + "" == "0";
  }

  /** Padding a number that fits gives its fixed-width form. */
  lemma {:induction false} PaddedIsFixed(n: nat, width: nat)
    requires width >= 1 && n < Pow10(width)
    ensures PadZeros(Decimal(n), width) == Fixed(n, width)
  {
    DecimalWidth(n, width);
    if n >= 10 {
      assert width > 1;
      PaddedIsFixed(n / 10, width - 1);
      DecimalWidth(n / 10, width - 1);
      PadSnoc(Decimal(n / 10), Digit(n % 10), width - 1);
    } else if width > 1 {
      assert n / 10 == 0;
      PadZero(width - 1);
      ZeroPads(width - 1);
      PadSnoc("", Digit(n), width - 1);
      assert "" + [Digit(n)] == [Digit(n)];
    } else {
      assert Fixed(n, 1) == "" + [Digit(n)];
    }
  }

  // ----- numeric order is text order -----

  predicate TextBefore(a: string, b: string) {
    StringLe(a, b) && a != b
  }

  lemma {:induction false} SnocOrder(a: string, b: string, c: char, d: char)
    requires |a| == |b|
    ensures TextBefore(a, b) ==> TextBefore(a + [c], b + [d])
    ensures a == b && c < d ==> TextBefore(a + [c], b + [d])
  {
    if a != "" {
      assert (a + [c])[1..] == a[1..] + [c] && (b + [d])[1..] == b[1..] + [d];
      SnocOrder(a[1..], b[1..], c, d);
      assert a == [a[0]] + a[1..] && b == [b[0]] + b[1..];
      assert TextBefore(a, b) ==> a + [c] != b + [d] by {
        assert (a + [c])[..|a|] == a && (b + [d])[..|b|] == b;
      }
    } else {
      assert "" + [c] == [c] && "" + [d] == [d];
    }
  }

  lemma {:induction false} FixedOrder(m: nat, n: nat, width: nat)
    requires m < n < Pow10(width)
    ensures TextBefore(Fixed(m, width), Fixed(n, width))
  {
    FixedLength(m / 10, width - 1);
    FixedLength(n / 10, width - 1);
    if m / 10 < n / 10 {
      FixedOrder(m / 10, n / 10, width - 1);
    }
    SnocOrder(Fixed(m / 10, width - 1), Fixed(n / 10, width - 1), Digit(m % 10), Digit(n % 10));
  }

  lemma {:induction false} SharedPrefixOrder(p: string, a: string, b: string)
    requires TextBefore(a, b)
    ensures TextBefore(p + a, p + b)
  {
    if p == "" {
      assert p + a == a && p + b == b;
    } else {
      SharedPrefixOrder(p[1..], a, b);
      assert (p + a)[1..] == p[1..] + a && (p + b)[1..] == p[1..] + b;
      assert p + a == [p[0]] + (p[1..] + a) && p + b == [p[0]] + (p[1..] + b);
    }
  }

  lemma {:induction false} MembersAt(base: string, count: nat, n: nat)
    ensures |MembersUpTo(base, count, n)| == n
    ensures forall i | 0 <= i < n :: MembersUpTo(base, count, n)[i] == Member(i + 1, NameOf(base, i + 1, count))
  {
    if n > 0 {
      MembersAt(base, count, n - 1);
    }
  }

  lemma NamesAscend(base: string, m: nat, n: nat, count: nat)
    requires m < n <= count
    ensures TextBefore(NameOf(base, m, count), NameOf(base, n, count))
  {
    var width := |Decimal(count)|;
    DecimalWidth(count, width);
    PaddedIsFixed(m, width);
    PaddedIsFixed(n, width);
    FixedOrder(m, n, width);
    SharedPrefixOrder("-", Fixed(m, width), Fixed(n, width));
    SharedPrefixOrder(base, "-" + Fixed(m, width), "-" + Fixed(n, width));
  }

  /** A plan has exactly `count` members, numbered from one; their names differ, sort
      as text in the order of their numbers, and are themselves safe names. */
  lemma PlanIsCollisionFree(base: string, count: int, max: Option<int>)
    requires PlanRemoteFanout(base, count, max).Members?
    ensures var ms := PlanRemoteFanout(base, count, max).members;
            && |ms| == count
            && (forall i | 0 <= i < |ms| :: ms[i].index == i + 1 && SafeBase(ms[i].name))
            && (forall i, k | 0 <= i < k < |ms| :: TextBefore(ms[i].name, ms[k].name))
  {
    hide NameOf, StringLe, SafeChar;
    if count > 1 {
      MembersAt(base, count, count);
      var ms := MembersUpTo(base, count, count);
      forall i | 0 <= i < |ms|
        ensures SafeBase(ms[i].name)
      {
        NameIsSafe(base, i + 1, count);
      }
      forall i, k | 0 <= i < k < |ms|
        ensures TextBefore(ms[i].name, ms[k].name)
      {
        NamesAscend(base, i + 1, k + 1, count);
      }
    }
  }

  lemma NameIsSafe(base: string, n: nat, count: nat)
    requires SafeBase(base) && n <= count
    ensures SafeBase(NameOf(base, n, count))
  {
    hide PadZeros;
    var width := |Decimal(count)|;
    DecimalWidth(count, width);
    PaddedIsFixed(n, width);
    FixedLength(n, width);
  }

  // ----- what is planned, and under which names -----

  /** The number that a text of digits stands for. */
  function Value(s: string): nat {
    if s == "" then 0
    else 10 * Value(s[..|s| - 1]) + if '0' <= s[|s| - 1] <= '9' then s[|s| - 1] as nat - 48 else 0
  }

  lemma {:induction false} FixedValue(n: nat, width: nat)
    requires n < Pow10(width)
    ensures Value(Fixed(n, width)) == n
    ensures forall i | 0 <= i < |Fixed(n, width)| :: '0' <= Fixed(n, width)[i] <= '9'
  {
    if width > 0 {
      FixedValue(n / 10, width - 1);
      assert Fixed(n, width)[..|Fixed(n, width)| - 1] == Fixed(n / 10, width - 1);
    }
  }

  /** The text is `n` in digits, as many as the largest number needs. */
  ghost predicate NumberText(text: string, n: nat, largest: nat) {
    && Value(text) == n && (forall i | 0 <= i < |text| :: '0' <= text[i] <= '9')
    && text != "" && largest < Pow10(|text|) && (|text| > 1 ==> Pow10(|text| - 1) <= largest)
  }

  /** The base, a dash and the number. */
  ghost predicate Numbered(name: string, base: string, n: nat, count: nat) {
    exists text :: NumberText(text, n, count) && name == base + ("-" + text)
  }

  lemma NumberedName(base: string, n: nat, count: nat)
    requires n <= count
    ensures Numbered(NameOf(base, n, count), base, n, count)
  {
    hide PadZeros, Value;
    var width := |Decimal(count)|;
    DecimalWidth(count, width);
    if width > 1 {
      DecimalWidth(count, width - 1);
    }
    PaddedIsFixed(n, width);
    FixedLength(n, width);
    FixedValue(n, width);
    assert NumberText(Fixed(n, width), n, count);
  }

  /** A fan-out is planned exactly for a safe base and a count from one to the cap, 16
      unless another is given.  A single member keeps the bare base; of several, each is
      the base, a dash and its number, written with as many digits as the count. */
  lemma PlannedIff(base: string, count: int, max: Option<int>)
    ensures var plan := PlanRemoteFanout(base, count, max);
            && (plan.Members? <==> 1 <= count <= (if max.Some? then max.value else 16) && SafeBase(base))
            && (plan.Members? && count == 1 ==> plan.members == [Member(1, base)])
            && (plan.Members? && count > 1 ==>
                  forall i | 0 <= i < |plan.members| :: Numbered(plan.members[i].name, base, i + 1, count))
  {
    hide NameOf, Numbered, SafeBase;
    var plan := PlanRemoteFanout(base, count, max);
    if plan.Members? && count > 1 {
      MembersAt(base, count, count);
      forall i | 0 <= i < |plan.members|
        ensures Numbered(plan.members[i].name, base, i + 1, count)
      {
        NumberedName(base, i + 1, count);
      }
    }
  }
}
