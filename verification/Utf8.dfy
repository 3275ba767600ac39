/**
 UTF-8 (section 3 of RFC 3629) and its decoding as the runtime does it: ill-formed
 input gives a replacement character for each maximal part that could not be
 completed (Encoding Standard, section 8.1.1).  A `char` is a Unicode scalar value.
 */
module Utf8 {
  type Byte = x: int | 0 <= x < 256

  const REPLACEMENT: char := '\U{FFFD}'

  predicate Continuation(b: Byte) {
    0x80 <= b < 0xC0
  }

  // ----- encoding -----

  function EncodeOne(ch: char): (r: seq<Byte>)
    ensures 1 <= |r| <= 4 && !Continuation(r[0]) && forall i | 1 <= i < |r| :: Continuation(r[i])
    ensures |r| > 1 ==> forall i | 0 <= i < |r| :: r[i] >= 0x80
  {
    var c := ch as int;
    if c < 0x80 then [c]
    else if c < 0x800 then [0xC0 + c / 0x40, 0x80 + c % 0x40]
    else if c < 0x10000 then [0xE0 + c / 0x1000, 0x80 + c / 0x40 % 0x40, 0x80 + c % 0x40]
    else [0xF0 + c / 0x40000, 0x80 + c / 0x1000 % 0x40, 0x80 + c / 0x40 % 0x40, 0x80 + c % 0x40]
  }

  function Encode(text: string): seq<Byte> {
    if text == "" then [] else Encode(text[..|text| - 1]) + EncodeOne(text[|text| - 1])
  }

  lemma EncodeSnoc(text: string, c: char)
    ensures Encode(text + [c]) == Encode(text) + EncodeOne(c)
  {
    assert (text + [c])[..|text|] == text;
  }

  // ----- decoding -----

  /** The decoder between two bytes: between characters, or inside one of which
      `needed` more bytes are due, the next of them from `lower` to `upper`. */
  datatype State = Ready | Inside(code: nat, needed: nat, lower: int, upper: int)

  datatype Decoded = Decoded(state: State, out: string)

  function ToChar(code: nat): char {
    if code < 0xD800 || 0xE000 <= code < 0x110000 then code as char else REPLACEMENT
  }

  function Begin(b: Byte): Decoded {
    if b < 0x80 then Decoded(Ready, [b as char])
    else if 0xC2 <= b < 0xE0 then Decoded(Inside(b - 0xC0, 1, 0x80, 0xBF), "")
    else if 0xE0 <= b < 0xF0 then
      Decoded(Inside(b - 0xE0, 2, if b == 0xE0 then 0xA0 else 0x80, if b == 0xED then 0x9F else 0xBF), "")
    else if 0xF0 <= b < 0xF5 then
      Decoded(Inside(b - 0xF0, 3, if b == 0xF0 then 0x90 else 0x80, if b == 0xF4 then 0x8F else 0xBF), "")
    else Decoded(Ready, [REPLACEMENT])
  }

  /** `b` carries on the character the decoder is inside. */
  predicate Continues(s: State, b: Byte) {
    s.Inside? && s.lower <= b <= s.upper && Continuation(b)
  }

  /** What an unfinished character becomes when it is given up. */
  function Flush(s: State): string {
    if s.Inside? then [REPLACEMENT] else ""
  }

  function Feed(s: State, b: Byte): Decoded {
    if !Continues(s, b) then Decoded(Begin(b).state, Flush(s) + Begin(b).out)
    else
      var code := s.code * 0x40 + (b - 0x80);
      if s.needed <= 1 then Decoded(Ready, [ToChar(code)]) else Decoded(Inside(code, s.needed - 1, 0x80, 0xBF), "")
  }

  function FeedAll(s: State, bytes: seq<Byte>): Decoded {
    if bytes == [] then Decoded(s, "")
    else
      var before := FeedAll(s, bytes[..|bytes| - 1]);
      var next := Feed(before.state, bytes[|bytes| - 1]);
      Decoded(next.state, before.out + next.out)
  }

  /** The text of bytes of which no more follow, from a decoder state. */
  function Finish(s: State, bytes: seq<Byte>): string {
    FeedAll(s, bytes).out + Flush(FeedAll(s, bytes).state)
  }

  function Decode(bytes: seq<Byte>): string {
    Finish(Ready, bytes)
  }

  lemma {:induction false} FeedAppend(s: State, a: seq<Byte>, b: seq<Byte>)
    ensures var first := FeedAll(s, a);
            var second := FeedAll(first.state, b);
            FeedAll(s, a + b) == Decoded(second.state, first.out + second.out)
  {
    hide Feed;
    if b == [] {
      assert a + b == a;
    } else {
      var n := |b| - 1;
      FeedAppend(s, a, b[..n]);
      assert (a + b)[..|a + b| - 1] == a + b[..n];
    }
  }

  lemma FeedOne(s: State, b: Byte)
    ensures FeedAll(s, [b]) == Feed(s, b)
  {
    hide Feed;
    assert [b][..0] == [];
  }

  lemma FinishFirst(s: State, bytes: seq<Byte>)
    requires bytes != []
    ensures Finish(s, bytes) == Feed(s, bytes[0]).out + Finish(Feed(s, bytes[0]).state, bytes[1..])
  {
    hide Feed;
    FeedAppend(s, [bytes[0]], bytes[1..]);
    FeedOne(s, bytes[0]);
    assert [bytes[0]] + bytes[1..] == bytes;
  }

  lemma FinishAppend(a: seq<Byte>, b: seq<Byte>)
    ensures Decode(a + b) == FeedAll(Ready, a).out + Finish(FeedAll(Ready, a).state, b)
  {
    hide FeedAll, Flush;
    FeedAppend(Ready, a, b);
    Associates(FeedAll(Ready, a).out, FeedAll(FeedAll(Ready, a).state, b).out, Flush(FeedAll(Ready, a + b).state));
  }

  lemma Associates(a: string, b: string, c: string)
    ensures (a + b) + c == a + (b + c)
  {
  }

  // ----- reading back what was encoded -----

  lemma Digits(c: int)
    requires 0 <= c
    ensures c == c / 0x40 * 0x40 + c % 0x40
    ensures c / 0x40 == c / 0x1000 * 0x40 + c / 0x40 % 0x40
    ensures c / 0x1000 == c / 0x40000 * 0x40 + c / 0x1000 % 0x40
  {
    assert c / 0x40 / 0x40 == c / 0x1000 && c / 0x1000 / 0x40 == c / 0x40000;
  }

  /** The decoder states along the encoding of one character. */
  lemma FeedEncoded(c: char)
    ensures var r := EncodeOne(c);
            && (|r| == 1 ==> Feed(Ready, r[0]) == Decoded(Ready, [c]))
            && (|r| > 1 ==>
                  var s1 := Feed(Ready, r[0]);
                  && s1.out == "" && Continues(s1.state, r[1])
                  && var s2 := Feed(s1.state, r[1]);
                     && (|r| == 2 ==> s2 == Decoded(Ready, [c]))
                     && (|r| > 2 ==>
                           && s2.out == "" && Continues(s2.state, r[2])
                           && var s3 := Feed(s2.state, r[2]);
                              && (|r| == 3 ==> s3 == Decoded(Ready, [c]))
                              && (|r| > 3 ==> s3.out == "" && Continues(s3.state, r[3])
                                              && Feed(s3.state, r[3]) == Decoded(Ready, [c]))))
  {
    Digits(c as int);
  }

  /** The state after the first `k` bytes of one encoded character. */
  lemma FeedPart(c: char, k: nat)
    requires k <= |EncodeOne(c)|
    ensures var s := FeedAll(Ready, EncodeOne(c)[..k]);
            && (k == |EncodeOne(c)| ==> s == Decoded(Ready, [c]))
            && (0 < k < |EncodeOne(c)| ==> s.out == "" && Continues(s.state, EncodeOne(c)[k]))
  {
    hide EncodeOne, Feed, Continues;
    FeedEncoded(c);
    var r := EncodeOne(c);
    forall i | 0 < i <= k
      ensures FeedAll(Ready, r[..i]) ==
                var before := FeedAll(Ready, r[..i - 1]);
                var next := Feed(before.state, r[i - 1]); Decoded(next.state, before.out + next.out)
    {
      assert r[..i][..i - 1] == r[..i - 1];
    }
    assert FeedAll(Ready, r[..0]) == Decoded(Ready, "");
    EncodedSize(c);
    assert k >= 1 ==> FeedAll(Ready, r[..1]) == Feed(Ready, r[0]);
  }

  lemma EncodedSize(c: char)
    ensures 1 <= |EncodeOne(c)| <= 4
  {
  }

  /** Encoding text and decoding it gives the text, and leaves the decoder between characters. */
  lemma {:induction false} DecodeOfEncode(text: string)
    ensures FeedAll(Ready, Encode(text)) == Decoded(Ready, text)
    ensures Decode(Encode(text)) == text
  {
    hide EncodeOne, Feed;
    if text != "" {
      var rest, c := text[..|text| - 1], text[|text| - 1];
      DecodeOfEncode(rest);
      FeedAppend(Ready, Encode(rest), EncodeOne(c));
      FeedPart(c, |EncodeOne(c)|);
      assert EncodeOne(c)[..|EncodeOne(c)|] == EncodeOne(c);
    }
  }

  // ----- decoding in pieces -----

  /** A cut between `a` and `b` falls inside a character that `b` carries on. */
  predicate Splits(a: seq<Byte>, b: seq<Byte>) {
    b != [] && Continues(FeedAll(Ready, a).state, b[0])
  }

  /** Cut from its beginning, the rest of a character reads no shorter than carried on. */
  lemma {:induction false} TailIsNoShorter(s: State, b: seq<Byte>)
    requires b != [] && Continues(s, b[0])
    ensures |Finish(s, b)| <= |Finish(Ready, b)|
    decreases |b|, 0
  {
    FinishFirst(s, b);
    FinishFirst(Ready, b);
    var next, tail := Feed(s, b[0]).state, b[1..];
    assert Feed(Ready, b[0]) == Decoded(Ready, [REPLACEMENT]);
    if next.Inside? {
      FinishFrom(next, tail);
    }
  }

  lemma FinishFrom(s: State, b: seq<Byte>)
    requires s.Inside?
    ensures |Finish(s, b)| <= 1 + |Finish(Ready, b)|
    decreases |b|, 1
  {
    if b != [] {
      if Continues(s, b[0]) {
        TailIsNoShorter(s, b);
      } else {
        GivenUp(s, b);
      }
    }
  }

  lemma GivenUp(s: State, b: seq<Byte>)
    requires b == [] || !Continues(s, b[0])
    ensures Finish(s, b) == Flush(s) + Finish(Ready, b)
  {
    hide FeedAll;
    if b != [] {
      FinishFirst(s, b);
      FinishFirst(Ready, b);
    } else {
      NothingFed(s);
      NothingFed(Ready);
    }
  }

  /** A byte that does not carry on leaves a replacement character and starts afresh. */
  lemma FeedGivenUp(s: State, bytes: seq<Byte>)
    requires bytes != [] && !Continues(s, bytes[0])
    ensures FeedAll(s, bytes) == Decoded(FeedAll(Ready, bytes).state, Flush(s) + FeedAll(Ready, bytes).out)
  {
    hide FeedAll, Begin, Flush;
    var first, tail := bytes[0], bytes[1..];
    FeedAppend(s, [first], tail);
    FeedAppend(Ready, [first], tail);
    assert [first] + tail == bytes;
    FeedOne(s, first);
    FeedOne(Ready, first);
    ReadyBegins(first);
    Associates(Flush(s), Begin(first).out, FeedAll(Begin(first).state, tail).out);
  }

  lemma ReadyBegins(b: Byte)
    ensures Feed(Ready, b) == Begin(b)
  {
  }

  lemma NothingFed(s: State)
    ensures FeedAll(s, []) == Decoded(s, "")
  {
  }

  /** Two pieces decode to the text of the whole exactly when the cut splits no
      character; a cut that does makes the text longer. */
  lemma CutDecodes(a: seq<Byte>, b: seq<Byte>)
    ensures !Splits(a, b) ==> Decode(a) + Decode(b) == Decode(a + b)
    ensures Splits(a, b) ==> |Decode(a) + Decode(b)| > |Decode(a + b)|
  {
    hide Feed, FeedAll, Continues;
    var s := FeedAll(Ready, a).state;
    FinishAppend(a, b);
    if Splits(a, b) {
      TailIsNoShorter(s, b);
      assert s.Inside? by {
        InsideContinues(s, b[0]);
      }
    } else {
      GivenUp(s, b);
    }
  }

  lemma InsideContinues(s: State, b: Byte)
    ensures Continues(s, b) ==> s.Inside?
  {
  }

  function Flatten(pieces: seq<seq<Byte>>): seq<Byte> {
    if pieces == [] then [] else Flatten(pieces[..|pieces| - 1]) + pieces[|pieces| - 1]
  }

  /** Each piece decoded on its own. */
  function DecodePieces(pieces: seq<seq<Byte>>): string {
    if pieces == [] then "" else DecodePieces(pieces[..|pieces| - 1]) + Decode(pieces[|pieces| - 1])
  }

  /** The cut after the first `j` pieces splits a character. */
  predicate CutSplits(pieces: seq<seq<Byte>>, j: nat) {
    j <= |pieces| && Splits(Flatten(pieces[..j]), Flatten(pieces[j..]))
  }

  ghost predicate SomeCutSplits(pieces: seq<seq<Byte>>) {
    exists j: nat :: CutSplits(pieces, j)
  }

  lemma {:induction false} FlattenAppend(a: seq<seq<Byte>>, b: seq<seq<Byte>>)
    ensures Flatten(a + b) == Flatten(a) + Flatten(b)
  {
    if b == [] {
      assert a + b == a;
    } else {
      FlattenAppend(a, b[..|b| - 1]);
      assert (a + b)[..|a + b| - 1] == a + b[..|b| - 1];
    }
  }

  lemma FlattenOne(piece: seq<Byte>)
    ensures Flatten([piece]) == piece
  {
    var one: seq<seq<Byte>> := [piece];
    assert one[..0] == [];
  }

  /** A split among the pieces lies among the earlier ones, or before the last. */
  lemma SplitsStep(pieces: seq<seq<Byte>>)
    requires pieces != []
    ensures var rest, last := pieces[..|pieces| - 1], pieces[|pieces| - 1];
            SomeCutSplits(pieces) <==> SomeCutSplits(rest) || Splits(Flatten(rest), last)
  {
    hide Splits;
    var n := |pieces| - 1;
    var rest, last := pieces[..n], pieces[n];
    forall j: nat | j <= n
      ensures CutSplits(pieces, j) ==> CutSplits(rest, j) || Splits(Flatten(rest), last)
      ensures CutSplits(rest, j) ==> CutSplits(pieces, j)
    {
      SplitsAt(pieces, j);
    }
    assert pieces[n..] == [last];
    FlattenOne(last);
    assert CutSplits(pieces, n) == Splits(Flatten(rest), last);
    assert !CutSplits(pieces, n + 1) by {
      assert pieces[n + 1..] == [];
      NothingSplits(Flatten(pieces[..n + 1]));
    }
  }

  lemma NothingSplits(a: seq<Byte>)
    ensures !Splits(a, [])
  {
  }

  lemma SplitsAt(pieces: seq<seq<Byte>>, j: nat)
    requires pieces != [] && j < |pieces|
    ensures var rest, last := pieces[..|pieces| - 1], pieces[|pieces| - 1];
            && (CutSplits(pieces, j) ==> CutSplits(rest, j) || Splits(Flatten(rest), last))
            && (CutSplits(rest, j) ==> CutSplits(pieces, j))
  {
    hide Continues, FeedAll;
    var n := |pieces| - 1;
    var rest, last := pieces[..n], pieces[n];
    assert rest[..j] == pieces[..j] && rest[..j] + rest[j..] == rest;
    assert pieces[j..] == rest[j..] + [last];
    FlattenOne(last);
    FlattenAppend(rest[..j], rest[j..]);
    FlattenAppend(rest[j..], [last]);
    assert Flatten(pieces[j..]) == Flatten(rest[j..]) + last;
    if Flatten(rest[j..]) == [] {
      assert Flatten(rest) == Flatten(rest[..j]);
      assert Flatten(pieces[j..]) == last;
    }
  }

  /** Pieces decoded one by one give the text of the whole if and only if no cut
      between them splits a character. */
  lemma {:induction false} PiecesDecodeIff(pieces: seq<seq<Byte>>)
    ensures DecodePieces(pieces) == Decode(Flatten(pieces)) <==> !SomeCutSplits(pieces)
    ensures |DecodePieces(pieces)| >= |Decode(Flatten(pieces))|
  {
    hide Splits, SomeCutSplits, Decode;
    if pieces != [] {
      var rest, last := pieces[..|pieces| - 1], pieces[|pieces| - 1];
      PiecesDecodeIff(rest);
      SplitsStep(pieces);
      CutDecodes(Flatten(rest), last);
      SameEnd(DecodePieces(rest), Decode(Flatten(rest)), Decode(last));
    } else {
      NoCutYet();
    }
  }

  lemma SameEnd(a: string, b: string, end: string)
    ensures a + end == b + end <==> a == b
  {
    assert a == (a + end)[..|a + end| - |end|] && b == (b + end)[..|b + end| - |end|];
  }

  lemma NoCutYet()
    ensures !SomeCutSplits([]) && Decode([]) == ""
  {
    var none: seq<seq<Byte>> := [];
    forall j: nat
      ensures !CutSplits(none, j)
    {
      if j == 0 {
        NothingSplits(Flatten(none[..0]));
      }
    }
  }

  /** In well-formed text a cut splits a character exactly when a continuation byte follows it. */
  lemma {:induction false} SplitsBeforeContinuation(text: string, i: nat)
    requires i <= |Encode(text)|
    ensures Splits(Encode(text)[..i], Encode(text)[i..]) <==> i < |Encode(text)| && Continuation(Encode(text)[i])
  {
    hide EncodeOne, FeedAll, Continues;
    if i < |Encode(text)| {
      var rest, c := text[..|text| - 1], text[|text| - 1];
      var e, r := Encode(rest), EncodeOne(c);
      if i < |e| {
        SplitsBeforeContinuation(rest, i);
        assert Encode(text)[..i] == e[..i];
      } else {
        var k := i - |e|;
        assert Encode(text)[..i] == e + r[..k];
        FeedAppend(Ready, e, r[..k]);
        DecodeOfEncode(rest);
        FeedPart(c, k);
        PartContinues(c, k);
      }
    }
  }

  lemma PartContinues(c: char, k: nat)
    requires k < |EncodeOne(c)|
    ensures Continuation(EncodeOne(c)[k]) <==> k > 0
    ensures k == 0 ==> !Continues(FeedAll(Ready, EncodeOne(c)[..k]).state, EncodeOne(c)[k])
  {
  }

  // ----- plain characters -----

  /** Long forms of short characters are refused: what is carried on ends at 0x80 or above. */
  predicate NoLongForm(s: State) {
    s.Inside? ==> if s.needed <= 1 then s.code >= 2 else s.code * 0x40 + (s.lower - 0x80) >= 2
  }

  lemma FeedPlain(s: State, b: Byte, c: char)
    requires NoLongForm(s)
    ensures NoLongForm(Feed(s, b).state)
    ensures c in Feed(s, b).out && c as int < 0x80 ==> c as int == b
  {
    if Continues(s, b) && s.needed <= 1 {
      assert s.code * 0x40 + (b - 0x80) >= 0x80;
    }
  }

  /** A plain character of the text is a byte of the input. */
  lemma {:induction false} PlainIsTyped(bytes: seq<Byte>, c: char)
    requires c as int < 0x80
    ensures c in FeedAll(Ready, bytes).out ==> c as int in bytes
    ensures NoLongForm(FeedAll(Ready, bytes).state)
    ensures c in Decode(bytes) ==> c as int in bytes
  {
    hide Feed, NoLongForm;
    if bytes != [] {
      var n := |bytes| - 1;
      PlainIsTyped(bytes[..n], c);
      FeedPlain(FeedAll(Ready, bytes[..n]).state, bytes[n], c);
    } else {
      FeedNothing();
    }
  }

  /** A plain byte of the input is a character of the text. */
  lemma TypedIsPlain(bytes: seq<Byte>, b: Byte)
    requires b < 0x80 && b in bytes
    ensures b as char in Decode(bytes)
  {
    hide FeedAll;
    TypedGoesOut(bytes, b);
  }

  lemma {:induction false} TypedGoesOut(bytes: seq<Byte>, b: Byte)
    requires b < 0x80 && b in bytes
    ensures b as char in FeedAll(Ready, bytes).out
  {
    hide Feed;
    var n := |bytes| - 1;
    assert bytes == bytes[..n] + [bytes[n]];
    if bytes[n] == b {
      PlainGoesOut(FeedAll(Ready, bytes[..n]).state, b);
    } else {
      TypedGoesOut(bytes[..n], b);
    }
  }

  lemma PlainGoesOut(s: State, b: Byte)
    requires b < 0x80
    ensures b as char in Feed(s, b).out
  {
    var out := Flush(s) + Begin(b).out;
    assert out[|Flush(s)|] == b as char;
  }

  lemma FeedNothing()
    ensures FeedAll(Ready, []) == Decoded(Ready, "") && NoLongForm(Ready)
  {
  }

  lemma DecodeOnePiece(piece: seq<Byte>)
    ensures DecodePieces([piece]) == Decode(piece)
  {
    var one: seq<seq<Byte>> := [piece];
    assert one[..0] == [];
  }

  lemma LetterDecodes()
    ensures Decode([0xC3, 0xA9]) == "\U{E9}"
    ensures Decode([0xC3]) == Decode([0xA9]) == [REPLACEMENT]
  {
    assert Encode("\U{E9}") == [0xC3, 0xA9] by {
      assert "\U{E9}"[..0] == "";
    }
    DecodeOfEncode("\U{E9}");
    FeedOne(Ready, 0xC3);
    FeedOne(Ready, 0xA9);
  }
}
