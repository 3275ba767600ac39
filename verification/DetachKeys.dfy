/**
 The detach sequence of an attached terminal (packages/h2a-runtime/src/attach.ts):
 Ctrl-P is held back until the next byte or a timer decides what it was; Ctrl-P
 Ctrl-Q closes the attachment, everything else is passed on.  Bytes are gathered
 and handed on piece by piece, each piece decoded on its own.
 */
module DetachKeys {
  import opened Utf8

  const CTRL_P: Byte := 0x10
  const CTRL_Q: Byte := 0x11

  // ----- one input at a time -----

  /** What reaches the automaton: a byte typed, the end of a chunk, or the timer of a held Ctrl-P. */
  datatype Input = Key(byte: Byte) | ChunkEnd | Timer

  /** `pieces` have been handed to the posting queue, `passthrough` waits to be. */
  datatype Keyboard = Keyboard(pending: bool, closed: bool, pieces: seq<seq<Byte>>, passthrough: seq<Byte>) {
    function Flushed(): Keyboard {
      if passthrough == [] then this else this.(pieces := pieces + [passthrough], passthrough := [])
    }

    /** All bytes passed on so far. */
    function Sent(): seq<Byte> {
      Flatten(pieces) + passthrough
    }

    /** The text that arrives once the passthrough has been handed on. */
    function Text(): string {
      DecodePieces(Flushed().pieces)
    }
  }

  const FRESH := Keyboard(false, false, [], [])

  function Press(k: Keyboard, b: Byte): Keyboard {
    if k.closed then k
    else if k.pending then
      if b == CTRL_Q then k.Flushed().(pending := false, closed := true)
      else k.(pending := false, passthrough := k.passthrough + [CTRL_P, b])
    else if b == CTRL_P then k.Flushed().(pending := true)
    else k.(passthrough := k.passthrough + [b])
  }

  function EndChunk(k: Keyboard): Keyboard {
    if k.closed then k else k.Flushed()
  }

  function Fire(k: Keyboard): Keyboard {
    if k.closed || !k.pending then k else k.(pending := false, pieces := k.pieces + [[CTRL_P]])
  }

  function Step(k: Keyboard, i: Input): Keyboard {
    match i
    case Key(b) => Press(k, b)
    case ChunkEnd => EndChunk(k)
    case Timer => Fire(k)
  }

  function Run(k: Keyboard, inputs: seq<Input>): Keyboard {
    if inputs == [] then k else Step(Run(k, inputs[..|inputs| - 1]), inputs[|inputs| - 1])
  }

  lemma {:induction false} RunAppend(k: Keyboard, a: seq<Input>, b: seq<Input>)
    ensures Run(k, a + b) == Run(Run(k, a), b)
  {
    if b == [] {
      assert a + b == a;
    } else {
      RunAppend(k, a, b[..|b| - 1]);
      assert (a + b)[..|a + b| - 1] == a + b[..|b| - 1];
    }
  }

  lemma {:induction false} ClosedStays(k: Keyboard, inputs: seq<Input>)
    requires k.closed
    ensures Run(k, inputs) == k
  {
    if inputs != [] {
      ClosedStays(k, inputs[..|inputs| - 1]);
    }
  }

  // ----- no byte is lost, none is added -----

  /** The bytes typed. */
  function Typed(inputs: seq<Input>): seq<Byte> {
    if inputs == [] then []
    else
      Typed(inputs[..|inputs| - 1]) +
      match inputs[|inputs| - 1] case Key(b) => [b] case _ => []
  }

  function Held(k: Keyboard): seq<Byte> {
    if k.pending then [CTRL_P] else []
  }

  /** Ctrl-P keys at the end of the input; a timer starts the count again. */
  function TrailingP(inputs: seq<Input>): nat {
    if inputs == [] then 0
    else
      match inputs[|inputs| - 1]
      case Key(b) => if b == CTRL_P then TrailingP(inputs[..|inputs| - 1]) + 1 else 0
      case ChunkEnd => TrailingP(inputs[..|inputs| - 1])
      case Timer => 0
  }

  /** Ctrl-Q directly after an odd number of Ctrl-P keys. */
  predicate DetachesAt(inputs: seq<Input>, k: nat) {
    k < |inputs| && inputs[k] == Key(CTRL_Q) && TrailingP(inputs[..k]) % 2 == 1
  }

  ghost predicate Detaches(inputs: seq<Input>) {
    exists k: nat :: DetachesAt(inputs, k)
  }

  lemma DetachesStep(inputs: seq<Input>)
    requires inputs != []
    ensures var n := |inputs| - 1;
            Detaches(inputs) <==> Detaches(inputs[..n]) || DetachesAt(inputs, n)
  {
    hide TrailingP;
    var n := |inputs| - 1;
    forall k: nat | k < n
      ensures DetachesAt(inputs[..n], k) <==> DetachesAt(inputs, k)
    {
      assert inputs[..n][..k] == inputs[..k];
    }
    if Detaches(inputs) {
      var k: nat :| DetachesAt(inputs, k);
      assert k < n ==> DetachesAt(inputs[..n], k);
    }
    if Detaches(inputs[..n]) {
      var k: nat :| DetachesAt(inputs[..n], k);
      assert DetachesAt(inputs, k);
    }
  }

  lemma FlushedSendsTheSame(k: Keyboard)
    ensures k.Flushed().Sent() == k.Sent() && k.Flushed().passthrough == []
  {
    assert (k.pieces + [k.passthrough])[..|k.pieces|] == k.pieces;
  }

  lemma FireSends(k: Keyboard)
    requires k.pending && !k.closed && k.passthrough == []
    ensures Fire(k).Sent() == k.Sent() + [CTRL_P]
  {
    var one: seq<Byte> := [CTRL_P];
    assert (k.pieces + [one])[..|k.pieces|] == k.pieces;
  }

  /** At every moment before the detach, the bytes passed on and the held Ctrl-P make
      up exactly what was typed, in order, and Ctrl-P is held exactly after an odd run. */
  lemma {:induction false} NothingLost(inputs: seq<Input>)
    ensures var k := Run(FRESH, inputs);
            && (k.closed <==> Detaches(inputs))
            && (!k.closed ==> k.Sent() + Held(k) == Typed(inputs))
            && (!k.closed ==> (k.pending <==> TrailingP(inputs) % 2 == 1))
            && (k.pending ==> k.passthrough == [])
  {
    hide Detaches, Flatten;
    if inputs == [] {
      NoDetachYet();
    } else {
      var n := |inputs| - 1;
      NothingLost(inputs[..n]);
      DetachesStep(inputs);
      var before, after := Run(FRESH, inputs[..n]), Run(FRESH, inputs);
      FlushedSendsTheSame(before);
      if before.pending && !before.closed {
        FireSends(before);
      }
      if !after.closed {
        assert after.Sent() + Held(after) ==
               before.Sent() + Held(before) + match inputs[n] case Key(b) => [b] case _ => [];
      }
    }
  }

  lemma NoDetachYet()
    ensures !Detaches([]) && Flatten([]) == []
  {
  }

  /** The first Ctrl-Q after an odd run detaches: exactly the bytes before the pair
      have been passed on, and nothing that comes later ever is. */
  lemma DetachSendsThePrefix(inputs: seq<Input>, k: nat)
    requires DetachesAt(inputs, k) && forall j: nat | j < k :: !DetachesAt(inputs, j)
    ensures var end := Run(FRESH, inputs);
            && end.closed && end == Run(FRESH, inputs[..k + 1])
            && end.Sent() + [CTRL_P, CTRL_Q] == Typed(inputs[..k + 1])
  {
    hide Flatten;
    forall j: nat | j < k
      ensures !DetachesAt(inputs[..k], j)
    {
      assert inputs[..k][..j] == inputs[..j];
      assert !DetachesAt(inputs, j);
    }
    assert !Detaches(inputs[..k]);
    NothingLost(inputs[..k]);
    FlushedSendsTheSame(Run(FRESH, inputs[..k]));
    assert inputs[..k + 1][..k] == inputs[..k];
    assert Run(FRESH, inputs[..k + 1]) == Press(Run(FRESH, inputs[..k]), CTRL_Q);
    RunAppend(FRESH, inputs[..k + 1], inputs[k + 1..]);
    assert inputs[..k + 1] + inputs[k + 1..] == inputs;
    ClosedStays(Run(FRESH, inputs[..k + 1]), inputs[k + 1..]);
  }

  // ----- the text that arrives -----

  /** Nothing has been typed since a chunk ended. */
  predicate AtChunkStart(inputs: seq<Input>) {
    inputs != [] &&
    match inputs[|inputs| - 1]
    case Key(_) => false
    case ChunkEnd => true
    case Timer => AtChunkStart(inputs[..|inputs| - 1])
  }

  /** The `i`-th input is the first byte of a chunk and carries on a character of the one before. */
  predicate CarriesOverAt(inputs: seq<Input>, i: nat) {
    && i < |inputs| && inputs[i].Key?
    && AtChunkStart(inputs[..i])
    && Splits(Typed(inputs[..i]), [inputs[i].byte])
  }

  ghost predicate CarriesOver(inputs: seq<Input>) {
    exists i: nat :: CarriesOverAt(inputs, i)
  }

  lemma CarriesOverStep(inputs: seq<Input>)
    requires inputs != []
    ensures var n := |inputs| - 1;
            CarriesOver(inputs) <==> CarriesOver(inputs[..n]) || CarriesOverAt(inputs, n)
  {
    hide AtChunkStart, Splits, Typed;
    var n := |inputs| - 1;
    forall i: nat | i < n
      ensures CarriesOverAt(inputs[..n], i) <==> CarriesOverAt(inputs, i)
    {
      assert inputs[..n][..i] == inputs[..i];
    }
    if CarriesOver(inputs) {
      var i: nat :| CarriesOverAt(inputs, i);
      assert i < n ==> CarriesOverAt(inputs[..n], i);
    }
    if CarriesOver(inputs[..n]) {
      var i: nat :| CarriesOverAt(inputs[..n], i);
      assert CarriesOverAt(inputs, i);
    }
  }

  /** The inputs up to the detach; all of them when there is none. */
  function UpToDetach(inputs: seq<Input>): seq<Input> {
    if inputs != [] && Run(FRESH, inputs[..|inputs| - 1]).closed then UpToDetach(inputs[..|inputs| - 1]) else inputs
  }

  /** Between chunk ends the passthrough only grows; where it is empty a chunk has
      just ended, Ctrl-P is held, or no character is unfinished. */
  lemma {:induction false} ChunkStarts(inputs: seq<Input>)
    requires !Run(FRESH, inputs).closed
    ensures var k := Run(FRESH, inputs);
            && (k.passthrough != [] ==> !AtChunkStart(inputs))
            && (k.passthrough == [] && !k.pending && !AtChunkStart(inputs) ==> NeverSplits(k.Sent()))
  {
    hide Flatten, NeverSplits;
    if inputs == [] {
      NoDetachYet();
      assert FRESH.Sent() == [];
      AsciiNeverSplits([]);
    } else {
      var n := |inputs| - 1;
      var before := Run(FRESH, inputs[..n]);
      ChunkStarts(inputs[..n]);
      NothingLost(inputs[..n]);
      if before.pending {
        FireSends(before);
        AsciiNeverSplits(before.Sent() + [CTRL_P]);
      }
    }
  }

  ghost predicate NeverSplits(a: seq<Byte>) {
    forall b: seq<Byte> :: !Splits(a, b)
  }

  lemma AsciiNeverSplits(a: seq<Byte>)
    requires a == [] || a[|a| - 1] < 0x80
    ensures NeverSplits(a)
  {
  }

  lemma LeadNeverSplits(a: seq<Byte>, b: seq<Byte>)
    requires b != [] && !Continuation(b[0])
    ensures !Splits(a, b)
  {
  }

  lemma SplitsByFirst(a: seq<Byte>, b: seq<Byte>, c: seq<Byte>)
    requires b != [] && c != [] && b[0] == c[0]
    ensures Splits(a, b) <==> Splits(a, c)
  {
  }

  lemma LastPiece(pieces: seq<seq<Byte>>, last: seq<Byte>)
    ensures SomeCutSplits(pieces + [last]) <==> SomeCutSplits(pieces) || Splits(Flatten(pieces), last)
  {
    hide SomeCutSplits, Splits;
    SplitsStep(pieces + [last]);
    assert (pieces + [last])[..|pieces|] == pieces;
  }

  /** The cuts between the pieces that split a character are the chunk ends that do. */
  lemma {:induction false} PiecesSplitAtChunkEnds(inputs: seq<Input>)
    ensures SomeCutSplits(Run(FRESH, inputs).Flushed().pieces) <==> CarriesOver(UpToDetach(inputs))
  {
    hide Splits, SomeCutSplits, Flatten, CarriesOver;
    if inputs == [] {
      NoCutYet();
      NothingCarried();
    } else {
      var n := |inputs| - 1;
      var before := Run(FRESH, inputs[..n]);
      PiecesSplitAtChunkEnds(inputs[..n]);
      if !before.closed {
        CarriesOverStep(inputs);
        NothingLost(inputs[..n]);
        match inputs[n]
        case Key(b) => PressSplits(inputs);
        case ChunkEnd =>
        case Timer =>
          if before.pending {
            LastPiece(before.pieces, [CTRL_P]);
            LeadNeverSplits(Flatten(before.pieces), [CTRL_P]);
          }
      }
    }
  }

  lemma NothingCarried()
    ensures !CarriesOver([])
  {
  }

  lemma PressSplits(inputs: seq<Input>)
    requires inputs != [] && inputs[|inputs| - 1].Key? && !Run(FRESH, inputs[..|inputs| - 1]).closed
    ensures var n := |inputs| - 1;
            SomeCutSplits(Run(FRESH, inputs).Flushed().pieces) <==>
              SomeCutSplits(Run(FRESH, inputs[..n]).Flushed().pieces) || CarriesOverAt(inputs, n)
  {
    hide Splits, SomeCutSplits, NeverSplits, Press, AtChunkStart;
    var n := |inputs| - 1;
    NothingLost(inputs[..n]);
    ChunkStarts(inputs[..n]);
    KeySplits(Run(FRESH, inputs[..n]), inputs[n].byte, Typed(inputs[..n]), AtChunkStart(inputs[..n]));
  }

  lemma KeySplits(k: Keyboard, b: Byte, typed: seq<Byte>, atStart: bool)
    requires !k.closed && (k.pending ==> k.passthrough == []) && k.Sent() + Held(k) == typed
    requires k.passthrough != [] ==> !atStart
    requires k.passthrough == [] && !k.pending && !atStart ==> NeverSplits(k.Sent())
    ensures SomeCutSplits(Press(k, b).Flushed().pieces) <==>
              SomeCutSplits(k.Flushed().pieces) || (atStart && Splits(typed, [b]))
  {
    hide Splits, SomeCutSplits, Flatten;
    if k.pending {
      AsciiNeverSplits(typed);
      assert k.passthrough + [CTRL_P, b] == [CTRL_P, b];
      LastPiece(k.pieces, [CTRL_P, b]);
      LeadNeverSplits(Flatten(k.pieces), [CTRL_P, b]);
    } else if b == CTRL_P {
      LeadNeverSplits(typed, [b]);
    } else if k.passthrough != [] {
      LastPiece(k.pieces, k.passthrough + [b]);
      LastPiece(k.pieces, k.passthrough);
      SplitsByFirst(Flatten(k.pieces), k.passthrough, k.passthrough + [b]);
    } else {
      LastPiece(k.pieces, [b]);
      assert k.passthrough + [b] == [b] && typed == k.Sent() == Flatten(k.pieces);
      assert !atStart ==> !Splits(k.Sent(), [b]);
    }
  }

  /** The text that arrives is the decoding of the bytes passed on if and only if no
      chunk before the detach begins inside a character. */
  lemma TextIsIntactIff(inputs: seq<Input>)
    ensures var k := Run(FRESH, inputs);
            k.Text() == Decode(k.Sent()) <==> !CarriesOver(UpToDetach(inputs))
  {
    hide SomeCutSplits, CarriesOver, UpToDetach, Decode;
    var k := Run(FRESH, inputs);
    PiecesSplitAtChunkEnds(inputs);
    PiecesDecodeIff(k.Flushed().pieces);
    FlushedSendsTheSame(k);
    assert Flatten(k.Flushed().pieces) == k.Sent();
  }

  lemma {:induction false} TypedAt(inputs: seq<Input>, i: nat)
    requires i < |inputs| && inputs[i].Key?
    ensures var before := Typed(inputs[..i]);
            |before| < |Typed(inputs)| && before == Typed(inputs)[..|before|]
            && Typed(inputs)[|before|] == inputs[i].byte
  {
    var n := |inputs| - 1;
    if i < n {
      TypedAt(inputs[..n], i);
      assert inputs[..n][..i] == inputs[..i];
    }
  }

  /** When the bytes typed are well-formed text, a chunk begins inside a character
      exactly when its first byte is a continuation byte. */
  lemma CarriesOverInText(inputs: seq<Input>, text: string, i: nat)
    requires Typed(inputs) == Encode(text)
    ensures CarriesOverAt(inputs, i) <==>
              i < |inputs| && inputs[i].Key? && AtChunkStart(inputs[..i]) && Continuation(inputs[i].byte)
  {
    hide FeedAll, Continues, EncodeOne;
    if i < |inputs| && inputs[i].Key? {
      TypedAt(inputs, i);
      var before := Typed(inputs[..i]);
      SplitsBeforeContinuation(text, |before|);
      SplitsByFirst(before, Typed(inputs)[|before|..], [inputs[i].byte]);
    }
  }

  // ----- chunks -----

  function Keys(bytes: seq<Byte>): seq<Input> {
    if bytes == [] then [] else Keys(bytes[..|bytes| - 1]) + [Key(bytes[|bytes| - 1])]
  }

  function ChunkInputs(chunks: seq<seq<Byte>>): seq<Input> {
    if chunks == [] then [] else ChunkInputs(chunks[..|chunks| - 1]) + Keys(chunks[|chunks| - 1]) + [ChunkEnd]
  }

  /** The same state but for where the pieces are cut. */
  predicate Alike(k: Keyboard, l: Keyboard) {
    k.pending == l.pending && k.closed == l.closed && k.Sent() == l.Sent()
  }

  lemma PressAlike(k: Keyboard, l: Keyboard, b: Byte)
    requires Alike(k, l)
    ensures Alike(Press(k, b), Press(l, b))
  {
    hide Flatten;
    FlushedSendsTheSame(k);
    FlushedSendsTheSame(l);
    if k.pending {
      assert Press(k, b).Sent() == if k.closed || b == CTRL_Q then k.Sent() else k.Sent() + [CTRL_P, b];
      assert Press(l, b).Sent() == if k.closed || b == CTRL_Q then l.Sent() else l.Sent() + [CTRL_P, b];
    } else {
      assert Press(k, b).Sent() == if k.closed || b == CTRL_P then k.Sent() else k.Sent() + [b];
      assert Press(l, b).Sent() == if k.closed || b == CTRL_P then l.Sent() else l.Sent() + [b];
    }
  }

  lemma KeysSnoc(bytes: seq<Byte>, b: Byte)
    ensures Keys(bytes + [b]) == Keys(bytes) + [Key(b)]
  {
    assert (bytes + [b])[..|bytes|] == bytes;
  }

  lemma {:induction false} OnlyBytesMatter(inputs: seq<Input>)
    requires Timer !in inputs
    ensures Alike(Run(FRESH, inputs), Run(FRESH, Keys(Typed(inputs))))
  {
    hide Flatten, Press;
    if inputs != [] {
      var n := |inputs| - 1;
      OnlyBytesMatter(inputs[..n]);
      match inputs[n]
      case Key(b) =>
        KeysSnoc(Typed(inputs[..n]), b);
        PressAlike(Run(FRESH, inputs[..n]), Run(FRESH, Keys(Typed(inputs[..n]))), b);
      case ChunkEnd =>
        FlushedSendsTheSame(Run(FRESH, inputs[..n]));
        assert Typed(inputs) == Typed(inputs[..n]);
      case Timer => assert false;
    }
  }

  lemma {:induction false} TypedAppend(a: seq<Input>, b: seq<Input>)
    ensures Typed(a + b) == Typed(a) + Typed(b)
  {
    if b == [] {
      assert a + b == a;
    } else {
      TypedAppend(a, b[..|b| - 1]);
      assert (a + b)[..|a + b| - 1] == a + b[..|b| - 1];
    }
  }

  lemma {:induction false} KeysAreTyped(bytes: seq<Byte>)
    ensures Typed(Keys(bytes)) == bytes && forall i | i in Keys(bytes) :: i.Key?
  {
    if bytes != [] {
      KeysAreTyped(bytes[..|bytes| - 1]);
    }
  }

  lemma {:induction false} ChunksAreTyped(chunks: seq<seq<Byte>>)
    ensures Typed(ChunkInputs(chunks)) == Flatten(chunks) && Timer !in ChunkInputs(chunks)
  {
    if chunks != [] {
      var rest, last := chunks[..|chunks| - 1], chunks[|chunks| - 1];
      ChunksAreTyped(rest);
      KeysAreTyped(last);
      TypedAppend(ChunkInputs(rest), Keys(last));
      TypedAppend(ChunkInputs(rest) + Keys(last), [ChunkEnd]);
      assert Typed([ChunkEnd]) == [] + Typed([ChunkEnd][..0]);
    }
  }

  lemma {:induction false} UpToDetachIsPrefix(inputs: seq<Input>)
    ensures UpToDetach(inputs) <= inputs
  {
    if inputs != [] {
      UpToDetachIsPrefix(inputs[..|inputs| - 1]);
    }
  }

  /** A single chunk has no byte that carries over. */
  lemma OneChunkIsIntact(bytes: seq<Byte>)
    ensures !CarriesOver(UpToDetach(ChunkInputs([bytes])))
  {
    var one: seq<seq<Byte>> := [bytes];
    assert ChunkInputs(one) == Keys(bytes) + [ChunkEnd] by {
      assert one[..0] == [];
    }
    KeysAreTyped(bytes);
    UpToDetachIsPrefix(ChunkInputs(one));
    var u := UpToDetach(ChunkInputs(one));
    forall i: nat
      ensures !CarriesOverAt(u, i)
    {
      if 0 < i < |u| && u[i].Key? {
        assert u[i - 1] == Keys(bytes)[i - 1];
        assert u[..i][i - 1] == u[i - 1];
      }
    }
  }

  /** Without timer firings, whether the client detaches, which bytes it passes on and
      whether a Ctrl-P is held do not depend on how the bytes were chunked; the text
      that arrives is the same as from one chunk if and only if no chunk before the
      detach begins inside a character. */
  lemma ChunkingIsInvisibleIff(chunks: seq<seq<Byte>>)
    ensures var cut := Run(FRESH, ChunkInputs(chunks));
            var whole := Run(FRESH, ChunkInputs([Flatten(chunks)]));
            && Alike(cut, whole)
            && (cut.Text() == whole.Text() <==> !CarriesOver(UpToDetach(ChunkInputs(chunks))))
  {
    hide Flatten, CarriesOver, Decode, UpToDetach;
    var bytes := Flatten(chunks);
    ChunksAreTyped(chunks);
    ChunksAreTyped([bytes]);
    FlattenOne(bytes);
    OnlyBytesMatter(ChunkInputs(chunks));
    OnlyBytesMatter(ChunkInputs([bytes]));
    TextIsIntactIff(ChunkInputs(chunks));
    TextIsIntactIff(ChunkInputs([bytes]));
    OneChunkIsIntact(bytes);
  }

  lemma {:induction false} OrdinaryKeys(k: Keyboard, bytes: seq<Byte>)
    requires !k.closed && !k.pending && CTRL_P !in bytes
    ensures Run(k, Keys(bytes)) == k.(passthrough := k.passthrough + bytes)
  {
    if bytes != [] {
      var n := |bytes| - 1;
      assert bytes == bytes[..n] + [bytes[n]];
      OrdinaryKeys(k, bytes[..n]);
      assert k.passthrough + bytes[..n] + [bytes[n]] == k.passthrough + bytes;
    } else {
      assert k.passthrough + bytes == k.passthrough;
    }
  }

  /** Without Ctrl-P each chunk is handed on as it is. */
  lemma {:induction false} OrdinaryChunks(chunks: seq<seq<Byte>>)
    requires forall i | 0 <= i < |chunks| :: chunks[i] != [] && CTRL_P !in chunks[i]
    ensures Run(FRESH, ChunkInputs(chunks)) == FRESH.(pieces := chunks)
  {
    if chunks != [] {
      var rest, last := chunks[..|chunks| - 1], chunks[|chunks| - 1];
      assert chunks == rest + [last];
      OrdinaryChunks(rest);
      OrdinaryKeys(FRESH.(pieces := rest), last);
      RunAppend(FRESH, ChunkInputs(rest), Keys(last));
      RunAppend(FRESH, ChunkInputs(rest) + Keys(last), [ChunkEnd]);
      assert [ChunkEnd][..0] == [] && [] + last == last;
      assert Run(FRESH, ChunkInputs(chunks)) == EndChunk(FRESH.(pieces := rest, passthrough := last));
    }
  }

  /** A letter of two bytes that arrives in two chunks is passed on as two replacement characters. */
  lemma CutLetterIsGarbled()
    ensures Run(FRESH, ChunkInputs([[0xC3, 0xA9]])).Text() == "\U{E9}"
    ensures Run(FRESH, ChunkInputs([[0xC3], [0xA9]])).Text() == [REPLACEMENT, REPLACEMENT]
  {
    hide Decode, ChunkInputs;
    var lead: seq<Byte>, tail: seq<Byte>, both: seq<Byte> := [0xC3], [0xA9], [0xC3, 0xA9];
    OrdinaryChunks([both]);
    OrdinaryChunks([lead, tail]);
    LetterDecodes();
    DecodeOnePiece(lead);
    DecodeOnePiece(both);
    assert [lead, tail][..1] == [lead];
  }

  // ----- the handlers -----

  /** A chunk typed and ended. */
  function Type(k: Keyboard, bytes: seq<Byte>): Keyboard {
    Run(k, Keys(bytes))
  }

  lemma TypeOne(k: Keyboard, bytes: seq<Byte>, i: nat)
    requires i < |bytes|
    ensures Type(k, bytes[..i + 1]) == Press(Type(k, bytes[..i]), bytes[i])
  {
    assert bytes[..i + 1] == bytes[..i] + [bytes[i]];
    KeysSnoc(bytes[..i], bytes[i]);
  }

  lemma TypeNothing(k: Keyboard, bytes: seq<Byte>)
    ensures Type(k, bytes[..0]) == k
  {
  }

  lemma {:induction false} ClosedTyping(k: Keyboard, bytes: seq<Byte>, i: nat)
    requires i <= |bytes| && Type(k, bytes[..i]).closed
    ensures Type(k, bytes) == Type(k, bytes[..i])
  {
    if i < |bytes| {
      assert bytes[..|bytes| - 1][..i] == bytes[..i];
      ClosedTyping(k, bytes[..|bytes| - 1], i);
    } else {
      assert bytes[..i] == bytes;
    }
  }

  /** The texts handed to the posting queue. */
  function Texts(pieces: seq<seq<Byte>>): seq<string> {
    if pieces == [] then [] else Texts(pieces[..|pieces| - 1]) + [Decode(pieces[|pieces| - 1])]
  }

  class Attachment {
    var detachPending: bool
    var timerSet: bool
    var closed: bool
    /** Inputs handed to the posting queue, one text per call. */
    var queue: seq<string>
    /** The bytes behind those texts. */
    ghost var pieces: seq<seq<Byte>>

    /** The timer runs exactly while a Ctrl-P is held; every piece is queued as its own text. */
    ghost predicate Valid()
      reads this
    {
      && (!closed ==> (timerSet <==> detachPending))
      && (closed ==> !timerSet)
      && queue == Texts(pieces)
      && forall i | 0 <= i < |pieces| :: pieces[i] != []
    }

    ghost function State(): Keyboard
      reads this
    {
      Keyboard(detachPending, closed, pieces, [])
    }

    constructor ()
      ensures Valid() && State() == FRESH
    {
      detachPending, timerSet, closed, queue, pieces := false, false, false, [], [];
    }

    method Enqueue(bytes: seq<Byte>)
      requires Valid()
      modifies `queue, `pieces
      ensures Valid()
      ensures pieces == if bytes == [] then old(pieces) else old(pieces) + [bytes]
    {
      if bytes != [] {
        assert (pieces + [bytes])[..|pieces|] == pieces;
        queue := queue + [Decode(bytes)];
        pieces := pieces + [bytes];
      }
    }

    method Close()
      requires Valid()
      modifies `closed, `timerSet
      ensures Valid() && closed && !timerSet
    {
      if closed {
        return;
      }
      closed := true;
      timerSet := false;
    }

    method OnStdin(bytes: seq<Byte>)
      requires Valid()
      modifies this
      ensures Valid() && State() == EndChunk(Type(old(State()), bytes))
    {
      hide Type, Decode, Texts;
      TypeNothing(State(), bytes);
      if closed {
        // The listener has been taken off.
        ClosedTyping(State(), bytes, 0);
        return;
      }
      ghost var start := State();
      var passthrough: seq<Byte> := [];
      for i := 0 to |bytes|
        invariant Valid() && !closed && (detachPending ==> passthrough == [])
        invariant State().(passthrough := passthrough) == Type(start, bytes[..i])
      {
        TypeOne(start, bytes, i);
        var byte := bytes[i];
        if detachPending {
          if byte == CTRL_Q {
            detachPending, timerSet := false, false;
            Enqueue(passthrough);
            Close();
            ClosedTyping(start, bytes, i + 1);
            return;
          }
          detachPending, timerSet := false, false;
          passthrough := passthrough + [CTRL_P, byte];
          continue;
        }
        if byte == CTRL_P {
          Enqueue(passthrough);
          passthrough := [];
          detachPending, timerSet := true, true;
          continue;
        }
        passthrough := passthrough + [byte];
      }
      assert bytes[..|bytes|] == bytes;
      Enqueue(passthrough);
    }

    method OnTimer()
      requires Valid() && timerSet
      modifies this
      ensures Valid() && State() == Fire(old(State()))
    {
      hide Decode, Texts;
      timerSet := false;
      if !detachPending {
        return;
      }
      detachPending := false;
      Enqueue([CTRL_P]);
    }
  }
}
