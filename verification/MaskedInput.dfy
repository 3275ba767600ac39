/**
 The byte buffer behind masked terminal input
 (packages/h2a-runtime/src/claude-seat-input.ts): characters arrive as UTF-8 in
 chunks of any size, Backspace and DEL take back one character, and after each
 chunk the content decides whether the entry is complete.
 */
module MaskedInput {
  import opened Common
  import opened Sorting
  import opened Utf8

  const CTRL_C: Byte := 0x03
  const EOT: char := 0x04 as char
  const LF: char := '\n'
  const CR: char := '\r'

  predicate IsErase(b: int) {
    b == 0x08 || b == 0x7F
  }

  // ----- taking back one character -----

  /** Where the last character starts: back over continuation bytes, not past the start. */
  function LastStart(s: seq<Byte>): (end: nat)
    requires s != []
    ensures end < |s| && (end == 0 || !Continuation(s[end]))
    ensures forall i | end < i < |s| :: Continuation(s[i])
  {
    if |s| > 1 && Continuation(s[|s| - 1]) then LastStart(s[..|s| - 1]) else |s| - 1
  }

  function Pop(s: seq<Byte>): seq<Byte> {
    if s == [] then [] else s[..LastStart(s)]
  }

  lemma PopOne(s: seq<Byte>, c: char)
    ensures Pop(s + EncodeOne(c)) == s
  {
    var t := s + EncodeOne(c);
    var end := LastStart(t);
    assert t[|s|] == EncodeOne(c)[0];
    forall i | |s| < i < |t|
      ensures Continuation(t[i])
    {
      assert t[i] == EncodeOne(c)[i - |s|];
    }
    assert end == |s|;
  }

  /** An erase takes back exactly the last character of encoded text, whole. */
  lemma PopTakesOneCharacter(text: string)
    ensures Pop(Encode(text)) == if text == "" then [] else Encode(text[..|text| - 1])
  {
    if text != "" {
      PopOne(Encode(text[..|text| - 1]), text[|text| - 1]);
    }
  }

  // ----- the buffer against the keystrokes -----

  function Apply(buffer: seq<Byte>, b: Byte): seq<Byte> {
    if IsErase(b) then Pop(buffer) else buffer + [b]
  }

  function ApplyAll(buffer: seq<Byte>, bytes: seq<Byte>): seq<Byte> {
    if bytes == [] then buffer else Apply(ApplyAll(buffer, bytes[..|bytes| - 1]), bytes[|bytes| - 1])
  }

  /** What the user does; the two erase keys are not characters. */
  datatype Key = Char(code: char) | Erase(byte: Byte)

  predicate KeyOk(k: Key) {
    match k
    case Char(c) => !IsErase(c as int)
    case Erase(b) => IsErase(b)
  }

  function KeyBytes(k: Key): seq<Byte> {
    match k
    case Char(c) => EncodeOne(c)
    case Erase(b) => [b]
  }

  /** The text typed so far: characters are pushed, an erase pops one. */
  function Stack(keys: seq<Key>): string {
    if keys == [] then ""
    else
      var before := Stack(keys[..|keys| - 1]);
      match keys[|keys| - 1]
      case Char(c) => before + [c]
      case Erase(_) => if before == "" then "" else before[..|before| - 1]
  }

  function Stream(keys: seq<Key>): seq<Byte> {
    if keys == [] then [] else Stream(keys[..|keys| - 1]) + KeyBytes(keys[|keys| - 1])
  }

  lemma {:induction false} ApplyAppend(buffer: seq<Byte>, a: seq<Byte>, b: seq<Byte>)
    ensures ApplyAll(buffer, a + b) == ApplyAll(ApplyAll(buffer, a), b)
  {
    if b == [] {
      assert a + b == a;
    } else {
      ApplyAppend(buffer, a, b[..|b| - 1]);
      assert (a + b)[..|a + b| - 1] == a + b[..|b| - 1];
    }
  }

  lemma {:induction false} ApplyPlain(buffer: seq<Byte>, bytes: seq<Byte>)
    requires forall i | 0 <= i < |bytes| :: !IsErase(bytes[i])
    ensures ApplyAll(buffer, bytes) == buffer + bytes
  {
    if bytes != [] {
      ApplyPlain(buffer, bytes[..|bytes| - 1]);
      assert bytes == bytes[..|bytes| - 1] + [bytes[|bytes| - 1]];
    }
  }

  lemma NoEraseInside(c: char)
    requires !IsErase(c as int)
    ensures forall i | 0 <= i < |EncodeOne(c)| :: !IsErase(EncodeOne(c)[i])
  {
  }

  /** After any keystrokes the buffer is the encoding of the characters that stand. */
  lemma {:induction false} BufferIsEncodedStack(keys: seq<Key>)
    requires forall i | 0 <= i < |keys| :: KeyOk(keys[i])
    ensures ApplyAll([], Stream(keys)) == Encode(Stack(keys))
    ensures Decode(ApplyAll([], Stream(keys))) == Stack(keys)
  {
    hide Decode;
    if keys != [] {
      var rest, k := keys[..|keys| - 1], keys[|keys| - 1];
      BufferIsEncodedStack(rest);
      ApplyAppend([], Stream(rest), KeyBytes(k));
      match k
      case Char(c) =>
        NoEraseInside(c);
        ApplyPlain(Encode(Stack(rest)), EncodeOne(c));
        EncodeSnoc(Stack(rest), c);
      case Erase(b) =>
        PopTakesOneCharacter(Stack(rest));
        ApplyOne(Encode(Stack(rest)), b);
    }
    DecodeOfEncode(Stack(keys));
  }

  lemma ApplyOne(buffer: seq<Byte>, b: Byte)
    ensures ApplyAll(buffer, [b]) == Apply(buffer, b)
  {
    assert [b][..0] == [];
  }

  /** Where a chunk ends in the middle of a character, the buffer is the encoding of
      the characters that stand, followed by the part of the next one that has arrived. */
  lemma MidCharacter(keys: seq<Key>, c: char, n: nat)
    requires (forall i | 0 <= i < |keys| :: KeyOk(keys[i])) && !IsErase(c as int) && n <= |EncodeOne(c)|
    ensures ApplyAll([], Stream(keys) + EncodeOne(c)[..n]) == Encode(Stack(keys)) + EncodeOne(c)[..n]
  {
    BufferIsEncodedStack(keys);
    ApplyAppend([], Stream(keys), EncodeOne(c)[..n]);
    NoEraseInside(c);
    ApplyPlain(Encode(Stack(keys)), EncodeOne(c)[..n]);
  }

  // ----- what the content decides -----

  datatype Outcome = Waiting | Cancelled | Oversized | Eof | Empty | Entered(text: string)

  /** In multiline mode, whether a text parses as a JSON object is a parameter. */
  datatype Mode = SingleLine | Multiline(isObject: string -> bool)
  datatype Options = Options(maxBytes: nat, mode: Mode)

  predicate IsNewline(c: char) {
    c == LF || c == CR
  }

  function UpToNewline(s: string): string {
    if s == "" || IsNewline(s[0]) then "" else [s[0]] + UpToNewline(s[1..])
  }

  function WithoutEot(s: string): string {
    if s == "" then "" else (if s[0] == EOT then "" else [s[0]]) + WithoutEot(s[1..])
  }

  predicate HasNewline(s: string) {
    LF in s || CR in s
  }

  predicate EndsWith(s: string, end: string) {
    |end| <= |s| && s[|s| - |end|..] == end
  }

  function EnteredOr(text: string, otherwise: Outcome): Outcome {
    if text == "" then otherwise else Entered(text)
  }

  function Judge(text: string, mode: Mode): Outcome {
    if EOT in text then EnteredOr(Trim(WithoutEot(text)), Eof)
    else
      match mode
      case SingleLine => if HasNewline(text) then EnteredOr(Trim(UpToNewline(text)), Empty) else Waiting
      case Multiline(isObject) =>
        var trimmed := Trim(text);
        if !EndsWith(text, "\n") && !EndsWith(text, "\r") then Waiting
        else if "{" <= trimmed && EndsWith(trimmed, "}") && isObject(trimmed) then Entered(trimmed)
        else if EndsWith(text, "\n\n") || EndsWith(text, "\r\n\r\n") then EnteredOr(trimmed, Waiting)
        else Waiting
  }

  function Decide(buffer: seq<Byte>, options: Options): Outcome {
    if |buffer| > options.maxBytes then Oversized else Judge(Decode(buffer), options.mode)
  }

  /** The end of the input takes what is there. */
  function AtEnd(buffer: seq<Byte>): Outcome {
    EnteredOr(Trim(Decode(buffer)), Eof)
  }

  // ----- what a text decides, told from the text -----

  /** `t` is `s` without the white space at its ends. */
  ghost predicate Trimmed(s: string, t: string) {
    && (exists a, b :: Blank(a) && Blank(b) && s == a + (t + b))
    && (t != "" ==> !IsSpace(t[0]) && !IsSpace(t[|t| - 1]))
  }

  lemma {:induction false} TrimStartIs(s: string)
    ensures exists a :: Blank(a) && s == a + TrimStart(s)
    ensures TrimStart(s) != "" ==> !IsSpace(TrimStart(s)[0])
  {
    if s != "" && IsSpace(s[0]) {
      TrimStartIs(s[1..]);
      var a :| Blank(a) && s[1..] == a + TrimStart(s[1..]);
      assert Blank([s[0]] + a) && s == ([s[0]] + a) + TrimStart(s);
    } else {
      assert Blank("") && s == "" + TrimStart(s);
    }
  }

  lemma {:induction false} TrimEndIs(s: string)
    ensures exists b :: Blank(b) && s == TrimEnd(s) + b
    ensures TrimEnd(s) != "" ==> !IsSpace(TrimEnd(s)[|TrimEnd(s)| - 1]) && TrimEnd(s)[0] == s[0]
  {
    if s != "" && IsSpace(s[|s| - 1]) {
      var n := |s| - 1;
      TrimEndIs(s[..n]);
      var b :| Blank(b) && s[..n] == TrimEnd(s[..n]) + b;
      assert Blank(b + [s[n]]) && s == TrimEnd(s) + (b + [s[n]]);
    } else {
      assert Blank("") && s == TrimEnd(s) + "";
    }
  }

  lemma TrimIs(s: string)
    ensures Trimmed(s, Trim(s))
  {
    hide IsSpace, Blank;
    TrimStartIs(s);
    TrimEndIs(TrimStart(s));
    var a :| Blank(a) && s == a + TrimStart(s);
    var b :| Blank(b) && TrimStart(s) == Trim(s) + b;
    assert s == a + (Trim(s) + b);
  }

  /** The entry is the trimmed text, unless nothing is left of it. */
  ghost predicate Takes(s: string, o: Outcome, otherwise: Outcome) {
    exists t :: Trimmed(s, t) && o == if t == "" then otherwise else Entered(t)
  }

  /** Position `k` holds the first newline. */
  ghost predicate FirstNewline(text: string, k: nat) {
    k < |text| && IsNewline(text[k]) && forall i | 0 <= i < k :: !IsNewline(text[i])
  }

  /** A Ctrl-D takes everything but itself.  Otherwise a single line is taken up to its
      first newline; and several lines are taken at a newline if they are an object, or
      at an empty line if they are anything. */
  ghost predicate Decides(text: string, mode: Mode, o: Outcome) {
    if EOT in text then Takes(Filter((c: char) => c != EOT, text), o, Eof)
    else
      match mode
      case SingleLine =>
        if forall i | 0 <= i < |text| :: !IsNewline(text[i]) then o == Waiting
        else exists k: nat :: FirstNewline(text, k) && Takes(text[..k], o, Empty)
      case Multiline(isObject) =>
        if text == "" || !IsNewline(text[|text| - 1]) then o == Waiting
        else
          exists t :: Trimmed(text, t) &&
            if t != "" && t[0] == '{' && t[|t| - 1] == '}' && isObject(t) then o == Entered(t)
            else if t != "" && (EndsWith(text, "\n\n") || EndsWith(text, "\r\n\r\n")) then o == Entered(t)
            else o == Waiting
  }

  lemma {:induction false} WithoutEotIs(s: string)
    ensures WithoutEot(s) == Filter((c: char) => c != EOT, s)
  {
    if s != "" {
      WithoutEotIs(s[1..]);
      FilterCons((c: char) => c != EOT, s[0], s[1..]);
      assert s == [s[0]] + s[1..];
    }
  }

  lemma {:induction false} UpToNewlineIs(s: string)
    ensures var k := |UpToNewline(s)|;
            && k <= |s| && UpToNewline(s) == s[..k]
            && (if forall i | 0 <= i < |s| :: !IsNewline(s[i]) then k == |s| else FirstNewline(s, k))
  {
    hide IsNewline;
    if s != "" && !IsNewline(s[0]) {
      UpToNewlineIs(s[1..]);
      var k := |UpToNewline(s[1..])|;
      assert s[..k + 1] == [s[0]] + s[1..][..k];
      forall i | 0 <= i < |s| - 1
        ensures s[1..][i] == s[i + 1]
      {
      }
      if i :| 0 <= i < |s| && IsNewline(s[i]) {
        assert IsNewline(s[1..][i - 1]);
        forall j | 0 <= j < k + 1
          ensures !IsNewline(s[j])
        {
          assert j > 0 ==> s[j] == s[1..][j - 1];
        }
      }
    }
  }

  lemma JudgeDecides(text: string, mode: Mode)
    ensures Decides(text, mode, Judge(text, mode))
  {
    hide Trimmed, Trim, Filter, UpToNewline, WithoutEot, FirstNewline;
    TrimIs(text);
    if EOT in text {
      WithoutEotIs(text);
      TrimIs(WithoutEot(text));
    } else if mode.SingleLine? {
      UpToNewlineIs(text);
      TrimIs(UpToNewline(text));
      NewlineSomewhere(text);
    } else {
      NewlineAtEnd(text);
      Braces(Trim(text));
    }
  }

  lemma NewlineSomewhere(text: string)
    ensures HasNewline(text) <==> exists i | 0 <= i < |text| :: IsNewline(text[i])
  {
  }

  lemma NewlineAtEnd(text: string)
    ensures EndsWith(text, "\n") || EndsWith(text, "\r") <==> text != "" && IsNewline(text[|text| - 1])
  {
    if text != "" {
      assert text[|text| - 1..] == [text[|text| - 1]];
    }
  }

  lemma Braces(t: string)
    ensures "{" <= t && EndsWith(t, "}") <==> t != "" && t[0] == '{' && t[|t| - 1] == '}'
  {
    if t != "" {
      assert t[|t| - 1..] == [t[|t| - 1]] && t[..1] == [t[0]];
    }
  }

  // ----- chunk by chunk -----

  datatype Reading = Reading(buffer: seq<Byte>, outcome: Outcome)

  /** A Ctrl-C anywhere in a chunk cancels before any byte of it is applied. */
  function ReadChunk(buffer: seq<Byte>, bytes: seq<Byte>, options: Options): Reading {
    if CTRL_C in bytes then Reading(buffer, Cancelled)
    else Reading(ApplyAll(buffer, bytes), Decide(ApplyAll(buffer, bytes), options))
  }

  /** The first chunk that decides ends the reading. */
  function Read(chunks: seq<seq<Byte>>, options: Options): Reading {
    if chunks == [] then Reading([], Waiting)
    else
      var before := Read(chunks[..|chunks| - 1], options);
      if before.outcome.Waiting? then ReadChunk(before.buffer, chunks[|chunks| - 1], options) else before
  }

  /** The outcome when everything arrives in one chunk. */
  function AtOnce(bytes: seq<Byte>, options: Options): Outcome {
    ReadChunk([], bytes, options).outcome
  }

  lemma NothingTyped(options: Options)
    ensures AtOnce([], options) == Waiting
  {
    assert Decode([]) == "";
  }

  /** Whatever is typed and taken back, the characters that stand decide: too many bytes
      of them are refused; otherwise the text decides, and at the end of the input it is
      taken as it is. */
  lemma StandingTextDecides(keys: seq<Key>, options: Options)
    requires (forall i | 0 <= i < |keys| :: KeyOk(keys[i])) && CTRL_C !in Stream(keys)
    ensures var text, o := Stack(keys), AtOnce(Stream(keys), options);
            && (o == Oversized <==> |Encode(text)| > options.maxBytes)
            && (o != Oversized ==> Decides(text, options.mode, o))
            && Takes(text, AtEnd(ApplyAll([], Stream(keys))), Eof)
  {
    hide Decode, Decides, Judge, Trimmed, Trim, ApplyAll;
    BufferIsEncodedStack(keys);
    JudgeDecides(Stack(keys), options.mode);
    JudgeIsNoLimit(Stack(keys), options.mode);
    TrimIs(Stack(keys));
  }

  lemma JudgeIsNoLimit(text: string, mode: Mode)
    ensures Judge(text, mode) != Oversized
  {
  }

  /** None of the first `n` boundaries finds bytes that decide on their own. */
  ghost predicate Undecided(chunks: seq<seq<Byte>>, options: Options, n: nat)
    requires n <= |chunks|
  {
    forall j: nat | j < n :: AtOnce(Flatten(chunks[..j]), options).Waiting?
  }

  /** The first boundary at which the bytes up to it decide on their own, else the end. */
  ghost predicate Decisive(chunks: seq<seq<Byte>>, options: Options, n: nat) {
    && n <= |chunks| && Undecided(chunks, options, n)
    && (n < |chunks| ==> !AtOnce(Flatten(chunks[..n]), options).Waiting?)
  }

  /** As long as no earlier boundary decides, the chunks read like one. */
  lemma {:induction false} UndecidedReadsAsOne(chunks: seq<seq<Byte>>, options: Options)
    requires Undecided(chunks, options, |chunks|)
    ensures Read(chunks, options).outcome == AtOnce(Flatten(chunks), options)
    ensures Read(chunks, options).outcome.Waiting? ==>
              Read(chunks, options).buffer == ApplyAll([], Flatten(chunks)) && CTRL_C !in Flatten(chunks)
  {
    hide Decide;
    if chunks == [] {
      NothingTyped(options);
    } else {
      var n := |chunks| - 1;
      forall j: nat | j < n
        ensures chunks[..n][..j] == chunks[..j]
      {
      }
      assert Undecided(chunks[..n], options, n);
      UndecidedReadsAsOne(chunks[..n], options);
      ApplyAppend([], Flatten(chunks[..n]), chunks[n]);
    }
  }

  lemma {:induction false} DecisionStays(chunks: seq<seq<Byte>>, options: Options, j: nat)
    requires j <= |chunks| && !Read(chunks[..j], options).outcome.Waiting?
    ensures Read(chunks, options) == Read(chunks[..j], options)
  {
    if j < |chunks| {
      assert chunks[..|chunks| - 1][..j] == chunks[..j];
      DecisionStays(chunks[..|chunks| - 1], options, j);
    } else {
      assert chunks[..j] == chunks;
    }
  }

  lemma {:induction false} DecisiveExists(chunks: seq<seq<Byte>>, options: Options, start: nat) returns (n: nat)
    requires start <= |chunks| && Undecided(chunks, options, start)
    ensures Decisive(chunks, options, n)
    decreases |chunks| - start
  {
    n := start;
    if start < |chunks| && AtOnce(Flatten(chunks[..start]), options).Waiting? {
      n := DecisiveExists(chunks, options, start + 1);
    }
  }

  /** The outcome is that of the bytes up to the first boundary at which they decide. */
  lemma OutcomeIsFirstDecision(chunks: seq<seq<Byte>>, options: Options, n: nat)
    requires Decisive(chunks, options, n)
    ensures Read(chunks, options).outcome == AtOnce(Flatten(chunks[..n]), options)
  {
    hide AtOnce, Read;
    var some := chunks[..n];
    forall j: nat | j < n
      ensures some[..j] == chunks[..j]
    {
    }
    assert Undecided(some, options, n);
    UndecidedReadsAsOne(some, options);
    if n < |chunks| {
      DecisionStays(chunks, options, n);
    } else {
      assert some == chunks;
    }
  }

  /** Chunks decide as their bytes would in one chunk if and only if the first decision
      is the last chunk's, or a cancellation, or nothing that comes later changes it. */
  lemma ChunksDecideAlikeIff(chunks: seq<seq<Byte>>, options: Options, n: nat)
    requires Decisive(chunks, options, n)
    ensures var early := AtOnce(Flatten(chunks[..n]), options);
            Read(chunks, options).outcome == AtOnce(Flatten(chunks), options) <==>
              || n == |chunks|
              || early == Cancelled
              || (CTRL_C !in Flatten(chunks[n..]) && Decide(ApplyAll([], Flatten(chunks)), options) == early)
  {
    hide Decide, Flatten, ApplyAll;
    OutcomeIsFirstDecision(chunks, options, n);
    FlattenAppend(chunks[..n], chunks[n..]);
    assert chunks[..n] + chunks[n..] == chunks;
    assert n == |chunks| ==> chunks[..n] == chunks;
    DecideNeverCancels(ApplyAll([], Flatten(chunks[..n])), options);
  }

  lemma DecideNeverCancels(buffer: seq<Byte>, options: Options)
    ensures Decide(buffer, options) != Cancelled
  {
  }

  /** However the bytes are cut, the outcome is that of one chunk. */
  ghost predicate ChunkingIsInvisible(bytes: seq<Byte>, options: Options) {
    forall chunks: seq<seq<Byte>> | Flatten(chunks) == bytes :: Read(chunks, options).outcome == AtOnce(bytes, options)
  }

  /** Bytes that come early decide nothing, or what all the bytes decide. */
  ghost predicate PrefixesAgree(bytes: seq<Byte>, options: Options) {
    forall k: nat | k <= |bytes| ::
      AtOnce(bytes[..k], options).Waiting? || AtOnce(bytes[..k], options) == AtOnce(bytes, options)
  }

  /** A stream of bytes has one outcome under every chunking if and only if each of its
      prefixes decides nothing, or the same as the whole. */
  lemma ChunkingIsInvisibleIff(bytes: seq<Byte>, options: Options)
    ensures ChunkingIsInvisible(bytes, options) <==> PrefixesAgree(bytes, options)
  {
    hide AtOnce, Read, Flatten;
    if ChunkingIsInvisible(bytes, options) {
      forall k: nat | k <= |bytes|
        ensures AtOnce(bytes[..k], options).Waiting? || AtOnce(bytes[..k], options) == AtOnce(bytes, options)
      {
        TwoChunks(bytes[..k], bytes[k..], options);
        assert bytes[..k] + bytes[k..] == bytes;
      }
    }
    if PrefixesAgree(bytes, options) {
      forall chunks: seq<seq<Byte>> | Flatten(chunks) == bytes
        ensures Read(chunks, options).outcome == AtOnce(bytes, options)
      {
        var n := DecisiveExists(chunks, options, 0);
        OutcomeIsFirstDecision(chunks, options, n);
        FlattenAppend(chunks[..n], chunks[n..]);
        assert chunks[..n] + chunks[n..] == chunks;
        var k := |Flatten(chunks[..n])|;
        assert bytes[..k] == Flatten(chunks[..n]);
        assert n == |chunks| ==> chunks[..n] == chunks;
      }
    }
  }

  /** Of two chunks the first decides when it can. */
  lemma TwoChunks(a: seq<Byte>, b: seq<Byte>, options: Options)
    ensures Flatten([a, b]) == a + b
    ensures !AtOnce(a, options).Waiting? ==> Read([a, b], options).outcome == AtOnce(a, options)
  {
    hide ReadChunk;
    var one: seq<seq<Byte>>, two: seq<seq<Byte>> := [a], [a, b];
    FlattenOne(a);
    assert two[..1] == one && one[..0] == [];
    assert Read(one, options) == ReadChunk([], a, options);
  }

  // ----- when boundaries cannot matter, and when they do -----

  predicate Quiet(bytes: seq<Byte>) {
    forall b | b in bytes :: b != CTRL_C && b != EOT as int && b != LF as int && b != CR as int
  }

  lemma {:induction false} ApplyKeeps(bytes: seq<Byte>)
    ensures |ApplyAll([], bytes)| <= |bytes|
    ensures forall b | b in ApplyAll([], bytes) :: b in bytes
  {
    if bytes != [] {
      ApplyKeeps(bytes[..|bytes| - 1]);
    }
  }

  lemma QuietWaits(bytes: seq<Byte>, options: Options)
    requires Quiet(bytes) && |bytes| <= options.maxBytes
    ensures AtOnce(bytes, options) == Waiting
  {
    hide Decode, ApplyAll;
    var buffer := ApplyAll([], bytes);
    ApplyKeeps(bytes);
    PlainIsTyped(buffer, EOT);
    PlainIsTyped(buffer, LF);
    PlainIsTyped(buffer, CR);
    var text := Decode(buffer);
    assert EOT !in text && LF !in text && CR !in text;
    assert !EndsWith(text, "\n") && !EndsWith(text, "\r") by {
      LastIsIn(text, LF);
      LastIsIn(text, CR);
    }
  }

  lemma LastIsIn(text: string, c: char)
    ensures EndsWith(text, [c]) ==> c in text
  {
    if EndsWith(text, [c]) {
      assert text[|text| - 1] == text[|text| - 1..][0];
    }
  }

  /** The bytes applied so far decide in single-line mode: too many, a Ctrl-D or a newline. */
  predicate Settles(buffer: seq<Byte>, maxBytes: nat) {
    |buffer| > maxBytes || EOT as int in buffer || LF as int in buffer || CR as int in buffer
  }

  lemma PlainIff(buffer: seq<Byte>, c: char)
    requires c as int < 0x80
    ensures c in Decode(buffer) <==> c as int in buffer
  {
    hide Decode;
    PlainIsTyped(buffer, c);
    if c as int in buffer {
      TypedIsPlain(buffer, c as int);
      assert c as int as char == c;
    }
  }

  lemma SingleLineSettles(buffer: seq<Byte>, options: Options)
    requires options.mode == SingleLine
    ensures Decide(buffer, options).Waiting? <==> !Settles(buffer, options.maxBytes)
  {
    hide Decode;
    PlainIff(buffer, EOT);
    PlainIff(buffer, LF);
    PlainIff(buffer, CR);
  }

  /** In single-line mode a stream has one outcome under every chunking if and only if,
      wherever the bytes applied so far are too many or hold a Ctrl-D or a newline and no
      Ctrl-C has come, none comes later and the final bytes decide the same. */
  lemma SingleLineChunkingIff(bytes: seq<Byte>, options: Options)
    requires options.mode == SingleLine
    ensures ChunkingIsInvisible(bytes, options) <==>
              forall k: nat | k <= |bytes| && CTRL_C !in bytes[..k]
                              && Settles(ApplyAll([], bytes[..k]), options.maxBytes) ::
                CTRL_C !in bytes
                && Decide(ApplyAll([], bytes), options) == Decide(ApplyAll([], bytes[..k]), options)
  {
    hide Decide, ApplyAll, ChunkingIsInvisible, Settles;
    ChunkingIsInvisibleIff(bytes, options);
    forall k: nat | k <= |bytes|
      ensures CTRL_C in bytes[..k] ==> CTRL_C in bytes
      ensures Decide(ApplyAll([], bytes[..k]), options).Waiting? <==>
                !Settles(ApplyAll([], bytes[..k]), options.maxBytes)
      ensures Decide(ApplyAll([], bytes[..k]), options) != Cancelled
    {
      SingleLineSettles(ApplyAll([], bytes[..k]), options);
      DecideNeverCancels(ApplyAll([], bytes[..k]), options);
    }
  }

  /** If the chunks before the last hold no Ctrl-C, Ctrl-D or newline and fit the limit,
      the chunks decide as one. */
  lemma QuietChunksDecideAlike(chunks: seq<seq<Byte>>, options: Options)
    requires chunks != [] && Quiet(Flatten(chunks[..|chunks| - 1]))
    requires |Flatten(chunks[..|chunks| - 1])| <= options.maxBytes
    ensures Read(chunks, options).outcome == AtOnce(Flatten(chunks), options)
  {
    hide AtOnce, Read, Flatten;
    var rest := chunks[..|chunks| - 1];
    forall j: nat | j < |chunks|
      ensures AtOnce(Flatten(chunks[..j]), options).Waiting?
    {
      FlattenAppend(rest[..j], rest[j..]);
      assert rest[..j] + rest[j..] == rest && rest[..j] == chunks[..j];
      assert forall b | b in Flatten(chunks[..j]) :: b in Flatten(chunks[..j]) + Flatten(rest[j..]);
      QuietWaits(Flatten(chunks[..j]), options);
    }
    UndecidedReadsAsOne(chunks, options);
  }

  predicate Plain(bytes: seq<Byte>) {
    forall i | 0 <= i < |bytes| :: bytes[i] < 0x80
  }

  function Chars(bytes: seq<Byte>): string
    requires Plain(bytes)
  {
    if bytes == [] then "" else Chars(bytes[..|bytes| - 1]) + [bytes[|bytes| - 1] as char]
  }

  lemma {:induction false} PlainDecodes(bytes: seq<Byte>)
    requires Plain(bytes)
    ensures FeedAll(Ready, bytes) == Decoded(Ready, Chars(bytes))
    ensures Decode(bytes) == Chars(bytes)
  {
    if bytes != [] {
      PlainDecodes(bytes[..|bytes| - 1]);
    }
  }

  /** Plain bytes in one chunk decide by their characters. */
  lemma PlainAtOnce(bytes: seq<Byte>, text: string, options: Options)
    requires Plain(bytes) && forall b | b in bytes :: !IsErase(b) && b != CTRL_C
    requires Chars(bytes) == text && |bytes| <= options.maxBytes
    ensures AtOnce(bytes, options) == Judge(text, options.mode)
  {
    hide Decode;
    PlainDecodes(bytes);
    ApplyPlain([], bytes);
    assert [] + bytes == bytes;
  }

  lemma TwoLines()
    ensures Judge("a\n", SingleLine) == Entered("a")
    ensures Judge("a\nb" + [EOT], SingleLine) == Entered("a\nb")
  {
    assert UpToNewline("a\n") == "a" by {
      assert "a\n"[1..] == "\n";
    }
    assert TrimEnd("a") == "a" && TrimStart("a") == "a";
    var t := "a\nb" + [EOT];
    assert WithoutEot([EOT]) == "";
    assert WithoutEot("b" + [EOT]) == "b" by {
      assert ("b" + [EOT])[1..] == [EOT];
    }
    assert WithoutEot("\nb" + [EOT]) == "\nb" by {
      assert ("\nb" + [EOT])[1..] == "b" + [EOT];
    }
    assert WithoutEot(t) == "a\nb" by {
      assert t[1..] == "\nb" + [EOT];
    }
    assert TrimStart("a\nb") == "a\nb" && TrimEnd("a\nb") == "a\nb";
    assert t[3] == EOT;
  }

  /** A newline that ends a chunk completes the entry; in one chunk with what follows,
      a Ctrl-C cancels, a Ctrl-D takes both lines, and an erase takes the newline back. */
  lemma NewlineAtBoundary(options: Options)
    requires options.mode == SingleLine && options.maxBytes >= 4
    ensures var line: seq<Byte> := [0x61, 0x0A];
            && (forall more: seq<Byte> :: Read([line, more], options).outcome == Entered("a"))
            && AtOnce(line + [CTRL_C], options) == Cancelled
            && AtOnce(line + [0x62, 0x04], options) == Entered("a\nb")
            && AtOnce(line + [0x08], options) == Waiting
  {
    hide Decode, Judge, ApplyAll;
    var a: seq<Byte>, line: seq<Byte> := [0x61], [0x0A];
    var first: seq<Byte>, both: seq<Byte> := [0x61, 0x0A], [0x61, 0x0A, 0x62, 0x04];
    TwoLines();
    assert Chars(first) == "a\n" by {
      assert first[..1] == a && a[..0] == [];
    }
    assert Chars(both) == "a\nb" + [EOT] by {
      assert both[..3][..2] == first && both[..3] == first + [0x62];
    }
    PlainAtOnce(first, "a\n", options);
    PlainAtOnce(both, "a\nb" + [EOT], options);
    assert first + [0x62, 0x04] == both;
    forall more: seq<Byte>
      ensures Read([first, more], options).outcome == Entered("a")
    {
      TwoChunks(first, more, options);
    }
    ErasedLast(a, 0x0A, 0x08);
    QuietWaits(a, options);
    assert first + [0x08] == a + [0x0A, 0x08];
  }

  /** A plain character and its erase leave the buffer as it was. */
  lemma ErasedLast(text: seq<Byte>, b: Byte, erase: Byte)
    requires (forall c | c in text :: !IsErase(c)) && b < 0x80 && !IsErase(b) && IsErase(erase)
    ensures ApplyAll([], text + [b, erase]) == ApplyAll([], text) == text
  {
    ApplyPlain([], text);
    ApplyPlain(text, [b]);
    ApplyAppend([], text, [b, erase]);
    assert [b, erase][..1] == [b];
    PopOne(text, b as char);
    assert [] + text == text;
  }

  /** What exceeds the limit at a boundary may have been within it in one chunk. */
  lemma ErasedExcess(bytes: seq<Byte>, options: Options)
    requires |bytes| == options.maxBytes && Quiet(bytes) && forall b | b in bytes :: !IsErase(b)
    ensures Read([bytes + [0x61], [0x08]], options).outcome == Oversized
    ensures AtOnce(bytes + [0x61] + [0x08], options) == Waiting
  {
    hide Judge, ApplyAll, Read;
    var over := bytes + [0x61];
    ApplyPlain([], over);
    assert [] + over == over;
    assert AtOnce(over, options) == Oversized;
    TwoChunks(over, [0x08], options);
    ErasedLast(bytes, 0x61, 0x08);
    assert over + [0x08] == bytes + [0x61, 0x08];
    QuietWaits(bytes, options);
    ApplyPlain([], bytes);
  }

  // ----- the handlers -----

  class LineEditor {
    const options: Options
    var chunks: seq<seq<Byte>>
    var totalBytes: nat

    ghost predicate Valid()
      reads this
    {
      totalBytes == |Content()|
    }

    ghost function Content(): seq<Byte>
      reads this
    {
      Flatten(chunks)
    }

    constructor (options: Options)
      ensures Valid() && Content() == [] && this.options == options
    {
      this.options := options;
      chunks, totalBytes := [], 0;
    }

    method PopLastCharBytes()
      requires Valid()
      modifies this
      ensures Valid() && Content() == Pop(old(Content()))
    {
      var all := Flatten(chunks);
      if |all| == 0 {
        return;
      }
      var end := |all| - 1;
      while end > 0
        invariant 0 <= end < |all|
        invariant forall i | end < i < |all| :: Continuation(all[i])
      {
        if !Continuation(all[end]) {
          break;
        }
        end := end - 1;
      }
      StartIsUnique(all, end);
      var next := all[..end];
      chunks := [];
      if |next| > 0 {
        chunks := [next];
      }
      totalBytes := |next|;
      FlattenOne(next);
    }

    static lemma StartIsUnique(s: seq<Byte>, end: nat)
      requires end < |s| && (end == 0 || !Continuation(s[end])) && forall i | end < i < |s| :: Continuation(s[i])
      ensures end == LastStart(s)
    {
    }

    method PushByte(b: Byte)
      requires Valid()
      modifies this
      ensures Valid() && Content() == old(Content()) + [b]
    {
      assert (chunks + [[b]])[..|chunks|] == chunks;
      chunks := chunks + [[b]];
      totalBytes := totalBytes + 1;
    }

    method OnData(bytes: seq<Byte>) returns (outcome: Outcome)
      requires Valid()
      modifies this
      ensures Valid() && Reading(Content(), outcome) == ReadChunk(old(Content()), bytes, options)
    {
      hide Judge, Decode;
      for i := 0 to |bytes|
        invariant CTRL_C !in bytes[..i] && Valid() && Content() == old(Content())
      {
        if bytes[i] == CTRL_C {
          return Cancelled;
        }
        assert bytes[..i + 1] == bytes[..i] + [bytes[i]];
      }
      assert bytes[..|bytes|] == bytes;
      for i := 0 to |bytes|
        invariant Valid() && Content() == ApplyAll(old(Content()), bytes[..i])
      {
        assert bytes[..i + 1][..i] == bytes[..i];
        if bytes[i] == 0x08 || bytes[i] == 0x7F {
          PopLastCharBytes();
        } else {
          PushByte(bytes[i]);
        }
      }
      if totalBytes > options.maxBytes {
        return Oversized;
      }
      outcome := CheckContent(Decode(Flatten(chunks)));
    }

    /** The checks on the decoded content, in their order. */
    method CheckContent(fullContent: string) returns (outcome: Outcome)
      ensures outcome == Judge(fullContent, options.mode)
    {
      if EOT in fullContent {
        var withoutEof := Trim(WithoutEot(fullContent));
        if withoutEof == "" {
          return Eof;
        }
        return Entered(withoutEof);
      }
      match options.mode {
        case SingleLine =>
        if CR in fullContent || LF in fullContent {
          var line := Trim(UpToNewline(fullContent));
          if line == "" {
            return Empty;
          }
          return Entered(line);
        }
      case Multiline(isObject) =>
        if EndsWith(fullContent, "\n") || EndsWith(fullContent, "\r") {
          var trimmed := Trim(fullContent);
          if "{" <= trimmed && EndsWith(trimmed, "}") {
            if isObject(trimmed) {
              return Entered(trimmed);
            }
          }
          if EndsWith(fullContent, "\n\n") || EndsWith(fullContent, "\r\n\r\n") {
            if trimmed != "" {
              return Entered(trimmed);
            }
          }
        }
      }
      return Waiting;
    }

    method OnEnd() returns (outcome: Outcome)
      requires Valid()
      ensures outcome == AtEnd(Content())
    {
      var fullContent := Trim(Decode(Flatten(chunks)));
      if fullContent == "" {
        return Eof;
      }
      return Entered(fullContent);
    }
  }
}
