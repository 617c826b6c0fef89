/**
 Event cursors: the opaque text a client hands back to resume reading a run's events, and the strict
 decoder that takes exactly one text for each position.
 */
module EventCursor {
  import opened Options
  import opened JsonText
  import opened CanonicalJson
  import opened Utf8Base64

  /** "asf1_" */
  const PREFIX: Text := [0x61, 0x73, 0x66, 0x31, 0x5f]
  /** "asf.event-cursor/v1" */
  const SCHEMA: Text := [0x61, 0x73, 0x66, 0x2e, 0x65, 0x76, 0x65, 0x6e, 0x74, 0x2d, 0x63, 0x75, 0x72, 0x73, 0x6f, 0x72,
                         0x2f, 0x76, 0x31]
  /** "run_id", "schema" and "sequence" */
  const RUN_ID_KEY: Text := [0x72, 0x75, 0x6e, 0x5f, 0x69, 0x64]
  const SCHEMA_KEY: Text := [0x73, 0x63, 0x68, 0x65, 0x6d, 0x61]
  const SEQUENCE_KEY: Text := [0x73, 0x65, 0x71, 0x75, 0x65, 0x6e, 0x63, 0x65]
  const MAX_SAFE_INTEGER: nat := 0x1f_ffff_ffff_ffff

  // ---------------------------------------------------------------- sequence numbers

  function Decimal(n: nat): (t: Text)
    ensures |t| > 0
  {
    if n < 10 then [0x30 + n] else Decimal(n / 10) + [0x30 + n % 10]
  }

  predicate Digits(t: Text) {
    |t| > 0 && forall i :: 0 <= i < |t| ==> 0x30 <= t[i] <= 0x39
  }

  function FromDecimal(t: Text): nat
    requires forall i :: 0 <= i < |t| ==> 0x30 <= t[i] <= 0x39
  {
    if |t| == 0 then 0 else AppendDigit(FromDecimal(t[..|t| - 1]), t[|t| - 1])
  }

  function AppendDigit(n: nat, digit: int): nat
    requires 0x30 <= digit <= 0x39
  {
    n * 10 + (digit - 0x30)
  }

  lemma {:induction false} DecimalReadsBack(n: nat)
    ensures Digits(Decimal(n)) && FromDecimal(Decimal(n)) == n
    ensures NumberText(Decimal(n))
  {
    if n >= 10 {
      DecimalReadsBack(n / 10);
      assert Decimal(n)[..|Decimal(n)| - 1] == Decimal(n / 10);
    }
  }

  // ---------------------------------------------------------------- the payload

  predicate RunId(runId: Text) {
    1 <= |runId| <= 256
  }

  /** The payload's members in canonical key order. */
  function PayloadTree(runId: Text, sequence: nat): Tree {
    TObject([Member(RUN_ID_KEY, TString(runId)),
             Member(SCHEMA_KEY, TString(SCHEMA)),
             Member(SEQUENCE_KEY, TNumber(Decimal(sequence)))])
  }

  function PayloadText(runId: Text, sequence: nat): Text {
    Print(PayloadTree(runId, sequence))
  }

  function Lookup(members: seq<Member>, key: Text): (value: Option<Tree>) {
    if |members| == 0 then None
    else if members[0].key == key then Some(members[0].value)
    else Lookup(members[1..], key)
  }

  /** The strict schema: three members, of these kinds and no other. */
  function PayloadOf(tree: Tree): (payload: Option<(Text, nat)>) {
    if !tree.TObject? || |tree.members| != 3 then None
    else
      var run, schema, sequence := Lookup(tree.members, RUN_ID_KEY), Lookup(tree.members, SCHEMA_KEY),
                                   Lookup(tree.members, SEQUENCE_KEY);
      if run.None? || schema.None? || sequence.None? then None
      else if !run.value.TString? || !RunId(run.value.text) || schema.value != TString(SCHEMA) then None
      else if !sequence.value.TNumber? || !Digits(sequence.value.digits) then None
      else if FromDecimal(sequence.value.digits) > MAX_SAFE_INTEGER then None
      else Some((run.value.text, FromDecimal(sequence.value.digits)))
  }

  // ---------------------------------------------------------------- the cursor

  /** `encodeAsfEventCursor`; None where the schema or the serializer refuses. */
  function Encode(runId: Text, sequence: nat): (cursor: Option<Text>) {
    if !RunId(runId) || sequence > MAX_SAFE_INTEGER || !NoLoneSurrogates(runId) then None
    else
      PayloadWellFormed(runId, sequence);
      Some(PREFIX + Encode64(Utf8(PayloadText(runId, sequence))))
  }

  /** `decodeAsfEventCursor`; None where it throws. */
  ghost function Decode(cursor: Text, expected: Text, skip: seq<Octet> -> nat): (sequence: Option<nat>)
    requires Skips(skip)
  {
    if !(PREFIX <= cursor) then None
    else
      var encoded := cursor[|PREFIX|..];
      var bytes := Decode64(encoded);
      if |bytes| == 0 || Encode64(bytes) != encoded then None
      else
        var decoded := Lossy(bytes, skip);
        var tree := Parse(decoded);
        if tree.None? then None
        else
          var payload := PayloadOf(tree.value);
          if payload.None? then None
          else if !NoLoneSurrogates(payload.value.0) then None
          else if PayloadText(payload.value.0, payload.value.1) != decoded then None
          else if payload.value.0 != expected then None
          else Some(payload.value.1)
  }

  lemma PayloadNumbersOk(runId: Text, sequence: nat)
    ensures NumbersOk(PayloadTree(runId, sequence))
  {
    DecimalReadsBack(sequence);
  }

  lemma PayloadReadsBack(runId: Text, sequence: nat)
    requires RunId(runId) && sequence <= MAX_SAFE_INTEGER
    ensures PayloadOf(PayloadTree(runId, sequence)) == Some((runId, sequence))
  {
    DecimalReadsBack(sequence);
    var members := PayloadTree(runId, sequence).members;
    assert RUN_ID_KEY[0] != SCHEMA_KEY[0] && RUN_ID_KEY[0] != SEQUENCE_KEY[0] && SCHEMA_KEY[1] != SEQUENCE_KEY[1];
    assert members[1..][0] == members[1] && members[1..][1..][0] == members[2];
    assert Lookup(members, SCHEMA_KEY) == Lookup(members[1..], SCHEMA_KEY);
    assert Lookup(members, SEQUENCE_KEY) == Lookup(members[1..], SEQUENCE_KEY)
           == Lookup(members[1..][1..], SEQUENCE_KEY);
  }

  // ---------------------------------------------------------------- texts without lone surrogates

  lemma JoinedPairs(a: Text, b: Text)
    requires NoLoneSurrogates(a) && NoLoneSurrogates(b)
    ensures NoLoneSurrogates(a + b)
  {
    forall i | 0 <= i < |a + b| ensures Paired(a + b, i) {
      if i < |a| {
        assert Paired(a, i);
      } else {
        assert Paired(b, i - |a|);
      }
    }
  }

  predicate Plain(t: Text) {
    forall i :: 0 <= i < |t| ==> !High(t[i]) && !Low(t[i])
  }

  lemma PlainHasNoLoneSurrogates(t: Text)
    requires Plain(t)
    ensures NoLoneSurrogates(t)
  {
  }

  lemma {:induction false} EscapesKeepPairs(s: Text)
    requires NoLoneSurrogates(s)
    ensures NoLoneSurrogates(Escapes(s))
    decreases |s|
  {
    hide NoLoneSurrogates, Escape;
    if |s| == 0 {
      PlainHasNoLoneSurrogates([]);
    } else {
      FirstIsScalar(s);
      var first := FirstScalar(s);
      EscapesKeepPairs(s[|first|..]);
      EscapesOfScalar(s);
      JoinedPairs(Escapes(first), Escapes(s[|first|..]));
    }
  }

  lemma EscapesOfScalar(s: Text)
    requires |s| > 0 && Scalar(FirstScalar(s))
    ensures Escapes(s) == Escapes(FirstScalar(s)) + Escapes(s[|FirstScalar(s)|..])
    ensures NoLoneSurrogates(Escapes(FirstScalar(s)))
  {
    var first := FirstScalar(s);
    if |first| == 1 {
      assert first[1..] == [];
      EscapeIsPlain(first[0]);
      assert Escapes(first) == Escape(first[0]);
      PlainHasNoLoneSurrogates(Escape(first[0]));
    } else {
      assert Escape(first[0]) == [first[0]] && Escape(first[1]) == [first[1]];
      assert first[1..] == [first[1]] && first[1..][1..] == [];
      assert Escapes(first[1..]) == [first[1]] + Escapes([]);
      assert Escapes(first) == [first[0]] + [first[1]];
      assert [first[0]] + [first[1]] == first;
      assert s[1..][1..] == s[2..] && s[1..][0] == first[1];
      assert Escapes(s) == [first[0]] + ([first[1]] + Escapes(s[2..]));
    }
  }

  lemma EscapeIsPlain(u: Unit)
    requires !High(u) && !Low(u)
    ensures Plain(Escape(u))
  {
  }

  /** The payload around the run id, all of it ASCII. */
  function Before(): Text {
    [OPEN_BRACE] + Quoted(RUN_ID_KEY) + [COLON] + [QUOTE]
  }

  function Behind(sequence: nat): Text {
    [QUOTE] + [COMMA] + PrintMember(Member(SCHEMA_KEY, TString(SCHEMA))) + [COMMA]
    + PrintMember(Member(SEQUENCE_KEY, TNumber(Decimal(sequence)))) + [CLOSE_BRACE]
  }

  lemma PayloadAround(runId: Text, sequence: nat)
    ensures PayloadText(runId, sequence) == Before() + Escapes(runId) + Behind(sequence)
  {
    hide PrintMember, Decimal, Escapes, Before, Behind, PrintMembers;
    var m := PayloadTree(runId, sequence).members;
    PrintThree(m[0], m[1], m[2]);
    RunIdMember(runId);
    BehindIs(sequence);
    Regroup([OPEN_BRACE], PrintMember(m[0]), [COMMA], PrintMember(m[1]), PrintMember(m[2]), [CLOSE_BRACE],
            Before() + Escapes(runId), [QUOTE]);
  }

  lemma BehindIs(sequence: nat)
    ensures Behind(sequence)
            == [QUOTE] + [COMMA] + PrintMember(Member(SCHEMA_KEY, TString(SCHEMA))) + [COMMA]
               + PrintMember(Member(SEQUENCE_KEY, TNumber(Decimal(sequence)))) + [CLOSE_BRACE]
  {
  }

  lemma PrintThree(a: Member, b: Member, c: Member)
    ensures PrintMembers([a, b, c]) == PrintMember(a) + [COMMA] + (PrintMember(b) + [COMMA] + PrintMember(c))
  {
    hide PrintMember;
    assert [a, b, c][1..] == [b, c] && [b, c][1..] == [c];
    assert PrintMembers([b, c]) == PrintMember(b) + [COMMA] + PrintMembers([c]);
  }

  lemma Regroup(o: Text, x: Text, comma: Text, y: Text, z: Text, close: Text, front: Text, quote: Text)
    requires o + x == front + quote
    ensures o + (x + comma + (y + comma + z)) + close == front + (quote + comma + y + comma + z + close)
  {
    var tail := comma + y + comma + z + close;
    assert o + (x + comma + (y + comma + z)) + close == (o + x) + tail;
    assert quote + comma + y + comma + z + close == quote + tail;
    assert front + quote + tail == front + (quote + tail);
  }

  lemma RunIdMember(runId: Text)
    ensures [OPEN_BRACE] + PrintMember(Member(RUN_ID_KEY, TString(runId))) == Before() + Escapes(runId) + [QUOTE]
  {
    hide Escapes;
  }

  predicate Ascii(t: Text) {
    forall i :: 0 <= i < |t| ==> t[i] < 0x80
  }

  lemma AsciiJoin(a: Text, b: Text)
    requires Ascii(a) && Ascii(b)
    ensures Ascii(a + b)
  {
  }

  lemma {:induction false} AsciiEscapes(s: Text)
    requires Ascii(s)
    ensures Ascii(Escapes(s))
  {
    if |s| > 0 {
      AsciiEscapes(s[1..]);
      AsciiEscape(s[0]);
      AsciiJoin(Escape(s[0]), Escapes(s[1..]));
    }
  }

  lemma AsciiEscape(u: Unit)
    requires u < 0x80
    ensures Ascii(Escape(u))
  {
  }

  lemma AsciiQuoted(s: Text)
    requires Ascii(s)
    ensures Ascii(Quoted(s))
  {
    hide Escapes;
    AsciiEscapes(s);
  }

  lemma AsciiMember(key: Text, value: Tree)
    requires Ascii(key) && Ascii(Print(value))
    ensures Ascii(PrintMember(Member(key, value)))
  {
    hide Quoted, Print;
    AsciiQuoted(key);
    AsciiJoin(Quoted(key), [COLON]);
  }

  lemma AroundIsAscii(sequence: nat)
    ensures Ascii(Before()) && Ascii(Behind(sequence))
  {
    hide Quoted, Decimal, PrintMember;
    AsciiQuoted(RUN_ID_KEY);
    AsciiQuoted(SCHEMA);
    AsciiMember(SCHEMA_KEY, TString(SCHEMA));
    DecimalReadsBack(sequence);
    AsciiMember(SEQUENCE_KEY, TNumber(Decimal(sequence)));
  }

  lemma AsciiHasNoLoneSurrogates(t: Text)
    requires Ascii(t)
    ensures NoLoneSurrogates(t) && REPLACEMENT !in t
  {
  }

  lemma PayloadWellFormed(runId: Text, sequence: nat)
    requires NoLoneSurrogates(runId)
    ensures NoLoneSurrogates(PayloadText(runId, sequence))
  {
    hide Before, Behind, PayloadText, NoLoneSurrogates;
    PayloadAround(runId, sequence);
    AroundIsAscii(sequence);
    AsciiHasNoLoneSurrogates(Before());
    AsciiHasNoLoneSurrogates(Behind(sequence));
    EscapesKeepPairs(runId);
    JoinedPairs(Before(), Escapes(runId));
    JoinedPairs(Before() + Escapes(runId), Behind(sequence));
  }

  // ---------------------------------------------------------------- one cursor for each position

  /** Any bytes that decode to the payload's text make an accepted cursor. */
  lemma BytesAccepted(bytes: seq<Octet>, runId: Text, sequence: nat, skip: seq<Octet> -> nat)
    requires Skips(skip) && RunId(runId) && sequence <= MAX_SAFE_INTEGER && NoLoneSurrogates(runId)
    requires Lossy(bytes, skip) == PayloadText(runId, sequence)
    ensures Decode(PREFIX + Encode64(bytes), runId, skip) == Some(sequence)
  {
    hide Decode64, Encode64, Print, Parse, PayloadOf, NoLoneSurrogates, Skips;
    var cursor := PREFIX + Encode64(bytes);
    assert cursor[|PREFIX|..] == Encode64(bytes);
    DecodeOfEncode64(bytes);
    PayloadNumbersOk(runId, sequence);
    ParseOfPrint(PayloadTree(runId, sequence));
    PayloadReadsBack(runId, sequence);
    PayloadNotEmpty(runId, sequence);
  }

  lemma PayloadNotEmpty(runId: Text, sequence: nat)
    ensures |PayloadText(runId, sequence)| > 0
  {
  }

  /** Decoding inverts encoding for every run id and sequence that can be encoded at all. */
  lemma DecodeInvertsEncode(runId: Text, sequence: nat, skip: seq<Octet> -> nat)
    requires Skips(skip) && Encode(runId, sequence).Some?
    ensures Decode(Encode(runId, sequence).value, runId, skip) == Some(sequence)
  {
    hide Decode, PayloadText, Encode64, Skips, NoLoneSurrogates;
    PayloadWellFormed(runId, sequence);
    var text := PayloadText(runId, sequence);
    LossyOfUtf8(text, [], skip);
    assert Utf8(text) + [] == Utf8(text);
    assert Lossy([], skip) == [];
    assert text + [] == text;
    BytesAccepted(Utf8(text), runId, sequence, skip);
  }

  lemma {:induction false} ReplacementOnlyInRunId(s: Text)
    ensures REPLACEMENT in Escapes(s) <==> REPLACEMENT in s
  {
    if |s| > 0 {
      ReplacementOnlyInRunId(s[1..]);
      EscapeOfReplacement(s[0]);
      assert s == [s[0]] + s[1..];
    }
  }

  lemma EscapeOfReplacement(u: Unit)
    ensures REPLACEMENT in Escape(u) <==> u == REPLACEMENT
  {
  }

  lemma PayloadReplacement(runId: Text, sequence: nat)
    ensures REPLACEMENT in PayloadText(runId, sequence) <==> REPLACEMENT in runId
  {
    hide PayloadText, Escapes, Before, Behind, Ascii, NoLoneSurrogates;
    PayloadAround(runId, sequence);
    ReplacementOnlyInRunId(runId);
    AroundIsAscii(sequence);
    AsciiHasNoLoneSurrogates(Before());
    AsciiHasNoLoneSurrogates(Behind(sequence));
  }

  /** For a run id without U+FFFD the decoder takes nothing but the encoder's own text. */
  lemma OnlyEncodedAccepted(cursor: Text, runId: Text, sequence: nat, skip: seq<Octet> -> nat)
    requires Skips(skip) && REPLACEMENT !in runId
    requires Decode(cursor, runId, skip) == Some(sequence)
    ensures Encode(runId, sequence) == Some(cursor)
  {
    hide Decode64, Encode64, Lossy, Parse, PayloadText, PayloadOf, NoLoneSurrogates, Skips;
    var bytes := Decode64(cursor[|PREFIX|..]);
    PayloadOfBounds(Parse(Lossy(bytes, skip)).value);
    PayloadReplacement(runId, sequence);
    NothingReplaced(bytes, skip);
    assert cursor == PREFIX + cursor[|PREFIX|..];
  }

  lemma PayloadOfBounds(tree: Tree)
    ensures PayloadOf(tree).Some? ==> RunId(PayloadOf(tree).value.0) && PayloadOf(tree).value.1 <= MAX_SAFE_INTEGER
  {
  }

  lemma SplitPairs(t: Text, k: nat)
    requires NoLoneSurrogates(t) && k < |t| && !High(t[k]) && !Low(t[k])
    ensures NoLoneSurrogates(t[..k]) && NoLoneSurrogates(t[k + 1..])
  {
    forall i | 0 <= i < k ensures Paired(t[..k], i) { assert Paired(t, i); }
    var rest := t[k + 1..];
    forall i | 0 <= i < |rest| ensures Paired(rest, i) { assert Paired(t, i + k + 1); }
  }

  lemma {:induction false} Utf8Length(t: Text, k: nat)
    requires NoLoneSurrogates(t) && k < |t| && t[k] == REPLACEMENT
    requires NoLoneSurrogates(t[..k]) && NoLoneSurrogates(t[k + 1..])
    ensures |Utf8(t)| == |Utf8(t[..k])| + 3 + |Utf8(t[k + 1..])|
    decreases |t|
  {
    hide NoLoneSurrogates, CodePoint, Octets;
    FirstIsScalar(t);
    var first := FirstScalar(t);
    if k == 0 {
      assert first == t[..1] && Utf8(t[..0]) == [];
      ReplacementOctets();
      assert first == [REPLACEMENT];
    } else {
      ReplacementIsNoSurrogate();
      assert |first| <= k;
      var rest := t[|first|..];
      assert rest[..k - |first|] == t[..k][|first|..] && rest[k - |first| + 1..] == t[k + 1..];
      FirstIsScalar(t[..k]);
      assert FirstScalar(t[..k]) == first;
      Utf8Length(rest, k - |first|);
    }
  }

  lemma ReplacementOctets()
    ensures |Octets(CodePoint([REPLACEMENT]))| == 3
  {
  }

  lemma ReplacementIsNoSurrogate()
    ensures !High(REPLACEMENT) && !Low(REPLACEMENT)
  {
  }

  /** For every run id that does hold U+FFFD there is a second accepted text: a malformed byte in its place. */
  lemma ReplacementHasTwoCursors(runId: Text, sequence: nat, skip: seq<Octet> -> nat) returns (other: Text)
    requires Skips(skip) && Encode(runId, sequence).Some? && REPLACEMENT in runId
    ensures Decode(other, runId, skip) == Some(sequence)
    ensures Encode(runId, sequence) != Some(other)
  {
    hide Decode, PayloadText, Encode64, Skips, NoLoneSurrogates, Decode64, Utf8, Lossy;
    PayloadWellFormed(runId, sequence);
    PayloadReplacement(runId, sequence);
    var text := PayloadText(runId, sequence);
    var k: nat :| k < |text| && text[k] == REPLACEMENT;
    ReplacementIsNoSurrogate();
    SplitPairs(text, k);
    var front, back := text[..k], text[k + 1..];
    var bytes := Utf8(front) + ([0xff] + Utf8(back));
    OneBadByte(Utf8(back), skip);
    LossyOfUtf8(front, [0xff] + Utf8(back), skip);
    LossyOfUtf8(back, [], skip);
    assert Utf8(back) + [] == Utf8(back);
    EmptyLossy(skip);
    assert back + [] == back;
    assert text == front + ([REPLACEMENT] + back);
    BytesAccepted(bytes, runId, sequence, skip);
    other := PREFIX + Encode64(bytes);
    Utf8Length(text, k);
    DecodeOfEncode64(bytes);
    DecodeOfEncode64(Utf8(text));
    DifferentBehindPrefix(Encode64(bytes), Encode64(Utf8(text)));
  }

  lemma DifferentBehindPrefix(a: Text, b: Text)
    requires a != b
    ensures PREFIX + a != PREFIX + b
  {
    assert (PREFIX + a)[|PREFIX|..] == a && (PREFIX + b)[|PREFIX|..] == b;
  }

  lemma EmptyLossy(skip: seq<Octet> -> nat)
    requires Skips(skip)
    ensures Lossy([], skip) == []
  {
  }

  lemma OneBadByte(rest: seq<Octet>, skip: seq<Octet> -> nat)
    requires Skips(skip)
    ensures Lossy([0xff] + rest, skip) == [REPLACEMENT] + Lossy(rest, skip)
  {
  }
}
