/**
 The text layer of canonical JSON (RFC 8785): strings as UTF-16 code units, their escapes, the printer
 of sorted syntax trees, and a parser that is proved to be its left inverse.
 */
module JsonText {
  import opened Options

  type Unit = n: int | 0 <= n < 0x10000
  type Text = seq<Unit>

  const QUOTE: Unit := 0x22
  const COMMA: Unit := 0x2c
  const COLON: Unit := 0x3a
  const OPEN_BRACKET: Unit := 0x5b
  const BACKSLASH: Unit := 0x5c
  const CLOSE_BRACKET: Unit := 0x5d
  const OPEN_BRACE: Unit := 0x7b
  const CLOSE_BRACE: Unit := 0x7d

  const NULL_TEXT: Text := [0x6e, 0x75, 0x6c, 0x6c]
  const TRUE_TEXT: Text := [0x74, 0x72, 0x75, 0x65]
  const FALSE_TEXT: Text := [0x66, 0x61, 0x6c, 0x73, 0x65]

  datatype Member = Member(key: Text, value: Tree)

  /** JSON syntax, numbers by their text. */
  datatype Tree =
    | TNull
    | TBool(value: bool)
    | TString(text: Text)
    | TNumber(digits: Text)
    | TArray(elements: seq<Tree>)
    | TObject(members: seq<Member>)

  // ---------------------------------------------------------------- strings

  function HexDigit(n: int): Unit
    requires 0 <= n < 16
  {
    if n < 10 then 0x30 + n else 0x61 + n - 10
  }

  /** What `JSON.stringify` writes for one code unit. */
  function Escape(u: Unit): (text: Text)
    ensures 0 < |text|
  {
    if u == QUOTE then [BACKSLASH, QUOTE]
    else if u == BACKSLASH then [BACKSLASH, BACKSLASH]
    else if u == 0x08 then [BACKSLASH, 0x62]
    else if u == 0x09 then [BACKSLASH, 0x74]
    else if u == 0x0a then [BACKSLASH, 0x6e]
    else if u == 0x0c then [BACKSLASH, 0x66]
    else if u == 0x0d then [BACKSLASH, 0x72]
    else if u < 0x20 then [BACKSLASH, 0x75, 0x30, 0x30, HexDigit(u / 16), HexDigit(u % 16)]
    else [u]
  }

  function Escapes(s: Text): Text {
    if |s| == 0 then [] else Escape(s[0]) + Escapes(s[1..])
  }

  function Quoted(s: Text): Text {
    [QUOTE] + Escapes(s) + [QUOTE]
  }

  function HexValue(u: Unit): Option<int> {
    if 0x30 <= u <= 0x39 then Some(u - 0x30)
    else if 0x61 <= u <= 0x66 then Some(u - 0x61 + 10)
    else None
  }

  /** One code unit from the inside of a string, and what follows it. */
  function ParseUnit(t: Text): (parsed: Option<(Unit, Text)>)
    ensures parsed.Some? ==> |parsed.value.1| < |t|
  {
    if |t| == 0 || t[0] == QUOTE || t[0] < 0x20 then None
    else if t[0] != BACKSLASH then Some((t[0], t[1..]))
    else if |t| < 2 then None
    else if t[1] == QUOTE || t[1] == BACKSLASH then Some((t[1], t[2..]))
    else if t[1] == 0x62 then Some((0x08, t[2..]))
    else if t[1] == 0x74 then Some((0x09, t[2..]))
    else if t[1] == 0x6e then Some((0x0a, t[2..]))
    else if t[1] == 0x66 then Some((0x0c, t[2..]))
    else if t[1] == 0x72 then Some((0x0d, t[2..]))
    else if t[1] == 0x75 && |t| >= 6 && t[2] == 0x30 && t[3] == 0x30
            && HexValue(t[4]).Some? && HexValue(t[5]).Some? then
      Some((16 * HexValue(t[4]).value + HexValue(t[5]).value, t[6..]))
    else None
  }

  /** The rest of a string after its opening quote. */
  function ParseString(t: Text): (parsed: Option<(Text, Text)>)
    ensures parsed.Some? ==> |parsed.value.1| < |t|
    decreases |t|
  {
    if |t| > 0 && t[0] == QUOTE then Some(([], t[1..]))
    else
      var head := ParseUnit(t);
      if head.None? then None
      else
        var rest := ParseString(head.value.1);
        if rest.None? then None else Some(([head.value.0] + rest.value.0, rest.value.1))
  }

  lemma UnescapeEscape(u: Unit, rest: Text)
    ensures ParseUnit(Escape(u) + rest) == Some((u, rest))
    ensures Escape(u)[0] != QUOTE
  {
  }

  lemma {:induction false} ParseQuoted(s: Text, rest: Text)
    ensures ParseString(Escapes(s) + [QUOTE] + rest) == Some((s, rest))
  {
    hide Escape, ParseUnit;
    if |s| == 0 {
      assert (Escapes(s) + [QUOTE] + rest)[1..] == rest;
    } else {
      var tail := Escapes(s[1..]) + [QUOTE] + rest;
      assert Escapes(s) + [QUOTE] + rest == Escape(s[0]) + tail;
      UnescapeEscape(s[0], tail);
      ParseQuoted(s[1..], rest);
      assert [s[0]] + s[1..] == s;
    }
  }

  // ---------------------------------------------------------------- numbers

  /** Every code unit a JSON number can hold. None of them can follow a value. */
  predicate NumberUnit(u: Unit) {
    (0x30 <= u <= 0x39) || u == 0x2d || u == 0x2b || u == 0x2e || u == 0x45 || u == 0x65
  }

  /** All the parser needs of a rendered number: it starts like one and holds nothing else. */
  predicate NumberText(t: Text) {
    && |t| > 0 && ((0x30 <= t[0] <= 0x39) || t[0] == 0x2d)
    && forall i :: 0 <= i < |t| ==> NumberUnit(t[i])
  }

  /** The longest number prefix, as numbers have no terminator of their own. */
  function NumberLength(t: Text): (n: nat)
    ensures n <= |t|
  {
    if |t| == 0 || !NumberUnit(t[0]) then 0 else 1 + NumberLength(t[1..])
  }

  predicate Follows(rest: Text) {
    |rest| == 0 || !NumberUnit(rest[0])
  }

  lemma {:induction false} NumberEnds(digits: Text, rest: Text)
    requires forall i :: 0 <= i < |digits| ==> NumberUnit(digits[i])
    requires Follows(rest)
    ensures NumberLength(digits + rest) == |digits|
  {
    if |digits| == 0 {
      assert digits + rest == rest;
    } else {
      assert (digits + rest)[1..] == digits[1..] + rest;
      NumberEnds(digits[1..], rest);
    }
  }

  // ---------------------------------------------------------------- the printer

  function Print(tree: Tree): (text: Text)
    decreases tree, 0
  {
    match tree
    case TNull => NULL_TEXT
    case TBool(value) => if value then TRUE_TEXT else FALSE_TEXT
    case TString(s) => Quoted(s)
    case TNumber(digits) => digits
    case TArray(elements) => [OPEN_BRACKET] + PrintElements(elements) + [CLOSE_BRACKET]
    case TObject(members) => [OPEN_BRACE] + PrintMembers(members) + [CLOSE_BRACE]
  }

  function PrintElements(elements: seq<Tree>): Text
    decreases elements, 1
  {
    if |elements| == 0 then []
    else if |elements| == 1 then Print(elements[0])
    else Print(elements[0]) + [COMMA] + PrintElements(elements[1..])
  }

  function PrintMember(m: Member): Text
    decreases m, 1
  {
    Quoted(m.key) + [COLON] + Print(m.value)
  }

  function PrintMembers(members: seq<Member>): Text
    decreases members, 2
  {
    if |members| == 0 then []
    else if |members| == 1 then PrintMember(members[0])
    else PrintMember(members[0]) + [COMMA] + PrintMembers(members[1..])
  }

  // ---------------------------------------------------------------- the parser

  function ParseValue(t: Text): (parsed: Option<(Tree, Text)>)
    ensures parsed.Some? ==> |parsed.value.1| < |t|
    decreases |t|, 0
  {
    if |t| == 0 then None
    else if NULL_TEXT <= t then Some((TNull, t[4..]))
    else if TRUE_TEXT <= t then Some((TBool(true), t[4..]))
    else if FALSE_TEXT <= t then Some((TBool(false), t[5..]))
    else if t[0] == QUOTE then
      var s := ParseString(t[1..]);
      if s.None? then None else Some((TString(s.value.0), s.value.1))
    else if t[0] == OPEN_BRACKET then
      if |t| > 1 && t[1] == CLOSE_BRACKET then Some((TArray([]), t[2..]))
      else
        var elements := ParseElements(t[1..]);
        if elements.None? then None else Some((TArray(elements.value.0), elements.value.1))
    else if t[0] == OPEN_BRACE then
      if |t| > 1 && t[1] == CLOSE_BRACE then Some((TObject([]), t[2..]))
      else
        var members := ParseMembers(t[1..]);
        if members.None? then None else Some((TObject(members.value.0), members.value.1))
    else
      var n := NumberLength(t);
      if n > 0 && NumberText(t[..n]) then Some((TNumber(t[..n]), t[n..])) else None
  }

  /** One or more elements and the closing bracket. */
  function ParseElements(t: Text): (parsed: Option<(seq<Tree>, Text)>)
    ensures parsed.Some? ==> |parsed.value.1| < |t|
    decreases |t|, 1
  {
    var first := ParseValue(t);
    if first.None? || |first.value.1| == 0 then None
    else
      var rest := first.value.1;
      if rest[0] == CLOSE_BRACKET then Some(([first.value.0], rest[1..]))
      else if rest[0] != COMMA then None
      else
        var more := ParseElements(rest[1..]);
        if more.None? then None else Some(([first.value.0] + more.value.0, more.value.1))
  }

  function ParseMember(t: Text): (parsed: Option<(Member, Text)>)
    ensures parsed.Some? ==> |parsed.value.1| < |t|
    decreases |t|, 1
  {
    if |t| == 0 || t[0] != QUOTE then None
    else
      var key := ParseString(t[1..]);
      if key.None? || |key.value.1| == 0 || key.value.1[0] != COLON then None
      else
        var value := ParseValue(key.value.1[1..]);
        if value.None? then None else Some((Member(key.value.0, value.value.0), value.value.1))
  }

  /** One or more members and the closing brace. */
  function ParseMembers(t: Text): (parsed: Option<(seq<Member>, Text)>)
    ensures parsed.Some? ==> |parsed.value.1| < |t|
    decreases |t|, 2
  {
    var first := ParseMember(t);
    if first.None? || |first.value.1| == 0 then None
    else
      var rest := first.value.1;
      if rest[0] == CLOSE_BRACE then Some(([first.value.0], rest[1..]))
      else if rest[0] != COMMA then None
      else
        var more := ParseMembers(rest[1..]);
        if more.None? then None else Some(([first.value.0] + more.value.0, more.value.1))
  }

  /** `JSON.parse` of a whole text, without white space. */
  function Parse(t: Text): Option<Tree> {
    var parsed := ParseValue(t);
    if parsed.Some? && parsed.value.1 == [] then Some(parsed.value.0) else None
  }

  // ---------------------------------------------------------------- left inverse

  /** Every number leaf has a number's text. */
  ghost predicate NumbersOk(tree: Tree)
    decreases tree
  {
    match tree
    case TNumber(digits) => NumberText(digits)
    case TArray(elements) => forall i :: 0 <= i < |elements| ==> NumbersOk(elements[i])
    case TObject(members) => forall i :: 0 <= i < |members| ==> NumbersOk(members[i].value)
    case _ => true
  }

  lemma StringValue(t: Text)
    requires |t| > 0 && t[0] == QUOTE && ParseString(t[1..]).Some?
    ensures ParseValue(t) == Some((TString(ParseString(t[1..]).value.0), ParseString(t[1..]).value.1))
  {
  }

  lemma {:induction false} ParsePrint(tree: Tree, rest: Text)
    requires NumbersOk(tree) && Follows(rest)
    ensures ParseValue(Print(tree) + rest) == Some((tree, rest))
    decreases tree, 0
  {
    hide Escapes, ParseString;
    var t := Print(tree) + rest;
    match tree
    case TNull => assert t[4..] == rest;
    case TBool(value) =>
      if value {
        assert t[4..] == rest && t[0] == 0x74 && NULL_TEXT[0] != 0x74;
        assert TRUE_TEXT <= t;
      } else {
        assert t[5..] == rest && t[0] == 0x66 && NULL_TEXT[0] != 0x66 && TRUE_TEXT[0] != 0x66;
        assert FALSE_TEXT <= t;
      }
    case TString(s) =>
      assert t[1..] == Escapes(s) + [QUOTE] + rest;
      ParseQuoted(s, rest);
      StringValue(t);
    case TNumber(digits) =>
      NumberEnds(digits, rest);
      assert t[..|digits|] == digits && t[|digits|..] == rest;
      assert !(NULL_TEXT <= t) && !(TRUE_TEXT <= t) && !(FALSE_TEXT <= t);
    case TArray(elements) => ParsePrintArray(elements, rest);
    case TObject(members) => ParsePrintObject(members, rest);
  }

  lemma {:induction false} ParsePrintArray(elements: seq<Tree>, rest: Text)
    requires forall i :: 0 <= i < |elements| ==> NumbersOk(elements[i])
    ensures ParseValue(Print(TArray(elements)) + rest) == Some((TArray(elements), rest))
    decreases elements, 3
  {
    var t := Print(TArray(elements)) + rest;
    if |elements| == 0 {
      assert t[2..] == rest;
    } else {
      assert t[1..] == PrintElements(elements) + [CLOSE_BRACKET] + rest;
      ParsePrintElements(elements, rest);
      ElementsStart(elements);
    }
  }

  lemma {:induction false} ParsePrintObject(members: seq<Member>, rest: Text)
    requires forall i :: 0 <= i < |members| ==> NumbersOk(members[i].value)
    ensures ParseValue(Print(TObject(members)) + rest) == Some((TObject(members), rest))
    decreases members, 4
  {
    var t := Print(TObject(members)) + rest;
    if |members| == 0 {
      assert t[2..] == rest;
    } else {
      assert t[1..] == PrintMembers(members) + [CLOSE_BRACE] + rest;
      ParsePrintMembers(members, rest);
      assert PrintMembers(members)[0] == QUOTE;
    }
  }

  lemma {:induction false} ElementsStart(elements: seq<Tree>)
    requires |elements| > 0 && NumbersOk(elements[0])
    ensures |PrintElements(elements)| > 0 && PrintElements(elements)[0] != CLOSE_BRACKET
  {
  }

  lemma {:induction false} ParsePrintElements(elements: seq<Tree>, rest: Text)
    requires |elements| > 0
    requires forall i :: 0 <= i < |elements| ==> NumbersOk(elements[i])
    ensures ParseElements(PrintElements(elements) + [CLOSE_BRACKET] + rest) == Some((elements, rest))
    decreases elements, 2
  {
    hide ParseValue, Print;
    var t := PrintElements(elements) + [CLOSE_BRACKET] + rest;
    if |elements| == 1 {
      assert t == Print(elements[0]) + ([CLOSE_BRACKET] + rest);
      ParsePrint(elements[0], [CLOSE_BRACKET] + rest);
      assert ([CLOSE_BRACKET] + rest)[1..] == rest;
      assert [elements[0]] == elements;
    } else {
      var tail := PrintElements(elements[1..]) + [CLOSE_BRACKET] + rest;
      assert t == Print(elements[0]) + ([COMMA] + tail);
      ParsePrint(elements[0], [COMMA] + tail);
      assert ([COMMA] + tail)[1..] == tail;
      ParsePrintElements(elements[1..], rest);
      assert [elements[0]] + elements[1..] == elements;
    }
  }

  lemma {:induction false} ParsePrintMember(m: Member, rest: Text)
    requires NumbersOk(m.value) && Follows(rest)
    ensures ParseMember(PrintMember(m) + rest) == Some((m, rest))
    decreases m, 2
  {
    hide ParseValue, Print, Escapes, ParseString;
    var t := PrintMember(m) + rest;
    var after := [COLON] + Print(m.value) + rest;
    assert t[1..] == Escapes(m.key) + [QUOTE] + after;
    ParseQuoted(m.key, after);
    assert after[1..] == Print(m.value) + rest;
    ParsePrint(m.value, rest);
  }

  lemma {:induction false} ParsePrintMembers(members: seq<Member>, rest: Text)
    requires |members| > 0
    requires forall i :: 0 <= i < |members| ==> NumbersOk(members[i].value)
    ensures ParseMembers(PrintMembers(members) + [CLOSE_BRACE] + rest) == Some((members, rest))
    decreases members, 3
  {
    hide PrintMember, ParseMember, ParseValue, Print, Escapes;
    var t := PrintMembers(members) + [CLOSE_BRACE] + rest;
    if |members| == 1 {
      assert t == PrintMember(members[0]) + ([CLOSE_BRACE] + rest);
      ParsePrintMember(members[0], [CLOSE_BRACE] + rest);
      assert ([CLOSE_BRACE] + rest)[1..] == rest;
      assert [members[0]] == members;
    } else {
      var tail := PrintMembers(members[1..]) + [CLOSE_BRACE] + rest;
      assert t == PrintMember(members[0]) + ([COMMA] + tail);
      ParsePrintMember(members[0], [COMMA] + tail);
      assert ([COMMA] + tail)[1..] == tail;
      ParsePrintMembers(members[1..], rest);
      assert [members[0]] + members[1..] == members;
    }
  }

  /** Parsing a printed tree gives the tree back. */
  lemma {:induction false} ParseOfPrint(tree: Tree)
    requires NumbersOk(tree)
    ensures Parse(Print(tree)) == Some(tree)
  {
    ParsePrint(tree, []);
    assert Print(tree) + [] == Print(tree);
  }
}
