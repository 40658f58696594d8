// JSON object texts as RFC 8259 writes them, and the proof that the scanner
// gets every one of them back out of surrounding commentary.

module JsonText {
  import opened Wrappers
  import opened JsonScan

  // ----- concrete syntax: a tree, with every choice a writer has

  /** One unit of a string literal (RFC 8259, section 7). */
  datatype StringUnit = Plain(c: char) | Escaped(c: char) | Unicode(hex: string)

  /** A value; `Word` is a number or one of the literal names. */
  datatype Value =
    | Word(text: string)
    | Str(units: seq<StringUnit>)
    | Arr(space: string, items: Items)
    | Obj(space: string, members: Members)

  /** Array elements with the white space around them. */
  datatype Items = NoItems | Item(before: string, value: Value, after: string, rest: Items)

  /** Object members (RFC 8259, section 4) with the white space around them. */
  datatype Members =
    | NoMembers
    | Member(before: string, key: seq<StringUnit>, afterKey: string,
             beforeValue: string, value: Value, after: string, rest: Members)

  predicate IsWhitespace(s: string) { forall c <- s :: c == ' ' || c == '\t' || c == '\n' || c == '\r' }

  predicate IsHexDigit(c: char) { '0' <= c <= '9' || 'a' <= c <= 'f' || 'A' <= c <= 'F' }

  predicate UnitOk(u: StringUnit) {
    match u
    case Plain(c) => c >= ' ' && c != '"' && c != '\\'
    case Escaped(c) => c in {'"', '\\', '/', 'b', 'f', 'n', 'r', 't'}
    case Unicode(hex) => |hex| == 4 && forall c <- hex :: IsHexDigit(c)
  }

  predicate UnitsOk(units: seq<StringUnit>) { forall u <- units :: UnitOk(u) }

  /** Letters, digits, sign, point: nothing that JSON gives a structural meaning. */
  predicate WordOk(text: string) {
    forall c <- text :: c !in {'"', '\\', '{', '}', '[', ']', ',', ':'}
  }

  predicate ValueOk(v: Value) {
    match v
    case Word(text) => WordOk(text)
    case Str(units) => UnitsOk(units)
    case Arr(space, items) => IsWhitespace(space) && ItemsOk(items)
    case Obj(space, members) => IsWhitespace(space) && MembersOk(members)
  }

  predicate ItemsOk(items: Items) {
    match items
    case NoItems => true
    case Item(before, value, after, rest) =>
      IsWhitespace(before) && ValueOk(value) && IsWhitespace(after) && ItemsOk(rest)
  }

  predicate MembersOk(members: Members) {
    match members
    case NoMembers => true
    case Member(before, key, afterKey, beforeValue, value, after, rest) =>
      && IsWhitespace(before) && UnitsOk(key) && IsWhitespace(afterKey)
      && IsWhitespace(beforeValue) && ValueOk(value) && IsWhitespace(after) && MembersOk(rest)
  }

  // ----- printing

  function PrintUnit(u: StringUnit): string {
    match u
    case Plain(c) => [c]
    case Escaped(c) => ['\\', c]
    case Unicode(hex) => ['\\', 'u'] + hex
  }

  function PrintUnits(units: seq<StringUnit>): string {
    if units == [] then "" else PrintUnits(units[..|units| - 1]) + PrintUnit(units[|units| - 1])
  }

  function PrintString(units: seq<StringUnit>): string { "\"" + PrintUnits(units) + "\"" }

  function Print(v: Value): string {
    match v
    case Word(text) => text
    case Str(units) => PrintString(units)
    case Arr(space, items) => "[" + (space + PrintItems(items)) + "]"
    case Obj(space, members) => "{" + (space + PrintMembers(members)) + "}"
  }

  function PrintItems(items: Items): string {
    match items
    case NoItems => ""
    case Item(before, value, after, rest) =>
      before + Print(value) + after + (if rest.NoItems? then "" else "," + PrintItems(rest))
  }

  function PrintMembers(members: Members): string {
    match members
    case NoMembers => ""
    case Member(before, key, afterKey, beforeValue, value, after, rest) =>
      before + PrintString(key) + afterKey + ":" + beforeValue + Print(value) + after +
      (if rest.NoMembers? then "" else "," + PrintMembers(rest))
  }

  // ----- texts the scanner passes over without losing count

  /** Read from outside a string, the text ends outside one, its braces cancel,
      and no prefix closes more than it opened. */
  ghost predicate Neutral(text: string) {
    && Reads(OUTSIDE, text) == OUTSIDE
    && Balance(OUTSIDE, text) == 0
    && forall k :: 0 <= k <= |text| ==> Balance(OUTSIDE, text[..k]) >= 0
  }

  lemma NeutralConcat(a: string, b: string)
    requires Neutral(a) && Neutral(b)
    ensures Neutral(a + b)
  {
    hide Reads, Balance;
    ReadsConcat(OUTSIDE, a, b);
    forall k | 0 <= k <= |a + b|
      ensures Balance(OUTSIDE, (a + b)[..k]) >= 0
    {
      if k <= |a| {
        assert (a + b)[..k] == a[..k];
      } else {
        assert (a + b)[..k] == a + b[..k - |a|];
        ReadsConcat(OUTSIDE, a, b[..k - |a|]);
      }
    }
  }

  predicate Unremarkable(c: char) { c != '"' && c != '{' && c != '}' }

  lemma {:induction false} UnremarkableIsNeutral(text: string)
    requires forall i :: 0 <= i < |text| ==> Unremarkable(text[i])
    ensures Neutral(text)
  {
    if text == "" {
      assert Balance(OUTSIDE, text[..0]) == 0;
    } else {
      var init := text[..|text| - 1];
      UnremarkableIsNeutral(init);
      forall k | 0 <= k <= |text|
        ensures Balance(OUTSIDE, text[..k]) >= 0
      {
        if k < |text| {
          assert text[..k] == init[..k];
        } else {
          assert text[..k] == text;
        }
      }
    }
  }

  const INSIDE := Lex(true, false)

  /** Inside a string, the text never leaves it and ends unescaped. */
  ghost predicate StaysInside(text: string) {
    && Reads(INSIDE, text) == INSIDE
    && forall k :: 0 <= k <= |text| ==> Reads(INSIDE, text[..k]).inString
  }

  lemma InsideConcat(a: string, b: string)
    requires StaysInside(a) && StaysInside(b)
    ensures StaysInside(a + b)
  {
    hide Reads, Balance;
    ReadsConcat(INSIDE, a, b);
    forall k | 0 <= k <= |a + b|
      ensures Reads(INSIDE, (a + b)[..k]).inString
    {
      if k <= |a| {
        assert (a + b)[..k] == a[..k];
      } else {
        assert (a + b)[..k] == a + b[..k - |a|];
        ReadsConcat(INSIDE, a, b[..k - |a|]);
      }
    }
  }

  lemma OneCharacter(lex: Lex, c: char)
    ensures Reads(lex, [c]) == Advance(lex, c) && Balance(lex, [c]) == Delta(lex, c)
    ensures [c][..0] == "" && [c][..1] == [c] && Reads(lex, "") == lex && Balance(lex, "") == 0
  {
    assert [c][..0] == "";
  }

  lemma PlainStaysInside(c: char)
    requires c != '"' && c != '\\'
    ensures StaysInside([c])
  {
    OneCharacter(INSIDE, c);
  }

  lemma EscapeStaysInside(c: char)
    ensures StaysInside(['\\', c])
  {
    var text := ['\\', c];
    assert text[..1] == ['\\'] && text[..2] == text && text[..0] == "";
    OneCharacter(INSIDE, '\\');
    assert Reads(INSIDE, text) == Advance(Reads(INSIDE, text[..1]), c);
  }

  lemma {:induction false} HexStaysInside(hex: string)
    requires forall i :: 0 <= i < |hex| ==> IsHexDigit(hex[i])
    ensures StaysInside(hex)
  {
    if hex == "" {
      assert hex[..0] == "";
    } else {
      var init, c := hex[..|hex| - 1], hex[|hex| - 1];
      HexStaysInside(init);
      PlainStaysInside(c);
      InsideConcat(init, [c]);
      assert hex == init + [c];
    }
  }

  /** A unit of a string literal, escaped quotes and backslashes included, never
      ends the string for the scanner. */
  lemma UnitStaysInside(u: StringUnit)
    requires UnitOk(u)
    ensures StaysInside(PrintUnit(u))
  {
    match u
    case Plain(c) => PlainStaysInside(c);
    case Escaped(c) => EscapeStaysInside(c);
    case Unicode(hex) =>
      EscapeStaysInside('u');
      HexStaysInside(hex);
      InsideConcat(['\\', 'u'], hex);
  }

  lemma {:induction false} UnitsStayInside(units: seq<StringUnit>)
    requires UnitsOk(units)
    ensures StaysInside(PrintUnits(units))
  {
    if units == [] {
      assert ""[..0] == "";
    } else {
      assert units[|units| - 1] in units;
      assert forall u <- units[..|units| - 1] :: u in units;
      UnitsStayInside(units[..|units| - 1]);
      UnitStaysInside(units[|units| - 1]);
      InsideConcat(PrintUnits(units[..|units| - 1]), PrintUnit(units[|units| - 1]));
    }
  }

  lemma {:induction false} InsideCountsNothing(text: string)
    requires forall k :: 0 <= k <= |text| ==> Reads(INSIDE, text[..k]).inString
    ensures Balance(INSIDE, text) == 0
  {
    if text != "" {
      var init := text[..|text| - 1];
      forall k | 0 <= k <= |init| ensures Reads(INSIDE, init[..k]).inString { assert init[..k] == text[..k]; }
      InsideCountsNothing(init);
    }
  }

  /** A string literal is neutral, whatever it holds. */
  lemma StringIsNeutral(units: seq<StringUnit>)
    requires UnitsOk(units)
    ensures Neutral(PrintString(units))
  {
    var body := PrintUnits(units);
    var text := PrintString(units);
    UnitsStayInside(units);
    hide PrintUnits;
    OneCharacter(OUTSIDE, '"');
    OneCharacter(INSIDE, '"');
    hide Reads, Balance;
    ReadsConcat(OUTSIDE, "\"", body);
    ReadsConcat(OUTSIDE, "\"" + body, "\"");
    forall k | 0 <= k <= |text|
      ensures Balance(OUTSIDE, text[..k]) == 0
    {
      if k == 0 {
        assert text[..k] == "";
      } else if k <= |body| + 1 {
        var part := body[..k - 1];
        assert text[..k] == "\"" + part;
        ReadsConcat(OUTSIDE, "\"", part);
        forall j | 0 <= j <= |part| ensures Reads(INSIDE, part[..j]).inString { assert part[..j] == body[..j]; }
        InsideCountsNothing(part);
      } else {
        assert text[..k] == text;
        assert body[..|body|] == body;
        InsideCountsNothing(body);
      }
    }
    assert text[..|text|] == text;
  }

  // ----- every value is neutral, every object opens and closes

  lemma {:induction false} SpaceIsNeutral(s: string)
    requires IsWhitespace(s)
    ensures Neutral(s)
  {
    forall i | 0 <= i < |s| ensures Unremarkable(s[i]) { assert s[i] in s; }
    UnremarkableIsNeutral(s);
  }

  lemma {:induction false} PunctuationIsNeutral(c: char)
    requires Unremarkable(c)
    ensures Neutral([c])
  {
    UnremarkableIsNeutral([c]);
  }

  /** A neutral text in braces: open right up to its last character. */
  lemma BracesAround(inner: string)
    requires Neutral(inner)
    ensures var text := "{" + inner + "}";
            && Reads(OUTSIDE, text) == OUTSIDE && Balance(OUTSIDE, text) == 0
            && forall k :: 0 < k < |text| ==> Balance(OUTSIDE, text[..k]) > 0
  {
    var text := "{" + inner + "}";
    OneCharacter(OUTSIDE, '{');
    OneCharacter(OUTSIDE, '}');
    hide Reads, Balance;
    ReadsConcat(OUTSIDE, "{", inner);
    ReadsConcat(OUTSIDE, "{" + inner, "}");
    forall k | 0 < k < |text|
      ensures Balance(OUTSIDE, text[..k]) > 0
    {
      assert text[..k] == "{" + inner[..k - 1];
      ReadsConcat(OUTSIDE, "{", inner[..k - 1]);
    }
  }

  lemma BracesAreNeutral(inner: string)
    requires Neutral(inner)
    ensures Neutral("{" + inner + "}")
  {
    var text := "{" + inner + "}";
    BracesAround(inner);
    OneCharacter(OUTSIDE, '{');
    hide Reads;
    assert text[..0] == "" && text[..|text|] == text;
  }

  lemma {:induction false} ValueIsNeutral(v: Value)
    requires ValueOk(v)
    ensures Neutral(Print(v))
    decreases v
  {
    hide Neutral;
    match v
    case Word(text) =>
      forall i | 0 <= i < |text| ensures Unremarkable(text[i]) { assert text[i] in text; }
      UnremarkableIsNeutral(text);
    case Str(units) => StringIsNeutral(units);
    case Arr(space, items) =>
      SpaceIsNeutral(space);
      ItemsAreNeutral(items);
      PunctuationIsNeutral('[');
      PunctuationIsNeutral(']');
      NeutralConcat(space, PrintItems(items));
      NeutralConcat("[", space + PrintItems(items));
      NeutralConcat("[" + (space + PrintItems(items)), "]");
    case Obj(space, members) =>
      SpaceIsNeutral(space);
      MembersAreNeutral(members);
      NeutralConcat(space, PrintMembers(members));
      BracesAreNeutral(space + PrintMembers(members));
  }

  lemma {:induction false} ItemsAreNeutral(items: Items)
    requires ItemsOk(items)
    ensures Neutral(PrintItems(items))
    decreases items
  {
    hide Neutral;
    match items
    case NoItems => SpaceIsNeutral("");
    case Item(before, value, after, rest) =>
      SpaceIsNeutral(before);
      ValueIsNeutral(value);
      SpaceIsNeutral(after);
      ItemsAreNeutral(rest);
      var more := if rest.NoItems? then "" else "," + PrintItems(rest);
      MoreIsNeutral(PrintItems(rest), rest.NoItems?, more);
      NeutralConcat(before, Print(value));
      NeutralConcat(before + Print(value), after);
      NeutralConcat(before + Print(value) + after, more);
  }

  lemma MoreIsNeutral(rest: string, none: bool, more: string)
    requires Neutral(rest) && more == if none then "" else "," + rest
    ensures Neutral(more)
  {
    hide Neutral;
    SpaceIsNeutral("");
    PunctuationIsNeutral(',');
    NeutralConcat(",", rest);
  }

  lemma {:induction false} MembersAreNeutral(members: Members)
    requires MembersOk(members)
    ensures Neutral(PrintMembers(members))
    decreases members
  {
    hide Neutral;
    match members
    case NoMembers => SpaceIsNeutral("");
    case Member(before, key, afterKey, beforeValue, value, after, rest) =>
      SpaceIsNeutral(before);
      StringIsNeutral(key);
      SpaceIsNeutral(afterKey);
      PunctuationIsNeutral(':');
      SpaceIsNeutral(beforeValue);
      ValueIsNeutral(value);
      SpaceIsNeutral(after);
      MembersAreNeutral(rest);
      var more := if rest.NoMembers? then "" else "," + PrintMembers(rest);
      MoreIsNeutral(PrintMembers(rest), rest.NoMembers?, more);
      NeutralConcat(before, PrintString(key));
      NeutralConcat(before + PrintString(key), afterKey);
      NeutralConcat(before + PrintString(key) + afterKey, ":");
      NeutralConcat(before + PrintString(key) + afterKey + ":", beforeValue);
      NeutralConcat(before + PrintString(key) + afterKey + ":" + beforeValue, Print(value));
      NeutralConcat(before + PrintString(key) + afterKey + ":" + beforeValue + Print(value), after);
      NeutralConcat(before + PrintString(key) + afterKey + ":" + beforeValue + Print(value) + after, more);
  }

  // ----- round trip

  /** Commentary that leaves the scanner outside a string, having opened nothing. */
  ghost predicate Calm(prefix: string) {
    Reads(OUTSIDE, prefix) == OUTSIDE && forall k :: 0 <= k < |prefix| ==> !Opens(prefix, k)
  }

  /** In particular any text without an opening brace or a quote. */
  lemma {:induction false} PlainIsCalm(prefix: string)
    requires forall i :: 0 <= i < |prefix| ==> prefix[i] != '{' && prefix[i] != '"'
    ensures Calm(prefix)
  {
    if prefix != "" {
      PlainIsCalm(prefix[..|prefix| - 1]);
    }
  }

  lemma ObjectIsBraces(v: Value) returns (inner: string)
    requires v.Obj? && ValueOk(v)
    ensures Neutral(inner) && Print(v) == "{" + inner + "}"
  {
    inner := v.space + PrintMembers(v.members);
    SpaceIsNeutral(v.space);
    MembersAreNeutral(v.members);
    hide Neutral;
    NeutralConcat(v.space, PrintMembers(v.members));
  }

  lemma DepthInside(prefix: string, body: string, suffix: string, k: nat)
    requires Reads(OUTSIDE, prefix) == OUTSIDE && k <= |body|
    ensures Depth(prefix + body + suffix, |prefix|, |prefix| + k) == Balance(OUTSIDE, body[..k])
  {
    var text := prefix + body + suffix;
    hide Reads, Balance;
    assert text[..|prefix| + k] == prefix + body[..k];
    assert text[..|prefix|] == prefix;
    ReadsConcat(OUTSIDE, prefix, body[..k]);
  }

  /** What opens within a prefix is settled by the prefix alone. */
  lemma OpensInPrefix(prefix: string, rest: string, k: nat)
    requires k < |prefix|
    ensures Opens(prefix + rest, k) <==> Opens(prefix, k)
  {
    assert (prefix + rest)[..k] == prefix[..k] && (prefix + rest)[k] == prefix[k];
    hide Reads;
  }

  lemma OpensAtBrace(prefix: string, rest: string)
    requires rest != "" && rest[0] == '{'
    ensures Opens(prefix + rest, |prefix|) <==> !Reads(OUTSIDE, prefix).inString
  {
    assert (prefix + rest)[..|prefix|] == prefix && (prefix + rest)[|prefix|] == rest[0];
    hide Reads;
  }

  /** Outside a string there is nothing to escape. */
  lemma {:induction false} OutsideIsUnescaped(text: string)
    ensures Reads(OUTSIDE, text).inString || Reads(OUTSIDE, text) == OUTSIDE
  {
    if text != "" {
      OutsideIsUnescaped(text[..|text| - 1]);
    }
  }

  lemma BracesFoundFirst(prefix: string, inner: string, suffix: string)
    requires Calm(prefix) && Neutral(inner)
    ensures var body := "{" + inner + "}";
            IsFirstObject(prefix + body + suffix, |prefix|, |prefix| + |body|)
  {
    hide Reads, Balance, Neutral, Depth, Opens;
    var body := "{" + inner + "}";
    var text := prefix + body + suffix;
    BracesAround(inner);
    assert text == prefix + (body + suffix);
    OpensAtBrace(prefix, body + suffix);
    forall k | 0 <= k < |prefix| ensures !Opens(text, k) { OpensInPrefix(prefix, body + suffix, k); }
    assert body[..|body|] == body;
    DepthInside(prefix, body, suffix, |body|);
    forall k | |prefix| < k < |prefix| + |body|
      ensures Depth(text, |prefix|, k) > 0
    {
      DepthInside(prefix, body, suffix, k - |prefix|);
    }
  }

  /** Between two pieces of text, the scanner finds exactly the printed object if
      and only if what comes before it is calm: for every RFC 8259 object text, of
      any shape and depth, and whatever comes after it. */
  lemma PrintedFoundExactlyWhen(prefix: string, v: Value, suffix: string)
    requires v.Obj? && ValueOk(v)
    ensures IsFirstObject(prefix + Print(v) + suffix, |prefix|, |prefix| + |Print(v)|) <==> Calm(prefix)
  {
    hide Print, ValueOk, Reads, Balance, Opens, Depth, Neutral;
    var inner := ObjectIsBraces(v);
    var text := prefix + Print(v) + suffix;
    if Calm(prefix) {
      BracesFoundFirst(prefix, inner, suffix);
    }
    if IsFirstObject(text, |prefix|, |prefix| + |Print(v)|) {
      assert text == prefix + (Print(v) + suffix);
      OpensAtBrace(prefix, Print(v) + suffix);
      OutsideIsUnescaped(prefix);
      forall k | 0 <= k < |prefix| ensures !Opens(prefix, k) { OpensInPrefix(prefix, Print(v) + suffix, k); }
    }
  }

  /** So after calm commentary the printed object is what the scanner returns. */
  lemma ScanFindsPrinted(prefix: string, v: Value, suffix: string)
    requires Calm(prefix) && v.Obj? && ValueOk(v)
    ensures IsFirstObject(prefix + Print(v) + suffix, |prefix|, |prefix| + |Print(v)|)
    ensures FirstObject(prefix + Print(v) + suffix) == Some(Print(v))
  {
    hide *;
    PrintedFoundExactlyWhen(prefix, v, suffix);
    var text := prefix + Print(v) + suffix;
    assert text[|prefix|..|prefix| + |Print(v)|] == Print(v);
    FirstObjectIs(text, |prefix|, |prefix| + |Print(v)|);
  }

  /** Commentary stays calm through any further string literal. */
  lemma CalmThenString(prefix: string, units: seq<StringUnit>)
    requires Calm(prefix) && UnitsOk(units)
    ensures Calm(prefix + PrintString(units))
  {
    var literal := PrintString(units);
    StringIsNeutral(units);
    StringOpensNothing(units);
    hide PrintString, UnitsOk, Balance;
    ReadsConcat(OUTSIDE, prefix, literal);
    forall k | 0 <= k < |prefix + literal|
      ensures !Opens(prefix + literal, k)
    {
      if k < |prefix| {
        OpensInPrefix(prefix, literal, k);
      } else {
        assert (prefix + literal)[..k] == prefix + literal[..k - |prefix|];
        ReadsConcat(OUTSIDE, prefix, literal[..k - |prefix|]);
        assert !Opens(literal, k - |prefix|);
      }
    }
  }

  lemma StringOpensNothing(units: seq<StringUnit>)
    requires UnitsOk(units)
    ensures forall k :: 0 <= k < |PrintString(units)| ==> !Opens(PrintString(units), k)
  {
    var body, text := PrintUnits(units), PrintString(units);
    UnitsStayInside(units);
    OneCharacter(OUTSIDE, '"');
    hide PrintUnits, Reads, Balance;
    forall k | 0 <= k < |text|
      ensures !Opens(text, k)
    {
      if 0 < k {
        var part := if k <= |body| + 1 then body[..k - 1] else body;
        assert text[..k] == "\"" + part;
        ReadsConcat(OUTSIDE, "\"", part);
      }
    }
  }

  /** And through anything without an opening brace or a quote. */
  lemma CalmThenPlain(prefix: string, more: string)
    requires Calm(prefix) && forall i :: 0 <= i < |more| ==> more[i] != '{' && more[i] != '"'
    ensures Calm(prefix + more)
  {
    PlainIsCalm(more);
    hide Balance;
    ReadsConcat(OUTSIDE, prefix, more);
    forall k | 0 <= k < |prefix + more|
      ensures !Opens(prefix + more, k)
    {
      if k < |prefix| {
        OpensInPrefix(prefix, more, k);
      }
    }
  }

  const QUOTED_BRACE := [Plain(' '), Plain('{')]

  const QUOTED_REST := [Plain(':'), Plain('1'), Plain('}'), Plain(' '), Plain('a'), Plain('n'), Plain('d'), Plain(' ')]

  lemma QuotedPieces()
    ensures PrintString(QUOTED_BRACE) == "\" {\"" && PrintString(QUOTED_REST) == "\":1} and \""
    ensures UnitsOk(QUOTED_BRACE) && UnitsOk(QUOTED_REST)
  {
    PrintPlain(" {", QUOTED_BRACE);
    PrintPlain(":1} and ", QUOTED_REST);
    hide PrintUnits;
  }

  /** To the scanner, everything up to the last opening brace is commentary. */
  lemma StrayQuoteLead() returns (lead: string)
    ensures lead == "5\" {\"a\":1} and \"" && Calm(lead)
  {
    PlainIsCalm("5");
    PlainIsCalm("a");
    hide *;
    QuotedPieces();
    var quoted, rest := PrintString(QUOTED_BRACE), PrintString(QUOTED_REST);
    CalmThenString("5", QUOTED_BRACE);
    CalmThenPlain("5" + quoted, "a");
    CalmThenString("5" + quoted + "a", QUOTED_REST);
    lead := "5" + quoted + "a" + rest;
  }

  lemma EmptyObjectPrinted()
    ensures Obj("", NoMembers).Obj? && ValueOk(Obj("", NoMembers)) && Print(Obj("", NoMembers)) == "{}"
  {
  }

  /** A stray quote in the prose starts a string for the scanner: the object right
      behind it is passed over, and a later one is returned in its place. */
  lemma StrayQuoteHidesObject()
    ensures FirstObject("5\" {\"a\":1} and \"{}\"") == Some("{}")
    ensures !Calm("5\" ")
  {
    hide *;
    var lead := StrayQuoteLead();
    EmptyObjectPrinted();
    ScanFindsPrinted(lead, Obj("", NoMembers), "\"");
    assert lead + "{}" + "\"" == "5\" {\"a\":1} and \"{}\"";
    QuoteNotCalm();
  }

  lemma QuoteNotCalm()
    ensures !Calm("5\" ")
  {
    var text := "5\" ";
    assert text[..0] == "" && text[..3] == text;
    EmptyText(text);
    StepAt(text, 0);
    StepAt(text, 1);
    StepAt(text, 2);
    hide Reads, Balance;
  }

  lemma {:induction false} PrintPlain(text: string, units: seq<StringUnit>)
    requires |text| == |units| && forall i :: 0 <= i < |text| ==> units[i] == Plain(text[i])
    ensures PrintUnits(units) == text
  {
    if text != "" {
      PrintPlain(text[..|text| - 1], units[..|units| - 1]);
    }
  }

  /** The scanner's description promises the first balanced substring.  It never
      looks behind an opening brace that stays open, so it misses this one. */
  lemma UnclosedBraceHidesObject()
    ensures FirstObject("{ {}") == None
    ensures FirstObject("{}") == Some("{}")
  {
    hide *;
    NeverClosed("{ {}");
    EmptyObject();
  }

  lemma EmptyObject()
    ensures FirstObject("{}") == Some("{}")
  {
    hide FirstObject, Calm, IsFirstObject;
    PlainIsCalm("");
    ScanFindsPrinted("", Obj("", NoMembers), "");
    assert Print(Obj("", NoMembers)) == "{}";
    assert "" + "{}" + "" == "{}";
  }

  lemma NeverClosed(text: string)
    requires text == "{ {}"
    ensures FirstObject(text) == None
  {
    assert text[..0] == "" && text[..4] == text;
    EmptyText(text);
    StepAt(text, 0);
    StepAt(text, 1);
    StepAt(text, 2);
    StepAt(text, 3);
    hide Reads, Balance;
    assert Opens(text, 0);
    assert forall k :: 0 < k <= 4 ==> Depth(text, 0, k) > 0;
  }
}
