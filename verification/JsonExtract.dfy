// The layered extraction: strip, unwrap a code fence, take a text that already
// looks like an object verbatim, otherwise scan for the first balanced one.

module JsonExtract {
  import opened Wrappers
  import opened JsonScan
  import opened JsonText

  datatype ExtractError = EmptyResponse | NoJsonObject

  // ----- the string operations of the host language

  /** White space as `str.strip` understands it. */
  predicate IsSpace(c: char) {
    var n := c as int;
    || 0x09 <= n <= 0x0D || 0x1C <= n <= 0x20 || n == 0x85 || n == 0xA0 || n == 0x1680
    || 0x2000 <= n <= 0x200A || n == 0x2028 || n == 0x2029 || n == 0x202F || n == 0x205F || n == 0x3000
  }

  function StripLeft(s: string): string {
    if s != "" && IsSpace(s[0]) then StripLeft(s[1..]) else s
  }

  function StripRight(s: string): string {
    if s != "" && IsSpace(s[|s| - 1]) then StripRight(s[..|s| - 1]) else s
  }

  function Strip(s: string): string { StripRight(StripLeft(s)) }

  /** One more character: a newline starts a line, anything else extends the last. */
  function AddCharacter(lines: seq<string>, c: char): (more: seq<string>)
    requires lines != []
    ensures more != []
  {
    if c == '\n' then lines + [""] else lines[..|lines| - 1] + [lines[|lines| - 1] + [c]]
  }

  function Split(s: string): (lines: seq<string>)
    ensures lines != []
  {
    if s == "" then [""] else AddCharacter(Split(s[..|s| - 1]), s[|s| - 1])
  }

  function Join(lines: seq<string>): string {
    if lines == [] then ""
    else if |lines| == 1 then lines[0]
    else Join(lines[..|lines| - 1]) + "\n" + lines[|lines| - 1]
  }

  predicate StartsWith(s: string, prefix: string) { prefix <= s }

  predicate EndsWith(s: string, suffix: string) {
    |suffix| <= |s| && s[|s| - |suffix|..] == suffix
  }

  // ----- the extractor

  const FENCE := "```"

  function StripCodeFences(text: string): string {
    if !StartsWith(text, FENCE) then text
    else
      var body := Split(text)[1..];
      var inner := if body != [] && Strip(body[|body| - 1]) == FENCE then body[..|body| - 1] else body;
      Strip(Join(inner))
  }

  /** The text that is searched, once stripped and unwrapped. */
  function Unwrapped(raw: string): string {
    var text := Strip(raw);
    var fenced := StripCodeFences(text);
    if StartsWith(text, FENCE) && fenced != "" && fenced != text then fenced else text
  }

  ghost function Extracted(raw: string): Result<string, ExtractError> {
    if Strip(raw) == "" then Err(EmptyResponse)
    else
      var text := Unwrapped(raw);
      if StartsWith(text, "{") && EndsWith(text, "}") then Ok(text)
      else match FirstObject(text)
           case Some(found) => Ok(found)
           case None => Err(NoJsonObject)
  }

  method ExtractJsonObject(raw: string) returns (result: Result<string, ExtractError>)
    ensures result == Extracted(raw)
  {
    hide Strip, StripCodeFences, Opens, Depth;
    var text := Strip(raw);
    if text == "" {
      return Err(EmptyResponse);
    }
    if StartsWith(text, FENCE) {
      var fenced := StripCodeFences(text);
      if fenced != "" && fenced != text {
        text := fenced;
      }
    }
    assert text == Unwrapped(raw);
    if StartsWith(text, "{") && EndsWith(text, "}") {
      return Ok(text);
    }
    var found := FindFirstBalancedObject(text);
    match found
    case Some(object_) =>
      ghost var from, to :| IsFirstObject(text, from, to) && object_ == text[from..to];
      FirstObjectIs(text, from, to);
      return Ok(object_);
    case None =>
      return Err(NoJsonObject);
  }

  // ----- stripping

  predicate AllSpace(s: string) { forall i :: 0 <= i < |s| ==> IsSpace(s[i]) }

  /** A text with no white space at either end. */
  predicate Trim(s: string) { s != "" && !IsSpace(s[0]) && !IsSpace(s[|s| - 1]) }

  lemma {:induction false} StripLeftDrops(space: string, rest: string)
    requires AllSpace(space)
    ensures StripLeft(space + rest) == StripLeft(rest)
  {
    if space == "" {
      assert space + rest == rest;
    } else {
      assert (space + rest)[1..] == space[1..] + rest;
      StripLeftDrops(space[1..], rest);
    }
  }

  lemma {:induction false} StripRightDrops(rest: string, space: string)
    requires AllSpace(space)
    ensures StripRight(rest + space) == StripRight(rest)
  {
    if space == "" {
      assert rest + space == rest;
    } else {
      assert (rest + space)[..|rest + space| - 1] == rest + space[..|space| - 1];
      StripRightDrops(rest, space[..|space| - 1]);
    }
  }

  /** Stripping takes the white space off both ends, and nothing else. */
  lemma StripTrims(left: string, core: string, right: string)
    requires AllSpace(left) && AllSpace(right) && Trim(core)
    ensures Strip(left + core + right) == core
  {
    assert left + core + right == left + (core + right);
    StripLeftDrops(left, core + right);
    assert StripLeft(core + right) == core + right;
    StripRightDrops(core, right);
  }

  /** What is white space below 128: tab to carriage return, the four separators, space. */
  lemma AsciiSpaces(c: char)
    requires (c as int) < 128
    ensures IsSpace(c) <==> '\t' <= c <= '\r' || (28 <= c as int <= 31) || c == ' '
  {
  }

  lemma {:induction false} StripLeftIs(s: string) returns (left: string)
    ensures s == left + StripLeft(s) && AllSpace(left)
    ensures StripLeft(s) != "" ==> !IsSpace(StripLeft(s)[0])
  {
    left := "";
    if s != "" && IsSpace(s[0]) {
      var rest := StripLeftIs(s[1..]);
      left := [s[0]] + rest;
      assert s == [s[0]] + s[1..];
    }
  }

  lemma {:induction false} StripRightIs(s: string) returns (right: string)
    ensures s == StripRight(s) + right && AllSpace(right)
    ensures StripRight(s) != "" ==> !IsSpace(StripRight(s)[|StripRight(s)| - 1]) && StripRight(s)[0] == s[0]
  {
    right := "";
    if s != "" && IsSpace(s[|s| - 1]) {
      var rest := StripRightIs(s[..|s| - 1]);
      right := rest + [s[|s| - 1]];
      assert s == s[..|s| - 1] + [s[|s| - 1]];
    }
  }

  /** Stripping is determined: a text is white space, what stripping leaves, and white
      space again; and what it leaves is empty or has none at either end. */
  lemma StripExactly(s: string) returns (left: string, right: string)
    ensures s == left + Strip(s) + right && AllSpace(left) && AllSpace(right)
    ensures Strip(s) == "" || Trim(Strip(s))
  {
    left := StripLeftIs(s);
    right := StripRightIs(StripLeft(s));
    hide StripLeft, StripRight;
    assert s == left + (StripRight(StripLeft(s)) + right);
  }

  // ----- lines

  lemma SplitNext(s: string, c: char)
    ensures Split(s + [c]) == AddCharacter(Split(s), c)
  {
    assert (s + [c])[..|s|] == s;
  }

  lemma AddToConcat(a: seq<string>, b: seq<string>, c: char)
    requires b != []
    ensures AddCharacter(a + b, c) == a + AddCharacter(b, c)
  {
    assert (a + b)[..|a + b| - 1] == a + b[..|b| - 1];
  }

  lemma JoinNext(lines: seq<string>, c: char)
    requires lines != []
    ensures Join(AddCharacter(lines, c)) == Join(lines) + [c]
  {
    var more := AddCharacter(lines, c);
    if c == '\n' {
      assert more[..|more| - 1] == lines;
    } else {
      assert more[..|more| - 1] == lines[..|lines| - 1];
    }
  }

  lemma {:induction false} SplitAtNewline(a: string, b: string)
    ensures Split(a + "\n" + b) == Split(a) + Split(b)
  {
    if b == "" {
      assert Split(b) == [""];
      assert a + "\n" + b == a + ['\n'];
      SplitNext(a, '\n');
    } else {
      var init, c := b[..|b| - 1], b[|b| - 1];
      assert b == init + [c] && a + "\n" + b == (a + "\n" + init) + [c];
      hide Split, AddCharacter;
      SplitAtNewline(a, init);
      SplitNext(init, c);
      SplitNext(a + "\n" + init, c);
      AddToConcat(Split(a), Split(init), c);
    }
  }

  lemma {:induction false} OneLine(s: string)
    requires forall i :: 0 <= i < |s| ==> s[i] != '\n'
    ensures Split(s) == [s]
  {
    if s != "" {
      var init, c := s[..|s| - 1], s[|s| - 1];
      OneLine(init);
      assert s == init + [c];
      SplitNext(init, c);
      assert [init][..0] == [];
    }
  }

  /** Joining the lines of a text gives the text back. */
  lemma {:induction false} JoinOfSplit(s: string)
    ensures Join(Split(s)) == s
  {
    if s != "" {
      var init, c := s[..|s| - 1], s[|s| - 1];
      assert s == init + [c];
      hide AddCharacter, Join;
      JoinOfSplit(init);
      JoinNext(Split(init), c);
    }
  }

  // ----- what comes out

  lemma ObjectIsTrim(v: Value)
    requires v.Obj? && ValueOk(v)
    ensures Trim(Print(v)) && StartsWith(Print(v), "{") && EndsWith(Print(v), "}")
  {
    var inner := ObjectIsBraces(v);
  }

  lemma LinesOfFence(tag: string, body: string)
    requires forall i :: 0 <= i < |tag| ==> tag[i] != '\n'
    ensures Split(FENCE + tag + "\n" + body + "\n" + FENCE) == [FENCE + tag] + Split(body) + [FENCE]
  {
    hide Split;
    SplitAtNewline(FENCE + tag + "\n" + body, FENCE);
    SplitAtNewline(FENCE + tag, body);
    OneLine(FENCE + tag);
    OneLine(FENCE);
  }

  lemma StripsToItself(core: string)
    requires Trim(core)
    ensures Strip(core) == core
  {
    StripTrims("", core, "");
    assert "" + core + "" == core;
  }

  /** A fenced body is unwrapped to exactly that body. */
  lemma FenceUnwrapped(tag: string, body: string)
    requires Trim(body) && forall i :: 0 <= i < |tag| ==> tag[i] != '\n'
    ensures StripCodeFences(FENCE + tag + "\n" + body + "\n" + FENCE) == body
  {
    hide Strip, Split, Join;
    var text := FENCE + tag + "\n" + body + "\n" + FENCE;
    LinesOfFence(tag, body);
    var rest := Split(text)[1..];
    assert rest == Split(body) + [FENCE];
    assert rest[..|rest| - 1] == Split(body);
    StripsToItself(FENCE);
    StripsToItself(body);
    JoinOfSplit(body);
    assert text == FENCE + (tag + "\n" + body + "\n" + FENCE);
  }

  /** An object inside a fence, with or without a language tag, comes out whole. */
  lemma FencedObjectExtracted(left: string, tag: string, v: Value, right: string)
    requires AllSpace(left) && AllSpace(right) && v.Obj? && ValueOk(v)
    requires forall i :: 0 <= i < |tag| ==> tag[i] != '\n'
    ensures Extracted(left + ("```" + tag + "\n" + Print(v) + "\n" + "```") + right) == Ok(Print(v))
  {
    var body := Print(v);
    var text := FENCE + tag + "\n" + body + "\n" + FENCE;
    ObjectIsTrim(v);
    assert text[0] == '`' && text[|text| - 1] == '`';
    hide Print, Strip, StripCodeFences;
    StripTrims(left, text, right);
    FenceUnwrapped(tag, body);
    assert StartsWith(text, FENCE) && text[0] != body[0];
  }

  lemma {:induction false} LastLineEnds(s: string)
    requires s != "" && s[|s| - 1] != '\n'
    ensures var last := Split(s)[|Split(s)| - 1]; last != "" && last[|last| - 1] == s[|s| - 1]
  {
    SplitNext(s[..|s| - 1], s[|s| - 1]);
    assert s == s[..|s| - 1] + [s[|s| - 1]];
  }

  lemma {:induction false} StripLeftKeepsEnd(s: string)
    requires s != "" && !IsSpace(s[|s| - 1])
    ensures StripLeft(s) != "" && StripLeft(s)[|StripLeft(s)| - 1] == s[|s| - 1]
  {
    if IsSpace(s[0]) {
      StripLeftKeepsEnd(s[1..]);
    }
  }

  lemma NotAFence(line: string)
    requires line != "" && line[|line| - 1] == '}'
    ensures Strip(line) != FENCE
  {
    StripLeftKeepsEnd(line);
    hide StripLeft;
    assert Strip(line) == StripLeft(line);
    assert FENCE[|FENCE| - 1] == '`';
  }

  /** A fence that is never closed is unwrapped too. */
  lemma OpenFenceUnwrapped(tag: string, body: string)
    requires Trim(body) && body[|body| - 1] == '}' && forall i :: 0 <= i < |tag| ==> tag[i] != '\n'
    ensures StripCodeFences(FENCE + tag + "\n" + body) == body
  {
    hide Strip, StripLeft, Split, Join;
    var text := FENCE + tag + "\n" + body;
    LastLineEnds(body);
    NotAFence(Split(body)[|Split(body)| - 1]);
    SplitAtNewline(FENCE + tag, body);
    OneLine(FENCE + tag);
    assert Split(text)[1..] == Split(body);
    StripsToItself(body);
    JoinOfSplit(body);
    assert text == FENCE + (tag + "\n" + body);
  }

  /** So an object whose fence was cut off comes out whole as well. */
  lemma OpenFencedObjectExtracted(left: string, tag: string, v: Value, right: string)
    requires AllSpace(left) && AllSpace(right) && v.Obj? && ValueOk(v)
    requires forall i :: 0 <= i < |tag| ==> tag[i] != '\n'
    ensures Extracted(left + ("```" + tag + "\n" + Print(v)) + right) == Ok(Print(v))
  {
    var body := Print(v);
    var text := FENCE + tag + "\n" + body;
    ObjectIsTrim(v);
    assert text[0] == '`' && text[|text| - 1] == body[|body| - 1];
    assert body[|body| - 1..] == "}" && body[|body| - 1] == '}';
    hide Print, Strip, StripCodeFences;
    StripTrims(left, text, right);
    OpenFenceUnwrapped(tag, body);
    assert StartsWith(text, FENCE) && text[0] != body[0];
  }

  lemma {:induction false} StripKeepsTrim(core: string, tail: string)
    requires core != "" && !IsSpace(core[|core| - 1])
    ensures core <= StripRight(core + tail)
    ensures StripRight(core + tail) == core + StripRight(tail)
  {
    var all := core + tail;
    if tail != "" && IsSpace(tail[|tail| - 1]) {
      assert all[..|all| - 1] == core + tail[..|tail| - 1];
      StripKeepsTrim(core, tail[..|tail| - 1]);
    } else if tail == "" {
      assert all == core;
    }
  }

  /** Stripping around a text keeps it, with whatever follows up to trailing space. */
  lemma StripAround(left: string, core: string, tail: string)
    requires AllSpace(left) && Trim(core)
    ensures Strip(left + (core + tail)) == core + StripRight(tail)
  {
    StripLeftDrops(left, core + tail);
    assert StripLeft(core + tail) == core + tail;
    StripKeepsTrim(core, tail);
  }

  lemma ScannedText(raw: string, lead: string, rest: string, body: string)
    requires Strip(raw) == lead + rest && lead != "" && lead[0] != '{'
    requires !StartsWith(lead, FENCE) && StartsWith(rest, "{")
    requires FirstObject(lead + rest) == Some(body)
    ensures Extracted(raw) == Ok(body)
  {
    var text := lead + rest;
    assert text[0] == lead[0];
    assert !StartsWith(text, FENCE) by {
      if |lead| >= 3 {
        assert text[..3] == lead[..3];
      } else {
        assert text[|lead|] == '{';
      }
    }
    hide Strip, StripCodeFences, FirstObject;
  }

  lemma LeadingText(raw: string, body: string, kept: string)
    requires Strip(raw) == body + kept && StartsWith(body, "{") && EndsWith(body, "}")
    requires FirstObject(body + kept) == Some(body)
    ensures Extracted(raw) == Ok(body) <==> kept == "" || kept[|kept| - 1] != '}'
  {
    var text := body + kept;
    assert text[0] == '{';
    assert !StartsWith(text, FENCE);
    hide Strip, StripCodeFences, FirstObject;
    if kept == "" {
      assert text == body;
    } else {
      assert text[|text| - 1..] == [kept[|kept| - 1]];
      assert text != body;
    }
  }

  lemma CalmStart(lead: string)
    requires Calm(lead) && lead != ""
    ensures lead[0] != '{'
  {
    assert !Opens(lead, 0);
  }

  /** Commentary before the object: the object comes out whatever follows it. */
  lemma EmbeddedObjectExtracted(left: string, lead: string, v: Value, tail: string)
    requires AllSpace(left) && lead != "" && !IsSpace(lead[0]) && !StartsWith(lead, FENCE) && Calm(lead)
    requires v.Obj? && ValueOk(v)
    ensures Extracted(left + (lead + Print(v) + tail)) == Ok(Print(v))
  {
    hide Print, Strip, StripRight, Extracted, Calm, FirstObject, IsFirstObject, ValueOk;
    var body, kept := Print(v), StripRight(tail);
    ObjectIsTrim(v);
    assert Trim(lead + body) by {
      assert (lead + body)[|lead + body| - 1] == body[|body| - 1];
    }
    assert lead[0] != '{' by {
      CalmStart(lead);
    }
    StripAround(left, lead + body, tail);
    ScanFindsPrinted(lead, v, kept);
    assert lead + body + kept == lead + (body + kept);
    ScannedText(left + (lead + body + tail), lead, body + kept, body);
  }

  /** Nothing but white space before the object: then what follows matters.  A
      tail that itself ends in a closing brace is returned along with it. */
  lemma LeadingObjectExtractedExactlyWhen(left: string, v: Value, tail: string)
    requires AllSpace(left) && v.Obj? && ValueOk(v)
    ensures Extracted(left + (Print(v) + tail)) == Ok(Print(v)) <==>
            StripRight(tail) == "" || StripRight(tail)[|StripRight(tail)| - 1] != '}'
  {
    hide Print, Strip, StripRight, Extracted, Calm, FirstObject, IsFirstObject, ValueOk;
    var body, kept := Print(v), StripRight(tail);
    ObjectIsTrim(v);
    StripAround(left, body, tail);
    PlainIsCalm("");
    ScanFindsPrinted("", v, kept);
    assert "" + body + kept == body + kept;
    LeadingText(left + (body + tail), body, kept);
  }
}
