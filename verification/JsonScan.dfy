// Finding a JSON object inside the free text of a language model's answer.

module JsonScan {
  import opened Wrappers

  // ----- the quoting state of the scanner

  datatype Lex = Lex(inString: bool, escape: bool)

  const OUTSIDE := Lex(false, false)

  function Advance(lex: Lex, ch: char): Lex {
    if lex.inString then
      if lex.escape then Lex(true, false)
      else if ch == '\\' then Lex(true, true)
      else if ch == '"' then Lex(false, false)
      else lex
    else if ch == '"' then Lex(true, lex.escape)
    else lex
  }

  /** What a character does to the brace count, quoting considered. */
  function Delta(lex: Lex, ch: char): int {
    if lex.inString then 0 else if ch == '{' then 1 else if ch == '}' then -1 else 0
  }

  /** The state after reading `text` from state `lex`. */
  function Reads(lex: Lex, text: string): Lex {
    if text == "" then lex else Advance(Reads(lex, text[..|text| - 1]), text[|text| - 1])
  }

  /** Unquoted opening minus unquoted closing braces of `text`. */
  function Balance(lex: Lex, text: string): int {
    if text == "" then 0
    else Balance(lex, text[..|text| - 1]) + Delta(Reads(lex, text[..|text| - 1]), text[|text| - 1])
  }

  lemma {:induction false} ReadsConcat(lex: Lex, a: string, b: string)
    ensures Reads(lex, a + b) == Reads(Reads(lex, a), b)
    ensures Balance(lex, a + b) == Balance(lex, a) + Balance(Reads(lex, a), b)
  {
    if b == "" {
      assert a + b == a;
    } else {
      assert (a + b)[..|a + b| - 1] == a + b[..|b| - 1];
      ReadsConcat(lex, a, b[..|b| - 1]);
    }
  }

  // ----- what the scanner is for

  /** An unquoted opening brace, quoting counted from the start of the text. */
  predicate Opens(text: string, i: int) {
    0 <= i < |text| && !Reads(OUTSIDE, text[..i]).inString && text[i] == '{'
  }

  /** Braces still open at `k`, counting from `from`. */
  function Depth(text: string, from: int, k: int): int
    requires 0 <= from <= k <= |text|
  {
    Balance(OUTSIDE, text[..k]) - Balance(OUTSIDE, text[..from])
  }

  /** `text[from..to]` starts at the first unquoted opening brace and ends where
      that brace is closed for the first time. */
  ghost predicate IsFirstObject(text: string, from: int, to: int) {
    && 0 <= from < to <= |text|
    && Opens(text, from) && (forall k :: 0 <= k < from ==> !Opens(text, k))
    && Depth(text, from, to) == 0
    && (forall k :: from < k < to ==> Depth(text, from, k) > 0)
  }

  lemma FirstObjectUnique(text: string, from1: int, to1: int, from2: int, to2: int)
    requires IsFirstObject(text, from1, to1) && IsFirstObject(text, from2, to2)
    ensures from1 == from2 && to1 == to2
  {
    hide Opens, Depth;
  }

  ghost function FirstObject(text: string): Option<string> {
    if from, to :| IsFirstObject(text, from, to) then Some(text[from..to]) else None
  }

  lemma FirstObjectIs(text: string, from: int, to: int)
    requires IsFirstObject(text, from, to)
    ensures FirstObject(text) == Some(text[from..to])
  {
    hide Opens, Depth;
    var from', to' :| IsFirstObject(text, from', to') && FirstObject(text) == Some(text[from'..to']);
    FirstObjectUnique(text, from', to', from, to);
  }

  lemma StepAt(text: string, i: int)
    requires 0 <= i < |text|
    ensures Reads(OUTSIDE, text[..i + 1]) == Advance(Reads(OUTSIDE, text[..i]), text[i])
    ensures Balance(OUTSIDE, text[..i + 1]) == Balance(OUTSIDE, text[..i]) + Delta(Reads(OUTSIDE, text[..i]), text[i])
  {
    assert text[..i + 1][..i] == text[..i];
  }

  method FindFirstBalancedObject(text: string) returns (found: Option<string>)
    ensures found.Some? ==> exists from, to :: IsFirstObject(text, from, to) && found.value == text[from..to]
    ensures found.None? ==> forall from, to :: !IsFirstObject(text, from, to)
  {
    hide Reads, Balance;
    var depth, start := 0, -1;
    var inString, escape := false, false;
    EmptyText(text);
    for i := 0 to |text|
      invariant Lex(inString, escape) == Reads(OUTSIDE, text[..i])
      invariant -1 <= start < i
      invariant start == -1 ==> depth == 0 && forall k :: 0 <= k < i ==> !Opens(text, k)
      invariant start != -1 ==> Opens(text, start) && forall k :: 0 <= k < start ==> !Opens(text, k)
      invariant start != -1 ==> depth == Depth(text, start, i) && forall k :: start < k <= i ==> Depth(text, start, k) > 0
    {
      var ch := text[i];
      StepAt(text, i);
      if inString {
        if escape {
          escape := false;
        } else if ch == '\\' {
          escape := true;
        } else if ch == '"' {
          inString := false;
        }
      } else if ch == '"' {
        inString := true;
      } else if ch == '{' {
        if depth == 0 {
          start := i;
        }
        depth := depth + 1;
      } else if ch == '}' {
        if depth != 0 {
          depth := depth - 1;
          if depth == 0 && start != -1 {
            assert IsFirstObject(text, start, i + 1);
            return Some(text[start..i + 1]);
          }
        }
      }
    }
    return None;
  }

  lemma EmptyText(text: string)
    ensures Reads(OUTSIDE, text[..0]) == OUTSIDE
  {
  }

  /** A first opening brace that is closed somewhere is closed a first time. */
  lemma {:induction false} ClosedAFirstTime(text: string, from: int, k: int)
    requires Opens(text, from) && (forall j :: 0 <= j < from ==> !Opens(text, j))
    requires from < k <= |text| && Depth(text, from, k) <= 0
    ensures exists to :: IsFirstObject(text, from, to)
    decreases k
  {
    if j :| from < j < k && Depth(text, from, j) <= 0 {
      ClosedAFirstTime(text, from, j);
    } else {
      StepAt(text, from);
      StepAt(text, k - 1);
      hide Reads, Balance;
      assert k - 1 > from;
      assert Depth(text, from, k) >= Depth(text, from, k - 1) - 1;
      assert IsFirstObject(text, from, k);
    }
  }

  /** The scanner comes back empty exactly when no brace opens outside a string,
      or the first one that does is never closed. */
  lemma NothingFoundExactlyWhen(text: string)
    ensures FirstObject(text) == None <==>
            forall from :: Opens(text, from) && (forall j :: 0 <= j < from ==> !Opens(text, j)) ==>
              forall k :: from < k <= |text| ==> Depth(text, from, k) > 0
  {
    hide Depth;
    if from, k :| Opens(text, from) && (forall j :: 0 <= j < from ==> !Opens(text, j))
                  && from < k <= |text| && !(Depth(text, from, k) > 0) {
      ClosedAFirstTime(text, from, k);
      var to :| IsFirstObject(text, from, to);
      FirstObjectIs(text, from, to);
    }
  }
}
