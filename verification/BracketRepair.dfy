/**
 The JSON bracket repairer (gateway.go). Text is a sequence of bytes, written here as characters; brackets and
 strings are those of RFC 8259, sections 2 and 7.
 */
module BracketRepair {

  /* ---- Reading text: the reference notion of well-nestedness ---- */

  /** Where a scan is: outside strings, inside one, or inside one right after a backslash. */
  datatype Mode = Outside | Inside | Escaped

  function NextMode(mode: Mode, c: char): Mode {
    match mode
    case Outside => if c == '"' then Inside else Outside
    case Inside => if c == '\\' then Escaped else if c == '"' then Outside else Inside
    case Escaped => Inside
  }

  predicate IsOpener(c: char) { c == '{' || c == '[' }
  predicate IsCloser(c: char) { c == '}' || c == ']' }
  predicate IsBracket(c: char) { IsOpener(c) || IsCloser(c) }

  function Opener(closer: char): char { if closer == ']' then '[' else '{' }
  function Closer(opener: char): char { if opener == '{' then '}' else ']' }

  /** The open brackets, innermost last, and whether every closer so far met its opener. */
  datatype Reading = Reading(stack: seq<char>, mode: Mode, ok: bool)

  function Read(r: Reading, c: char): Reading {
    var mode := NextMode(r.mode, c);
    if !r.mode.Outside? then r.(mode := mode)
    else if IsOpener(c) then r.(stack := r.stack + [c])
    else if IsCloser(c) then
      if r.stack != [] && r.stack[|r.stack| - 1] == Opener(c)
      then r.(stack := r.stack[..|r.stack| - 1]) else r.(ok := false)
    else r.(mode := mode)
  }

  function ReadAll(s: string): Reading {
    if s == [] then Reading([], Outside, true) else Read(ReadAll(s[..|s| - 1]), s[|s| - 1])
  }

  /** Every closer outside strings matches the innermost open bracket, nothing stays open, no string is cut off. */
  predicate WellNested(s: string) {
    var r := ReadAll(s);
    r.ok && r.stack == [] && r.mode.Outside?
  }

  /** The text ends inside a string, right after an unescaped backslash. */
  predicate DanglingEscape(s: string) { ReadAll(s).mode.Escaped? }

  /** The text without its brackets outside strings. */
  function Erase(s: string): string {
    if s == [] then []
    else
      var init, c := s[..|s| - 1], s[|s| - 1];
      Erase(init) + (if ReadAll(init).mode.Outside? && IsBracket(c) then [] else [c])
  }

  /** How often the bracket c occurs outside strings. */
  function CountOutside(s: string, c: char): nat {
    if s == [] then 0
    else CountOutside(s[..|s| - 1], c) + (if ReadAll(s[..|s| - 1]).mode.Outside? && s[|s| - 1] == c then 1 else 0)
  }

  /* ---- The repair, as a function ---- */

  datatype Scan = Scan(out: string, stack: seq<char>, mode: Mode)

  /** Close the open brackets above the innermost `opener`; with none of them open, close everything. */
  function CloseInner(out: string, stack: seq<char>, opener: char): (string, seq<char>)
    decreases |stack|
  {
    if stack == [] || stack[|stack| - 1] == opener then (out, stack)
    else CloseInner(out + [Closer(stack[|stack| - 1])], stack[..|stack| - 1], opener)
  }

  function ScanNext(sc: Scan, c: char): Scan {
    var mode := NextMode(sc.mode, c);
    if !sc.mode.Outside? then Scan(sc.out + [c], sc.stack, mode)
    else if IsOpener(c) then Scan(sc.out + [c], sc.stack + [c], mode)
    else if IsCloser(c) then
      var (out, stack) := CloseInner(sc.out, sc.stack, Opener(c));
      if stack == [] then Scan(out, stack, mode) else Scan(out + [c], stack[..|stack| - 1], mode)
    else Scan(sc.out + [c], sc.stack, mode)
  }

  function ScanAll(s: string): Scan {
    if s == [] then Scan([], [], Outside) else ScanNext(ScanAll(s[..|s| - 1]), s[|s| - 1])
  }

  /** The closers of a stack, innermost first. */
  function Closers(stack: seq<char>): string {
    if stack == [] then [] else [Closer(stack[|stack| - 1])] + Closers(stack[..|stack| - 1])
  }

  function Repaired(s: string): string {
    var sc := ScanAll(s);
    sc.out + (if sc.mode.Inside? then "\"" else "") + Closers(sc.stack)
  }

  /** The position of the innermost open bracket of this kind, or -1. */
  function Innermost(stack: seq<char>, opener: char): (k: int)
    ensures -1 <= k < |stack|
    ensures k >= 0 ==> stack[k] == opener
    ensures forall j :: k < j < |stack| ==> stack[j] != opener
  {
    if stack == [] then -1
    else if stack[|stack| - 1] == opener then |stack| - 1
    else Innermost(stack[..|stack| - 1], opener)
  }

  /** Closing down to an opener writes exactly the closers of what is open above it. */
  lemma {:induction false} CloseInnerExactly(out: string, stack: seq<char>, opener: char)
    ensures var k := Innermost(stack, opener);
            CloseInner(out, stack, opener) == (out + Closers(stack[k + 1..]), stack[..k + 1])
    decreases |stack|
  {
    var k := Innermost(stack, opener);
    if stack == [] || stack[|stack| - 1] == opener {
      assert stack[k + 1..] == [] && stack[..k + 1] == stack && out + Closers([]) == out;
    } else {
      var c, rest := Closer(stack[|stack| - 1]), stack[..|stack| - 1];
      CloseInnerExactly(out + [c], rest, opener);
      assert stack[k + 1..][..|stack| - k - 2] == rest[k + 1..] && rest[..k + 1] == stack[..k + 1];
      assert out + [c] + Closers(rest[k + 1..]) == out + Closers(stack[k + 1..]);
    }
  }

  lemma {:induction false} ScanStep(s: string, i: nat)
    requires i < |s|
    ensures ScanAll(s[..i + 1]) == ScanNext(ScanAll(s[..i]), s[i])
  {
    assert s[..i + 1][..i] == s[..i];
  }

  /** The loop's two flags as a mode. */
  function ModeOf(inString: bool, escaped: bool): Mode {
    if !inString then Outside else if escaped then Escaped else Inside
  }

  /** repairJSONBrackets: one pass over the bytes with a bracket stack. */
  method RepairJSONBrackets(s: string) returns (b: string)
    ensures b == Repaired(s)
  {
    b := "";
    var stack: seq<char> := [];
    var inString, escaped := false, false;
    for i := 0 to |s|
      invariant ScanAll(s[..i]) == Scan(b, stack, ModeOf(inString, escaped))
      invariant escaped ==> inString
    {
      var c := s[i];
      ScanStep(s, i);
      if inString {
        b := b + [c];
        if escaped {
          escaped := false;
        } else if c == '\\' {
          escaped := true;
        } else if c == '"' {
          inString := false;
        }
      } else if c == '"' {
        inString := true;
        b := b + [c];
      } else if IsOpener(c) {
        stack := stack + [c];
        b := b + [c];
      } else if IsCloser(c) {
        b, stack := MatchCloser(b, stack, c);
      } else {
        b := b + [c];
      }
    }
    assert s[..|s|] == s;
    if inString && !escaped {
      b := b + "\"";
    }
    b := CloseAll(b, stack);
  }

  /** The closer case: close what is open above its opener, then write it, or drop it when nothing is left open. */
  method MatchCloser(b: string, stack: seq<char>, c: char) returns (out: string, rest: seq<char>)
    requires IsCloser(c)
    ensures Scan(out, rest, Outside) == ScanNext(Scan(b, stack, Outside), c)
    ensures var k := Innermost(stack, Opener(c));
            if k >= 0 then out == b + Closers(stack[k + 1..]) + [c] && rest == stack[..k]
            else out == b + Closers(stack) && rest == []
  {
    out, rest := b, stack;
    var opener := if c == ']' then '[' else '{';
    while |rest| > 0 && rest[|rest| - 1] != opener
      invariant CloseInner(out, rest, opener) == CloseInner(b, stack, opener)
    {
      out := out + [if rest[|rest| - 1] == '{' then '}' else ']'];
      rest := rest[..|rest| - 1];
    }
    CloseInnerExactly(b, stack, opener);
    if |rest| > 0 {
      rest := rest[..|rest| - 1];
      out := out + [c];
    }
  }

  /** The final loop: close everything still open, innermost first. */
  method CloseAll(b: string, stack: seq<char>) returns (out: string)
    ensures out == b + Closers(stack)
  {
    out := b;
    var i := |stack|;
    assert stack[..i] == stack;
    while i > 0
      invariant 0 <= i <= |stack|
      invariant out + Closers(stack[..i]) == b + Closers(stack)
    {
      i := i - 1;
      assert stack[..i + 1][..i] == stack[..i];
      out := out + [if stack[i] == '{' then '}' else ']'];
    }
    assert out + Closers(stack[..0]) == out;
  }

  /* ---- Reading what the scan wrote ---- */

  lemma {:induction false} ReadAppend(s: string, c: char)
    ensures ReadAll(s + [c]) == Read(ReadAll(s), c)
    ensures Erase(s + [c]) == Erase(s) + (if ReadAll(s).mode.Outside? && IsBracket(c) then [] else [c])
  {
    assert (s + [c])[..|s|] == s;
  }

  predicate AllOpeners(stack: seq<char>) { forall i :: 0 <= i < |stack| ==> IsOpener(stack[i]) }

  /** The closer of the innermost open bracket pops it. */
  lemma {:induction false} CloserPops(stack: seq<char>)
    requires AllOpeners(stack) && stack != []
    ensures Read(Reading(stack, Outside, true), Closer(stack[|stack| - 1])) == Reading(stack[..|stack| - 1], Outside, true)
    ensures IsBracket(Closer(stack[|stack| - 1])) && AllOpeners(stack[..|stack| - 1])
  {
    assert IsOpener(stack[|stack| - 1]);
  }

  /** Writing the closer of the innermost open bracket closes it in the reading and erases to nothing. */
  lemma {:induction false} WriteCloser(out: string, stack: seq<char>)
    requires AllOpeners(stack) && stack != [] && ReadAll(out) == Reading(stack, Outside, true)
    ensures var c, rest := Closer(stack[|stack| - 1]), stack[..|stack| - 1];
            AllOpeners(rest) && ReadAll(out + [c]) == Reading(rest, Outside, true) && Erase(out + [c]) == Erase(out)
  {
    CloserPops(stack);
    ReadAppend(out, Closer(stack[|stack| - 1]));
  }

  /** Writing the closers the scan owes keeps the reading in step with the stack. */
  lemma {:induction false} ReadCloseInner(out: string, stack: seq<char>, opener: char)
    requires AllOpeners(stack) && ReadAll(out) == Reading(stack, Outside, true)
    ensures var (out', stack') := CloseInner(out, stack, opener);
            && ReadAll(out') == Reading(stack', Outside, true)
            && Erase(out') == Erase(out)
            && AllOpeners(stack')
            && (stack' != [] ==> stack'[|stack'| - 1] == opener)
    decreases |stack|
  {
    if stack != [] && stack[|stack| - 1] != opener {
      var c, rest := Closer(stack[|stack| - 1]), stack[..|stack| - 1];
      WriteCloser(out, stack);
      ReadCloseInner(out + [c], rest, opener);
      assert CloseInner(out, stack, opener) == CloseInner(out + [c], rest, opener);
    }
  }

  /** What has been written reads back as the scan's own stack and mode. */
  predicate InStep(sc: Scan) {
    AllOpeners(sc.stack) && ReadAll(sc.out) == Reading(sc.stack, sc.mode, true)
  }

  lemma {:induction false} ScanNextReads(sc: Scan, c: char)
    requires InStep(sc)
    ensures var next := ScanNext(sc, c);
            && InStep(next) && next.mode == NextMode(sc.mode, c)
            && Erase(next.out) == Erase(sc.out) + (if sc.mode.Outside? && IsBracket(c) then [] else [c])
  {
    if sc.mode.Outside? && IsCloser(c) {
      CloserReads(sc, c);
    } else {
      var next := ScanNext(sc, c);
      assert next.out == sc.out + [c];
      ReadAppend(sc.out, c);
      assert ReadAll(next.out) == Read(Reading(sc.stack, sc.mode, true), c);
    }
  }

  lemma {:induction false} CloserReads(sc: Scan, c: char)
    requires InStep(sc) && sc.mode.Outside? && IsCloser(c)
    ensures InStep(ScanNext(sc, c)) && ScanNext(sc, c).mode.Outside? && Erase(ScanNext(sc, c).out) == Erase(sc.out)
  {
    var (out, stack) := CloseInner(sc.out, sc.stack, Opener(c));
    ReadCloseInner(sc.out, sc.stack, Opener(c));
    OwnCloserReads(out, stack, c);
    ScanCloser(sc, c, out, stack);
  }

  lemma {:induction false} ScanCloser(sc: Scan, c: char, out: string, stack: seq<char>)
    requires sc.mode.Outside? && IsCloser(c) && CloseInner(sc.out, sc.stack, Opener(c)) == (out, stack)
    ensures ScanNext(sc, c) == if stack == [] then Scan(out, stack, Outside) else Scan(out + [c], stack[..|stack| - 1], Outside)
  {
  }

  /** With the inner brackets closed, the closer meets its own opener or is dropped. */
  lemma {:induction false} OwnCloserReads(out: string, stack: seq<char>, c: char)
    requires IsCloser(c) && AllOpeners(stack) && ReadAll(out) == Reading(stack, Outside, true)
    requires stack != [] ==> stack[|stack| - 1] == Opener(c)
    ensures var next := if stack == [] then Scan(out, stack, Outside) else Scan(out + [c], stack[..|stack| - 1], Outside);
            InStep(next) && Erase(next.out) == Erase(out)
  {
    if stack != [] {
      assert c == Closer(stack[|stack| - 1]);
      WriteCloser(out, stack);
    }
  }

  /** At every point the written text reads in step with the scan, and keeps every byte but brackets outside strings. */
  lemma {:induction false} ScanReads(s: string)
    ensures InStep(ScanAll(s)) && ScanAll(s).mode == ReadAll(s).mode && Erase(ScanAll(s).out) == Erase(s)
  {
    if s != [] {
      var init, c := s[..|s| - 1], s[|s| - 1];
      ScanReads(init);
      LastRead(s, init, c);
      ScanNextReads(ScanAll(init), c);
    }
  }

  /** What the last byte of a text does to the reading, the erasure and the scan. */
  lemma {:induction false} LastRead(s: string, init: string, c: char)
    requires s != [] && init == s[..|s| - 1] && c == s[|s| - 1]
    ensures ReadAll(s).mode == NextMode(ReadAll(init).mode, c)
    ensures Erase(s) == Erase(init) + (if ReadAll(init).mode.Outside? && IsBracket(c) then [] else [c])
    ensures ScanAll(s) == ScanNext(ScanAll(init), c)
  {
    assert ReadAll(s) == Read(ReadAll(init), c);
  }

  /** Outside strings, writing a stack's closers empties it. */
  lemma {:induction false} ReadClosers(out: string, stack: seq<char>)
    requires AllOpeners(stack) && ReadAll(out) == Reading(stack, Outside, true)
    ensures ReadAll(out + Closers(stack)) == Reading([], Outside, true)
    ensures Erase(out + Closers(stack)) == Erase(out)
    decreases |stack|
  {
    ClosersUnfold(out, stack);
    if stack != [] {
      var c, rest := Closer(stack[|stack| - 1]), stack[..|stack| - 1];
      WriteCloser(out, stack);
      ReadClosers(out + [c], rest);
    }
  }

  lemma {:induction false} ClosersUnfold(out: string, stack: seq<char>)
    ensures stack == [] ==> out + Closers(stack) == out
    ensures stack != [] ==> out + Closers(stack) == (out + [Closer(stack[|stack| - 1])]) + Closers(stack[..|stack| - 1])
  {
  }

  /** Inside a string, closers are just more of its text. */
  lemma {:induction false} ReadClosersInString(out: string, stack: seq<char>)
    requires !ReadAll(out).mode.Outside?
    ensures ReadAll(out + Closers(stack)) == ReadAll(out).(mode := if stack == [] then ReadAll(out).mode else Inside)
    ensures Erase(out + Closers(stack)) == Erase(out) + Closers(stack)
    decreases |stack|
  {
    ClosersUnfold(out, stack);
    if stack != [] {
      var c, rest := Closer(stack[|stack| - 1]), stack[..|stack| - 1];
      ReadAppend(out, c);
      ReadClosersInString(out + [c], rest);
      assert Erase(out) + [c] + Closers(rest) == Erase(out) + Closers(stack);
    }
  }

  lemma {:induction false} ReadRepaired(s: string)
    ensures var sc, r := ScanAll(s), ReadAll(Repaired(s));
            if DanglingEscape(s)
            then r == Reading(sc.stack, if sc.stack == [] then Escaped else Inside, true)
                 && Erase(Repaired(s)) == Erase(s) + Closers(sc.stack)
            else r == Reading([], Outside, true)
                 && Erase(Repaired(s)) == Erase(s) + (if ReadAll(s).mode.Inside? then "\"" else "")
  {
    var sc := ScanAll(s);
    ScanReads(s);
    if DanglingEscape(s) {
      assert sc.out + "" == sc.out;
      ReadClosersInString(sc.out, sc.stack);
    } else {
      var quote := if sc.mode.Inside? then "\"" else "";
      if sc.mode.Inside? { ReadAppend(sc.out, '"'); } else { assert sc.out + quote == sc.out; }
      ReadClosers(sc.out + quote, sc.stack);
    }
  }

  /* ---- What is written, byte by byte ---- */

  /** What the repair has written when it has read s: before it closes what is still open. */
  function Written(s: string): string { ScanAll(s).out }

  /** The closers a stack is owed come innermost first. */
  lemma {:induction false} ClosersAt(stack: seq<char>, i: nat)
    requires i < |stack|
    ensures |Closers(stack)| == |stack| && Closers(stack)[i] == if stack[|stack| - 1 - i] == '{' then '}' else ']'
  {
    if |stack| > 1 {
      ClosersAt(stack[..|stack| - 1], if i > 0 then i - 1 else 0);
    }
  }

  /**
   One more byte. Anything but a closer outside strings is copied. A closer first closes what is open above its opener,
   by what the text written so far says, and is then written; it is dropped only if its opener is not open at all.
   */
  lemma {:induction false} OneMoreByte(s: string, c: char)
    ensures var open := ReadAll(Written(s)).stack;
            var k := Innermost(open, Opener(c));
            Written(s + [c]) ==
              if !(ReadAll(s).mode.Outside? && IsCloser(c)) then Written(s) + [c]
              else if k >= 0 then Written(s) + Closers(open[k + 1..]) + [c]
              else Written(s) + Closers(open)
  {
    ScanReads(s);
    LastRead(s + [c], s, c);
    NextByte(ScanAll(s), c);
  }

  lemma {:induction false} NextByte(sc: Scan, c: char)
    ensures var k := Innermost(sc.stack, Opener(c));
            ScanNext(sc, c).out ==
              if !(sc.mode.Outside? && IsCloser(c)) then sc.out + [c]
              else if k >= 0 then sc.out + Closers(sc.stack[k + 1..]) + [c]
              else sc.out + Closers(sc.stack)
  {
    if sc.mode.Outside? && IsCloser(c) {
      CloseInnerExactly(sc.out, sc.stack, Opener(c));
      assert sc.stack[0..] == sc.stack;
    }
  }

  /** The end of the input closes a string cut off, then all that is still open by what has been written. */
  lemma {:induction false} AtTheEnd(s: string)
    ensures Repaired(s) == Written(s) + (if ReadAll(s).mode.Inside? then "\"" else "") + Closers(ReadAll(Written(s)).stack)
  {
    ScanReads(s);
  }

  /** Nothing written is ever taken back. */
  lemma {:induction false} WrittenStays(s: string, t: string)
    ensures Written(s) <= Written(s + t) && Written(s + t) <= Repaired(s + t)
    decreases |t|
  {
    if t == [] {
      assert s + t == s;
    } else {
      var init, c := t[..|t| - 1], t[|t| - 1];
      WrittenStays(s, init);
      OneMoreByte(s + init, c);
      assert s + init + [c] == s + t;
    }
  }

  /** A closer outside strings whose opener is open in the text written so far is never dropped, whatever follows it. */
  lemma {:induction false} CloserKept(s: string, c: char, t: string)
    requires IsCloser(c) && ReadAll(s).mode.Outside? && Opener(c) in ReadAll(Written(s)).stack
    ensures var open := ReadAll(Written(s)).stack;
            Written(s) + Closers(open[Innermost(open, Opener(c)) + 1..]) + [c] <= Repaired(s + [c] + t)
  {
    OneMoreByte(s, c);
    WrittenStays(s + [c], t);
  }

  /** The forgotten brace is closed before the square bracket, not swallowed by it. */
  lemma {:induction false} ForgottenBraceClosed()
    ensures Repaired("[{]1") == "[{}]1"
  {
    BraceInBracket();
    BracketClosesBrace();
    OneByte("[{", ']', "[{]");
    OneByte("[{]", '1', "[{]1");
    assert ScanAll("[{]1") == Scan("[{}]1", "", Outside);
  }

  lemma {:induction false} BraceInBracket()
    ensures ScanAll("[{") == Scan("[{", "[{", Outside)
  {
    OneByte("", '[', "[");
    OneByte("[", '{', "[{");
  }

  lemma {:induction false} BracketClosesBrace()
    ensures ScanNext(Scan("[{", "[{", Outside), ']') == Scan("[{}]", "", Outside)
  {
    assert "[{"[..1] == "[" && "["[..0] == "" && "[{" + [Closer('{')] == "[{}";
    assert CloseInner("[{}", "[", '[') == ("[{}", "[");
    assert CloseInner("[{", "[{", '[') == ("[{}", "[");
  }

  /* ---- Main results ---- */

  /** The output is well nested, its strings closed, exactly when the input does not end on a dangling escape. */
  lemma {:induction false} RepairedIsWellNested(s: string)
    ensures WellNested(Repaired(s)) <==> !DanglingEscape(s)
  {
    ReadRepaired(s);
  }

  /** An input cut off right after a backslash: the owed closer lands inside the string, so the object stays open. */
  lemma {:induction false} DanglingEscapeStaysOpen()
    ensures var s := "{\"a\\";
            DanglingEscape(s) && Repaired(s) == s + "}" && !WellNested(Repaired(s))
  {
    var s := "{\"a\\";
    OneByte("", '{', "{");
    OneByte("{", '"', "{\"");
    OneByte("{\"", 'a', "{\"a");
    OneByte("{\"a", '\\', s);
    assert ScanAll("{\"a") == Scan("{\"a", "{", Inside) && ReadAll("{\"a") == Reading("{", Inside, true);
    OneOwed("{");
    RepairedIsWellNested(s);
  }

  /** One byte more, of a text written out. */
  lemma {:induction false} OneByte(s: string, c: char, t: string)
    requires t == s + [c]
    ensures ScanAll(t) == ScanNext(ScanAll(s), c) && ReadAll(t) == Read(ReadAll(s), c)
  {
    assert t[..|t| - 1] == s;
  }

  lemma {:induction false} OneOwed(stack: seq<char>)
    requires |stack| == 1
    ensures Closers(stack) == [Closer(stack[0])]
  {
    assert stack[..0] == [];
  }

  lemma {:induction false} OpenMinusClosed(s: string, opener: char)
    requires IsOpener(opener) && ReadAll(s).ok
    ensures CountOutside(s, opener) == CountOutside(s, Closer(opener)) + Occurrences(ReadAll(s).stack, opener)
  {
    if s != [] {
      var init, c := s[..|s| - 1], s[|s| - 1];
      ReadCounts(ReadAll(init), c, opener);
      OpenMinusClosed(init, opener);
    }
  }

  /** One byte read: an opener outside strings adds one open bracket of its kind, a closer takes one away. */
  lemma {:induction false} ReadCounts(r: Reading, c: char, opener: char)
    requires IsOpener(opener) && Read(r, c).ok
    ensures r.ok
    ensures Occurrences(Read(r, c).stack, opener) + (if r.mode.Outside? && c == Closer(opener) then 1 else 0)
         == Occurrences(r.stack, opener) + (if r.mode.Outside? && c == opener then 1 else 0)
  {
    if r.mode.Outside? && IsOpener(c) {
      assert (r.stack + [c])[..|r.stack|] == r.stack;
    }
  }

  function Occurrences(stack: seq<char>, c: char): nat {
    if stack == [] then 0 else Occurrences(stack[..|stack| - 1], c) + (if stack[|stack| - 1] == c then 1 else 0)
  }

  /** So the output has as many closers as openers outside strings, for braces and for square brackets. */
  lemma {:induction false} RepairedIsBalanced(s: string, opener: char)
    requires IsOpener(opener) && !DanglingEscape(s)
    ensures CountOutside(Repaired(s), opener) == CountOutside(Repaired(s), Closer(opener))
  {
    RepairedIsWellNested(s);
    OpenMinusClosed(Repaired(s), opener);
  }

  /** Only brackets outside strings are inserted or dropped, apart from one closing quote for a string cut off. */
  lemma {:induction false} RepairedErasesAlike(s: string)
    requires !DanglingEscape(s)
    ensures Erase(Repaired(s)) == Erase(s) + (if ReadAll(s).mode.Inside? then "\"" else "")
  {
    ReadRepaired(s);
  }

  /** While every closer matches, the scan copies its input. */
  lemma {:induction false} ScanCopies(s: string)
    requires ReadAll(s).ok
    ensures ScanAll(s) == Scan(s, ReadAll(s).stack, ReadAll(s).mode)
  {
    if s != [] {
      var init := s[..|s| - 1];
      assert ReadAll(init).ok;
      ScanCopies(init);
      assert s == init + [s[|s| - 1]];
    }
  }

  /**
   The repair leaves a text unchanged exactly when it is well nested, or is properly nested with nothing open
   up to a dangling escape.
   */
  lemma {:induction false} UnchangedExactly(s: string)
    ensures Repaired(s) == s <==>
            WellNested(s) || (DanglingEscape(s) && ReadAll(s).ok && ReadAll(s).stack == [])
  {
    ReadRepaired(s);
    if ReadAll(s).ok {
      ScanCopies(s);
    }
  }

  /** Repairing twice changes nothing more, except when a dangling escape swallows closers of still-open brackets. */
  lemma {:induction false} IdempotentExactly(s: string)
    ensures Repaired(Repaired(s)) == Repaired(s) <==> !(DanglingEscape(s) && ScanAll(s).stack != [])
  {
    ReadRepaired(s);
    UnchangedExactly(Repaired(s));
  }
}
