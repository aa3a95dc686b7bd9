/**
  * The Dockerfile line assembler of security_assessment.py: physical lines,
  * parser directives, comments and continuations, joined into instructions.
  * `word` stands for Python's Unicode word-character class.
  */
module DockerLines {
  import opened Basics
  import opened BuildkitText

  datatype Instruction = Instruction(name: string, argument: string)

  datatype DockerfileSpec = DockerfileSpec(instructions: seq<Instruction>, escapeCharacter: char)

  // ----- Lines -----

  /** value.split("\n"). */
  function SplitLines(value: string): (lines: seq<string>)
    ensures lines != []
  {
    if value == "" then [""]
    else if value[0] == '\n' then [""] + SplitLines(value[1..])
    else
      var rest := SplitLines(value[1..]);
      [[value[0]] + rest[0]] + rest[1..]
  }

  function DropReturn(line: string): string {
    if line != "" && line[|line| - 1] == '\r' then line[..|line| - 1] else line
  }

  function DropReturns(lines: seq<string>): (r: seq<string>)
    ensures |r| == |lines| && forall i :: 0 <= i < |lines| ==> r[i] == DropReturn(lines[i])
  {
    if lines == [] then [] else [DropReturn(lines[0])] + DropReturns(lines[1..])
  }

  /** Split at LF and remove at most one CR from each line. */
  function PhysicalLines(value: string): seq<string> {
    DropReturns(SplitLines(value))
  }

  // ----- Parser directives -----

  predicate IsLetter(c: char) {
    'A' <= c <= 'Z' || 'a' <= c <= 'z'
  }

  predicate IsDirectiveBlank(c: char) {
    c == ' ' || c == '\t' || c as int == 12 || c == '\r'
  }

  function Upper(s: string): string {
    if s == "" then ""
    else [if 'a' <= s[0] <= 'z' then (s[0] as int - 32) as char else s[0]] + Upper(s[1..])
  }

  /** The length of the longest run of letters and digits s starts with. */
  function KeyLength(s: string): (n: nat)
    ensures n <= |s|
  {
    if s != "" && (IsLetter(s[0]) || '0' <= s[0] <= '9') then 1 + KeyLength(s[1..]) else 0
  }

  function SkipBlanks(s: string): string {
    if s != "" && IsDirectiveBlank(s[0]) then SkipBlanks(s[1..]) else s
  }

  function DropBlanks(s: string): string {
    if s != "" && IsDirectiveBlank(s[|s| - 1]) then DropBlanks(s[..|s| - 1]) else s
  }

  datatype Directive = Directive(key: string, value: string)

  /** The directive pattern on text after "#": key, "=", then a value of at least one character. */
  function MatchDirective(s: string): Option<Directive> {
    var n := KeyLength(s);
    if n == 0 || !IsLetter(s[0]) then None
    else
      var rest := SkipBlanks(s[n..]);
      if rest == "" || rest[0] != '=' || rest == "=" then None
      else
        var value := DropBlanks(SkipBlanks(rest[1..]));
        Some(Directive(Lower(s[..n]), if value == "" then [rest[|rest| - 1]] else value))
  }

  function ParserDirective(line: string): Option<Directive> {
    var normalized := TrimLeft(line);
    if normalized == "" || normalized[0] != '#' then None
    else
      var matched := MatchDirective(TrimLeft(normalized[1..]));
      if matched.Some? && matched.value.key in {"escape", "syntax", "check"} then matched else None
  }

  /** A comment that begins with the word "escape", in any case (Python also folds U+017F to s). */
  predicate BeginsWithEscape(comment: string, word: char -> bool) {
    |comment| >= 6
    && comment[0] in {'e', 'E'} && (comment[1] in {'s', 'S'} || comment[1] as int == 0x17F)
    && comment[2] in {'c', 'C'} && comment[3] in {'a', 'A'} && comment[4] in {'p', 'P'} && comment[5] in {'e', 'E'}
    && (|comment| == 6 || !word(comment[6]))
  }

  /** The escape character, whether a directive set it, and whether directives are still read. */
  datatype Window = Window(escape: char, seen: bool, open: bool)

  function CommentState(line: string, w: Window, word: char -> bool): Option<Window>
    requires TrimLeft(line) != ""
  {
    if !w.open then Some(w.(open := false))
    else
      match ParserDirective(line)
      case None =>
        if BeginsWithEscape(TrimLeft(TrimLeft(line)[1..]), word) then None else Some(w.(open := false))
      case Some(d) =>
        if d.key == "escape" then
          if w.seen || d.value !in {"\\", "`"} then None else Some(Window(d.value[0], true, true))
        else None
  }

  // ----- Continuations -----

  predicate IsTabOrSpace(c: char) {
    c == ' ' || c == '\t'
  }

  function DropTabs(s: string): (r: string)
    ensures |r| <= |s|
  {
    if s != "" && IsTabOrSpace(s[|s| - 1]) then DropTabs(s[..|s| - 1]) else s
  }

  /** The line without its continuation character, and whether the instruction ends here. */
  function TrimContinuation(line: string, escape: char): (string, bool) {
    var t := DropTabs(line);
    if t != "" && t[|t| - 1] == escape && (|t| == 1 || t[|t| - 2] != escape) then (t[..|t| - 1], false)
    else (line, true)
  }

  predicate IsSeparator(c: char) {
    c == '\t' || c as int == 11 || c as int == 12 || c == '\r' || c == ' '
  }

  function TokenLength(s: string): (n: nat)
    ensures n <= |s|
    ensures forall i :: 0 <= i < n ==> !IsSeparator(s[i])
    ensures n < |s| ==> IsSeparator(s[n])
  {
    if s == "" || IsSeparator(s[0]) then 0 else 1 + TokenLength(s[1..])
  }

  function SkipSeparators(s: string): string {
    if s != "" && IsSeparator(s[0]) then SkipSeparators(s[1..]) else s
  }

  predicate AllLetters(s: string) {
    s != "" && forall i :: 0 <= i < |s| ==> IsLetter(s[i])
  }

  /** An assembled line's instruction, when it has a command word and an argument. */
  function SplitCommand(line: string): Option<Instruction> {
    var normalized := Trim(line);
    var n := TokenLength(normalized);
    if n == |normalized| || !AllLetters(normalized[..n]) then None
    else
      var argument := Trim(SkipSeparators(normalized[n..]));
      if argument == "" then None else Some(Instruction(Upper(normalized[..n]), argument))
  }

  /** Blank and comment lines are skipped inside a continued instruction. */
  predicate IsFiller(line: string) {
    TrimLeft(line) == "" || TrimLeft(line)[0] == '#'
  }

  function SkipFillers(lines: seq<string>): (r: seq<string>)
    ensures |r| <= |lines|
  {
    if lines != [] && IsFiller(lines[0]) then SkipFillers(lines[1..]) else lines
  }

  datatype Collected = Collected(instruction: Instruction, rest: seq<string>)

  /** The instruction that `line` continues, after the text in `current`. */
  function Collect(escape: char, current: string, line: string, rest: seq<string>): Option<Collected>
    decreases |rest|
  {
    var (fragment, isEnd) := TrimContinuation(line, escape);
    if isEnd then
      var instruction := SplitCommand(current + fragment);
      if instruction.None? then None else Some(Collected(instruction.value, rest))
    else
      var after := SkipFillers(rest);
      if after == [] then None else Collect(escape, current + fragment, after[0], after[1..])
  }

  lemma {:induction false} CollectShrinks(escape: char, current: string, line: string, rest: seq<string>)
    ensures var c := Collect(escape, current, line, rest); c.Some? ==> |c.value.rest| <= |rest|
    decreases |rest|
  {
    var (fragment, isEnd) := TrimContinuation(line, escape);
    var after := SkipFillers(rest);
    if !isEnd && after != [] { CollectShrinks(escape, current + fragment, after[0], after[1..]); }
  }

  /** The instructions of the remaining lines, appended to those already found. */
  function Parse(lines: seq<string>, w: Window, found: seq<Instruction>, word: char -> bool): Option<DockerfileSpec>
    decreases |lines|
  {
    if lines == [] then if found == [] then None else Some(DockerfileSpec(found, w.escape))
    else
      var line := TrimLeft(lines[0]);
      if line == "" then Parse(lines[1..], w.(open := false), found, word)
      else if line[0] == '#' then
        var state := CommentState(line, w, word);
        if state.None? then None else Parse(lines[1..], state.value, found, word)
      else
        var collected := Collect(w.escape, "", line, lines[1..]);
        if collected.None? then None
        else
          CollectShrinks(w.escape, "", line, lines[1..]);
          Parse(collected.value.rest, w.(open := false), found + [collected.value.instruction], word)
  }

  const OPEN := Window('\\', false, true)

  function Instructions(text: string, word: char -> bool): Option<DockerfileSpec> {
    var body := if text != "" && text[0] as int == 0xFEFF then text[1..] else text;
    Parse(PhysicalLines(body), OPEN, [], word)
  }

  // ----- The loops -----

  method NextContinuation(lines: seq<string>, start: nat) returns (continuation: Option<string>, index: nat)
    requires start <= |lines|
    ensures start <= index <= |lines|
    ensures var after := SkipFillers(lines[start..]);
            if after == [] then continuation == None
            else continuation == Some(after[0]) && lines[index..] == after[1..] && start < index
  {
    index := start;
    while index < |lines|
      invariant start <= index <= |lines|
      invariant SkipFillers(lines[start..]) == SkipFillers(lines[index..])
    {
      var line := lines[index];
      assert lines[index..][1..] == lines[index + 1..];
      index := index + 1;
      if !IsFiller(line) { return Some(line), index; }
    }
    continuation := None;
  }

  method CollectInstruction(lines: seq<string>, start: nat, first: string, escape: char)
    returns (instruction: Option<Instruction>, index: nat)
    requires start <= |lines|
    ensures start <= index <= |lines|
    ensures match Collect(escape, "", first, lines[start..])
            case None => instruction == None
            case Some(c) => instruction == Some(c.instruction) && lines[index..] == c.rest
  {
    index := start;
    var current := "";
    var line := first;
    while true
      invariant start <= index <= |lines|
      invariant Collect(escape, "", first, lines[start..]) == Collect(escape, current, line, lines[index..])
      decreases |lines| - index
    {
      var (fragment, isEnd) := TrimContinuation(line, escape);
      current := current + fragment;
      if isEnd {
        instruction := SplitCommand(current);
        return;
      }
      var continuation, next := NextContinuation(lines, index);
      if continuation.None? { return None, next; }
      line := continuation.value;
      index := next;
    }
  }

  method DockerInstructions(text: string, word: char -> bool) returns (spec: Option<DockerfileSpec>)
    ensures spec == Instructions(text, word)
  {
    var body := if text != "" && text[0] as int == 0xFEFF then text[1..] else text;
    var lines := PhysicalLines(body);
    var w := OPEN;
    var instructions: seq<Instruction> := [];
    var index := 0;
    assert lines[0..] == lines;
    while index < |lines|
      invariant index <= |lines|
      invariant Instructions(text, word) == Parse(lines[index..], w, instructions, word)
    {
      assert lines[index..][1..] == lines[index + 1..];
      var line := TrimLeft(lines[index]);
      index := index + 1;
      if line == "" {
        w := w.(open := false);
      } else if line[0] == '#' {
        var state := CommentState(line, w, word);
        if state.None? { return None; }
        w := state.value;
      } else {
        w := w.(open := false);
        var instruction, next := CollectInstruction(lines, index, line, w.escape);
        if instruction.None? { return None; }
        instructions := instructions + [instruction.value];
        index := next;
      }
    }
    assert lines[index..] == [];
    spec := if instructions == [] then None else Some(DockerfileSpec(instructions, w.escape));
  }
}
