/** Any layout of a list of Dockerfile instructions is read back as that list. */
module DockerLayout {
  import opened Basics
  import opened BuildkitText
  import opened DockerLines

  // ----- Layouts -----

  /** A stretch of an instruction before a continuation, its blanks, and skipped lines after it. */
  datatype Fragment = Fragment(text: string, tabs: string, fillers: seq<string>)

  /** One way to write an instruction: lead, continued fragments, a last line, and skipped lines after it. */
  datatype Written = Written(
    name: string, separator: string, argument: string, trail: string,
    lead: string, fragments: seq<Fragment>, last: string, after: seq<string>)

  function ContinuedLine(escape: char, f: Fragment): string {
    f.text + [escape] + f.tabs
  }

  function Joined(fs: seq<Fragment>, last: string): string {
    if fs == [] then last else fs[0].text + Joined(fs[1..], last)
  }

  /** The lines of an instruction, without the lead of its first one. */
  function BodyLines(escape: char, fs: seq<Fragment>, last: string): (lines: seq<string>)
    ensures lines != []
  {
    if fs == [] then [last]
    else [ContinuedLine(escape, fs[0])] + (fs[0].fillers + BodyLines(escape, fs[1..], last))
  }

  function WrittenLines(escape: char, w: Written): (lines: seq<string>)
    ensures lines != []
  {
    var body := BodyLines(escape, w.fragments, w.last);
    [w.lead + body[0]] + (body[1..] + w.after)
  }

  function Meaning(w: Written): Instruction {
    Instruction(Upper(w.name), w.argument)
  }

  ghost predicate AllFillers(lines: seq<string>) {
    forall i :: 0 <= i < |lines| ==> IsFiller(lines[i])
  }

  /** A fragment may end anywhere but right after the escape character. */
  ghost predicate GoodFragment(escape: char, f: Fragment) {
    (f.text == "" || f.text[|f.text| - 1] != escape)
    && (forall i :: 0 <= i < |f.tabs| ==> IsTabOrSpace(f.tabs[i]))
    && AllFillers(f.fillers)
  }

  /** The later lines of an instruction are not taken for blank or comment lines. */
  ghost predicate GoodFragments(escape: char, fs: seq<Fragment>, last: string) {
    (forall i :: 0 <= i < |fs| ==> GoodFragment(escape, fs[i]))
    && (forall i :: 1 <= i < |fs| ==> !IsFiller(ContinuedLine(escape, fs[i])))
    && (fs != [] ==> !IsFiller(last))
    && TrimContinuation(last, escape) == (last, true)
  }

  /** A command word, separators, and an argument without outer blanks. */
  ghost predicate GoodInstruction(w: Written) {
    AllLetters(w.name)
    && w.separator != "" && (forall i :: 0 <= i < |w.separator| ==> IsSeparator(w.separator[i]))
    && w.argument != "" && !IsBuildkitSpace(w.argument[0]) && !IsBuildkitSpace(w.argument[|w.argument| - 1])
    && AllSpace(w.trail)
  }

  ghost predicate Good(escape: char, w: Written) {
    GoodInstruction(w) && AllSpace(w.lead) && AllFillers(w.after)
    && GoodFragments(escape, w.fragments, w.last)
    && Joined(w.fragments, w.last) == w.name + w.separator + w.argument + w.trail
  }

  // ----- One instruction -----

  lemma {:induction false} DropTabsSkips(s: string, tabs: string)
    requires forall i :: 0 <= i < |tabs| ==> IsTabOrSpace(tabs[i])
    requires s != "" && !IsTabOrSpace(s[|s| - 1])
    ensures DropTabs(s + tabs) == s
    decreases |tabs|
  {
    if tabs == "" {
      assert s + tabs == s;
    } else {
      assert (s + tabs)[..|s + tabs| - 1] == s + tabs[..|tabs| - 1];
      DropTabsSkips(s, tabs[..|tabs| - 1]);
    }
  }

  lemma TrimContinued(escape: char, f: Fragment)
    requires GoodFragment(escape, f) && !IsTabOrSpace(escape)
    ensures TrimContinuation(ContinuedLine(escape, f), escape) == (f.text, false)
  {
    var s := f.text + [escape];
    DropTabsSkips(s, f.tabs);
    assert s[..|s| - 1] == f.text;
  }

  lemma {:induction false} SkipFillersAppend(fillers: seq<string>, rest: seq<string>)
    requires AllFillers(fillers) && rest != [] && !IsFiller(rest[0])
    ensures SkipFillers(fillers + rest) == rest
  {
    if fillers == [] {
      assert fillers + rest == rest;
    } else {
      assert (fillers + rest)[1..] == fillers[1..] + rest;
      SkipFillersAppend(fillers[1..], rest);
    }
  }

  /** A continued instruction is collected whole, and the lines after it are left. */
  lemma {:induction false} CollectWritten(
    escape: char, current: string, fs: seq<Fragment>, last: string, rest: seq<string>)
    requires !IsTabOrSpace(escape) && GoodFragments(escape, fs, last)
    ensures var body := BodyLines(escape, fs, last);
            Collect(escape, current, body[0], body[1..] + rest)
            == (var i := SplitCommand(current + Joined(fs, last));
                if i.None? then None else Some(Collected(i.value, rest)))
    decreases |fs|
  {
    hide SplitCommand, IsFiller;
    var body := BodyLines(escape, fs, last);
    if fs == [] {
      assert body[1..] + rest == rest;
    } else {
      var next := BodyLines(escape, fs[1..], last);
      TrimContinued(escape, fs[0]);
      assert body[1..] + rest == fs[0].fillers + (next + rest);
      assert !IsFiller(next[0]) by {
        if |fs| > 1 { assert next[0] == ContinuedLine(escape, fs[1]); }
      }
      SkipFillersAppend(fs[0].fillers, next + rest);
      assert (next + rest)[1..] == next[1..] + rest;
      GoodTail(escape, fs, last);
      CollectWritten(escape, current + fs[0].text, fs[1..], last, rest);
      AppendAssociative(current, fs[0].text, Joined(fs[1..], last));
    }
  }

  lemma GoodTail(escape: char, fs: seq<Fragment>, last: string)
    requires fs != [] && GoodFragments(escape, fs, last)
    ensures GoodFragments(escape, fs[1..], last)
  {
  }

  lemma TokenLengthIs(s: string, n: nat)
    requires n < |s| && IsSeparator(s[n]) && forall i :: 0 <= i < n ==> !IsSeparator(s[i])
    ensures TokenLength(s) == n
  {
    var m := TokenLength(s);
    assert m < |s| ==> IsSeparator(s[m]);
  }

  lemma {:induction false} SkipSeparatorsIs(sep: string, s: string)
    requires (forall i :: 0 <= i < |sep| ==> IsSeparator(sep[i])) && s != "" && !IsSeparator(s[0])
    ensures SkipSeparators(sep + s) == s
  {
    if sep == "" {
      assert sep + s == s;
    } else {
      assert (sep + s)[1..] == sep[1..] + s;
      SkipSeparatorsIs(sep[1..], s);
    }
  }

  lemma TrimIs(s: string, trail: string)
    requires s != "" && !IsBuildkitSpace(s[0]) && !IsBuildkitSpace(s[|s| - 1]) && AllSpace(trail)
    ensures Trim(s + trail) == s
  {
    assert (s + trail)[0] == s[0];
    TrimRightSkips(s, trail);
  }

  lemma CommandWord(name: string, separator: string, argument: string)
    requires AllLetters(name) && argument != "" && !IsSeparator(argument[0])
    requires separator != "" && forall i :: 0 <= i < |separator| ==> IsSeparator(separator[i])
    ensures var line := name + (separator + argument);
            TokenLength(line) == |name| && line[..|name|] == name && SkipSeparators(line[|name|..]) == argument
  {
    var tail := separator + argument;
    var line := name + tail;
    assert line[|name|] == separator[0];
    assert forall i :: 0 <= i < |name| ==> line[i] == name[i];
    TokenLengthIs(line, |name|);
    assert line[|name|..] == tail;
    SkipSeparatorsIs(separator, argument);
  }

  /** An assembled line gives back its command word, in capitals, and its argument. */
  lemma SplitCommandIs(w: Written)
    requires GoodInstruction(w)
    ensures SplitCommand(w.name + w.separator + w.argument + w.trail) == Some(Meaning(w))
  {
    hide Trim, TokenLength, SkipSeparators, Upper;
    var line := w.name + (w.separator + w.argument);
    AppendAssociative(w.name, w.separator, w.argument);
    assert line[0] == w.name[0] && line[|line| - 1] == w.argument[|w.argument| - 1];
    TrimIs(line, w.trail);
    CommandWord(w.name, w.separator, w.argument);
    assert w.argument + "" == w.argument;
    TrimIs(w.argument, "");
  }

  // ----- A whole file -----

  function FileLines(escape: char, ws: seq<Written>): seq<string> {
    if ws == [] then [] else WrittenLines(escape, ws[0]) + FileLines(escape, ws[1..])
  }

  function Meanings(ws: seq<Written>): seq<Instruction> {
    if ws == [] then [] else [Meaning(ws[0])] + Meanings(ws[1..])
  }

  lemma {:induction false} ParseFillers(
    fillers: seq<string>, rest: seq<string>, w: Window, found: seq<Instruction>, word: char -> bool)
    requires AllFillers(fillers) && !w.open
    ensures Parse(fillers + rest, w, found, word) == Parse(rest, w, found, word)
    decreases |fillers|
  {
    if fillers == [] {
      assert fillers + rest == rest;
    } else {
      assert (fillers + rest)[1..] == fillers[1..] + rest;
      assert w.(open := false) == w;
      ParseFillers(fillers[1..], rest, w, found, word);
    }
  }

  /** The first line of a written instruction is neither blank nor a comment. */
  lemma FirstLine(escape: char, w: Written)
    requires Good(escape, w) && !IsBuildkitSpace(escape) && escape != '#'
    ensures var body := BodyLines(escape, w.fragments, w.last);
            TrimLeft(w.lead + body[0]) == body[0] && body[0] != "" && body[0][0] != '#'
  {
    var body := BodyLines(escape, w.fragments, w.last);
    var text := w.name + w.separator + w.argument + w.trail;
    assert text[0] == w.name[0];
    if w.fragments == [] {
      assert body[0] == text;
    } else {
      var f := w.fragments[0];
      assert f.text != "" ==> f.text[0] == text[0];
      assert body[0] == f.text + [escape] + f.tabs;
      assert body[0][0] == if f.text == "" then escape else f.text[0];
    }
    TrimLeftSkips(w.lead, body[0]);
  }

  /** Reading one written instruction leaves the window closed and the next lines unread. */
  lemma ParseWritten(
    escape: char, w: Written, rest: seq<string>, window: Window, found: seq<Instruction>, word: char -> bool)
    requires Good(escape, w) && window.escape == escape
    requires !IsBuildkitSpace(escape) && escape != '#'
    ensures Parse(WrittenLines(escape, w) + rest, window, found, word)
            == Parse(rest, window.(open := false), found + [Meaning(w)], word)
  {
    hide SplitCommand, Good, GoodFragments, GoodInstruction, BodyLines;
    var body := BodyLines(escape, w.fragments, w.last);
    var lines := WrittenLines(escape, w) + rest;
    assert lines[0] == w.lead + body[0];
    assert lines[1..] == body[1..] + (w.after + rest);
    FirstLine(escape, w);
    assert GoodFragments(escape, w.fragments, w.last) && GoodInstruction(w) && AllFillers(w.after)
      && Joined(w.fragments, w.last) == w.name + w.separator + w.argument + w.trail by { GoodParts(escape, w); }
    CollectWritten(escape, "", w.fragments, w.last, w.after + rest);
    SplitCommandIs(w);
    assert "" + Joined(w.fragments, w.last) == Joined(w.fragments, w.last);
    ParseFillers(w.after, rest, window.(open := false), found + [Meaning(w)], word);
  }

  lemma GoodParts(escape: char, w: Written)
    requires Good(escape, w)
    ensures GoodFragments(escape, w.fragments, w.last) && GoodInstruction(w) && AllFillers(w.after)
    ensures Joined(w.fragments, w.last) == w.name + w.separator + w.argument + w.trail
  {
  }

  lemma {:induction false} ParseFile(
    escape: char, ws: seq<Written>, window: Window, found: seq<Instruction>, word: char -> bool)
    requires forall i :: 0 <= i < |ws| ==> Good(escape, ws[i])
    requires window.escape == escape && !IsBuildkitSpace(escape) && escape != '#'
    requires found + Meanings(ws) != []
    ensures Parse(FileLines(escape, ws), window, found, word) == Some(DockerfileSpec(found + Meanings(ws), escape))
    decreases |ws|
  {
    hide Good, WrittenLines;
    if ws == [] {
      assert found + [] == found;
    } else {
      ParseWritten(escape, ws[0], FileLines(escape, ws[1..]), window, found, word);
      AppendAssociative(found, [Meaning(ws[0])], Meanings(ws[1..]));
      ParseFile(escape, ws[1..], window.(open := false), found + [Meaning(ws[0])], word);
    }
  }

  // ----- Before the first instruction -----

  /** Nothing, or an escape directive; then nothing, or a blank line or a plain comment and any skipped lines. */
  datatype Header = Header(directive: Option<string>, closing: seq<string>)

  function HeaderEscape(h: Header): char {
    if h.directive.None? then '\\'
    else
      var d := ParserDirective(h.directive.value);
      if d.Some? && d.value.value == "`" then '`' else '\\'
  }

  /** A comment that is no directive and does not begin with the word escape. */
  predicate PlainComment(line: string, word: char -> bool) {
    var text := TrimLeft(line);
    && text != "" && text[0] == '#' && ParserDirective(text).None?
    && !BeginsWithEscape(TrimLeft(text[1..]), word)
  }

  ghost predicate GoodHeader(h: Header, word: char -> bool) {
    (h.directive.Some? ==>
      var d := ParserDirective(TrimLeft(h.directive.value));
      d.Some? && d.value.key == "escape" && (d.value.value == "\\" || d.value.value == "`"))
    && (h.closing != [] ==> TrimLeft(h.closing[0]) == "" || PlainComment(h.closing[0], word))
    && AllFillers(h.closing)
  }

  function HeaderLines(h: Header): seq<string> {
    (if h.directive.Some? then [h.directive.value] else []) + h.closing
  }

  lemma {:induction false} TrimLeftTwice(s: string)
    ensures TrimLeft(TrimLeft(s)) == TrimLeft(s)
  {
  }

  lemma ParseHeader(h: Header, rest: seq<string>, word: char -> bool)
    requires GoodHeader(h, word)
    ensures exists w: Window :: w.escape == HeaderEscape(h)
              && Parse(HeaderLines(h) + rest, OPEN, [], word) == Parse(rest, w, [], word)
  {
    var w := OPEN;
    var lines := HeaderLines(h) + rest;
    if h.directive.Some? {
      var line := h.directive.value;
      TrimLeftTwice(line);
      assert ParserDirective(line) == ParserDirective(TrimLeft(line));
      w := Window(HeaderEscape(h), true, true);
      assert lines[0] == line && lines[1..] == h.closing + rest;
      assert Parse(lines, OPEN, [], word) == Parse(h.closing + rest, w, [], word);
    } else {
      assert lines == h.closing + rest;
    }
    if h.closing == [] {
      assert h.closing + rest == rest;
    } else {
      var closed := w.(open := false);
      TrimLeftTwice(h.closing[0]);
      assert (h.closing + rest)[0] == h.closing[0] && (h.closing + rest)[1..] == h.closing[1..] + rest;
      assert Parse(h.closing + rest, w, [], word) == Parse(h.closing[1..] + rest, closed, [], word);
      ParseFillers(h.closing[1..], rest, closed, [], word);
      w := closed;
    }
  }

  // ----- The text of a file -----

  function JoinLines(lines: seq<string>): string
    requires lines != []
  {
    if |lines| == 1 then lines[0] else lines[0] + ("\n" + JoinLines(lines[1..]))
  }

  ghost predicate OneLineEach(lines: seq<string>) {
    forall i :: 0 <= i < |lines| ==> '\n' !in lines[i]
  }

  lemma {:induction false} SplitOne(line: string)
    requires '\n' !in line
    ensures SplitLines(line) == [line]
  {
    if line != "" {
      SplitOne(line[1..]);
      assert line == [line[0]] + line[1..];
    }
  }

  lemma {:induction false} SplitFirst(line: string, rest: string)
    requires '\n' !in line
    ensures SplitLines(line + ("\n" + rest)) == [line] + SplitLines(rest)
  {
    if line == "" {
      assert line + ("\n" + rest) == "\n" + rest;
      assert ("\n" + rest)[1..] == rest;
    } else {
      assert (line + ("\n" + rest))[1..] == line[1..] + ("\n" + rest);
      SplitFirst(line[1..], rest);
      assert line == [line[0]] + line[1..];
    }
  }

  lemma {:induction false} SplitJoined(lines: seq<string>)
    requires lines != [] && OneLineEach(lines)
    ensures SplitLines(JoinLines(lines)) == lines
  {
    if |lines| == 1 {
      SplitOne(lines[0]);
    } else {
      SplitFirst(lines[0], JoinLines(lines[1..]));
      SplitJoined(lines[1..]);
      assert lines == [lines[0]] + lines[1..];
    }
  }

  function FileText(bom: bool, physical: seq<string>): string
    requires physical != []
  {
    (if bom then [0xFEFF as char] else "") + JoinLines(physical)
  }

  /**
    * Layout invariance: whatever the header, the continuations, the skipped
    * lines, the byte-order mark and the line endings, the parser returns the
    * instructions that were laid out and the escape character in force.
    */
  lemma LayoutInvariance(bom: bool, h: Header, ws: seq<Written>, physical: seq<string>, word: char -> bool)
    requires GoodHeader(h, word) && ws != [] && forall i :: 0 <= i < |ws| ==> Good(HeaderEscape(h), ws[i])
    requires physical != [] && OneLineEach(physical)
    requires DropReturns(physical) == HeaderLines(h) + FileLines(HeaderEscape(h), ws)
    requires bom || JoinLines(physical) == "" || JoinLines(physical)[0] as int != 0xFEFF
    ensures Instructions(FileText(bom, physical), word) == Some(DockerfileSpec(Meanings(ws), HeaderEscape(h)))
  {
    hide Good, GoodHeader, Parse, HeaderEscape, FileLines, HeaderLines, JoinLines, FileText, Instructions;
    HeaderEscapeKnown(h);
    FileLinesRead(bom, physical, word);
    ParseHeader(h, FileLines(HeaderEscape(h), ws), word);
    var w: Window :| w.escape == HeaderEscape(h)
      && Parse(HeaderLines(h) + FileLines(HeaderEscape(h), ws), OPEN, [], word)
         == Parse(FileLines(HeaderEscape(h), ws), w, [], word);
    assert [] + Meanings(ws) == Meanings(ws);
    ParseFile(HeaderEscape(h), ws, w, [], word);
  }

  /** The parser works on the file's lines, without the byte-order mark and the carriage returns. */
  lemma FileLinesRead(bom: bool, physical: seq<string>, word: char -> bool)
    requires physical != [] && OneLineEach(physical)
    requires bom || JoinLines(physical) == "" || JoinLines(physical)[0] as int != 0xFEFF
    ensures Instructions(FileText(bom, physical), word) == Parse(DropReturns(physical), OPEN, [], word)
  {
    hide Parse, JoinLines, DropReturns;
    var text := JoinLines(physical);
    if bom {
      assert FileText(bom, physical)[1..] == text;
    } else {
      assert FileText(bom, physical) == text;
    }
    SplitJoined(physical);
  }

  predicate EscapeKnown(escape: char) {
    escape == '\\' || escape == '`'
  }

  lemma HeaderEscapeKnown(h: Header)
    ensures EscapeKnown(HeaderEscape(h))
  {
  }
}
