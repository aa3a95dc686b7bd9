/**
  * The builder-flag scanner of security_assessment.py: it takes the leading
  * "--" words off a Dockerfile argument, undoing quotes and escapes.
  */
module BuilderFlags {
  import opened Basics
  import opened BuildkitText

  predicate IsQuote(c: char) {
    c == '\'' || c == '\"'
  }

  datatype Phase = Spaces | Word | Quote

  /** The scanner's registers, apart from its position. */
  datatype Scan = Scan(words: seq<string>, phase: Phase, buffer: string, quote: char, blankOk: bool)

  datatype Flags = Flags(words: seq<string>, remaining: string)

  const START := Scan([], Spaces, "", ' ', false)

  // ----- What the scanner computes, on the text still to be read -----

  function Finish(s: Scan): Flags {
    Flags(if s.buffer != "--" && (s.blankOk || s.buffer != "") then s.words + [s.buffer] else s.words, "")
  }

  /** A word is complete: keep it unless it is empty and unquoted. */
  function EndWord(s: Scan): Scan {
    Scan(if s.blankOk || s.buffer != "" then s.words + [s.buffer] else s.words, Spaces, "", s.quote, false)
  }

  function Push(s: Scan, c: char): Scan {
    s.(buffer := s.buffer + [c])
  }

  function Run(escape: char, text: string, s: Scan): Flags
    decreases |text|, if s.phase == Spaces then 1 else 0
  {
    if text == "" then Finish(s)
    else
      match s.phase
      case Spaces =>
        if IsBuildkitSpace(text[0]) then Run(escape, text[1..], s)
        else if text[0] != '-' || |text| == 1 || text[1] != '-' then Flags(s.words, text)
        else Run(escape, text, s.(phase := Word))
      case Word =>
        if IsBuildkitSpace(text[0]) then
          if s.buffer == "--" then Flags(s.words, text) else Run(escape, text[1..], EndWord(s))
        else if IsQuote(text[0]) then
          Run(escape, text[1..], s.(quote := text[0], blankOk := true, phase := Quote))
        else if text[0] == escape then
          if |text| == 1 then Run(escape, "", s) else Run(escape, text[2..], Push(s, text[1]))
        else Run(escape, text[1..], Push(s, text[0]))
      case Quote =>
        if text[0] == s.quote then Run(escape, text[1..], s.(phase := Word))
        else if text[0] == escape then
          if |text| == 1 then Run(escape, "", s.(phase := Word)) else Run(escape, text[2..], Push(s, text[1]))
        else Run(escape, text[1..], Push(s, text[0]))
  }

  // ----- The scanner -----

  class BuilderFlagScanState {
    const argument: string
    const escapeCharacter: char
    var words: seq<string>
    var phase: Phase
    var buffer: string
    var quote: char
    var blankOk: bool
    var position: nat

    constructor (argument: string, escapeCharacter: char)
      ensures this.argument == argument && this.escapeCharacter == escapeCharacter
      ensures Registers() == START && position == 0
    {
      this.argument, this.escapeCharacter := argument, escapeCharacter;
      words, phase, buffer, quote, blankOk, position := [], Spaces, "", ' ', false, 0;
    }

    function Registers(): Scan
      reads this
    {
      Scan(words, phase, buffer, quote, blankOk)
    }

    /** What the scan still has to deliver. */
    ghost function Expected(): Flags
      requires position <= |argument|
      reads this
    {
      Run(escapeCharacter, argument[position..], Registers())
    }

    method ScanSpaces() returns (outcome: Option<Flags>)
      requires position < |argument| && phase == Spaces
      modifies this
      ensures position <= |argument|
      ensures outcome.None? ==> Expected() == old(Expected())
      ensures outcome.None? ==> position > old(position) || (position == old(position) && phase == Word)
      ensures outcome.Some? ==> outcome.value == old(Expected())
    {
      assert argument[position..][1..] == argument[position + 1..];
      var character := argument[position];
      if IsBuildkitSpace(character) {
        position := position + 1;
        return None;
      }
      if character != '-' || position + 1 == |argument| || argument[position + 1] != '-' {
        return Some(Flags(words, argument[position..]));
      }
      phase := Word;
      outcome := None;
    }

    method ScanWord() returns (outcome: Option<Flags>)
      requires position < |argument| && phase == Word
      modifies this
      ensures position <= |argument|
      ensures outcome.None? ==> Expected() == old(Expected()) && position > old(position)
      ensures outcome.Some? ==> outcome.value == old(Expected())
    {
      assert argument[position..][1..] == argument[position + 1..];
      assert position + 1 < |argument| ==> argument[position..][2..] == argument[position + 2..];
      var character := argument[position];
      if IsBuildkitSpace(character) {
        var word := buffer;
        if word == "--" {
          phase := Spaces;
          return Some(Flags(words, argument[position..]));
        }
        phase := Spaces;
        if blankOk || word != "" { words := words + [word]; }
        buffer := "";
        blankOk := false;
        position := position + 1;
        return None;
      }
      if IsQuote(character) {
        quote := character;
        blankOk := true;
        phase := Quote;
        position := position + 1;
        return None;
      }
      if character == escapeCharacter {
        if position + 1 == |argument| {
          position := position + 1;
          return None;
        }
        position := position + 1;
        character := argument[position];
      }
      buffer := buffer + [character];
      position := position + 1;
      outcome := None;
    }

    method ScanQuote()
      requires position < |argument| && phase == Quote
      modifies this
      ensures position <= |argument|
      ensures Expected() == old(Expected()) && position > old(position)
    {
      assert argument[position..][1..] == argument[position + 1..];
      assert position + 1 < |argument| ==> argument[position..][2..] == argument[position + 2..];
      var character := argument[position];
      if character == quote {
        phase := Word;
        position := position + 1;
        return;
      }
      if character == escapeCharacter {
        if position + 1 == |argument| {
          phase := Word;
          position := position + 1;
          return;
        }
        position := position + 1;
        character := argument[position];
      }
      buffer := buffer + [character];
      position := position + 1;
    }
  }

  method ExtractBuilderFlags(argument: string, escapeCharacter: char) returns (flags: Flags)
    ensures flags == Run(escapeCharacter, argument, START)
  {
    var state := new BuilderFlagScanState(argument, escapeCharacter);
    assert argument[0..] == argument;
    while state.position < |argument|
      invariant state.argument == argument && state.escapeCharacter == escapeCharacter
      invariant state.position <= |argument|
      invariant state.Expected() == Run(escapeCharacter, argument, START)
      decreases |argument| - state.position, if state.phase == Spaces then 1 else 0
    {
      var outcome: Option<Flags> := None;
      match state.phase {
        case Spaces => outcome := state.ScanSpaces();
        case Word => outcome := state.ScanWord();
        case Quote => state.ScanQuote();
      }
      if outcome.Some? { return outcome.value; }
    }
    assert argument[state.position..] == "";
    flags := Finish(state.Registers());
  }

  // ----- Every input: the remainder is a suffix -----

  ghost predicate IsSuffix(part: string, whole: string) {
    |part| <= |whole| && part == whole[|whole| - |part|..]
  }

  /** One step of the scanner: it ends here, or goes on n characters further. */
  lemma RunStep(escape: char, text: string, s: Scan) returns (n: nat, t: Scan, ends: bool)
    requires text != ""
    ensures n <= |text| && s.words <= t.words && (n == 0 ==> ends || (s.phase == Spaces && t.phase != Spaces))
    ensures Run(escape, text, s) == if ends then Flags(s.words, text) else Run(escape, text[n..], t)
  {
    t, n, ends := s, 1, false;
    if s.phase == Spaces {
      if !IsBuildkitSpace(text[0]) {
        n, t := 0, s.(phase := Word);
        ends := text[0] != '-' || |text| == 1 || text[1] != '-';
      }
    } else if s.phase == Word && IsBuildkitSpace(text[0]) {
      t := EndWord(s);
      ends := s.buffer == "--";
    } else if s.phase == Word && IsQuote(text[0]) {
      t := s.(quote := text[0], blankOk := true, phase := Quote);
    } else if s.phase == Quote && text[0] == s.quote {
      t := s.(phase := Word);
    } else if text[0] == escape && |text| == 1 {
      t := s.(phase := Word);
    } else if text[0] == escape {
      n, t := 2, Push(s, text[1]);
    } else {
      t := Push(s, text[0]);
    }
  }

  lemma {:induction false} RunSuffix(escape: char, text: string, s: Scan)
    ensures IsSuffix(Run(escape, text, s).remaining, text)
    ensures s.words <= Run(escape, text, s).words
    decreases |text|, if s.phase == Spaces then 1 else 0
  {
    if text != "" {
      var n, t, ends := RunStep(escape, text, s);
      hide Run;
      if !ends {
        RunSuffix(escape, text[n..], t);
        SuffixDrop(Run(escape, text[n..], t).remaining, text, n);
      }
    }
  }

  lemma SuffixDrop(part: string, whole: string, n: nat)
    requires n <= |whole| && IsSuffix(part, whole[n..])
    ensures IsSuffix(part, whole)
  {
  }

  // ----- Printing flags -----

  /** One stretch of a written word: a bare character, an escaped one, or a quoted run. */
  datatype Piece = Bare(c: char) | Escaped(c: char) | Quoted(q: char, inner: seq<QuotedChar>)

  datatype QuotedChar = Literal(c: char) | EscapedInside(c: char)

  predicate WrittenInside(escape: char, q: char, x: QuotedChar) {
    x.Literal? ==> x.c != q && x.c != escape
  }

  predicate Written(escape: char, p: Piece) {
    match p
    case Bare(c) => !IsBuildkitSpace(c) && !IsQuote(c) && c != escape
    case Escaped(_) => true
    case Quoted(q, inner) => IsQuote(q) && forall i :: 0 <= i < |inner| ==> WrittenInside(escape, q, inner[i])
  }

  function InsideText(escape: char, inner: seq<QuotedChar>, rest: string): string {
    if inner == [] then rest
    else
      var after := InsideText(escape, inner[1..], rest);
      if inner[0].Literal? then [inner[0].c] + after else [escape] + ([inner[0].c] + after)
  }

  function InsideMeaning(inner: seq<QuotedChar>): string {
    if inner == [] then "" else [inner[0].c] + InsideMeaning(inner[1..])
  }

  /** The written pieces of a word, followed by rest. */
  function PiecesText(escape: char, ps: seq<Piece>, rest: string): string {
    if ps == [] then rest
    else
      var after := PiecesText(escape, ps[1..], rest);
      match ps[0]
      case Bare(c) => [c] + after
      case Escaped(c) => [escape] + ([c] + after)
      case Quoted(q, inner) => [q] + InsideText(escape, inner, [q] + after)
  }

  /** What the pieces stand for, with quotes and escapes undone. */
  function PiecesMeaning(ps: seq<Piece>): string {
    if ps == [] then "" else PieceMeaning(ps[0]) + PiecesMeaning(ps[1..])
  }

  function PieceMeaning(p: Piece): string {
    match p
    case Bare(c) => [c]
    case Escaped(c) => [c]
    case Quoted(_, inner) => InsideMeaning(inner)
  }

  /** A flag: the blanks before it, then "--" and its pieces. */
  datatype Flag = Flag(gap: string, pieces: seq<Piece>)

  function Meaning(f: Flag): string {
    "--" + PiecesMeaning(f.pieces)
  }

  /** A way to write flags: blanks around them, no flag that means just "--". */
  predicate Layout(escape: char, fs: seq<Flag>) {
    forall i :: 0 <= i < |fs| ==>
      AllSpace(fs[i].gap) && (i > 0 ==> fs[i].gap != "")
      && (forall j :: 0 <= j < |fs[i].pieces| ==> Written(escape, fs[i].pieces[j]))
      && Meaning(fs[i]) != "--"
  }

  function FlagText(escape: char, f: Flag, rest: string): string {
    f.gap + ("--" + PiecesText(escape, f.pieces, rest))
  }

  function FlagsText(escape: char, fs: seq<Flag>, rest: string): string {
    if fs == [] then rest else FlagText(escape, fs[0], FlagsText(escape, fs[1..], rest))
  }

  function Meanings(fs: seq<Flag>): (ws: seq<string>)
    ensures |ws| == |fs| && forall i :: 0 <= i < |fs| ==> ws[i] == Meaning(fs[i])
  {
    if fs == [] then [] else [Meaning(fs[0])] + Meanings(fs[1..])
  }

  /** Text the scanner leaves alone: it starts neither with a blank nor with "--". */
  predicate Stops(rest: string) {
    rest == "" || (!IsBuildkitSpace(rest[0]) && !(rest[0] == '-' && |rest| > 1 && rest[1] == '-'))
  }

  // ----- Reading back what was printed -----

  lemma {:induction false} SkipGap(escape: char, gap: string, rest: string, s: Scan)
    requires AllSpace(gap) && s.phase == Spaces
    ensures Run(escape, gap + rest, s) == Run(escape, rest, s)
    decreases |gap|
  {
    if gap == "" {
      assert gap + rest == rest;
    } else {
      assert (gap + rest)[1..] == gap[1..] + rest;
      SkipGap(escape, gap[1..], rest, s);
    }
  }

  lemma QuoteEnds(escape: char, rest: string, s: Scan)
    requires s.phase == Quote
    ensures Run(escape, [s.quote] + rest, s) == Run(escape, rest, s.(phase := Word))
  {
    assert ([s.quote] + rest)[1..] == rest;
  }

  lemma QuoteReads(escape: char, x: QuotedChar, after: string, s: Scan)
    requires s.phase == Quote && escape != s.quote && WrittenInside(escape, s.quote, x)
    ensures Run(escape, (if x.Literal? then [x.c] + after else [escape] + ([x.c] + after)), s)
            == Run(escape, after, Push(s, x.c))
  {
    assert ([x.c] + after)[1..] == after;
    assert ([escape] + ([x.c] + after))[1] == x.c && ([escape] + ([x.c] + after))[2..] == after;
  }

  lemma {:induction false} ReadInside(escape: char, inner: seq<QuotedChar>, rest: string, s: Scan)
    requires s.phase == Quote && escape != s.quote
    requires forall i :: 0 <= i < |inner| ==> WrittenInside(escape, s.quote, inner[i])
    ensures Run(escape, InsideText(escape, inner, [s.quote] + rest), s)
            == Run(escape, rest, s.(phase := Word, buffer := s.buffer + InsideMeaning(inner)))
    decreases |inner|
  {
    hide Run;
    if inner == [] {
      QuoteEnds(escape, rest, s);
      assert s.buffer + "" == s.buffer;
    } else {
      var after := InsideText(escape, inner[1..], [s.quote] + rest);
      var c := inner[0].c;
      QuoteReads(escape, inner[0], after, s);
      ReadInside(escape, inner[1..], rest, Push(s, c));
      assert (s.buffer + [c]) + InsideMeaning(inner[1..]) == s.buffer + InsideMeaning(inner);
    }
  }

  /** The registers after one piece of a word. */
  ghost function AfterPiece(s: Scan, p: Piece): Scan {
    match p
    case Quoted(q, inner) => s.(quote := q, blankOk := true, buffer := s.buffer + InsideMeaning(inner))
    case _ => Push(s, p.c)
  }

  ghost function AfterPieces(s: Scan, ps: seq<Piece>): Scan
    decreases |ps|
  {
    if ps == [] then s else AfterPieces(AfterPiece(s, ps[0]), ps[1..])
  }

  lemma AfterPieceIs(s: Scan, p: Piece)
    ensures AfterPiece(s, p).words == s.words && AfterPiece(s, p).phase == s.phase
    ensures AfterPiece(s, p).buffer == s.buffer + PieceMeaning(p)
  {
  }

  lemma {:induction false} AfterPiecesIs(s: Scan, ps: seq<Piece>)
    ensures AfterPieces(s, ps).words == s.words && AfterPieces(s, ps).phase == s.phase
    ensures AfterPieces(s, ps).buffer == s.buffer + PiecesMeaning(ps)
    decreases |ps|
  {
    hide AfterPiece, PieceMeaning;
    if ps == [] {
      assert s.buffer + "" == s.buffer;
    } else {
      AfterPieceIs(s, ps[0]);
      AfterPiecesIs(AfterPiece(s, ps[0]), ps[1..]);
      AppendAssociative(s.buffer, PieceMeaning(ps[0]), PiecesMeaning(ps[1..]));
    }
  }

  lemma {:induction false} ReadPieces(escape: char, ps: seq<Piece>, rest: string, s: Scan)
    requires s.phase == Word && !IsQuote(escape) && !IsBuildkitSpace(escape)
    requires forall j :: 0 <= j < |ps| ==> Written(escape, ps[j])
    ensures Run(escape, PiecesText(escape, ps, rest), s) == Run(escape, rest, AfterPieces(s, ps))
    decreases |ps|
  {
    if ps != [] {
      var after := PiecesText(escape, ps[1..], rest);
      match ps[0] {
        case Bare(c) =>
          assert ([c] + after)[1..] == after;
          ReadPieces(escape, ps[1..], rest, Push(s, c));
        case Escaped(c) =>
          assert ([escape] + ([c] + after))[1] == c && ([escape] + ([c] + after))[2..] == after;
          ReadPieces(escape, ps[1..], rest, Push(s, c));
        case Quoted(q, inner) =>
          var t := s.(quote := q, blankOk := true, phase := Quote);
          var inside := InsideText(escape, inner, [q] + after);
          assert ([q] + inside)[1..] == inside;
          ReadInside(escape, inner, after, t);
          ReadPieces(escape, ps[1..], rest, AfterPiece(s, ps[0]));
      }
    }
  }

  /** A printed flag is read into the buffer, up to what follows it. */
  lemma ReadFlag(escape: char, f: Flag, rest: string, s: Scan) returns (t: Scan)
    requires s.phase == Spaces && s.buffer == "" && !IsQuote(escape) && !IsBuildkitSpace(escape) && escape != '-'
    requires AllSpace(f.gap) && forall j :: 0 <= j < |f.pieces| ==> Written(escape, f.pieces[j])
    ensures Run(escape, FlagText(escape, f, rest), s) == Run(escape, rest, t)
    ensures t.words == s.words && t.phase == Word && t.buffer == Meaning(f)
  {
    var body := PiecesText(escape, f.pieces, rest);
    SkipGap(escape, f.gap, "--" + body, s);
    var w := s.(phase := Word);
    assert ("--" + body)[1..] == "-" + body && ("-" + body)[1..] == body;
    var w2 := w.(buffer := "--");
    assert Push(Push(w, '-'), '-') == w2;
    assert Run(escape, "--" + body, s) == Run(escape, "--" + body, w);
    assert Run(escape, "--" + body, w) == Run(escape, "-" + body, Push(w, '-'));
    assert Run(escape, "-" + body, Push(w, '-')) == Run(escape, body, w2);
    ReadPieces(escape, f.pieces, rest, w2);
    AfterPiecesIs(w2, f.pieces);
    t := AfterPieces(w2, f.pieces);
  }

  /** Between words: nothing buffered. */
  ghost predicate Between(s: Scan) {
    s.phase == Spaces && s.buffer == "" && !s.blankOk
  }

  ghost predicate EndsWord(rest: string) {
    rest == "" || IsBuildkitSpace(rest[0])
  }

  ghost predicate EscapeAllowed(escape: char) {
    escape == '\\' || escape == '`'
  }

  /** Reading printed flags, one after another, up to a blank or the end of the text. */
  lemma {:induction false} ReadFlags(escape: char, fs: seq<Flag>, rest: string, s: Scan) returns (t: Scan)
    requires EscapeAllowed(escape) && Between(s) && Layout(escape, fs) && (fs == [] || EndsWord(rest))
    ensures Between(t) && t.words == s.words + Meanings(fs)
    ensures Run(escape, FlagsText(escape, fs, rest), s) == Run(escape, rest, t)
    decreases |fs|
  {
    hide Run, Meaning, FlagText;
    if fs == [] {
      t := s;
      assert s.words + [] == s.words;
    } else {
      var after := FlagsText(escape, fs[1..], rest);
      var u := ReadFlag(escape, fs[0], after, s);
      assert Layout(escape, fs[1..]);
      NextEndsWord(escape, fs[1..], rest);
      MeaningNotEmpty(fs[0]);
      EndWordEarly(escape, after, u);
      t := ReadFlags(escape, fs[1..], rest, EndWord(u));
      AppendAssociative(s.words, [Meaning(fs[0])], Meanings(fs[1..]));
    }
  }

  lemma MeaningNotEmpty(f: Flag)
    ensures Meaning(f) != ""
  {
  }

  lemma NextEndsWord(escape: char, fs: seq<Flag>, rest: string)
    requires EndsWord(rest) && forall i :: 0 <= i < |fs| ==> fs[i].gap != "" && AllSpace(fs[i].gap)
    ensures EndsWord(FlagsText(escape, fs, rest))
  {
  }

  /** A word before a blank, or at the end, may be closed before the blank is read. */
  lemma EndWordEarly(escape: char, rest: string, u: Scan)
    requires u.phase == Word && u.buffer != "" && u.buffer != "--" && EndsWord(rest)
    ensures Run(escape, rest, u) == Run(escape, rest, EndWord(u))
  {
  }

  /**
    * Round trip: however flags are quoted, escaped and spaced out, the scanner
    * returns exactly their meanings and the remainder.
    */
  lemma BuilderFlagsRoundTrip(escape: char, fs: seq<Flag>, gap: string, remainder: string)
    requires EscapeAllowed(escape) && Layout(escape, fs) && AllSpace(gap) && Stops(remainder)
    requires fs != [] ==> gap != "" || remainder == ""
    ensures Run(escape, FlagsText(escape, fs, gap + remainder), START) == Flags(Meanings(fs), remainder)
  {
    var t := ReadFlags(escape, fs, gap + remainder, START);
    SkipGap(escape, gap, remainder, t);
    assert START.words + Meanings(fs) == Meanings(fs);
  }

  /** A flag that means just "--" ends the scan: it is dropped, and the text after it is left as it is. */
  lemma DoubleDashEnds(escape: char, fs: seq<Flag>, end: Flag, rest: string)
    requires EscapeAllowed(escape) && Layout(escape, fs) && EndsWord(rest)
    requires Meaning(end) == "--" && AllSpace(end.gap) && (fs != [] ==> end.gap != "")
    requires forall j :: 0 <= j < |end.pieces| ==> Written(escape, end.pieces[j])
    ensures Run(escape, FlagsText(escape, fs, FlagText(escape, end, rest)), START) == Flags(Meanings(fs), rest)
  {
    var t := ReadFlags(escape, fs, FlagText(escape, end, rest), START);
    var u := ReadFlag(escape, end, rest, t);
    assert START.words + Meanings(fs) == Meanings(fs);
  }
}
