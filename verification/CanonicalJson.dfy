/**
  * Canonical JSON text: json.dumps with sorted keys and minimal separators,
  * over the values the audit records are made of. Objects keep their
  * insertion order, as Python dictionaries do. A number is its lexeme: the
  * shortest round-trip text Python prints for it. The text follows the JSON
  * grammar of sections 2 to 7 of RFC 8259.
  */
module CanonicalJson {
  import opened Basics

  datatype Json =
    | Null
    | Bool(b: bool)
    | Num(lexeme: string)
    | Str(text: string)
    | Arr(items: seq<Json>)
    | Obj(members: seq<Member>)

  datatype Member = Member(key: string, value: Json)

  predicate IsNumChar(c: char) {
    '0' <= c <= '9' || c == '-' || c == '+' || c == '.' || c == 'e' || c == 'E'
  }

  ghost predicate DistinctKeys(ms: seq<Member>) {
    forall i, j :: 0 <= i < j < |ms| ==> ms[i].key != ms[j].key
  }

  /** Values Python can hold: number lexemes are numbers, dictionary keys are distinct. */
  ghost predicate WellFormed(v: Json) {
    match v
    case Num(x) => IsNumber(x)
    case Arr(xs) => forall i :: 0 <= i < |xs| ==> WellFormed(xs[i])
    case Obj(ms) => DistinctKeys(ms) && forall i :: 0 <= i < |ms| ==> WellFormed(ms[i].value)
    case _ => true
  }

  // ----- String escapes -----

  function HexDigit(n: nat): (c: char)
    requires n < 16
  {
    if n < 10 then ('0' as int + n) as char else ('a' as int + (n - 10)) as char
  }

  function Hex4(n: nat): (s: string)
    requires n < 0x10000
  {
    [HexDigit(n / 0x1000), HexDigit(n / 0x100 % 16), HexDigit(n / 16 % 16), HexDigit(n % 16)]
  }

  function UnicodeEscape(n: nat): (s: string)
    requires n < 0x10000
    ensures |s| == 6
  {
    "\\u" + Hex4(n)
  }

  /** The letter of a two-character escape, for the seven characters that have one. */
  function ShortEscape(c: char): (letter: Option<char>) {
    if c == '\"' then Some('\"')
    else if c == '\\' then Some('\\')
    else if c == '\n' then Some('n')
    else if c == '\r' then Some('r')
    else if c == '\t' then Some('t')
    else if c as int == 8 then Some('b')
    else if c as int == 12 then Some('f')
    else None
  }

  /** One character inside a JSON string; `ascii` is json.dumps' ensure_ascii. */
  function EscapeChar(c: char, ascii: bool): (s: string) {
    if ShortEscape(c).Some? then ['\\', ShortEscape(c).value]
    else if c as int < 0x20 then UnicodeEscape(c as int)
    else if !ascii || c as int < 0x7F then [c]
    else if c as int < 0x10000 then UnicodeEscape(c as int)
    else
      UnicodeEscape(0xD800 + (c as int - 0x10000) / 0x400)
      + UnicodeEscape(0xDC00 + (c as int - 0x10000) % 0x400)
  }

  // ----- Serialisation -----
  //
  // Every printer takes the text that follows, so that texts grow at their
  // front only and can be read back from the front.

  /** The characters of s, escaped, the closing quote, then rest. */
  function Escaped(s: string, ascii: bool, rest: string): (text: string)
    ensures |text| > |rest|
  {
    if s == "" then "\"" + rest else EscapeChar(s[0], ascii) + Escaped(s[1..], ascii, rest)
  }

  function Quoted(s: string, ascii: bool, rest: string): (text: string)
    ensures |text| > |rest|
  {
    "\"" + Escaped(s, ascii, rest)
  }

  /** json.dumps with separators (",", ":") and members in stored order, then rest. */
  function Print(v: Json, ascii: bool, rest: string): string {
    match v
    case Null => "null" + rest
    case Bool(b) => (if b then "true" else "false") + rest
    case Num(x) => x + rest
    case Str(s) => Quoted(s, ascii, rest)
    case Arr(xs) =>
      if xs == [] then "[" + ("]" + rest) else "[" + Print(xs[0], ascii, PrintItems(xs, 1, ascii, rest))
    case Obj(ms) =>
      if ms == [] then "{" + ("}" + rest) else "{" + PrintMember(ms[0], ascii, PrintMembers(ms, 1, ascii, rest))
  }

  function PrintMember(m: Member, ascii: bool, rest: string): string {
    Quoted(m.key, ascii, ":" + Print(m.value, ascii, rest))
  }

  /** What follows the first k items of an array. */
  function PrintItems(xs: seq<Json>, k: nat, ascii: bool, rest: string): string
    requires k <= |xs|
    decreases xs, |xs| - k
  {
    if k == |xs| then "]" + rest else "," + Print(xs[k], ascii, PrintItems(xs, k + 1, ascii, rest))
  }

  /** What follows the first k members of an object. */
  function PrintMembers(ms: seq<Member>, k: nat, ascii: bool, rest: string): string
    requires k <= |ms|
    decreases ms, |ms| - k
  {
    if k == |ms| then "}" + rest else "," + PrintMember(ms[k], ascii, PrintMembers(ms, k + 1, ascii, rest))
  }

  function Dump(v: Json, ascii: bool): string {
    Print(v, ascii, "")
  }

  // ----- The text determines the value -----

  lemma SameHead(c: char, d: char, x: string, y: string)
    requires [c] + x == [d] + y
    ensures c == d && x == y
  {
    assert ([c] + x)[0] == c && ([d] + y)[0] == d;
    assert ([c] + x)[1..] == x && ([d] + y)[1..] == y;
  }

  lemma SamePrefix(a: string, b: string, x: string, y: string)
    requires |a| == |b| && a + x == b + y
    ensures a == b && x == y
  {
    assert a == (a + x)[..|a|] && b == (b + y)[..|a|];
    assert x == (a + x)[|a|..] && y == (b + y)[|a|..];
  }

  lemma HexDigitInjective(m: nat, n: nat)
    requires m < 16 && n < 16 && HexDigit(m) == HexDigit(n)
    ensures m == n
  {
  }

  lemma UnicodeEscapeInjective(m: nat, n: nat)
    requires m < 0x10000 && n < 0x10000
    requires UnicodeEscape(m) == UnicodeEscape(n)
    ensures m == n
  {
    SamePrefix("\\u", "\\u", Hex4(m), Hex4(n));
    var a, b := Hex4(m), Hex4(n);
    assert a[0] == b[0] && a[1] == b[1] && a[2] == b[2] && a[3] == b[3];
    HexDigitInjective(m / 0x1000, n / 0x1000);
    HexDigitInjective(m / 0x100 % 16, n / 0x100 % 16);
    HexDigitInjective(m / 16 % 16, n / 16 % 16);
    HexDigitInjective(m % 16, n % 16);
    FourDigits(m);
    FourDigits(n);
  }

  lemma FourDigits(n: nat)
    ensures n / 0x100 == n / 0x1000 * 16 + n / 0x100 % 16
    ensures n / 16 == n / 0x100 * 16 + n / 16 % 16
    ensures n == n / 16 * 16 + n % 16
  {
    assert n / 0x1000 == n / 0x100 / 16;
    assert n / 0x100 == n / 16 / 16;
  }

  /** The code unit in the first \\uXXXX of an escape that has one. */
  ghost predicate LongEscape(c: char, ascii: bool) {
    ShortEscape(c).None? && (c as int < 0x20 || (ascii && c as int >= 0x7F))
  }

  ghost function FirstUnit(c: char): (n: nat)
    ensures n < 0x10000
    ensures c as int < 0x10000 ==> !(0xD800 <= n < 0xDC00)
    ensures c as int >= 0x10000 ==> 0xD800 <= n < 0xDC00
  {
    if c as int < 0x10000 then c as int else 0xD800 + (c as int - 0x10000) / 0x400
  }

  ghost function SecondUnits(c: char): (s: string) {
    if c as int < 0x10000 then "" else UnicodeEscape(0xDC00 + (c as int - 0x10000) % 0x400)
  }

  lemma LongEscapeShape(c: char, ascii: bool)
    requires LongEscape(c, ascii)
    ensures EscapeChar(c, ascii) == UnicodeEscape(FirstUnit(c)) + SecondUnits(c)
  {
  }

  /** The three forms of an escape, told apart by their first two characters. */
  lemma EscapeForms(c: char, ascii: bool)
    ensures ShortEscape(c).Some? ==> EscapeChar(c, ascii) == ['\\', ShortEscape(c).value] && ShortEscape(c).value != 'u'
    ensures LongEscape(c, ascii) ==> |EscapeChar(c, ascii)| >= 6 && EscapeChar(c, ascii)[..2] == "\\u"
    ensures ShortEscape(c).None? && !LongEscape(c, ascii) ==> EscapeChar(c, ascii) == [c] && c != '\\'
    ensures EscapeChar(c, ascii) != "" && EscapeChar(c, ascii)[0] != '\"'
  {
    if LongEscape(c, ascii) { LongEscapeShape(c, ascii); }
  }

  lemma SameLongEscape(c: char, d: char, x: string, y: string, ascii: bool)
    requires LongEscape(c, ascii) && LongEscape(d, ascii)
    requires EscapeChar(c, ascii) + x == EscapeChar(d, ascii) + y
    ensures c == d && x == y
  {
    LongEscapeShape(c, ascii);
    LongEscapeShape(d, ascii);
    hide EscapeChar, UnicodeEscape, LongEscape, SecondUnits, FirstUnit;
    var m, n := FirstUnit(c), FirstUnit(d);
    Opened(UnicodeEscape(m), SecondUnits(c), x);
    Opened(UnicodeEscape(n), SecondUnits(d), y);
    SamePrefix(UnicodeEscape(m), UnicodeEscape(n), SecondUnits(c) + x, SecondUnits(d) + y);
    UnicodeEscapeInjective(m, n);
    UnitsSameLength(c, d);
    SamePrefix(SecondUnits(c), SecondUnits(d), x, y);
    UnitsDetermine(c, d);
  }

  lemma UnitsSameLength(c: char, d: char)
    requires FirstUnit(c) == FirstUnit(d)
    ensures |SecondUnits(c)| == |SecondUnits(d)|
  {
  }

  /** The one or two code units determine the character. */
  lemma UnitsDetermine(c: char, d: char)
    requires FirstUnit(c) == FirstUnit(d) && SecondUnits(c) == SecondUnits(d)
    ensures c == d
  {
    hide UnicodeEscape;
    if c as int >= 0x10000 {
      UnicodeEscapeInjective(0xDC00 + (c as int - 0x10000) % 0x400, 0xDC00 + (d as int - 0x10000) % 0x400);
    }
  }

  /** Escapes form a prefix code. */
  lemma EscapeCharPrefix(c: char, d: char, x: string, y: string, ascii: bool)
    requires EscapeChar(c, ascii) + x == EscapeChar(d, ascii) + y
    ensures c == d && x == y
  {
    EscapeForms(c, ascii);
    EscapeForms(d, ascii);
    var whole := EscapeChar(c, ascii) + x;
    if LongEscape(c, ascii) && LongEscape(d, ascii) {
      SameLongEscape(c, d, x, y, ascii);
    } else {
      assert whole[0] == EscapeChar(c, ascii)[0] == EscapeChar(d, ascii)[0];
      if whole[0] == '\\' {
        assert whole[1] == EscapeChar(c, ascii)[1] == EscapeChar(d, ascii)[1];
        assert EscapeChar(c, ascii)[..2] == [whole[0], whole[1]] == EscapeChar(d, ascii)[..2];
      }
      SamePrefix(EscapeChar(c, ascii), EscapeChar(d, ascii), x, y);
    }
  }

  /** A quoted string ends at its own closing quote. */
  lemma {:induction false} EscapedPrefix(s: string, t: string, x: string, y: string, ascii: bool)
    requires Escaped(s, ascii, x) == Escaped(t, ascii, y)
    ensures s == t && x == y
    decreases |s|
  {
    if s != "" { EscapeForms(s[0], ascii); }
    if t != "" { EscapeForms(t[0], ascii); }
    assert Escaped(s, ascii, x)[0] == Escaped(t, ascii, y)[0];
    if s == "" {
      SameHead('\"', '\"', x, y);
    } else {
      EscapeCharPrefix(s[0], t[0], Escaped(s[1..], ascii, x), Escaped(t[1..], ascii, y), ascii);
      EscapedPrefix(s[1..], t[1..], x, y, ascii);
      assert s == [s[0]] + s[1..] && t == [t[0]] + t[1..];
    }
  }

  lemma QuotedPrefix(s: string, t: string, x: string, y: string, ascii: bool)
    requires Quoted(s, ascii, x) == Quoted(t, ascii, y)
    ensures s == t && x == y
  {
    SameHead('\"', '\"', Escaped(s, ascii, x), Escaped(t, ascii, y));
    EscapedPrefix(s, t, x, y, ascii);
  }

  /** Text that may follow a number: nothing, or a character no number contains. */
  predicate EndsNumber(rest: string) {
    rest == "" || !IsNumChar(rest[0])
  }

  ghost predicate IsNumber(x: string) {
    x != "" && forall i :: 0 <= i < |x| ==> IsNumChar(x[i])
  }

  lemma NumberPrefix(a: string, b: string, x: string, y: string)
    requires IsNumber(a) && IsNumber(b)
    requires EndsNumber(x) && EndsNumber(y) && a + x == b + y
    ensures a == b && x == y
  {
    var k := if |a| < |b| then |a| else |b|;
    assert k < |a + x| ==> (a + x)[k] == (b + y)[k];
    assert |a| == |b|;
    SamePrefix(a, b, x, y);
  }

  /** The first character of a value's text. */
  function Lead(v: Json): char
    requires WellFormed(v)
  {
    match v
    case Null => 'n'
    case Bool(b) => if b then 't' else 'f'
    case Num(x) => x[0]
    case Str(_) => '\"'
    case Arr(_) => '['
    case Obj(_) => '{'
  }

  lemma PrintLead(v: Json, ascii: bool, rest: string)
    requires WellFormed(v)
    ensures Print(v, ascii, rest) != "" && Print(v, ascii, rest)[0] == Lead(v)
  {
  }

  ghost predicate Follows(v: Json, rest: string) {
    v.Num? ==> EndsNumber(rest)
  }

  /**
    * Unique readability: a value's text, followed by anything that does not
    * continue a number, can be read back in one way only.
    */
  lemma {:induction false} PrintPrefix(v: Json, w: Json, x: string, y: string, ascii: bool)
    requires WellFormed(v) && WellFormed(w) && Follows(v, x) && Follows(w, y)
    requires Print(v, ascii, x) == Print(w, ascii, y)
    ensures v == w && x == y
    decreases v, 0, 0
  {
    PrintLead(v, ascii, x);
    PrintLead(w, ascii, y);
    match v {
      case Null => SamePrefix("null", "null", x, y);
      case Bool(b) =>
        var word := if b then "true" else "false";
        SamePrefix(word, word, x, y);
      case Num(a) => NumberPrefix(a, w.lexeme, x, y);
      case Str(s) => QuotedPrefix(s, w.text, x, y, ascii);
      case Arr(xs) => ArrayPrefix(xs, w.items, x, y, ascii);
      case Obj(ms) => ObjectPrefix(ms, w.members, x, y, ascii);
    }
  }

  lemma {:induction false} ArrayPrefix(xs: seq<Json>, ys: seq<Json>, x: string, y: string, ascii: bool)
    requires WellFormed(Arr(xs)) && WellFormed(Arr(ys))
    requires Print(Arr(xs), ascii, x) == Print(Arr(ys), ascii, y)
    ensures xs == ys && x == y
    decreases xs, |xs|, 2
  {
    var a := if xs == [] then "]" + x else Print(xs[0], ascii, PrintItems(xs, 1, ascii, x));
    var b := if ys == [] then "]" + y else Print(ys[0], ascii, PrintItems(ys, 1, ascii, y));
    SameHead('[', '[', a, b);
    if xs != [] { PrintLead(xs[0], ascii, PrintItems(xs, 1, ascii, x)); }
    if ys != [] { PrintLead(ys[0], ascii, PrintItems(ys, 1, ascii, y)); }
    assert a[0] == b[0];
    if xs == [] {
      SameHead(']', ']', x, y);
    } else {
      PrintPrefix(xs[0], ys[0], PrintItems(xs, 1, ascii, x), PrintItems(ys, 1, ascii, y), ascii);
      ItemsPrefix(xs, ys, 1, x, y, ascii);
      assert xs == xs[..1] + xs[1..] && ys == ys[..1] + ys[1..];
    }
  }

  lemma {:induction false} ItemsPrefix(xs: seq<Json>, ys: seq<Json>, k: nat, x: string, y: string, ascii: bool)
    requires k <= |xs| && k <= |ys|
    requires WellFormed(Arr(xs)) && WellFormed(Arr(ys))
    requires PrintItems(xs, k, ascii, x) == PrintItems(ys, k, ascii, y)
    ensures xs[k..] == ys[k..] && x == y
    decreases xs, |xs| - k, 1
  {
    assert PrintItems(xs, k, ascii, x)[0] == PrintItems(ys, k, ascii, y)[0];
    if k == |xs| {
      SameHead(']', ']', x, y);
    } else {
      var a, b := PrintItems(xs, k + 1, ascii, x), PrintItems(ys, k + 1, ascii, y);
      SameHead(',', ',', Print(xs[k], ascii, a), Print(ys[k], ascii, b));
      PrintPrefix(xs[k], ys[k], a, b, ascii);
      ItemsPrefix(xs, ys, k + 1, x, y, ascii);
      assert xs[k..] == [xs[k]] + xs[k + 1..] && ys[k..] == [ys[k]] + ys[k + 1..];
    }
  }

  lemma {:induction false} ObjectPrefix(ms: seq<Member>, ns: seq<Member>, x: string, y: string, ascii: bool)
    requires WellFormed(Obj(ms)) && WellFormed(Obj(ns))
    requires Print(Obj(ms), ascii, x) == Print(Obj(ns), ascii, y)
    ensures ms == ns && x == y
    decreases ms, |ms|, 2
  {
    var a := if ms == [] then "}" + x else PrintMember(ms[0], ascii, PrintMembers(ms, 1, ascii, x));
    var b := if ns == [] then "}" + y else PrintMember(ns[0], ascii, PrintMembers(ns, 1, ascii, y));
    SameHead('{', '{', a, b);
    assert a[0] == b[0];
    if ms == [] {
      SameHead('}', '}', x, y);
    } else {
      MemberPrefix(ms[0], ns[0], PrintMembers(ms, 1, ascii, x), PrintMembers(ns, 1, ascii, y), ascii);
      MembersPrefix(ms, ns, 1, x, y, ascii);
      assert ms == ms[..1] + ms[1..] && ns == ns[..1] + ns[1..];
    }
  }

  lemma {:induction false} MemberPrefix(m: Member, n: Member, x: string, y: string, ascii: bool)
    requires WellFormed(m.value) && WellFormed(n.value) && EndsNumber(x) && EndsNumber(y)
    requires PrintMember(m, ascii, x) == PrintMember(n, ascii, y)
    ensures m == n && x == y
    decreases m, 0, 1
  {
    var a, b := Print(m.value, ascii, x), Print(n.value, ascii, y);
    QuotedPrefix(m.key, n.key, ":" + a, ":" + b, ascii);
    SameHead(':', ':', a, b);
    PrintPrefix(m.value, n.value, x, y, ascii);
  }

  lemma {:induction false} MembersPrefix(ms: seq<Member>, ns: seq<Member>, k: nat, x: string, y: string, ascii: bool)
    requires k <= |ms| && k <= |ns|
    requires WellFormed(Obj(ms)) && WellFormed(Obj(ns))
    requires PrintMembers(ms, k, ascii, x) == PrintMembers(ns, k, ascii, y)
    ensures ms[k..] == ns[k..] && x == y
    decreases ms, |ms| - k, 1
  {
    assert PrintMembers(ms, k, ascii, x)[0] == PrintMembers(ns, k, ascii, y)[0];
    if k == |ms| {
      SameHead('}', '}', x, y);
    } else {
      var a, b := PrintMembers(ms, k + 1, ascii, x), PrintMembers(ns, k + 1, ascii, y);
      SameHead(',', ',', PrintMember(ms[k], ascii, a), PrintMember(ns[k], ascii, b));
      MemberPrefix(ms[k], ns[k], a, b, ascii);
      MembersPrefix(ms, ns, k + 1, x, y, ascii);
      assert ms[k..] == [ms[k]] + ms[k + 1..] && ns[k..] == [ns[k]] + ns[k + 1..];
    }
  }

  // ----- Sorting keys -----

  /** Python's order on strings: by code point, a proper prefix first. */
  predicate Before(a: string, b: string) {
    if b == "" then false
    else if a == "" then true
    else a[0] < b[0] || (a[0] == b[0] && Before(a[1..], b[1..]))
  }

  lemma {:induction false} BeforeIrreflexive(a: string)
    ensures !Before(a, a)
  {
    if a != "" { BeforeIrreflexive(a[1..]); }
  }

  lemma {:induction false} BeforeTotal(a: string, b: string)
    ensures a == b || Before(a, b) || Before(b, a)
    ensures !(Before(a, b) && Before(b, a))
    decreases |a|
  {
    if a != "" && b != "" {
      BeforeTotal(a[1..], b[1..]);
      assert a == [a[0]] + a[1..] && b == [b[0]] + b[1..];
    }
  }

  lemma {:induction false} BeforeTransitive(a: string, b: string, c: string)
    requires Before(a, b) && Before(b, c)
    ensures Before(a, c)
    decreases |a|
  {
    if a != "" && a[0] == b[0] == c[0] { BeforeTransitive(a[1..], b[1..], c[1..]); }
  }

  ghost predicate Sorted(ms: seq<Member>) {
    forall i, j :: 0 <= i < j < |ms| ==> Before(ms[i].key, ms[j].key)
  }

  function Insert(m: Member, ms: seq<Member>): (r: seq<Member>)
    ensures |r| == |ms| + 1
    ensures multiset(r) == multiset(ms) + multiset{m}
  {
    if ms == [] then [m]
    else if Before(m.key, ms[0].key) then [m] + ms
    else
      assert ms == [ms[0]] + ms[1..];
      [ms[0]] + Insert(m, ms[1..])
  }

  function Sort(ms: seq<Member>): (r: seq<Member>)
    ensures |r| == |ms|
    ensures multiset(r) == multiset(ms)
  {
    if ms == [] then []
    else
      assert ms == [ms[0]] + ms[1..];
      Insert(ms[0], Sort(ms[1..]))
  }

  /** audit_log's normalize: every object's members in key order, at every depth. */
  function Normalize(v: Json): Json {
    match v
    case Arr(xs) => Arr(seq(|xs|, i requires 0 <= i < |xs| => Normalize(xs[i])))
    case Obj(ms) => Obj(Sort(seq(|ms|, i requires 0 <= i < |ms| => Member(ms[i].key, Normalize(ms[i].value)))))
    case _ => v
  }

  /** The canonical text of a value: its normal form, printed. */
  function Canonical(v: Json, ascii: bool): string {
    Dump(Normalize(v), ascii)
  }

  /** Equal as Python values: the same keys and values at every depth, in any insertion order. */
  ghost predicate Same(v: Json, w: Json)
    decreases v
  {
    match v
    case Arr(xs) => w.Arr? && |xs| == |w.items| && forall i :: 0 <= i < |xs| ==> Same(xs[i], w.items[i])
    case Obj(ms) =>
      w.Obj? && |ms| == |w.members| && forall i :: 0 <= i < |ms| ==> HasSame(ms[i], w.members)
    case _ => v == w
  }

  ghost predicate HasSame(m: Member, ns: seq<Member>)
    decreases m
  {
    exists j :: 0 <= j < |ns| && ns[j].key == m.key && Same(m.value, ns[j].value)
  }

  lemma {:induction false} InsertSorts(m: Member, ms: seq<Member>)
    requires Sorted(ms) && forall i :: 0 <= i < |ms| ==> ms[i].key != m.key
    ensures Sorted(Insert(m, ms))
  {
    if ms != [] {
      BeforeTotal(m.key, ms[0].key);
      if Before(m.key, ms[0].key) {
        forall j | 0 < j < |ms| ensures Before(m.key, ms[j].key) {
          BeforeTransitive(m.key, ms[0].key, ms[j].key);
        }
      } else {
        InsertSorts(m, ms[1..]);
        var r := Insert(m, ms[1..]);
        forall j | 0 <= j < |r| ensures Before(ms[0].key, r[j].key) {
          assert r[j] in multiset(r);
          assert r[j] == m || r[j] in ms[1..];
        }
      }
    }
  }

  lemma {:induction false} SortSorts(ms: seq<Member>)
    requires DistinctKeys(ms)
    ensures Sorted(Sort(ms))
  {
    if ms != [] {
      SortSorts(ms[1..]);
      var r := Sort(ms[1..]);
      forall i | 0 <= i < |r| ensures r[i].key != ms[0].key {
        assert r[i] in multiset(r);
        assert r[i] in ms[1..];
      }
      InsertSorts(ms[0], r);
    }
  }

  lemma SortedDistinct(ms: seq<Member>)
    requires Sorted(ms)
    ensures DistinctKeys(ms)
  {
    forall i, j | 0 <= i < j < |ms| ensures ms[i].key != ms[j].key {
      BeforeIrreflexive(ms[i].key);
    }
  }

  /** A set of members has one sorted listing. */
  lemma {:induction false} SortedUnique(ms: seq<Member>, ns: seq<Member>)
    requires Sorted(ms) && Sorted(ns)
    requires forall m :: m in ms <==> m in ns
    ensures ms == ns
  {
    assert ms != [] ==> ms[0] in ns;
    assert ns != [] ==> ns[0] in ms;
    if ms != [] {
      BeforeTotal(ms[0].key, ns[0].key);
      assert ms[0] == ns[0];
      SortedDistinct(ms);
      SortedDistinct(ns);
      forall m ensures m in ms[1..] <==> m in ns[1..] {
        assert m in ms <==> m == ms[0] || m in ms[1..];
        assert m in ns <==> m == ns[0] || m in ns[1..];
      }
      SortedUnique(ms[1..], ns[1..]);
      assert ms == [ms[0]] + ms[1..] && ns == [ns[0]] + ns[1..];
    }
  }

  ghost function Elements(ms: seq<Member>): set<Member> {
    set m | m in ms
  }

  lemma {:induction false} DistinctCardinality(ms: seq<Member>)
    requires DistinctKeys(ms)
    ensures |Elements(ms)| == |ms|
  {
    if ms != [] {
      DistinctCardinality(ms[1..]);
      assert Elements(ms) == {ms[0]} + Elements(ms[1..]);
    }
  }

  lemma SubsetOfSameSize<T>(a: set<T>, b: set<T>)
    requires a <= b && |a| == |b|
    ensures a == b
  {
    assert |b - a| == |b| - |a|;
  }

  /** Two dictionaries with the same entries sort to the same listing. */
  lemma SortSame(ms: seq<Member>, ns: seq<Member>)
    requires DistinctKeys(ms) && DistinctKeys(ns)
    requires Elements(ms) == Elements(ns)
    ensures Sort(ms) == Sort(ns)
  {
    SortSorts(ms);
    SortSorts(ns);
    forall m ensures m in Sort(ms) <==> m in Sort(ns) {
      assert m in Sort(ms) <==> m in multiset(Sort(ms));
      assert m in Sort(ns) <==> m in multiset(Sort(ns));
      assert m in ms <==> m in Elements(ms);
      assert m in ns <==> m in Elements(ns);
    }
    SortedUnique(Sort(ms), Sort(ns));
  }

  ghost function NormalMembers(ms: seq<Member>): (r: seq<Member>)
    ensures |r| == |ms|
    ensures forall i :: 0 <= i < |ms| ==> r[i] == Member(ms[i].key, Normalize(ms[i].value))
  {
    seq(|ms|, i requires 0 <= i < |ms| => Member(ms[i].key, Normalize(ms[i].value)))
  }

  lemma NormalizeObject(ms: seq<Member>)
    ensures Normalize(Obj(ms)) == Obj(Sort(NormalMembers(ms)))
  {
    assert NormalMembers(ms) == seq(|ms|, i requires 0 <= i < |ms| => Member(ms[i].key, Normalize(ms[i].value)));
  }

  lemma {:induction false} NormalizeWellFormed(v: Json)
    requires WellFormed(v)
    ensures WellFormed(Normalize(v))
  {
    match v {
      case Arr(xs) =>
        forall i | 0 <= i < |xs| ensures WellFormed(Normalize(xs[i])) { NormalizeWellFormed(xs[i]); }
      case Obj(ms) =>
        forall i | 0 <= i < |ms| ensures WellFormed(Normalize(ms[i].value)) { NormalizeWellFormed(ms[i].value); }
        NormalizeObject(ms);
        var ns := NormalMembers(ms);
        var sorted := Sort(ns);
        SortSorts(ns);
        SortedDistinct(sorted);
        forall i | 0 <= i < |sorted| ensures WellFormed(sorted[i].value) {
          assert sorted[i] in multiset(sorted);
          assert sorted[i] in ns;
        }
      case _ =>
    }
  }

  lemma SameEntries(ms: seq<Member>, ns: seq<Member>)
    requires Sort(ms) == Sort(ns)
    ensures |ms| == |ns| && forall m :: m in ms ==> m in ns
  {
    forall m | m in ms ensures m in ns {
      assert m in multiset(ms);
      assert m in multiset(ns);
    }
  }

  lemma EntryAt(ms: seq<Member>, ns: seq<Member>, i: nat) returns (j: nat)
    requires i < |ms| && forall m :: m in NormalMembers(ms) ==> m in NormalMembers(ns)
    ensures j < |ns| && ns[j].key == ms[i].key && Normalize(ns[j].value) == Normalize(ms[i].value)
  {
    assert NormalMembers(ms)[i] in NormalMembers(ns);
    j :| 0 <= j < |ns| && NormalMembers(ns)[j] == NormalMembers(ms)[i];
  }

  lemma {:induction false} NormalEqualSame(v: Json, w: Json)
    requires WellFormed(v) && WellFormed(w) && Normalize(v) == Normalize(w)
    ensures Same(v, w)
    decreases v, 0
  {
    match v {
      case Arr(xs) => NormalEqualSameItems(xs, w.items);
      case Obj(ms) => NormalEqualSameMembers(ms, w.members);
      case _ =>
    }
  }

  lemma {:induction false} NormalEqualSameItems(xs: seq<Json>, ys: seq<Json>)
    requires WellFormed(Arr(xs)) && WellFormed(Arr(ys)) && Normalize(Arr(xs)) == Normalize(Arr(ys))
    ensures Same(Arr(xs), Arr(ys))
    decreases xs, 1
  {
    assert |Normalize(Arr(xs)).items| == |Normalize(Arr(ys)).items|;
    forall i | 0 <= i < |xs| ensures Same(xs[i], ys[i]) {
      assert Normalize(Arr(xs)).items[i] == Normalize(Arr(ys)).items[i];
      NormalEqualSame(xs[i], ys[i]);
    }
  }

  lemma {:induction false} NormalEqualSameMembers(ms: seq<Member>, ns: seq<Member>)
    requires WellFormed(Obj(ms)) && WellFormed(Obj(ns)) && Normalize(Obj(ms)) == Normalize(Obj(ns))
    ensures Same(Obj(ms), Obj(ns))
    decreases ms, 1
  {
    NormalizeObject(ms);
    NormalizeObject(ns);
    SameEntries(NormalMembers(ms), NormalMembers(ns));
    forall i | 0 <= i < |ms| ensures HasSame(ms[i], ns) {
      var j := EntryAt(ms, ns, i);
      NormalEqualSame(ms[i].value, ns[j].value);
    }
  }

  lemma {:induction false} SameNormalEqual(v: Json, w: Json)
    requires WellFormed(v) && WellFormed(w) && Same(v, w)
    ensures Normalize(v) == Normalize(w)
    decreases v
  {
    match v {
      case Arr(xs) =>
        forall i | 0 <= i < |xs| ensures Normalize(xs[i]) == Normalize(w.items[i]) {
          SameNormalEqual(xs[i], w.items[i]);
        }
      case Obj(ms) =>
        var ns := w.members;
        NormalizeObject(ms);
        NormalizeObject(ns);
        forall m | m in NormalMembers(ms) ensures m in NormalMembers(ns) {
          var i :| 0 <= i < |ms| && NormalMembers(ms)[i] == m;
          assert HasSame(ms[i], ns);
          var j :| 0 <= j < |ns| && ns[j].key == ms[i].key && Same(ms[i].value, ns[j].value);
          SameNormalEqual(ms[i].value, ns[j].value);
          assert NormalMembers(ns)[j] == m;
        }
        DistinctCardinality(NormalMembers(ms));
        DistinctCardinality(NormalMembers(ns));
        SubsetOfSameSize(Elements(NormalMembers(ms)), Elements(NormalMembers(ns)));
        SortSame(NormalMembers(ms), NormalMembers(ns));
      case _ =>
    }
  }

  /** Canonical texts are equal exactly when the values hold the same keys and values. */
  lemma CanonicalDeterminesValue(v: Json, w: Json, ascii: bool)
    requires WellFormed(v) && WellFormed(w)
    ensures Canonical(v, ascii) == Canonical(w, ascii) <==> Same(v, w)
  {
    NormalizeWellFormed(v);
    NormalizeWellFormed(w);
    if Canonical(v, ascii) == Canonical(w, ascii) {
      PrintPrefix(Normalize(v), Normalize(w), "", "", ascii);
      NormalEqualSame(v, w);
    }
    if Same(v, w) {
      SameNormalEqual(v, w);
    }
  }

  lemma {:induction false} NormalizeIdempotent(v: Json)
    requires WellFormed(v)
    ensures Normalize(Normalize(v)) == Normalize(v)
  {
    match v {
      case Arr(xs) =>
        forall i | 0 <= i < |xs| ensures Normalize(Normalize(xs[i])) == Normalize(xs[i]) { NormalizeIdempotent(xs[i]); }
      case Obj(ms) =>
        forall i | 0 <= i < |ms| ensures Normalize(Normalize(ms[i].value)) == Normalize(ms[i].value) {
          NormalizeIdempotent(ms[i].value);
        }
        NormalizeObject(ms);
        var sorted := Sort(NormalMembers(ms));
        SortSorts(NormalMembers(ms));
        forall i | 0 <= i < |sorted| ensures NormalMembers(sorted)[i] == sorted[i] {
          assert sorted[i] in multiset(sorted);
          assert sorted[i] in NormalMembers(ms);
        }
        assert NormalMembers(sorted) == sorted;
        NormalizeObject(sorted);
        SortedDistinct(sorted);
        SortSorts(sorted);
        forall m ensures m in Sort(sorted) <==> m in sorted {
          assert m in Sort(sorted) <==> m in multiset(Sort(sorted));
        }
        SortedUnique(Sort(sorted), sorted);
      case _ =>
    }
  }

  // ----- Reading and removing members -----

  function Get(ms: seq<Member>, key: string): (r: Option<Json>)
    ensures r.Some? ==> Member(key, r.value) in ms
    ensures r.None? ==> forall i :: 0 <= i < |ms| ==> ms[i].key != key
  {
    if ms == [] then None else if ms[0].key == key then Some(ms[0].value) else Get(ms[1..], key)
  }

  function Remove(ms: seq<Member>, key: string): (r: seq<Member>)
    ensures forall m :: m in r <==> m in ms && m.key != key
  {
    if ms == [] then []
    else
      assert ms == [ms[0]] + ms[1..];
      if ms[0].key == key then Remove(ms[1..], key) else [ms[0]] + Remove(ms[1..], key)
  }

  lemma GetIs(ms: seq<Member>, m: Member)
    requires DistinctKeys(ms) && m in ms
    ensures Get(ms, m.key) == Some(m.value)
  {
    var r := Get(ms, m.key);
    assert r.Some?;
    assert Member(m.key, r.value) in ms;
  }

  lemma {:induction false} GetNone(ms: seq<Member>, key: string)
    requires forall i :: 0 <= i < |ms| ==> ms[i].key != key
    ensures Get(ms, key) == None
  {
    if ms != [] { GetNone(ms[1..], key); }
  }

  lemma {:induction false} RemoveWellFormed(ms: seq<Member>, key: string)
    requires WellFormed(Obj(ms))
    ensures WellFormed(Obj(Remove(ms, key)))
  {
    var r := Remove(ms, key);
    RemoveDistinct(ms, key);
    forall i | 0 <= i < |r| ensures WellFormed(r[i].value) { assert r[i] in ms; }
  }

  lemma {:induction false} RemoveDistinct(ms: seq<Member>, key: string)
    requires DistinctKeys(ms)
    ensures DistinctKeys(Remove(ms, key))
  {
    if ms != [] {
      assert forall i :: 0 <= i < |ms[1..]| ==> ms[1..][i] == ms[i + 1];
      RemoveDistinct(ms[1..], key);
      var rest := Remove(ms[1..], key);
      forall j | 0 <= j < |rest| ensures rest[j].key != ms[0].key {
        assert rest[j] in ms[1..];
      }
    }
  }

  ghost function NormalMember(m: Member): Member {
    Member(m.key, Normalize(m.value))
  }

  lemma NormalMemberIn(ms: seq<Member>, m: Member)
    requires m in ms
    ensures NormalMember(m) in NormalMembers(ms)
  {
    var i :| 0 <= i < |ms| && ms[i] == m;
    assert NormalMembers(ms)[i] == NormalMember(m);
  }

  lemma NormalMemberOf(ms: seq<Member>, n: Member) returns (m: Member)
    requires n in NormalMembers(ms)
    ensures m in ms && NormalMember(m) == n
  {
    var i :| 0 <= i < |ms| && NormalMembers(ms)[i] == n;
    m := ms[i];
  }

  lemma InSort(ms: seq<Member>, m: Member)
    ensures m in Sort(ms) <==> m in ms
  {
    assert m in Sort(ms) <==> m in multiset(Sort(ms));
  }

  /** A member read back from the normal form is the normal form of the member. */
  lemma GetNormal(ms: seq<Member>, key: string)
    requires WellFormed(Obj(ms))
    ensures Get(Normalize(Obj(ms)).members, key) ==
            if Get(ms, key).Some? then Some(Normalize(Get(ms, key).value)) else None
  {
    NormalizeObject(ms);
    NormalizeWellFormed(Obj(ms));
    if Get(ms, key).Some? {
      GetNormalSome(ms, Member(key, Get(ms, key).value));
    } else {
      GetNormalNone(ms, key);
    }
  }

  lemma GetNormalSome(ms: seq<Member>, m: Member)
    requires m in ms && DistinctKeys(Sort(NormalMembers(ms)))
    ensures Get(Sort(NormalMembers(ms)), m.key) == Some(Normalize(m.value))
  {
    NormalMemberIn(ms, m);
    InSort(NormalMembers(ms), NormalMember(m));
    GetIs(Sort(NormalMembers(ms)), NormalMember(m));
  }

  lemma GetNormalNone(ms: seq<Member>, key: string)
    requires forall i :: 0 <= i < |ms| ==> ms[i].key != key
    ensures Get(Sort(NormalMembers(ms)), key) == None
  {
    var sorted := Sort(NormalMembers(ms));
    forall i | 0 <= i < |sorted| ensures sorted[i].key != key {
      InSort(NormalMembers(ms), sorted[i]);
      assert sorted[i] in sorted;
      var m := NormalMemberOf(ms, sorted[i]);
    }
    GetNone(sorted, key);
  }

  /** Removing a member before or after putting an object in normal form gives one canonical text. */
  lemma RemoveNormal(ms: seq<Member>, key: string)
    requires WellFormed(Obj(ms))
    ensures Normalize(Obj(Remove(Normalize(Obj(ms)).members, key))) == Normalize(Obj(Remove(ms, key)))
  {
    NormalizeObject(ms);
    NormalizeWellFormed(Obj(ms));
    var sorted := Sort(NormalMembers(ms));
    ObjectDistinct(ms);
    ObjectDistinct(sorted);
    hide WellFormed, Normalize, Sort, Remove, DistinctKeys;
    RemoveDistinct(ms, key);
    RemoveDistinct(sorted, key);
    var a, b := Remove(sorted, key), Remove(ms, key);
    NormalizeObject(a);
    NormalizeObject(b);
    NormalDistinct(a);
    NormalDistinct(b);
    forall m ensures m in NormalMembers(a) <==> m in NormalMembers(b) {
      NormalEntry(ms, key, m);
    }
    SortSame(NormalMembers(a), NormalMembers(b));
  }

  lemma ObjectDistinct(ms: seq<Member>)
    requires WellFormed(Obj(ms))
    ensures DistinctKeys(ms)
  {
  }

  lemma NormalDistinct(ms: seq<Member>)
    requires DistinctKeys(ms)
    ensures DistinctKeys(NormalMembers(ms))
  {
  }

  lemma NormalEntry(ms: seq<Member>, key: string, m: Member)
    requires WellFormed(Obj(ms))
    ensures m in NormalMembers(Remove(Sort(NormalMembers(ms)), key)) <==> m in NormalMembers(Remove(ms, key))
  {
    var sorted := Sort(NormalMembers(ms));
    var a, b := Remove(sorted, key), Remove(ms, key);
    if m in NormalMembers(a) {
      var x := NormalMemberOf(a, m);
      InSort(NormalMembers(ms), x);
      var y := NormalMemberOf(ms, x);
      NormalizeIdempotent(y.value);
      NormalMemberIn(b, y);
    }
    if m in NormalMembers(b) {
      var y := NormalMemberOf(b, m);
      NormalizeIdempotent(y.value);
      NormalMemberIn(ms, y);
      InSort(NormalMembers(ms), m);
      NormalMemberIn(a, m);
    }
  }

  /** Equal dictionaries agree on every member that is a string. */
  lemma SameString(ms: seq<Member>, ns: seq<Member>, key: string, s: string)
    requires WellFormed(Obj(ms)) && WellFormed(Obj(ns)) && Same(Obj(ms), Obj(ns))
    requires Get(ms, key) == Some(Str(s))
    ensures Get(ns, key) == Some(Str(s))
  {
    var i :| 0 <= i < |ms| && ms[i] == Member(key, Str(s));
    assert HasSame(ms[i], ns);
    var j :| 0 <= j < |ns| && ns[j].key == key && Same(ms[i].value, ns[j].value);
    GetIs(ns, ns[j]);
  }

  // ----- Texts on one line -----

  /** The characters str.splitlines breaks at, after newline translation. */
  predicate IsLineBreak(c: char) {
    0x0A <= c as int <= 0x0D || 0x1C <= c as int <= 0x1E
    || c as int == 0x85 || c as int == 0x2028 || c as int == 0x2029
  }

  ghost predicate OneLine(t: string) {
    forall i :: 0 <= i < |t| ==> !IsLineBreak(t[i])
  }

  /** No string at any depth holds U+0085, U+2028 or U+2029. */
  ghost predicate BreakFree(v: Json) {
    match v
    case Str(s) => BreakFreeText(s)
    case Arr(xs) => forall i :: 0 <= i < |xs| ==> BreakFree(xs[i])
    case Obj(ms) => forall i :: 0 <= i < |ms| ==> BreakFreeMember(ms[i])
    case _ => true
  }

  ghost predicate BreakFreeMember(m: Member) {
    BreakFreeText(m.key) && BreakFree(m.value)
  }

  ghost predicate BreakFreeText(s: string) {
    forall i :: 0 <= i < |s| ==> s[i] as int != 0x85 && s[i] as int != 0x2028 && s[i] as int != 0x2029
  }

  lemma OneLineAppend(a: string, b: string)
    ensures OneLine(a + b) <==> OneLine(a) && OneLine(b)
  {
    if OneLine(a + b) {
      forall i | 0 <= i < |a| ensures !IsLineBreak(a[i]) { assert (a + b)[i] == a[i]; }
      forall i | 0 <= i < |b| ensures !IsLineBreak(b[i]) { assert (a + b)[|a| + i] == b[i]; }
    }
  }

  lemma UnicodeEscapeOneLine(n: nat)
    requires n < 0x10000
    ensures OneLine(UnicodeEscape(n))
  {
    OneLineAppend("\\u", Hex4(n));
  }

  lemma EscapeCharOneLine(c: char, ascii: bool)
    ensures OneLine(EscapeChar(c, ascii)) <==> ascii || BreakFreeText([c])
  {
    EscapeForms(c, ascii);
    if LongEscape(c, ascii) {
      LongEscapeShape(c, ascii);
      OneLineAppend(UnicodeEscape(FirstUnit(c)), SecondUnits(c));
      UnicodeEscapeOneLine(FirstUnit(c));
      if c as int >= 0x10000 { UnicodeEscapeOneLine(0xDC00 + (c as int - 0x10000) % 0x400); }
    } else if ShortEscape(c).None? {
      assert OneLine([c]) <==> !IsLineBreak([c][0]);
      assert BreakFreeText([c]) <==> [c][0] as int != 0x85 && [c][0] as int != 0x2028 && [c][0] as int != 0x2029;
    }
  }

  lemma {:induction false} EscapedOneLine(s: string, ascii: bool, rest: string)
    ensures OneLine(Escaped(s, ascii, rest)) <==> (ascii || BreakFreeText(s)) && OneLine(rest)
  {
    if s == "" {
      OneLineAppend("\"", rest);
    } else {
      EscapedOneLine(s[1..], ascii, rest);
      EscapeCharOneLine(s[0], ascii);
      OneLineAppend(EscapeChar(s[0], ascii), Escaped(s[1..], ascii, rest));
      assert BreakFreeText(s) <==> BreakFreeText([s[0]]) && BreakFreeText(s[1..]) by {
        assert s == [s[0]] + s[1..];
        if BreakFreeText(s) {
          assert forall i :: 0 <= i < |s[1..]| ==> s[1..][i] == s[i + 1];
        }
        if BreakFreeText([s[0]]) && BreakFreeText(s[1..]) {
          forall i | 0 <= i < |s| ensures s[i] as int != 0x85 && s[i] as int != 0x2028 && s[i] as int != 0x2029 {
            if i > 0 { assert s[i] == s[1..][i - 1]; } else { assert s[0] == [s[0]][0]; }
          }
        }
      }
    }
  }

  lemma QuotedOneLine(s: string, ascii: bool, rest: string)
    ensures OneLine(Quoted(s, ascii, rest)) <==> (ascii || BreakFreeText(s)) && OneLine(rest)
  {
    EscapedOneLine(s, ascii, rest);
    OneLineAppend("\"", Escaped(s, ascii, rest));
  }

  /** A printed value stays on one line exactly when it is ASCII-escaped or holds no line break above U+007F. */
  lemma {:induction false} PrintOneLine(v: Json, ascii: bool, rest: string)
    requires WellFormed(v)
    ensures OneLine(Print(v, ascii, rest)) <==> (ascii || BreakFree(v)) && OneLine(rest)
    decreases v, 0, 0
  {
    match v {
      case Null => OneLineAppend("null", rest);
      case Bool(b) => OneLineAppend(if b then "true" else "false", rest);
      case Num(x) => OneLineAppend(x, rest);
      case Str(s) => QuotedOneLine(s, ascii, rest);
      case Arr(xs) => ArrayOneLine(xs, ascii, rest);
      case Obj(ms) => ObjectOneLine(ms, ascii, rest);
    }
  }

  lemma {:induction false} ArrayOneLine(xs: seq<Json>, ascii: bool, rest: string)
    requires WellFormed(Arr(xs))
    ensures OneLine(Print(Arr(xs), ascii, rest)) <==> (ascii || BreakFree(Arr(xs))) && OneLine(rest)
    decreases xs, |xs|, 2
  {
    if xs == [] {
      OneLineAppend("]", rest);
      OneLineAppend("[", "]" + rest);
    } else {
      OneLineAppend("[", Print(xs[0], ascii, PrintItems(xs, 1, ascii, rest)));
      PrintOneLine(xs[0], ascii, PrintItems(xs, 1, ascii, rest));
      ItemsOneLine(xs, 1, ascii, rest);
    }
  }

  lemma {:induction false} ObjectOneLine(ms: seq<Member>, ascii: bool, rest: string)
    requires WellFormed(Obj(ms))
    ensures OneLine(Print(Obj(ms), ascii, rest)) <==> (ascii || BreakFree(Obj(ms))) && OneLine(rest)
    decreases ms, |ms|, 2
  {
    if ms == [] {
      OneLineAppend("}", rest);
      OneLineAppend("{", "}" + rest);
    } else {
      OneLineAppend("{", PrintMember(ms[0], ascii, PrintMembers(ms, 1, ascii, rest)));
      MemberOneLine(ms[0], ascii, PrintMembers(ms, 1, ascii, rest));
      MembersOneLine(ms, 1, ascii, rest);
    }
  }

  lemma {:induction false} ItemsOneLine(xs: seq<Json>, k: nat, ascii: bool, rest: string)
    requires k <= |xs| && WellFormed(Arr(xs))
    ensures OneLine(PrintItems(xs, k, ascii, rest)) <==>
            (ascii || forall i :: k <= i < |xs| ==> BreakFree(xs[i])) && OneLine(rest)
    decreases xs, |xs| - k, 1
  {
    if k == |xs| {
      OneLineAppend("]", rest);
    } else {
      OneLineAppend(",", Print(xs[k], ascii, PrintItems(xs, k + 1, ascii, rest)));
      PrintOneLine(xs[k], ascii, PrintItems(xs, k + 1, ascii, rest));
      ItemsOneLine(xs, k + 1, ascii, rest);
    }
  }

  lemma {:induction false} MemberOneLine(m: Member, ascii: bool, rest: string)
    requires WellFormed(m.value)
    ensures OneLine(PrintMember(m, ascii, rest)) <==>
            (ascii || BreakFreeMember(m)) && OneLine(rest)
    decreases m, 0, 1
  {
    QuotedOneLine(m.key, ascii, ":" + Print(m.value, ascii, rest));
    OneLineAppend(":", Print(m.value, ascii, rest));
    PrintOneLine(m.value, ascii, rest);
  }

  lemma {:induction false} MembersOneLine(ms: seq<Member>, k: nat, ascii: bool, rest: string)
    requires k <= |ms| && WellFormed(Obj(ms))
    ensures OneLine(PrintMembers(ms, k, ascii, rest)) <==>
            (ascii || forall i :: k <= i < |ms| ==> BreakFreeMember(ms[i])) && OneLine(rest)
    decreases ms, |ms| - k, 1
  {
    if k == |ms| {
      OneLineAppend("}", rest);
    } else {
      OneLineAppend(",", PrintMember(ms[k], ascii, PrintMembers(ms, k + 1, ascii, rest)));
      MemberOneLine(ms[k], ascii, PrintMembers(ms, k + 1, ascii, rest));
      MembersOneLine(ms, k + 1, ascii, rest);
    }
  }

  lemma BreakFreeItems(xs: seq<Json>, ys: seq<Json>)
    requires |xs| == |ys| && forall i :: 0 <= i < |xs| ==> (BreakFree(ys[i]) <==> BreakFree(xs[i]))
    ensures BreakFree(Arr(xs)) <==> BreakFree(Arr(ys))
  {
  }

  lemma BreakFreeObject(ms: seq<Member>)
    requires forall i :: 0 <= i < |ms| ==> (BreakFreeMember(NormalMembers(ms)[i]) <==> BreakFreeMember(ms[i]))
    ensures BreakFree(Normalize(Obj(ms))) <==> BreakFree(Obj(ms))
  {
    hide BreakFreeMember;
    var ns := NormalMembers(ms);
    NormalizeObject(ms);
    forall m ensures m in Sort(ns) <==> m in ns { InSort(ns, m); }
    BreakFreeEntries(ns, Sort(ns));
  }

  lemma {:induction false} NormalizeBreakFree(v: Json)
    requires WellFormed(v)
    ensures BreakFree(Normalize(v)) <==> BreakFree(v)
  {
    match v {
      case Arr(xs) =>
        var ys := Normalize(v).items;
        forall i | 0 <= i < |xs| ensures BreakFree(ys[i]) <==> BreakFree(xs[i]) { NormalizeBreakFree(xs[i]); }
        BreakFreeItems(xs, ys);
      case Obj(ms) =>
        var ns := NormalMembers(ms);
        forall i | 0 <= i < |ms| ensures BreakFreeMember(ns[i]) <==> BreakFreeMember(ms[i]) {
          NormalizeBreakFree(ms[i].value);
        }
        BreakFreeObject(ms);
      case _ =>
    }
  }

  lemma BreakFreeEntries(ms: seq<Member>, ns: seq<Member>)
    requires forall m :: m in ns <==> m in ms
    ensures BreakFree(Obj(ns)) <==> BreakFree(Obj(ms))
  {
    if BreakFree(Obj(ms)) {
      forall i | 0 <= i < |ns| ensures BreakFreeMember(ns[i]) {
        assert ns[i] in ns;
        var j :| 0 <= j < |ms| && ms[j] == ns[i];
      }
    }
    if BreakFree(Obj(ns)) {
      forall i | 0 <= i < |ms| ensures BreakFreeMember(ms[i]) {
        assert ms[i] in ms;
        var j :| 0 <= j < |ns| && ns[j] == ms[i];
      }
    }
  }

  /** A canonical text is one line exactly when it is ASCII-escaped or the value is break-free. */
  lemma CanonicalOneLine(v: Json, ascii: bool)
    requires WellFormed(v)
    ensures OneLine(Canonical(v, ascii)) <==> ascii || BreakFree(v)
  {
    NormalizeWellFormed(v);
    NormalizeBreakFree(v);
    PrintOneLine(Normalize(v), ascii, "");
  }

  // ----- Objects are self-delimiting -----

  lemma {:induction false} EscapedAppend(s: string, ascii: bool, x: string, y: string)
    ensures Escaped(s, ascii, x + y) == Escaped(s, ascii, x) + y
  {
    if s != "" { EscapedAppend(s[1..], ascii, x, y); }
  }

  lemma QuotedAppend(s: string, ascii: bool, x: string, y: string)
    ensures Quoted(s, ascii, x + y) == Quoted(s, ascii, x) + y
  {
    EscapedAppend(s, ascii, x, y);
  }

  lemma {:induction false} PrintAppend(v: Json, ascii: bool, x: string, y: string)
    ensures Print(v, ascii, x + y) == Print(v, ascii, x) + y
    decreases v, 0, 0
  {
    hide Quoted, Escaped, PrintItems, PrintMembers, PrintMember;
    match v {
      case Str(s) => QuotedAppend(s, ascii, x, y);
      case Arr(xs) =>
        if xs != [] {
          ItemsAppend(xs, 1, ascii, x, y);
          PrintAppend(xs[0], ascii, PrintItems(xs, 1, ascii, x), y);
          Opened("[", Print(xs[0], ascii, PrintItems(xs, 1, ascii, x)), y);
        }
      case Obj(ms) =>
        if ms != [] {
          MembersAppend(ms, 1, ascii, x, y);
          MemberAppend(ms[0], ascii, PrintMembers(ms, 1, ascii, x), y);
          Opened("{", PrintMember(ms[0], ascii, PrintMembers(ms, 1, ascii, x)), y);
        }
      case _ => AtomAppend(v, ascii, x, y);
    }
    if v == Arr([]) || v == Obj([]) { AtomAppend(v, ascii, x, y); }
  }

  lemma Opened(a: string, b: string, c: string)
    ensures a + (b + c) == (a + b) + c
  {
  }

  lemma AtomAppend(v: Json, ascii: bool, x: string, y: string)
    requires v.Null? || v.Bool? || v.Num? || v == Arr([]) || v == Obj([])
    ensures Print(v, ascii, x + y) == Print(v, ascii, x) + y
  {
    hide Quoted, Escaped, PrintItems, PrintMembers, PrintMember;
    if v.Num? { Opened(v.lexeme, x, y); }
  }

  lemma {:induction false} ItemsAppend(xs: seq<Json>, k: nat, ascii: bool, x: string, y: string)
    requires k <= |xs|
    ensures PrintItems(xs, k, ascii, x + y) == PrintItems(xs, k, ascii, x) + y
    decreases xs, |xs| - k, 1
  {
    if k < |xs| {
      ItemsAppend(xs, k + 1, ascii, x, y);
      PrintAppend(xs[k], ascii, PrintItems(xs, k + 1, ascii, x), y);
    }
  }

  lemma {:induction false} MemberAppend(m: Member, ascii: bool, x: string, y: string)
    ensures PrintMember(m, ascii, x + y) == PrintMember(m, ascii, x) + y
    decreases m, 0, 1
  {
    PrintAppend(m.value, ascii, x, y);
    assert ":" + Print(m.value, ascii, x + y) == (":" + Print(m.value, ascii, x)) + y;
    QuotedAppend(m.key, ascii, ":" + Print(m.value, ascii, x), y);
  }

  lemma {:induction false} MembersAppend(ms: seq<Member>, k: nat, ascii: bool, x: string, y: string)
    requires k <= |ms|
    ensures PrintMembers(ms, k, ascii, x + y) == PrintMembers(ms, k, ascii, x) + y
    decreases ms, |ms| - k, 1
  {
    if k < |ms| {
      MembersAppend(ms, k + 1, ascii, x, y);
      MemberAppend(ms[k], ascii, PrintMembers(ms, k + 1, ascii, x), y);
    }
  }

  /** No proper prefix of an object's text is the text of any value. */
  lemma ObjectTextHasNoPrefix(v: Json, ms: seq<Member>, rest: string, ascii: bool)
    requires WellFormed(v) && WellFormed(Obj(ms))
    requires Dump(v, ascii) + rest == Dump(Obj(ms), ascii)
    ensures rest == ""
  {
    PrintAppend(v, ascii, "", rest);
    assert "" + rest == rest;
    PrintLead(v, ascii, rest);
    PrintPrefix(v, Obj(ms), rest, "", ascii);
  }
}
