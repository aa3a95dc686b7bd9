/** BuildKit's text helpers, as security_assessment.py mirrors them. */
module BuildkitText {
  /** Go's Unicode White_Space property. */
  predicate IsBuildkitSpace(c: char) {
    0x09 <= c as int <= 0x0D || c == ' ' || c as int == 0x85 || c as int == 0xA0 || c as int == 0x1680
    || 0x2000 <= c as int <= 0x200A || c as int == 0x2028 || c as int == 0x2029
    || c as int == 0x202F || c as int == 0x205F || c as int == 0x3000
  }

  predicate AllSpace(s: string) {
    forall i :: 0 <= i < |s| ==> IsBuildkitSpace(s[i])
  }

  function TrimLeft(s: string): (r: string)
    ensures r == "" || !IsBuildkitSpace(r[0])
  {
    if s != "" && IsBuildkitSpace(s[0]) then TrimLeft(s[1..]) else s
  }

  function TrimRight(s: string): (r: string)
    ensures r == "" || !IsBuildkitSpace(r[|r| - 1])
  {
    if s != "" && IsBuildkitSpace(s[|s| - 1]) then TrimRight(s[..|s| - 1]) else s
  }

  function Trim(s: string): string {
    TrimRight(TrimLeft(s))
  }

  lemma AppendAssociative<T>(a: seq<T>, b: seq<T>, c: seq<T>)
    ensures (a + b) + c == a + (b + c)
  {
  }

  lemma {:induction false} TrimLeftSkips(lead: string, s: string)
    requires AllSpace(lead)
    ensures TrimLeft(lead + s) == TrimLeft(s)
  {
    if lead == "" {
      assert lead + s == s;
    } else {
      assert (lead + s)[1..] == lead[1..] + s;
      TrimLeftSkips(lead[1..], s);
    }
  }

  lemma {:induction false} TrimRightSkips(s: string, tail: string)
    requires AllSpace(tail)
    ensures TrimRight(s + tail) == TrimRight(s)
    decreases |tail|
  {
    if tail == "" {
      assert s + tail == s;
    } else {
      assert (s + tail)[..|s + tail| - 1] == s + tail[..|tail| - 1];
      TrimRightSkips(s, tail[..|tail| - 1]);
    }
  }
}
