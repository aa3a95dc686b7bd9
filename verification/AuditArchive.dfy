/**
  * audit_archive.py: the check and serialisation of a governance event, the
  * object key built from it, and the create-only in-memory archive.
  */
module AuditArchive {
  import opened Basics
  import opened CanonicalJson
  import opened ChainedLog
  import opened LeaseQueue

  const MAX_AUDIT_EVENT_BYTES := 262144

  const CHAIN_KEYS: seq<string> :=
    ["finding_id", "event_type", "actor_id", "actor_role", "auth_method", "occurred_at", "details", "previous_hash"]

  const EVENT_KEYS: seq<string> := CHAIN_KEYS + ["event_id", "event_sequence", "event_hash"]

  // ----- Decimal numerals -----

  function DigitChar(d: nat): char
    requires d < 10
  {
    '0' + d as char
  }

  /** str(n) of a non-negative integer. */
  function Decimal(n: nat): (s: string)
    ensures |s| > 0 && forall i :: 0 <= i < |s| ==> '0' <= s[i] <= '9'
  {
    if n < 10 then [DigitChar(n)] else Decimal(n / 10) + [DigitChar(n % 10)]
  }

  /** The integer json.loads makes of a number's text; None when it makes a float. */
  function IntegerOf(x: string): Option<int> {
    var digits := if x != "" && x[0] == '-' then x[1..] else x;
    if digits == "" || exists i :: 0 <= i < |digits| && !('0' <= digits[i] <= '9') then None
    else
      var value: int := DigitsValue(digits);
      Some(if digits == x then value else -value)
  }

  lemma {:induction false} DecimalValue(n: nat)
    ensures DigitsValue(Decimal(n)) == n
  {
    if n >= 10 {
      DecimalValue(n / 10);
      var s := Decimal(n);
      assert s[..|s| - 1] == Decimal(n / 10);
    } else {
      assert Decimal(n)[..0] == "";
    }
  }

  lemma DecimalInteger(n: nat)
    ensures IntegerOf(Decimal(n)) == Some(n)
  {
    DecimalValue(n);
    var s := Decimal(n);
    assert '0' <= s[0] <= '9';
  }

  // ----- serialize_event -----

  function Utf8Size(s: string): nat {
    if s == "" then 0 else CharSize(s[0]) + Utf8Size(s[1..])
  }

  function CharSize(c: char): (n: nat)
    ensures 1 <= n <= 4
  {
    if c as int < 0x80 then 1 else if c as int < 0x800 then 2 else if c as int < 0x1_0000 then 3 else 4
  }

  /** The dictionary has exactly the given keys. */
  predicate HasKeys(ms: seq<Member>, keys: seq<string>) {
    (forall i :: 0 <= i < |ms| ==> ms[i].key in keys) && (forall k :: k in keys ==> Get(ms, k).Some?)
  }

  function TextAt(ms: seq<Member>, key: string): Option<string> {
    var v := Get(ms, key);
    if v.Some? && v.value.Str? then Some(v.value.text) else None
  }

  predicate IdentityOk(ms: seq<Member>) {
    && TextAt(ms, "event_id").Some? && IsHexId(TextAt(ms, "event_id").value)
    && TextAt(ms, "event_hash").Some? && IsHex64(TextAt(ms, "event_hash").value)
    && TextAt(ms, "finding_id").Some? && 0 < |TextAt(ms, "finding_id").value| <= 128
    && Sequence(ms).Some? && Sequence(ms).value >= 1
  }

  function Sequence(ms: seq<Member>): Option<int> {
    var v := Get(ms, "event_sequence");
    if v.Some? && v.value.Num? then IntegerOf(v.value.lexeme) else None
  }

  predicate ScalarOk(ms: seq<Member>, key: string) {
    TextAt(ms, key).Some? && !Blank(TextAt(ms, key).value) && |TextAt(ms, key).value| <= 128
  }

  predicate PayloadOk(ms: seq<Member>) {
    && Get(ms, "details").Some? && Get(ms, "details").value.Obj?
    && Get(ms, "occurred_at").Some? && Get(ms, "occurred_at").value.Num?
    && TextAt(ms, PREVIOUS).Some? && (TextAt(ms, PREVIOUS).value == "" || IsHex64(TextAt(ms, PREVIOUS).value))
  }

  /** The part of an event its hash covers. */
  function ChainBody(ms: seq<Member>, keys: seq<string>): (r: seq<Member>)
    requires forall k :: k in keys ==> Get(ms, k).Some?
    ensures |r| == |keys| && forall i :: 0 <= i < |keys| ==> r[i] == Member(keys[i], Get(ms, keys[i]).value)
  {
    if keys == [] then [] else [Member(keys[0], Get(ms, keys[0]).value)] + ChainBody(ms, keys[1..])
  }

  /** What a governance event's hash is taken of: the previous hash, then the body's canonical text. */
  function EventText(previous: string, body: seq<Member>): string {
    previous + Canonical(Obj(body), true)
  }

  predicate ChainHashOk(sha: Digest, ms: seq<Member>)
    requires HasKeys(ms, EVENT_KEYS) && TextAt(ms, PREVIOUS).Some?
  {
    TextAt(ms, "event_hash") == Some(sha(EventText(TextAt(ms, PREVIOUS).value, ChainBody(ms, CHAIN_KEYS))))
  }

  function Padded(s: string, width: nat): string
    decreases width - |s|
  {
    if |s| >= width then s else Padded("0" + s, width)
  }

  function ObjectKey(sha: Digest, finding: string, sequence: nat, eventId: string, eventHash: string): string {
    "events/" + Clip(sha(finding), 2) + "/" + sha(finding) + "/"
    + Padded(Decimal(sequence), 20) + "-" + eventId + "-" + eventHash + ".json"
  }

  datatype Serialized = Serialized(content: string, digest: string, key: string)

  datatype ArchiveError = InvalidEvent | Integrity

  /** serialize_event: every check in the source's order. */
  function SerializeEvent(sha: Digest, event: Json): Result<Serialized, ArchiveError> {
    if !event.Obj? || !HasKeys(event.members, EVENT_KEYS) then Err(InvalidEvent)
    else
      var ms := event.members;
      if !IdentityOk(ms) then Err(InvalidEvent)
      else if !(ScalarOk(ms, "event_type") && ScalarOk(ms, "actor_id")
                && ScalarOk(ms, "actor_role") && ScalarOk(ms, "auth_method")) then
        Err(InvalidEvent)
      else if !PayloadOk(ms) then Err(InvalidEvent)
      else if !ChainHashOk(sha, ms) then Err(Integrity)
      else if Utf8Size(Canonical(event, false)) == 0 || Utf8Size(Canonical(event, false)) > MAX_AUDIT_EVENT_BYTES then
        Err(InvalidEvent)
      else
        var content := Canonical(event, false);
        Ok(Serialized(content, sha(content),
                      ObjectKey(sha, TextAt(ms, "finding_id").value, Sequence(ms).value,
                                TextAt(ms, "event_id").value, TextAt(ms, "event_hash").value)))
  }

  /** MemoryAuditArchive: object key to stored bytes; nothing is ever overwritten. */
  class MemoryAuditArchive {
    const sha: Digest
    var objects: map<string, string>

    constructor (sha: Digest)
      ensures this.sha == sha && objects == map[]
    {
      this.sha, objects := sha, map[];
    }

    method PersistEvent(event: Json) returns (r: Result<Receipt, ArchiveError>)
      modifies this
      ensures var s := SerializeEvent(sha, event);
              && (s.Err? ==> r == Err(s.error) && objects == old(objects))
              && (s.Ok? ==>
                    objects == (if s.value.key in old(objects) then old(objects)
                                else old(objects)[s.value.key := s.value.content])
                    && (r.Ok? <==> sha(objects[s.value.key]) == s.value.digest)
                    && (r.Ok? ==>
                          r.value == Archived(s.value.key, s.value.digest, Utf8Size(s.value.content), s.value.digest))
                    && (r.Err? ==> r.error == Integrity))
    {
      var s := SerializeEvent(sha, event);
      if s.Err? { return Err(s.error); }
      if s.value.key !in objects {
        objects := objects[s.value.key := s.value.content];
      }
      if sha(objects[s.value.key]) != s.value.digest { return Err(Integrity); }
      r := Ok(Archived(s.value.key, s.value.digest, Utf8Size(s.value.content), s.value.digest));
    }
  }

  // ----- The key determines the event -----

  ghost predicate Collision(sha: Digest, a: string, b: string) {
    a != b && sha(a) == sha(b)
  }

  /** Equal hashed texts come from equal previous hashes and equal bodies. */
  lemma EventTextParts(p: string, q: string, a: seq<Member>, b: seq<Member>)
    requires (p == "" || IsHex64(p)) && (q == "" || IsHex64(q))
    requires WellFormed(Obj(a)) && WellFormed(Obj(b)) && EventText(p, a) == EventText(q, b)
    ensures p == q && Same(Obj(a), Obj(b))
  {
    hide Normalize, Same, WellFormed;
    var x, y := Canonical(Obj(a), true), Canonical(Obj(b), true);
    CanonicalOpens(a);
    CanonicalOpens(b);
    assert (p + x)[0] == (q + y)[0];
    assert |p| == |q|;
    assert p == (p + x)[..|p|] == (q + y)[..|q|] == q;
    assert x == (p + x)[|p|..] == (q + y)[|q|..] == y;
    CanonicalDeterminesValue(Obj(a), Obj(b), true);
  }

  lemma CanonicalOpens(ms: seq<Member>)
    requires WellFormed(Obj(ms))
    ensures Canonical(Obj(ms), true) != "" && Canonical(Obj(ms), true)[0] == '{'
  {
    NormalizeWellFormed(Obj(ms));
    PrintLead(Normalize(Obj(ms)), true, "");
  }

  /** Two accepted events whose keys name one event hash hash the same chain fields, or two texts collide. */
  lemma SameHashSameBody(sha: Digest, v: Json, w: Json)
    requires v.Obj? && w.Obj? && WellFormed(v) && WellFormed(w)
    requires SerializeEvent(sha, v).Ok? && SerializeEvent(sha, w).Ok?
    requires TextAt(v.members, "event_hash") == TextAt(w.members, "event_hash")
    ensures var a, b := ChainBody(v.members, CHAIN_KEYS), ChainBody(w.members, CHAIN_KEYS);
            var p, q := TextAt(v.members, PREVIOUS).value, TextAt(w.members, PREVIOUS).value;
            Collision(sha, EventText(p, a), EventText(q, b)) || Same(Obj(a), Obj(b))
  {
    hide WellFormed, Same, Canonical, ObjectKey, ChainBody, IsHexId, Utf8Size;
    var a, b := ChainBody(v.members, CHAIN_KEYS), ChainBody(w.members, CHAIN_KEYS);
    var p, q := TextAt(v.members, PREVIOUS).value, TextAt(w.members, PREVIOUS).value;
    ChainBodyWellFormed(v.members);
    ChainBodyWellFormed(w.members);
    if EventText(p, a) == EventText(q, b) {
      EventTextParts(p, q, a, b);
    }
  }

  lemma ChainKeysDistinct()
    ensures forall i, j :: 0 <= i < j < |CHAIN_KEYS| ==> CHAIN_KEYS[i] != CHAIN_KEYS[j]
  {
  }

  lemma ChainBodyWellFormed(ms: seq<Member>)
    requires WellFormed(Obj(ms)) && forall k :: k in CHAIN_KEYS ==> Get(ms, k).Some?
    ensures WellFormed(Obj(ChainBody(ms, CHAIN_KEYS)))
  {
    var r := ChainBody(ms, CHAIN_KEYS);
    forall i | 0 <= i < |r| ensures WellFormed(r[i].value) {
      hide WellFormed;
      ValueWellFormed(ms, CHAIN_KEYS[i]);
    }
    hide Get, ChainBody, IsNumber;
    ChainKeysDistinct();
  }

  lemma {:induction false} PaddedShape(s: string, width: nat)
    requires |s| > 0 && forall i :: 0 <= i < |s| ==> '0' <= s[i] <= '9'
    ensures var p := Padded(s, width);
            |p| == (if |s| >= width then |s| else width)
            && (forall i :: 0 <= i < |p| ==> '0' <= p[i] <= '9') && DigitsValue(p) == DigitsValue(s)
    decreases width - |s|
  {
    if |s| < width {
      LeadingZero(s);
      PaddedShape("0" + s, width);
    }
  }

  lemma {:induction false} LeadingZero(s: string)
    requires forall i :: 0 <= i < |s| ==> '0' <= s[i] <= '9'
    ensures DigitsValue("0" + s) == DigitsValue(s)
  {
    var z := "0" + s;
    assert z[..0] == "";
    if s != "" {
      LeadingZero(s[..|s| - 1]);
      assert z[..|z| - 1] == "0" + s[..|s| - 1];
    }
  }

  /** The text before the first '-' and what follows it are determined by the whole. */
  lemma {:induction false} DashSplit(a: string, b: string, x: string, y: string)
    requires '-' !in a && '-' !in b && a + "-" + x == b + "-" + y
    ensures a == b && x == y
  {
    assert (a + "-" + x)[|a|] == '-' && (b + "-" + y)[|b|] == '-';
    assert forall k :: 0 <= k < |a| ==> (a + "-" + x)[k] == a[k] && a[k] in a;
    assert forall k :: 0 <= k < |b| ==> (b + "-" + y)[k] == b[k] && b[k] in b;
    assert |a| == |b|;
    assert a == (a + "-" + x)[..|a|] == b;
    assert x == (a + "-" + x)[|a| + 1..] == y;
  }

  /** An object key names one finding digest, sequence, event id and event hash. */
  lemma ObjectKeyInjective(
    sha: Digest, f: string, g: string, m: nat, n: nat, i: string, j: string, x: string, y: string)
    requires IsHex64(sha(f)) && IsHex64(sha(g)) && IsHexId(i) && IsHexId(j) && IsHex64(x) && IsHex64(y)
    requires ObjectKey(sha, f, m, i, x) == ObjectKey(sha, g, n, j, y)
    ensures sha(f) == sha(g) && m == n && i == j && x == y
  {
    hide Padded, Decimal, DigitsValue, IsHex64, IsHexId;
    KeyParts(sha, f, m, i, x);
    KeyParts(sha, g, n, j, y);
    HexLengths(sha(f), i, x);
    HexLengths(sha(g), j, y);
    hide ObjectKey;
    Cut("events/" + Clip(sha(f), 2) + "/", "events/" + Clip(sha(g), 2) + "/", sha(f) + ("/" + KeyTail(m, i, x)),
        sha(g) + ("/" + KeyTail(n, j, y)));
    Cut(sha(f), sha(g), "/" + KeyTail(m, i, x), "/" + KeyTail(n, j, y));
    Cut("/", "/", KeyTail(m, i, x), KeyTail(n, j, y));
    KeyTailInjective(m, n, i, j, x, y);
  }

  lemma HexLengths(d: string, i: string, x: string)
    requires IsHex64(d) && IsHexId(i) && IsHex64(x)
    ensures |d| == 64 && |i| == 32 && |x| == 64 && |Clip(d, 2)| == 2
  {
  }

  function KeyTail(m: nat, i: string, x: string): string {
    Padded(Decimal(m), 20) + "-" + (i + ("-" + (x + ".json")))
  }

  lemma KeyParts(sha: Digest, f: string, m: nat, i: string, x: string)
    ensures ObjectKey(sha, f, m, i, x) == "events/" + Clip(sha(f), 2) + "/" + (sha(f) + ("/" + KeyTail(m, i, x)))
  {
    hide Padded, Decimal, Clip;
  }

  lemma KeyTailInjective(m: nat, n: nat, i: string, j: string, x: string, y: string)
    requires |i| == |j| && |x| == |y| && KeyTail(m, i, x) == KeyTail(n, j, y)
    ensures m == n && i == j && x == y
  {
    hide Padded, Decimal, DigitsValue;
    PaddedShape(Decimal(m), 20);
    PaddedShape(Decimal(n), 20);
    DashSplit(Padded(Decimal(m), 20), Padded(Decimal(n), 20), i + ("-" + (x + ".json")), j + ("-" + (y + ".json")));
    DecimalValue(m);
    DecimalValue(n);
    Cut(i, j, "-" + (x + ".json"), "-" + (y + ".json"));
    Cut("-", "-", x + ".json", y + ".json");
    Cut(x, y, ".json", ".json");
  }

  lemma Cut(a: string, b: string, x: string, y: string)
    requires |a| == |b| && a + x == b + y
    ensures a == b && x == y
  {
    assert a == (a + x)[..|a|] == b;
    assert x == (a + x)[|a|..] == y;
  }

  /**
    * Two accepted events stored under one key agree on every field, or SHA-256
    * collides on two finding ids or on two hashed texts.
    */
  lemma SameKeySameEvent(sha: Digest, v: Json, w: Json)
    requires Hexadecimal(sha) && v.Obj? && w.Obj? && WellFormed(v) && WellFormed(w)
    requires SerializeEvent(sha, v).Ok? && SerializeEvent(sha, w).Ok?
    requires SerializeEvent(sha, v).value.key == SerializeEvent(sha, w).value.key
    ensures var a, b := ChainBody(v.members, CHAIN_KEYS), ChainBody(w.members, CHAIN_KEYS);
            var p, q := TextAt(v.members, PREVIOUS).value, TextAt(w.members, PREVIOUS).value;
            || Collision(sha, EventText(p, a), EventText(q, b))
            || (Same(Obj(a), Obj(b)) && Sequence(v.members) == Sequence(w.members)
                && TextAt(v.members, "event_id") == TextAt(w.members, "event_id")
                && TextAt(v.members, "event_hash") == TextAt(w.members, "event_hash"))
  {
    hide WellFormed, ObjectKey, ChainBody, EventText;
    var ms, ns := v.members, w.members;
    ObjectKeyInjective(
      sha, TextAt(ms, "finding_id").value, TextAt(ns, "finding_id").value,
      Sequence(ms).value, Sequence(ns).value,
      TextAt(ms, "event_id").value, TextAt(ns, "event_id").value,
      TextAt(ms, "event_hash").value, TextAt(ns, "event_hash").value);
    SameHashSameBody(sha, v, w);
  }
}
