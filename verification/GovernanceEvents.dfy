/**
  * The hash-chained governance events of governance_core.py: what one event
  * holds, the text its hash covers, the payload both queues carry, and the
  * check of a finding's whole chain.
  */
module GovernanceEvents {
  import opened Basics
  import opened CanonicalJson
  import opened ChainedLog
  import opened LeaseQueue
  import opened AuditArchive
  import opened OutboxDelivery

  datatype Level = Low | Medium | High | Critical

  datatype Treatment = Mitigate | Accept | Transfer | Avoid

  datatype Role = Admin | Analyst | RiskOwner | Approver | Ciso | RiskCommittee

  /** ActorContext: its constructor refuses blank ids and unknown roles. */
  datatype Actor = Actor(id: string, role: Role, authMethod: string)

  predicate ValidActor(a: Actor) {
    !Blank(a.id) && !Blank(a.authMethod)
  }

  /** event_type together with details. */
  datatype Change =
    | Created(control: string, asset: string, severity: Level)
    | Assessed(likelihood: Level, impact: Level)
    | Proposed(treatment: Treatment, reason: string, actionOwner: string)
    | Decided(approved: bool, reason: string)
    | Started(implementer: string)
    | Submitted(evidenceId: string, source: string, sha256: string, objectKey: string, size: nat)
    | Checked(passed: bool, notes: string)
    | Closing(reason: string)
    | Reassessed(control: string, asset: string, severity: Level)

  /** A row of governance_events; occurredAt is the number's text. */
  datatype Event = Event(
    eventId: string, sequence: nat, change: Change, actor: Actor, occurredAt: string,
    previousHash: string, eventHash: string)

  function LevelName(l: Level): string {
    match l case Low => "low" case Medium => "medium" case High => "high" case Critical => "critical"
  }

  function TreatmentName(t: Treatment): string {
    match t case Mitigate => "mitigate" case Accept => "accept" case Transfer => "transfer" case Avoid => "avoid"
  }

  function RoleName(r: Role): string {
    match r
    case Admin => "admin" case Analyst => "analyst" case RiskOwner => "risk_owner"
    case Approver => "approver" case Ciso => "ciso" case RiskCommittee => "risk_committee"
  }

  function TypeName(c: Change): string {
    match c
    case Created(_, _, _) => "finding_created"
    case Assessed(_, _) => "risk_assessed"
    case Proposed(_, _, _) => "treatment_proposed"
    case Decided(approved, _) => if approved then "treatment_approved" else "treatment_rejected"
    case Started(_) => "action_started"
    case Submitted(_, _, _, _, _) => "evidence_submitted"
    case Checked(passed, _) => if passed then "verification_passed" else "verification_failed"
    case Closing(_) => "finding_closed"
    case Reassessed(_, _, _) => "finding_reassessed"
  }

  function Details(c: Change): seq<Member> {
    match c
    case Created(control, asset, severity) =>
      [Member("control_id", Str(control)), Member("asset_id", Str(asset)), Member("severity", Str(LevelName(severity)))]
    case Assessed(likelihood, impact) =>
      [Member("likelihood", Str(LevelName(likelihood))), Member("impact", Str(LevelName(impact)))]
    case Proposed(treatment, reason, actionOwner) =>
      [Member("treatment_type", Str(TreatmentName(treatment))), Member("reason", Str(reason)),
       Member("action_owner", Str(actionOwner))]
    case Decided(approved, reason) =>
      [Member("decision", Str(if approved then "approved" else "rejected")), Member("reason", Str(reason))]
    case Started(implementer) => [Member("implementer", Str(implementer))]
    case Submitted(evidenceId, source, sha256, objectKey, size) =>
      [Member("evidence_id", Str(evidenceId)), Member("source", Str(source)), Member("sha256", Str(sha256)),
       Member("object_key", Str(objectKey)), Member("size_bytes", Num(Decimal(size)))]
    case Checked(passed, notes) => [Member("passed", Bool(passed)), Member("notes", Str(notes))]
    case Closing(reason) => [Member("reason", Str(reason))]
    case Reassessed(control, asset, severity) =>
      [Member("control_id", Str(control)), Member("asset_id", Str(asset)), Member("severity", Str(LevelName(severity)))]
  }

  /** The dictionary whose canonical text is hashed. */
  function EventBody(finding: string, c: Change, actor: Actor, at: string, previous: string): seq<Member> {
    [Member("finding_id", Str(finding)), Member("event_type", Str(TypeName(c))), Member("actor_id", Str(actor.id)),
     Member("actor_role", Str(RoleName(actor.role))), Member("auth_method", Str(actor.authMethod)),
     Member("occurred_at", Num(at)), Member("details", Obj(Details(c))), Member(PREVIOUS, Str(previous))]
  }

  function BodyOf(finding: string, e: Event): seq<Member> {
    EventBody(finding, e.change, e.actor, e.occurredAt, e.previousHash)
  }

  function PayloadFields(finding: string, e: Event): seq<Member> {
    BodyOf(finding, e)
    + [Member("event_id", Str(e.eventId)), Member("event_sequence", Num(Decimal(e.sequence))),
       Member("event_hash", Str(e.eventHash))]
  }

  function Payload(finding: string, e: Event): string {
    Canonical(Obj(PayloadFields(finding, e)), true)
  }

  function OutboxMessageOf(finding: string, e: Event, at: real): Message {
    Message(e.eventId, finding, e.sequence, TOPIC, Payload(finding, e), at)
  }

  /** audit_exports has no topic column. */
  function ExportMessageOf(finding: string, e: Event, at: real): Message {
    Message(e.eventId, finding, e.sequence, "", Payload(finding, e), at)
  }

  // ----- verify_event_chain -----

  function PreviousHash(events: seq<Event>): string {
    if events == [] then "" else events[|events| - 1].eventHash
  }

  predicate EventLinks(sha: Digest, finding: string, previous: string, e: Event) {
    e.previousHash == previous && e.eventHash == sha(EventText(previous, BodyOf(finding, e)))
  }

  predicate LinkedAt(sha: Digest, finding: string, events: seq<Event>, i: nat)
    requires i < |events|
  {
    EventLinks(sha, finding, PreviousHash(events[..i]), events[i])
  }

  ghost predicate EventsChained(sha: Digest, finding: string, events: seq<Event>) {
    forall i :: 0 <= i < |events| ==> LinkedAt(sha, finding, events, i)
  }

  /** The checking loop over a finding's rows in sequence order. */
  method VerifyEventChain(sha: Digest, finding: string, events: seq<Event>) returns (valid: bool)
    ensures valid <==> EventsChained(sha, finding, events)
  {
    hide EventText, EventBody;
    var previous := "";
    for i := 0 to |events|
      invariant previous == PreviousHash(events[..i])
      invariant forall k :: 0 <= k < i ==> LinkedAt(sha, finding, events, k)
    {
      var event := events[i];
      // the hash is taken over the expected previous hash, not the stored one
      var body := EventBody(finding, event.change, event.actor, event.occurredAt, previous);
      if event.previousHash != previous || event.eventHash != sha(EventText(previous, body)) {
        assert !LinkedAt(sha, finding, events, i);
        return false;
      }
      assert events[..i + 1][..i] == events[..i];
      previous := event.eventHash;
    }
    valid := true;
  }

  lemma ChainedSnoc(sha: Digest, finding: string, events: seq<Event>, e: Event)
    ensures EventsChained(sha, finding, events + [e]) <==>
            EventsChained(sha, finding, events) && EventLinks(sha, finding, PreviousHash(events), e)
  {
    hide EventLinks, PreviousHash;
    var all := events + [e];
    forall i | 0 <= i < |events| ensures LinkedAt(sha, finding, all, i) == LinkedAt(sha, finding, events, i) {
      assert all[..i] == events[..i];
    }
    assert all[..|events|] == events;
    assert EventsChained(sha, finding, all) ==> LinkedAt(sha, finding, all, |events|);
  }

  // ----- Stored rows, whatever they hold -----

  /** The columns verify_event_chain reads; details is the JSON text as stored. */
  datatype StoredEvent = StoredEvent(
    eventType: string, actorId: string, actorRole: string, authMethod: string, occurredAt: string,
    detailsJson: string, previousHash: string, eventHash: string)

  function StoredBody(finding: string, row: StoredEvent, details: Json, previous: string): seq<Member> {
    [Member("finding_id", Str(finding)), Member("event_type", Str(row.eventType)), Member("actor_id", Str(row.actorId)),
     Member("actor_role", Str(row.actorRole)), Member("auth_method", Str(row.authMethod)),
     Member("occurred_at", Num(row.occurredAt)), Member("details", details), Member(PREVIOUS, Str(previous))]
  }

  function LastHash(rows: seq<StoredEvent>): string {
    if rows == [] then "" else rows[|rows| - 1].eventHash
  }

  /** The row's details parse, it names its predecessor's hash, and its own hash is that of its body. */
  predicate RowHolds(sha: Digest, loads: Loads, finding: string, previous: string, row: StoredEvent) {
    var details := loads(row.detailsJson);
    && details.Some? && row.previousHash == previous
    && row.eventHash == sha(EventText(previous, StoredBody(finding, row, details.value, previous)))
  }

  predicate RowHoldsAt(sha: Digest, loads: Loads, finding: string, rows: seq<StoredEvent>, i: nat)
    requires i < |rows|
  {
    RowHolds(sha, loads, finding, LastHash(rows[..i]), rows[i])
  }

  ghost predicate RowsChained(sha: Digest, loads: Loads, finding: string, rows: seq<StoredEvent>) {
    forall i :: 0 <= i < |rows| ==> RowHoldsAt(sha, loads, finding, rows, i)
  }

  /** The rows before i hold, and the details of row i do not parse. */
  ghost predicate BreaksAt(sha: Digest, loads: Loads, finding: string, rows: seq<StoredEvent>, i: nat) {
    i < |rows| && loads(rows[i].detailsJson).None? && forall k :: 0 <= k < i ==>
        RowHoldsAt(sha, loads, finding, rows, k)
  }

  /** verify_event_chain over stored rows; None is the exception json.loads raises. */
  method VerifyStoredChain(sha: Digest, loads: Loads, finding: string, rows: seq<StoredEvent>)
    returns (valid: Option<bool>)
    ensures valid == Some(true) <==> RowsChained(sha, loads, finding, rows)
    ensures valid == None <==> exists i :: BreaksAt(sha, loads, finding, rows, i)
  {
    hide EventText, StoredBody;
    var previous := "";
    for i := 0 to |rows|
      invariant previous == LastHash(rows[..i])
      invariant forall k :: 0 <= k < i ==> RowHoldsAt(sha, loads, finding, rows, k)
    {
      var row := rows[i];
      var details := loads(row.detailsJson);
      if details.None? {
        assert BreaksAt(sha, loads, finding, rows, i) && !RowHoldsAt(sha, loads, finding, rows, i);
        return None;
      }
      var body := StoredBody(finding, row, details.value, previous);
      if row.previousHash != previous || row.eventHash != sha(EventText(previous, body)) {
        assert !RowHoldsAt(sha, loads, finding, rows, i);
        NothingBreaks(sha, loads, finding, rows, i);
        return Some(false);
      }
      assert rows[..i + 1][..i] == rows[..i];
      previous := row.eventHash;
    }
    NothingBreaks(sha, loads, finding, rows, |rows|);
    valid := Some(true);
  }

  lemma NothingBreaks(sha: Digest, loads: Loads, finding: string, rows: seq<StoredEvent>, i: nat)
    requires i <= |rows| && forall k :: 0 <= k < i ==> RowHoldsAt(sha, loads, finding, rows, k)
    requires i < |rows| ==> loads(rows[i].detailsJson).Some? && !RowHoldsAt(sha, loads, finding, rows, i)
    ensures forall j :: !BreaksAt(sha, loads, finding, rows, j)
  {
    hide EventText, StoredBody;
    forall j: nat ensures !BreaksAt(sha, loads, finding, rows, j) {
      if j < i { assert RowHoldsAt(sha, loads, finding, rows, j); }
    }
  }

  /** A typed event as it is stored: its details' text reads back as their normal form. */
  predicate StoredAs(loads: Loads, e: Event, row: StoredEvent) {
    && row.eventType == TypeName(e.change) && row.actorId == e.actor.id && row.actorRole == RoleName(e.actor.role)
    && row.authMethod == e.actor.authMethod && row.occurredAt == e.occurredAt
    && row.previousHash == e.previousHash && row.eventHash == e.eventHash
    && loads(row.detailsJson) == Some(Normalize(Obj(Details(e.change))))
  }

  /** A stored event holds exactly when the event it stores links. */
  lemma StoredEventHolds(sha: Digest, loads: Loads, finding: string, previous: string, e: Event, row: StoredEvent)
    requires StoredAs(loads, e, row) && IsNumberText(e.occurredAt)
    ensures RowHolds(sha, loads, finding, previous, row) <==> EventLinks(sha, finding, previous, e)
  {
    hide Details, TypeName, RoleName, WellFormed, Normalize, Dump;
    if e.previousHash == previous {
      var a := StoredBody(finding, row, Normalize(Obj(Details(e.change))), previous);
      var b := BodyOf(finding, e);
      DetailsWellFormed(e.change);
      NormalizeIdempotent(Obj(Details(e.change)));
      NormalizeAlike(a, b);
    }
  }

  /** Stored, a log verifies exactly when its events are chained. */
  lemma StoredChain(sha: Digest, loads: Loads, finding: string, events: seq<Event>, rows: seq<StoredEvent>)
    requires |events| == |rows|
    requires forall i :: 0 <= i < |events| ==> StoredAs(loads, events[i], rows[i]) && IsNumberText(events[i].occurredAt)
    ensures RowsChained(sha, loads, finding, rows) <==> EventsChained(sha, finding, events)
  {
    hide RowHolds, EventLinks, IsNumberText, TypeName, RoleName, Normalize, Details;
    forall i | 0 <= i < |events|
      ensures RowHoldsAt(sha, loads, finding, rows, i) <==> LinkedAt(sha, finding, events, i)
    {
      assert i > 0 ==> StoredAs(loads, events[i - 1], rows[i - 1]);
      assert i > 0 ==> events[..i][i - 1] == events[i - 1] && rows[..i][i - 1] == rows[i - 1];
      assert LastHash(rows[..i]) == PreviousHash(events[..i]);
      StoredEventHolds(sha, loads, finding, PreviousHash(events[..i]), events[i], rows[i]);
    }
  }

  /** Members that agree up to their values' normal forms give one normal form. */
  lemma NormalizeAlike(a: seq<Member>, b: seq<Member>)
    requires |a| == |b|
    requires forall i :: 0 <= i < |a| ==> a[i].key == b[i].key && Normalize(a[i].value) == Normalize(b[i].value)
    ensures Normalize(Obj(a)) == Normalize(Obj(b))
  {
    NormalizeObject(a);
    NormalizeObject(b);
    assert NormalMembers(a) == NormalMembers(b);
  }

  // ----- The same head means the same history -----

  /** What a chain hashes of one of its records. */
  datatype Link = Link(previousHash: string, body: seq<Member>, eventHash: string)

  function HeadHash(links: seq<Link>): string {
    if links == [] then "" else links[|links| - 1].eventHash
  }

  predicate LinkHolds(sha: Digest, links: seq<Link>, i: nat)
    requires i < |links|
  {
    && links[i].previousHash == HeadHash(links[..i])
    && links[i].eventHash == sha(EventText(links[i].previousHash, links[i].body))
  }

  ghost predicate LinksHold(sha: Digest, links: seq<Link>) {
    forall i :: 0 <= i < |links| ==> LinkHolds(sha, links, i)
  }

  ghost predicate Parsed(links: seq<Link>) {
    forall i :: 0 <= i < |links| ==> WellFormed(Obj(links[i].body))
  }

  ghost predicate SameBody(a: Link, b: Link) {
    Same(Obj(a.body), Obj(b.body))
  }

  ghost predicate LinksCollide(sha: Digest, a: Link, b: Link) {
    Collision(sha, EventText(a.previousHash, a.body), EventText(b.previousHash, b.body))
  }

  ghost predicate AnyCollision(sha: Digest, a: seq<Link>, b: seq<Link>) {
    exists i, j :: 0 <= i < |a| && 0 <= j < |b| && LinksCollide(sha, a[i], b[j])
  }

  ghost predicate SameBodies(a: seq<Link>, b: seq<Link>) {
    |a| == |b| && forall i :: 0 <= i < |a| ==> SameBody(a[i], b[i])
  }

  lemma LinksPrefix(sha: Digest, links: seq<Link>, n: nat)
    requires LinksHold(sha, links) && n <= |links|
    ensures LinksHold(sha, links[..n])
  {
    hide EventText;
    forall i | 0 <= i < n ensures LinkHolds(sha, links[..n], i) {
      assert links[..n][..i] == links[..i] && LinkHolds(sha, links, i);
    }
  }

  lemma HeadShape(sha: Digest, links: seq<Link>)
    requires LinksHold(sha, links) && Hexadecimal(sha)
    ensures HeadHash(links) == "" <==> links == []
    ensures links != [] ==> IsHex64(HeadHash(links))
  {
    if links != [] { assert LinkHolds(sha, links, |links| - 1); }
  }

  /**
    * Two verified chains with equal last hashes hold the same bodies, whatever
    * their lengths, unless two different hashed texts collide.
    */
  lemma {:induction false} SameHeadSameLinks(sha: Digest, a: seq<Link>, b: seq<Link>)
    requires LinksHold(sha, a) && LinksHold(sha, b) && Hexadecimal(sha) && Parsed(a) && Parsed(b)
    requires HeadHash(a) == HeadHash(b)
    ensures SameBodies(a, b) || AnyCollision(sha, a, b)
    decreases |a|
  {
    hide EventText, WellFormed, Same, IsHex64;
    HeadShape(sha, a);
    HeadShape(sha, b);
    if a != [] && b != [] {
      var m, n := |a| - 1, |b| - 1;
      assert LinkHolds(sha, a, m) && LinkHolds(sha, b, n);
      LinksPrefix(sha, a, m);
      LinksPrefix(sha, b, n);
      if !LinksCollide(sha, a[m], b[n]) {
        HeadShape(sha, a[..m]);
        HeadShape(sha, b[..n]);
        EventTextParts(a[m].previousHash, b[n].previousHash, a[m].body, b[n].body);
        SameHeadSameLinks(sha, a[..m], b[..n]);
        SameBodiesSnoc(sha, a, b);
      }
    }
  }

  lemma SameBodiesSnoc(sha: Digest, a: seq<Link>, b: seq<Link>)
    requires a != [] && b != [] && SameBody(a[|a| - 1], b[|b| - 1])
    requires SameBodies(a[..|a| - 1], b[..|b| - 1]) || AnyCollision(sha, a[..|a| - 1], b[..|b| - 1])
    ensures SameBodies(a, b) || AnyCollision(sha, a, b)
  {
    hide SameBody, LinksCollide;
    var m, n := |a| - 1, |b| - 1;
    if SameBodies(a[..m], b[..n]) {
      forall i | 0 <= i < |a| ensures SameBody(a[i], b[i]) {
        if i < m { assert a[..m][i] == a[i] && b[..n][i] == b[i]; }
      }
    } else {
      var i, j :| 0 <= i < m && 0 <= j < n && LinksCollide(sha, a[..m][i], b[..n][j]);
      assert a[..m][i] == a[i] && b[..n][j] == b[j];
    }
  }

  /** The links of stored rows whose details parse. */
  function LinksOf(loads: Loads, finding: string, rows: seq<StoredEvent>): seq<Link>
    requires forall i :: 0 <= i < |rows| ==> loads(rows[i].detailsJson).Some?
  {
    seq(|rows|, i requires 0 <= i < |rows| =>
      Link(rows[i].previousHash,
           StoredBody(finding, rows[i], loads(rows[i].detailsJson).value, rows[i].previousHash), rows[i].eventHash))
  }

  lemma RowsParse(sha: Digest, loads: Loads, finding: string, rows: seq<StoredEvent>)
    requires RowsChained(sha, loads, finding, rows)
    ensures forall i :: 0 <= i < |rows| ==> loads(rows[i].detailsJson).Some?
  {
    hide EventText, StoredBody;
    forall i | 0 <= i < |rows| ensures loads(rows[i].detailsJson).Some? {
      assert RowHoldsAt(sha, loads, finding, rows, i);
    }
  }

  lemma RowsLink(sha: Digest, loads: Loads, finding: string, rows: seq<StoredEvent>)
    requires RowsChained(sha, loads, finding, rows) && forall i :: 0 <= i < |rows| ==> loads(rows[i].detailsJson).Some?
    ensures LinksHold(sha, LinksOf(loads, finding, rows)) && HeadHash(LinksOf(loads, finding, rows)) == LastHash(rows)
  {
    hide EventText, StoredBody;
    var links := LinksOf(loads, finding, rows);
    forall i | 0 <= i < |links| ensures LinkHolds(sha, links, i) {
      assert RowHoldsAt(sha, loads, finding, rows, i);
      assert i > 0 ==> links[..i][i - 1] == links[i - 1] && rows[..i][i - 1] == rows[i - 1];
    }
  }

  lemma RowsWellFormed(loads: Loads, finding: string, rows: seq<StoredEvent>)
    requires Reads(loads, true) && forall i :: 0 <= i < |rows| ==> loads(rows[i].detailsJson).Some?
    requires forall i :: 0 <= i < |rows| ==> IsNumberText(rows[i].occurredAt)
    ensures Parsed(LinksOf(loads, finding, rows))
  {
    forall i | 0 <= i < |rows| ensures WellFormed(Obj(LinksOf(loads, finding, rows)[i].body)) {
      StoredBodyWellFormed(finding, rows[i], loads(rows[i].detailsJson).value, rows[i].previousHash);
    }
  }

  lemma StoredBodyWellFormed(finding: string, row: StoredEvent, details: Json, previous: string)
    requires WellFormed(details) && IsNumberText(row.occurredAt)
    ensures WellFormed(Obj(StoredBody(finding, row, details, previous)))
  {
    NumberText(row.occurredAt);
  }

  /**
    * Two sets of stored rows that verify and end in one hash hold the same
    * events, details and all, whatever their lengths, or two texts collide.
    */
  lemma SameHashSameRows(sha: Digest, loads: Loads, finding: string, rs: seq<StoredEvent>, qs: seq<StoredEvent>)
    requires Reads(loads, true) && Hexadecimal(sha)
    requires RowsChained(sha, loads, finding, rs) && RowsChained(sha, loads, finding, qs)
    requires LastHash(rs) == LastHash(qs)
    requires forall i :: 0 <= i < |rs| ==> IsNumberText(rs[i].occurredAt)
    requires forall i :: 0 <= i < |qs| ==> IsNumberText(qs[i].occurredAt)
    ensures forall i :: 0 <= i < |rs| ==> loads(rs[i].detailsJson).Some?
    ensures forall i :: 0 <= i < |qs| ==> loads(qs[i].detailsJson).Some?
    ensures var a, b := LinksOf(loads, finding, rs), LinksOf(loads, finding, qs);
            SameBodies(a, b) || AnyCollision(sha, a, b)
  {
    hide Reads, Hexadecimal, LinksHold, Parsed, IsNumberText, RowsChained, SameBodies, AnyCollision;
    RowsParse(sha, loads, finding, rs);
    RowsParse(sha, loads, finding, qs);
    RowsLink(sha, loads, finding, rs);
    RowsLink(sha, loads, finding, qs);
    RowsWellFormed(loads, finding, rs);
    RowsWellFormed(loads, finding, qs);
    SameHeadSameLinks(sha, LinksOf(loads, finding, rs), LinksOf(loads, finding, qs));
  }

  predicate IsNumberText(x: string) {
    x != "" && forall i :: 0 <= i < |x| ==> IsNumChar(x[i])
  }

  lemma DetailsWellFormed(c: Change)
    ensures WellFormed(Obj(Details(c)))
  {
  }

  lemma EventBodyWellFormed(finding: string, e: Event)
    requires IsNumberText(e.occurredAt)
    ensures WellFormed(Obj(BodyOf(finding, e)))
  {
    hide Details, TypeName, RoleName;
    DetailsWellFormed(e.change);
    NumberText(e.occurredAt);
  }

  lemma NumberText(x: string)
    requires IsNumberText(x)
    ensures WellFormed(Num(x))
  {
  }

  lemma PreviousHashShape(sha: Digest, finding: string, es: seq<Event>)
    requires EventsChained(sha, finding, es) && Hexadecimal(sha)
    ensures PreviousHash(es) == "" || IsHex64(PreviousHash(es))
    ensures PreviousHash(es) == "" <==> es == []
  {
    if es != [] { assert LinkedAt(sha, finding, es, |es| - 1); }
  }

  // ----- Both queues accept the payload -----

  /** The length and size limits the two checks put on an event. */
  predicate WithinLimits(finding: string, e: Event) {
    && 0 < |finding| <= 128 && !Blank(finding)
    && !Blank(e.actor.id) && |e.actor.id| <= 128 && !Blank(e.actor.authMethod) && |e.actor.authMethod| <= 128
    && |Payload(finding, e)| <= MAX_MESSAGE_BYTES
    && Utf8Size(Canonical(Obj(PayloadFields(finding, e)), false)) <= MAX_AUDIT_EVENT_BYTES
  }

  /** Every number of the event is read back as it is printed. */
  ghost predicate NumbersRead(loads: Loads, e: Event) {
    Held(loads, Num(e.occurredAt)) && forall n: nat :: loads(Decimal(n)) == Some(Num(Decimal(n)))
  }

  lemma EventKeysDistinct()
    ensures forall i, j :: 0 <= i < j < |EVENT_KEYS| ==> EVENT_KEYS[i] != EVENT_KEYS[j]
  {
    var lengths := [10, 10, 8, 10, 11, 11, 7, 13, 8, 14, 10];
    assert forall i :: 0 <= i < 11 ==> |EVENT_KEYS[i]| == lengths[i];
    assert EVENT_KEYS[0][0] == 'f' && EVENT_KEYS[1][6] == 't' && EVENT_KEYS[3][0] == 'a' && EVENT_KEYS[10][6] == 'h';
    assert EVENT_KEYS[1][0] == 'e' && EVENT_KEYS[10][0] == 'e' && EVENT_KEYS[2][0] == 'a' && EVENT_KEYS[8][0] == 'e';
    assert EVENT_KEYS[4][0] == 'a' && EVENT_KEYS[5][0] == 'o';
  }

  lemma PayloadGet(finding: string, e: Event)
    ensures var ms := PayloadFields(finding, e);
            && Get(ms, "finding_id") == Some(Str(finding)) && Get(ms, "event_type") == Some(Str(TypeName(e.change)))
            && Get(ms, "actor_id") == Some(Str(e.actor.id))
               && Get(ms, "actor_role") == Some(Str(RoleName(e.actor.role)))
            && Get(ms, "auth_method") == Some(Str(e.actor.authMethod))
               && Get(ms, "occurred_at") == Some(Num(e.occurredAt))
            && Get(ms, "details") == Some(Obj(Details(e.change))) && Get(ms, PREVIOUS) == Some(Str(e.previousHash))
            && Get(ms, "event_id") == Some(Str(e.eventId))
               && Get(ms, "event_sequence") == Some(Num(Decimal(e.sequence)))
            && Get(ms, "event_hash") == Some(Str(e.eventHash))
  {
    hide Details, TypeName, RoleName, Decimal, Get;
    var ms := PayloadFields(finding, e);
    EventKeysDistinct();
    PayloadKeys(finding, e);
    assert DistinctKeys(ms);
    forall i | 0 <= i < |ms| ensures Get(ms, ms[i].key) == Some(ms[i].value) { GetIs(ms, ms[i]); }
    assert ms[0].key == "finding_id" && ms[1].key == "event_type" && ms[2].key == "actor_id"
           && ms[3].key == "actor_role";
    assert ms[4].key == "auth_method" && ms[5].key == "occurred_at" && ms[6].key == "details" && ms[7].key == PREVIOUS;
    assert ms[8].key == "event_id" && ms[9].key == "event_sequence" && ms[10].key == "event_hash";
  }

  lemma PayloadHeld(loads: Loads, finding: string, e: Event)
    requires NumbersRead(loads, e)
    ensures Held(loads, Obj(PayloadFields(finding, e)))
  {
    hide TypeName, RoleName, Decimal, IsNumber;
    var ms := PayloadFields(finding, e);
    DetailsHeld(loads, e.change);
    DecimalHeld(loads, e.sequence);
    assert DistinctKeys(ms);
    forall i | 0 <= i < |ms| ensures WellFormed(ms[i].value) && NumbersKept(loads, ms[i].value) {}
  }

  lemma DecimalHeld(loads: Loads, n: nat)
    requires forall k: nat :: loads(Decimal(k)) == Some(Num(Decimal(k)))
    ensures Held(loads, Num(Decimal(n)))
  {
    NumberText(Decimal(n));
  }

  lemma DetailsHeld(loads: Loads, c: Change)
    requires forall n: nat :: loads(Decimal(n)) == Some(Num(Decimal(n)))
    ensures Held(loads, Obj(Details(c)))
  {
    hide LevelName, TreatmentName, Decimal;
    DetailsWellFormed(c);
    var ms := Details(c);
    forall i | 0 <= i < |ms| ensures NumbersKept(loads, ms[i].value) {}
  }

  /** from_item accepts the outbox row of an event that is within the limits. */
  lemma OutboxAccepts(loads: Loads, numberIs: NumberIs, finding: string, e: Event, id: string, at: real)
    requires Reads(loads, true) && NumbersRead(loads, e) && forall n: nat :: numberIs(Decimal(n), n)
    requires IsHexId(id) && IsHexId(e.eventId) && e.sequence >= 1 && WithinLimits(finding, e)
    ensures WellFormedMessage(loads, numberIs, id, OutboxMessageOf(finding, e, at))
  {
    hide Held, Canonical, PayloadFields, Reads, Decimal;
    PayloadHeld(loads, finding, e);
    PayloadGet(finding, e);
    assert !IsSpace(e.eventId[0]);
    assert CanonicalEvent(loads, numberIs, PayloadFields(finding, e), OutboxMessageOf(finding, e, at));
  }

  // ----- The event as json.loads returns it -----

  /** Putting an object's values in normal form first changes nothing. */
  lemma NormalizeTwice(a: seq<Member>, b: seq<Member>)
    requires WellFormed(Obj(b)) && |a| == |b|
    requires forall i :: 0 <= i < |a| ==> a[i].key == b[i].key && a[i].value == Normalize(b[i].value)
    ensures Normalize(Obj(a)) == Normalize(Obj(b))
  {
    NormalizeObject(a);
    NormalizeObject(b);
    forall i | 0 <= i < |a| ensures NormalMembers(a)[i] == NormalMembers(b)[i] { NormalizeIdempotent(b[i].value); }
    assert NormalMembers(a) == NormalMembers(b);
  }

  /** Reading an object back keeps its keys. */
  lemma NormalKeys(ms: seq<Member>, keys: seq<string>)
    requires WellFormed(Obj(ms)) && |ms| == |keys| && forall i :: 0 <= i < |ms| ==> ms[i].key == keys[i]
    ensures Normalize(Obj(ms)).Obj? && HasKeys(Normalize(Obj(ms)).members, keys)
  {
    NormalizeObject(ms);
    NormalizeWellFormed(Obj(ms));
    var ns := Normalize(Obj(ms)).members;
    forall k | k in keys ensures Get(ns, k).Some? {
      var i :| 0 <= i < |keys| && keys[i] == k;
      GetIs(ms, ms[i]);
      GetNormal(ms, k);
    }
    forall i | 0 <= i < |ns| ensures ns[i].key in keys {
      assert ns[i] in ns;
      InSort(NormalMembers(ms), ns[i]);
      var m := NormalMemberOf(ms, ns[i]);
      var j :| 0 <= j < |ms| && ms[j] == m;
      assert keys[j] == m.key;
    }
  }

  lemma PayloadKeys(finding: string, e: Event)
    ensures var ms := PayloadFields(finding, e);
            |ms| == |EVENT_KEYS| && (forall i :: 0 <= i < |ms| ==> ms[i].key == EVENT_KEYS[i])
            && ms[..|CHAIN_KEYS|] == BodyOf(finding, e)
  {
  }

  /** The hashed part of an event read back has the canonical text it was hashed in. */
  lemma ReadBackBody(ms: seq<Member>)
    requires WellFormed(Obj(ms)) && |CHAIN_KEYS| <= |ms| && forall i :: 0 <= i < |CHAIN_KEYS| ==>
               ms[i].key == CHAIN_KEYS[i]
    ensures Normalize(Obj(ms)).Obj?
    ensures var ns := Normalize(Obj(ms)).members;
            (forall k :: k in CHAIN_KEYS ==> Get(ns, k).Some?)
            && Canonical(Obj(ChainBody(ns, CHAIN_KEYS)), true) == Canonical(Obj(ms[..|CHAIN_KEYS|]), true)
  {
    hide WellFormed, Dump, Normalize;
    NormalizeObject(ms);
    var ns, keys := Normalize(Obj(ms)).members, CHAIN_KEYS;
    forall i | 0 <= i < |keys| ensures Get(ns, keys[i]) == Some(Normalize(ms[i].value)) {
      WellFormedDistinct(ms);
      GetIs(ms, ms[i]);
      GetNormal(ms, keys[i]);
    }
    forall k | k in keys ensures Get(ns, k).Some? {
      var i :| 0 <= i < |keys| && keys[i] == k;
    }
    WellFormedPrefix(ms, |keys|);
    NormalizeTwice(ChainBody(ns, keys), ms[..|keys|]);
  }

  lemma WellFormedDistinct(ms: seq<Member>)
    requires WellFormed(Obj(ms))
    ensures DistinctKeys(ms)
  {
  }

  lemma WellFormedPrefix(ms: seq<Member>, n: nat)
    requires WellFormed(Obj(ms)) && n <= |ms|
    ensures WellFormed(Obj(ms[..n]))
  {
  }

  /** The dictionary holds the event's fields. */
  ghost predicate ReadsAs(ms: seq<Member>, finding: string, e: Event) {
    && Get(ms, "finding_id") == Some(Str(finding)) && Get(ms, "event_type") == Some(Str(TypeName(e.change)))
    && Get(ms, "actor_id") == Some(Str(e.actor.id)) && Get(ms, "actor_role") == Some(Str(RoleName(e.actor.role)))
    && Get(ms, "auth_method") == Some(Str(e.actor.authMethod)) && Get(ms, "occurred_at") == Some(Num(e.occurredAt))
    && Get(ms, "details").Some? && Get(ms, "details").value.Obj? && Get(ms, PREVIOUS) == Some(Str(e.previousHash))
    && Get(ms, "event_id") == Some(Str(e.eventId)) && Get(ms, "event_sequence") == Some(Num(Decimal(e.sequence)))
    && Get(ms, "event_hash") == Some(Str(e.eventHash))
  }

  lemma ReadBackFields(loads: Loads, finding: string, e: Event)
    requires NumbersRead(loads, e)
    ensures var n := Normalize(Obj(PayloadFields(finding, e))); n.Obj? && ReadsAs(n.members, finding, e)
  {
    hide PayloadFields, Details, WellFormed, NumbersKept, TypeName, RoleName, Decimal;
    PayloadGet(finding, e);
    PayloadHeld(loads, finding, e);
    var ms := PayloadFields(finding, e);
    GetNormal(ms, "details");
    assert Normalize(Obj(Details(e.change))).Obj?;
    hide Get, Normalize;
    NormalLeaf(ms, "finding_id", Str(finding));
    NormalLeaf(ms, "event_type", Str(TypeName(e.change)));
    NormalLeaf(ms, "actor_id", Str(e.actor.id));
    NormalLeaf(ms, "actor_role", Str(RoleName(e.actor.role)));
    NormalLeaf(ms, "auth_method", Str(e.actor.authMethod));
    NormalLeaf(ms, "occurred_at", Num(e.occurredAt));
    NormalLeaf(ms, PREVIOUS, Str(e.previousHash));
    NormalLeaf(ms, "event_id", Str(e.eventId));
    NormalLeaf(ms, "event_sequence", Num(Decimal(e.sequence)));
    NormalLeaf(ms, "event_hash", Str(e.eventHash));
  }

  /** A text or a number is read back from the normal form as it was put in. */
  lemma NormalLeaf(ms: seq<Member>, key: string, v: Json)
    requires WellFormed(Obj(ms)) && Get(ms, key) == Some(v) && (v.Str? || v.Num?)
    ensures Normalize(Obj(ms)).Obj? && Get(Normalize(Obj(ms)).members, key) == Some(v)
  {
    hide Get, WellFormed;
    GetNormal(ms, key);
  }

  lemma ReadBackHash(sha: Digest, loads: Loads, finding: string, e: Event)
    requires NumbersRead(loads, e) && e.eventHash == sha(EventText(e.previousHash, BodyOf(finding, e)))
    ensures var n := Normalize(Obj(PayloadFields(finding, e)));
            n.Obj? && HasKeys(n.members, EVENT_KEYS) && TextAt(n.members, PREVIOUS) == Some(e.previousHash)
            && ChainHashOk(sha, n.members)
  {
    hide PayloadFields, BodyOf, WellFormed, NumbersKept, HasKeys, Canonical, ChainBody, Normalize;
    PayloadHeld(loads, finding, e);
    PayloadKeys(finding, e);
    ReadBackFields(loads, finding, e);
    NormalKeys(PayloadFields(finding, e), EVENT_KEYS);
    ReadBackBody(PayloadFields(finding, e));
  }

  /** The checks on one event's fields, from the values the fields hold. */
  lemma FieldsPass(ms: seq<Member>, finding: string, e: Event)
    requires ReadsAs(ms, finding, e)
    requires IsHexId(e.eventId) && IsHex64(e.eventHash) && e.sequence >= 1 && WithinLimits(finding, e)
    requires e.previousHash == "" || IsHex64(e.previousHash)
    ensures IdentityOk(ms) && PayloadOk(ms)
    ensures ScalarOk(ms, "event_type") && ScalarOk(ms, "actor_id") && ScalarOk(ms, "actor_role")
    ensures ScalarOk(ms, "auth_method")
  {
    hide IsHexId, IsHex64, Payload, PayloadFields, Utf8Size, IntegerOf, TypeName, RoleName, Get, Blank, Decimal;
    DecimalInteger(e.sequence);
    TypeNameShort(e.change);
  }

  /** serialize_event accepts the event read back from its export row, within the limits. */
  lemma ExportAccepts(sha: Digest, loads: Loads, finding: string, e: Event)
    requires Reads(loads, true) && NumbersRead(loads, e) && Hexadecimal(sha)
    requires IsHexId(e.eventId) && e.sequence >= 1 && WithinLimits(finding, e)
    requires e.previousHash == "" || IsHex64(e.previousHash)
    requires e.eventHash == sha(EventText(e.previousHash, BodyOf(finding, e)))
    ensures var v := loads(Payload(finding, e)); v.Some? && SerializeEvent(sha, v.value).Ok?
  {
    hide Held, PayloadFields, Reads, BodyOf, EventText, ObjectKey, IsHexId, IsHex64, Canonical, Utf8Size;
    hide IdentityOk, ScalarOk, PayloadOk, ChainHashOk, HasKeys, ReadsAs, NumbersRead;
    ReadsPayload(loads, finding, e);
    ReadBackHash(sha, loads, finding, e);
    ReadBackFields(loads, finding, e);
    FieldsPass(Normalize(Obj(PayloadFields(finding, e))).members, finding, e);
    NotEmptyText(loads, finding, e);
    SizeWithin(finding, e);
  }

  lemma SizeWithin(finding: string, e: Event)
    requires WithinLimits(finding, e)
    ensures Utf8Size(Canonical(Obj(PayloadFields(finding, e)), false)) <= MAX_AUDIT_EVENT_BYTES
  {
  }

  lemma TypeNameShort(c: Change)
    ensures !Blank(TypeName(c)) && |TypeName(c)| <= 128
    ensures forall r: Role :: !Blank(RoleName(r)) && |RoleName(r)| <= 128
  {
    assert !IsSpace(TypeName(c)[0]);
    assert forall r: Role :: !IsSpace(RoleName(r)[0]);
  }

  lemma ReadsPayload(loads: Loads, finding: string, e: Event)
    requires Reads(loads, true) && NumbersRead(loads, e)
    ensures var n := Normalize(Obj(PayloadFields(finding, e)));
            loads(Payload(finding, e)) == Some(n)
              && Canonical(n, false) == Canonical(Obj(PayloadFields(finding, e)), false)
  {
    hide PayloadFields, Dump;
    PayloadHeld(loads, finding, e);
    NormalizeHeld(loads, Obj(PayloadFields(finding, e)));
    NormalizeIdempotent(Obj(PayloadFields(finding, e)));
  }

  lemma NotEmptyText(loads: Loads, finding: string, e: Event)
    requires NumbersRead(loads, e)
    ensures Utf8Size(Canonical(Obj(PayloadFields(finding, e)), false)) > 0
  {
    hide PayloadFields;
    PayloadHeld(loads, finding, e);
    NormalizeWellFormed(Obj(PayloadFields(finding, e)));
    PrintLead(Normalize(Obj(PayloadFields(finding, e))), false, "");
  }
}
