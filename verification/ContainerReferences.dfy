/**
  * The check of security_assessment.py that every FROM and every COPY --from
  * reference is immutable. shlex tokens and the shell-form source list are
  * inputs; `lower` stands for Python's str.lower.
  */
module ContainerReferences {
  import opened Basics
  import opened BuilderFlags

  /**
    * A parsed instruction: FROM's shlex tokens (None when shlex rejects them),
    * COPY's argument and whether its sources parse.
    */
  datatype Step = From(tokens: Option<seq<string>>) | Copy(argument: string, sourcesParse: bool) | Other

  datatype Stage = Stage(image: string, alias: Option<string>)

  /** What a check is run under: the allowed unpinned bases, the escape character and str.lower. */
  datatype Policy = Policy(allowed: set<string>, escape: char, lower: string -> string)

  // ----- Parsing one reference -----

  /** str.partition("="). */
  function Partition(s: string): (string, bool, string) {
    if s == "" then ("", false, "")
    else if s[0] == '=' then ("", true, s[1..])
    else
      var (name, found, value) := Partition(s[1..]);
      ([s[0]] + name, found, value)
  }

  predicate StartsWithDashes(s: string) {
    |s| >= 2 && s[0] == '-' && s[1] == '-'
  }

  predicate IsAs(s: string) {
    |s| == 2 && s[0] in {'a', 'A'} && (s[1] in {'s', 'S'} || s[1] as int == 0x17F)
  }

  function FromTokens(tokens: seq<string>): Option<Stage> {
    if tokens != [] && StartsWithDashes(tokens[0]) then
      var (name, found, value) := Partition(tokens[0][2..]);
      if name != "platform" || !found || value == "" then None else FromTokens(tokens[1..])
    else if |tokens| == 1 then Some(Stage(tokens[0], None))
    else if |tokens| == 3 && IsAs(tokens[1]) then Some(Stage(tokens[0], Some(tokens[2])))
    else None
  }

  function FromSpec(tokens: Option<seq<string>>): Option<Stage> {
    if tokens.None? then None else FromTokens(tokens.value)
  }

  /** One reviewed COPY flag: its name and value. */
  function CopyFlagValue(flag: string): Option<(string, string)> {
    var (name, found, value) := Partition(if |flag| >= 2 then flag[2..] else "");
    if name in {"chown", "chmod", "exclude", "from"} then
      if !found || value == "" then None else Some((name, value))
    else if name in {"link", "parents"} then
      if found && value !in {"true", "false"} then None else Some((name, value))
    else None
  }

  /** The --from value among the flags; a repeated one is refused. */
  function CopyFrom(flags: seq<string>, seen: Option<string>): Option<Option<string>>
    decreases |flags|
  {
    if flags == [] then Some(seen)
    else
      var parsed := CopyFlagValue(flags[0]);
      if parsed.None? then None
      else if parsed.value.0 == "from" then
        if seen.Some? then None else CopyFrom(flags[1..], Some(parsed.value.1))
      else CopyFrom(flags[1..], seen)
  }

  function CopySpec(c: Step, escape: char): Option<Option<string>>
    requires c.Copy?
  {
    var reference := CopyFrom(Run(escape, c.argument, START).words, None);
    if reference.None? || !c.sourcesParse then None else reference
  }

  predicate AllDigits(s: string) {
    s != "" && forall i :: 0 <= i < |s| ==> '0' <= s[i] <= '9'
  }

  /** The reference ends in a complete lower-case SHA-256 digest. */
  predicate IsDigestPinned(reference: string) {
    var n := |reference|;
    n >= 72 && reference[n - 72..n - 64] == "@sha256:" && forall i :: n - 64 <= i < n ==> IsHex(reference[i])
  }

  predicate IsPriorStage(reference: string, aliases: set<string>, count: nat, lower: string -> string) {
    lower(reference) in aliases || (AllDigits(reference) && DigitsValue(reference) < count)
  }

  // ----- The loop -----

  method ReferencesAreImmutable(steps: seq<Step>, policy: Policy) returns (passed: bool)
    ensures passed <==> Immutable(steps, policy)
  {
    var aliases: set<string> := {};
    var count := 0;
    for i := 0 to |steps|
      invariant forall j :: 0 <= j < i ==> StepPasses(steps, j, policy)
      invariant aliases == Aliases(Stages(steps[..i]), policy.lower) && count == |Stages(steps[..i])|
    {
      assert steps[..i + 1] == steps[..i] + [steps[i]];
      StagesAppend(steps[..i], steps[i]);
      ghost var before := Stages(steps[..i]);
      assert before + [] == before;
      match steps[i] {
        case From(tokens) =>
          var parsed := FromSpec(tokens);
          if parsed.None? { assert !StepPasses(steps, i, policy); return false; }
          var image := parsed.value.image;
          if !(IsPriorStage(image, aliases, count, policy.lower) || image in policy.allowed || IsDigestPinned(image)) {
            assert !StepPasses(steps, i, policy);
            return false;
          }
          AliasesAppend(before, parsed.value, policy.lower);
          if parsed.value.alias.Some? && parsed.value.alias.value != "" {
            aliases := aliases + {policy.lower(parsed.value.alias.value)};
          }
          count := count + 1;
        case Copy(_, _) =>
          var spec := CopySpec(steps[i], policy.escape);
          if spec.None? { assert !StepPasses(steps, i, policy); return false; }
          if spec.value.Some? && !IsPriorStage(spec.value.value, aliases, count, policy.lower)
             && !IsDigestPinned(spec.value.value)
          {
            assert !StepPasses(steps, i, policy);
            return false;
          }
        case Other =>
      }
    }
    assert steps[..|steps|] == steps;
    passed := count > 0;
  }

  // ----- What passing means, step by step -----

  /** The stages declared by FROM instructions, in order. */
  function Stages(steps: seq<Step>): seq<Stage> {
    if steps == [] then []
    else if steps[0].From? && FromSpec(steps[0].tokens).Some? then
      [FromSpec(steps[0].tokens).value] + Stages(steps[1..])
    else Stages(steps[1..])
  }

  lemma {:induction false} StagesAppend(steps: seq<Step>, step: Step)
    ensures Stages(steps + [step]) ==
            Stages(steps) + (if step.From? && FromSpec(step.tokens).Some? then [FromSpec(step.tokens).value] else [])
  {
    if steps == [] {
      assert steps + [step] == [step];
    } else {
      assert (steps + [step])[1..] == steps[1..] + [step];
      StagesAppend(steps[1..], step);
    }
  }

  predicate Named(stage: Stage, lowered: string, lower: string -> string) {
    stage.alias.Some? && stage.alias.value != "" && lower(stage.alias.value) == lowered
  }

  function Aliases(stages: seq<Stage>, lower: string -> string): set<string> {
    set i | 0 <= i < |stages| && stages[i].alias.Some? && stages[i].alias.value != "" :: lower(stages[i].alias.value)
  }

  lemma AliasesAppend(stages: seq<Stage>, stage: Stage, lower: string -> string)
    ensures Aliases(stages + [stage], lower) ==
            Aliases(stages, lower)
            + (if stage.alias.Some? && stage.alias.value != "" then {lower(stage.alias.value)} else {})
  {
    var all := stages + [stage];
    assert forall i :: 0 <= i < |stages| ==> all[i] == stages[i];
    assert all[|stages|] == stage;
    forall a | a in Aliases(stages, lower) ensures a in Aliases(all, lower) {
      var i :| 0 <= i < |stages| && stages[i].alias.Some? && stages[i].alias.value != ""
          && lower(stages[i].alias.value) == a;
      assert all[i] == stages[i];
    }
  }

  ghost predicate StepPasses(steps: seq<Step>, i: nat, policy: Policy)
    requires i < |steps|
  {
    var before := Stages(steps[..i]);
    var aliases := Aliases(before, policy.lower);
    match steps[i]
    case From(tokens) =>
      var parsed := FromSpec(tokens);
      parsed.Some?
      && (IsPriorStage(parsed.value.image, aliases, |before|, policy.lower)
          || parsed.value.image in policy.allowed || IsDigestPinned(parsed.value.image))
    case Copy(_, _) =>
      var spec := CopySpec(steps[i], policy.escape);
      spec.Some?
      && (spec.value.Some? ==>
            IsPriorStage(spec.value.value, aliases, |before|, policy.lower) || IsDigestPinned(spec.value.value))
    case Other => true
  }

  ghost predicate Immutable(steps: seq<Step>, policy: Policy) {
    Stages(steps) != [] && forall i :: 0 <= i < |steps| ==> StepPasses(steps, i, policy)
  }

  // ----- Where references lead -----

  /** What a reference means after the given stages: an earlier stage, or an image from outside. */
  datatype Target = ToStage(index: nat) | External(image: string)

  /** The latest of the first n stages with the given lowered name. */
  function LatestNamed(stages: seq<Stage>, n: nat, lowered: string, lower: string -> string): (r: Option<nat>)
    requires n <= |stages|
    ensures r.Some? ==> r.value < n && Named(stages[r.value], lowered, lower)
    ensures r.None? ==> forall i :: 0 <= i < n ==> !Named(stages[i], lowered, lower)
  {
    if n == 0 then None
    else if Named(stages[n - 1], lowered, lower) then Some(n - 1)
    else LatestNamed(stages, n - 1, lowered, lower)
  }

  /** A stage name comes first, then a stage number, then an outside image. */
  function Resolve(stages: seq<Stage>, n: nat, reference: string, lower: string -> string): (t: Target)
    requires n <= |stages|
    ensures t.ToStage? ==> t.index < n
  {
    var named := LatestNamed(stages, n, lower(reference), lower);
    if named.Some? then ToStage(named.value)
    else if AllDigits(reference) && DigitsValue(reference) < n then ToStage(DigitsValue(reference))
    else External(reference)
  }

  /** The outside image stage k is built from, following FROM references to earlier stages. */
  function Base(stages: seq<Stage>, k: nat, lower: string -> string): string
    requires k < |stages|
    decreases k
  {
    match Resolve(stages, k, stages[k].image, lower)
    case ToStage(j) => Base(stages, j, lower)
    case External(image) => image
  }

  lemma PriorResolves(stages: seq<Stage>, n: nat, reference: string, lower: string -> string)
    requires n <= |stages|
    ensures IsPriorStage(reference, Aliases(stages[..n], lower), n, lower) <==>
              Resolve(stages, n, reference, lower).ToStage?
  {
    var before := stages[..n];
    var named := LatestNamed(stages, n, lower(reference), lower);
    if named.Some? {
      assert before[named.value] == stages[named.value];
    }
  }

  /** The k-th stage comes from a FROM instruction that has exactly k stages before it. */
  lemma {:induction false} StageAt(steps: seq<Step>, k: nat) returns (i: nat)
    requires k < |Stages(steps)|
    ensures i < |steps| && steps[i].From? && FromSpec(steps[i].tokens) == Some(Stages(steps)[k])
    ensures Stages(steps[..i]) == Stages(steps)[..k]
    decreases |steps|
  {
    var n := |steps| - 1;
    assert steps == steps[..n] + [steps[n]];
    StagesAppend(steps[..n], steps[n]);
    if k < |Stages(steps[..n])| {
      i := StageAt(steps[..n], k);
      assert steps[..n][..i] == steps[..i];
      assert Stages(steps[..n])[..k] == Stages(steps)[..k];
    } else {
      i := n;
      assert Stages(steps)[..k] == Stages(steps[..n]);
    }
  }

  ghost predicate Trusted(image: string, policy: Policy) {
    IsDigestPinned(image) || image in policy.allowed
  }

  /** When the check passes, every stage's FROM chain ends at a pinned or allowed image. */
  lemma {:induction false} BasesAreTrusted(steps: seq<Step>, policy: Policy, k: nat)
    requires Immutable(steps, policy) && k < |Stages(steps)|
    ensures Trusted(Base(Stages(steps), k, policy.lower), policy)
    decreases k
  {
    var stages := Stages(steps);
    var i := StageAt(steps, k);
    assert StepPasses(steps, i, policy);
    PriorResolves(stages, k, stages[k].image, policy.lower);
    var target := Resolve(stages, k, stages[k].image, policy.lower);
    if target.ToStage? { BasesAreTrusted(steps, policy, target.index); }
  }

  lemma {:induction false} StagesPrefix(steps: seq<Step>, i: nat)
    requires i <= |steps|
    ensures |Stages(steps[..i])| <= |Stages(steps)| && Stages(steps)[..|Stages(steps[..i])|] == Stages(steps[..i])
    decreases |steps|
  {
    if i == |steps| {
      assert steps[..i] == steps;
    } else {
      var n := |steps| - 1;
      assert steps == steps[..n] + [steps[n]];
      StagesAppend(steps[..n], steps[n]);
      assert steps[..n][..i] == steps[..i];
      StagesPrefix(steps[..n], i);
    }
  }

  ghost predicate TargetTrusted(stages: seq<Stage>, target: Target, policy: Policy) {
    if target.ToStage? then target.index < |stages| && Trusted(Base(stages, target.index, policy.lower), policy)
    else IsDigestPinned(target.image)
  }

  /** When the check passes, COPY --from leads to a declared stage built on a trusted image, or to a pinned image. */
  lemma CopiesAreTrusted(steps: seq<Step>, policy: Policy, i: nat)
    requires Immutable(steps, policy) && i < |steps| && steps[i].Copy?
    ensures var spec := CopySpec(steps[i], policy.escape);
            spec.Some? && (spec.value.Some? ==>
              var stages := Stages(steps);
              var n := |Stages(steps[..i])|;
              n <= |stages| && TargetTrusted(stages, Resolve(stages, n, spec.value.value, policy.lower), policy))
  {
    assert StepPasses(steps, i, policy);
    StagesPrefix(steps, i);
    var spec := CopySpec(steps[i], policy.escape);
    if spec.value.Some? {
      var n := |Stages(steps[..i])|;
      PriorResolves(Stages(steps), n, spec.value.value, policy.lower);
      var target := Resolve(Stages(steps), n, spec.value.value, policy.lower);
      if target.ToStage? { BasesAreTrusted(steps, policy, target.index); }
    }
  }
}
