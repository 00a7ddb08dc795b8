/**
 The office manager's authority policy, the proposals it lets through, and the
 audit chain they are written to.

 Texts arrive trimmed; the search for sensitive keys in parameters is a check
 whose answer is the parameter `sensitive`.
 */
module OfficeManager {
  import opened Wrappers
  import opened Sorting
  import opened HashChain

  datatype Authority = Observe | Prepare | Routine | Conditional | Restricted

  function Order(a: Authority): nat {
    match a
    case Observe => 1
    case Prepare => 2
    case Routine => 3
    case Conditional => 4
    case Restricted => 5
  }

  datatype Rule = Rule(prefix: string, authority: Authority)

  datatype Policy = Policy(
    autonomy: Authority,
    executionEnabled: bool,
    rules: seq<Rule>,
    confirmPrefixes: seq<string>,
    blockedPrefixes: seq<string>)

  datatype InstructionEffect = Deny | RequireConfirmation | Prefer

  datatype Instruction = Instruction(domain: string, effect: InstructionEffect, enabled: bool)

  datatype Authorization = Blocked | ConfirmationRequired | Allowed

  datatype Decision = Decision(authority: Authority, authorization: Authorization, executable: bool)

  predicate PrefixMatch(capability: string, prefix: string) {
    capability == prefix || prefix + "." <= capability
  }

  predicate AnyPrefix(capability: string, prefixes: seq<string>) {
    exists i :: 0 <= i < |prefixes| && PrefixMatch(capability, prefixes[i])
  }

  predicate LongerFirst(a: Rule, b: Rule) {
    |a.prefix| >= |b.prefix|
  }

  function Matching(rules: seq<Rule>, capability: string): seq<Rule> {
    if rules == [] then []
    else (if PrefixMatch(capability, rules[0].prefix) then [rules[0]] else []) + Matching(rules[1..], capability)
  }

  /** The rule that decides, if any rule matches. */
  function RequiredAuthority(p: Policy, capability: string): Option<Authority> {
    var matches := SortBy(LongerFirst, Matching(p.rules, capability));
    if matches == [] then None else Some(matches[0].authority)
  }

  lemma {:induction false} MatchingMeans(rules: seq<Rule>, capability: string, r: Rule)
    ensures r in Matching(rules, capability) <==> r in rules && PrefixMatch(capability, r.prefix)
  {
    if rules != [] {
      MatchingMeans(rules[1..], capability, r);
      assert r in rules <==> r == rules[0] || r in rules[1..];
    }
  }

  lemma LongerFirstIsTotal()
    ensures TotalPreorder(LongerFirst)
  {}

  /** The most specific matching rule decides; a capability is unknown only if no rule matches it. */
  lemma MostSpecificRuleDecides(p: Policy, capability: string)
    ensures RequiredAuthority(p, capability).None? <==>
              forall r :: r in p.rules ==> !PrefixMatch(capability, r.prefix)
    ensures RequiredAuthority(p, capability).Some? ==>
              exists r :: r in p.rules && PrefixMatch(capability, r.prefix)
                && RequiredAuthority(p, capability) == Some(r.authority)
                && forall s :: s in p.rules && PrefixMatch(capability, s.prefix) ==> |s.prefix| <= |r.prefix|
  {
    var sorted := SortBy(LongerFirst, Matching(p.rules, capability));
    LongerFirstIsTotal();
    SortByIsSorted(LongerFirst, Matching(p.rules, capability));
    forall r
      ensures r in sorted <==> r in p.rules && PrefixMatch(capability, r.prefix)
    {
      MatchesAreSorted(p, capability, r);
    }
    hide SortBy, Matching, PrefixMatch;
    if sorted != [] {
      assert sorted[0] in sorted;
      forall s | s in sorted ensures |s.prefix| <= |sorted[0].prefix| {
        var k :| 0 <= k < |sorted| && sorted[k] == s;
        assert k == 0 || LongerFirst(sorted[0], sorted[k]);
      }
    }
  }

  lemma MatchesAreSorted(p: Policy, capability: string, r: Rule)
    ensures r in SortBy(LongerFirst, Matching(p.rules, capability)) <==> r in p.rules && PrefixMatch(capability, r.prefix)
  {
    hide PrefixMatch;
    var found := Matching(p.rules, capability);
    var sorted := SortBy(LongerFirst, found);
    MatchingMeans(p.rules, capability, r);
    assert r in sorted <==> r in multiset(sorted);
    assert r in found <==> r in multiset(found);
  }

  ghost predicate Applies(instructions: seq<Instruction>, capability: string, effect: InstructionEffect) {
    exists i :: 0 <= i < |instructions| && Concerns(instructions[i], capability, effect)
  }

  predicate Concerns(x: Instruction, capability: string, effect: InstructionEffect) {
    x.enabled && x.effect == effect && PrefixMatch(capability, x.domain)
  }

  /** The gates in their order; `denied` and `confirm` are what the standing instructions say. */
  function Evaluate(p: Policy, capability: string, denied: bool, confirm: bool): Decision {
    var authority := RequiredAuthority(p, capability);
    if denied then Decision(if authority.Some? then authority.value else Restricted, Blocked, false)
    else if authority.None? || authority.value.Restricted? then Decision(Restricted, Blocked, false)
    else if AnyPrefix(capability, p.blockedPrefixes) then Decision(authority.value, Blocked, false)
    else if AnyPrefix(capability, p.confirmPrefixes) || confirm || Order(authority.value) > Order(p.autonomy) then
      Decision(authority.value, ConfirmationRequired, false)
    else
      Decision(authority.value, Allowed, Executable(p, authority.value))
  }

  predicate Executable(p: Policy, a: Authority) {
    p.executionEnabled && !a.Observe? && !a.Prepare? && !a.Restricted?
  }

  ghost function EvaluateUnder(p: Policy, instructions: seq<Instruction>, capability: string): Decision {
    Evaluate(p, capability, Applies(instructions, capability, Deny), Applies(instructions, capability, RequireConfirmation))
  }

  function Permits(d: Decision): nat {
    match d.authorization
    case Blocked => 0
    case ConfirmationRequired => 1
    case Allowed => if d.executable then 3 else 2
  }

  /** Standing instructions only restrict: adding some never permits more, whatever their effect or domain. */
  lemma InstructionsOnlyRestrict(p: Policy, instructions: seq<Instruction>, more: seq<Instruction>, capability: string)
    ensures Permits(EvaluateUnder(p, instructions + more, capability)) <= Permits(EvaluateUnder(p, instructions, capability))
  {
    var all := instructions + more;
    forall effect | Applies(instructions, capability, effect)
      ensures Applies(all, capability, effect)
    {
      var i :| 0 <= i < |instructions| && Concerns(instructions[i], capability, effect);
      assert all[i] == instructions[i];
    }
    hide Applies, AnyPrefix, RequiredAuthority;
  }

  // ------------------------------------------------------------ decisions in full

  /** A prefix covers itself and everything below it. */
  predicate Covers(prefix: string, capability: string) {
    || capability == prefix
    || (|capability| > |prefix| && capability[..|prefix|] == prefix && capability[|prefix|] == '.')
  }

  ghost predicate CoveredByAny(prefixes: seq<string>, capability: string) {
    exists prefix :: prefix in prefixes && Covers(prefix, capability)
  }

  /** Some instruction in force has this effect on the capability. */
  ghost predicate Instructed(instructions: seq<Instruction>, capability: string, effect: InstructionEffect) {
    exists x :: x in instructions && x.enabled && x.effect == effect && Covers(x.domain, capability)
  }

  /** The rule decides: it covers the capability, and is the first of the longest that do. */
  ghost predicate Decides(rules: seq<Rule>, capability: string, i: nat) {
    && i < |rules| && Covers(rules[i].prefix, capability)
    && (forall j :: 0 <= j < |rules| && Covers(rules[j].prefix, capability) ==> |rules[j].prefix| <= |rules[i].prefix|)
    && (forall j :: 0 <= j < i && Covers(rules[j].prefix, capability) ==> |rules[j].prefix| < |rules[i].prefix|)
  }

  /** Restricted exceeds conditional exceeds routine exceeds prepare exceeds observe. */
  predicate Exceeds(a: Authority, autonomy: Authority) {
    match autonomy
    case Observe => !a.Observe?
    case Prepare => !a.Observe? && !a.Prepare?
    case Routine => a.Conditional? || a.Restricted?
    case Conditional => a.Restricted?
    case Restricted => false
  }

  /** What is decided about a capability that a rule of some authority covers. */
  ghost predicate IsDecidedAs(p: Policy, instructions: seq<Instruction>, capability: string, a: Authority, d: Decision) {
    && d.authority == a
    && (d.authorization.Blocked? <==>
          a.Restricted? || Instructed(instructions, capability, Deny) || CoveredByAny(p.blockedPrefixes, capability))
    && (d.authorization.ConfirmationRequired? <==>
          && !d.authorization.Blocked?
          && (|| CoveredByAny(p.confirmPrefixes, capability)
              || Instructed(instructions, capability, RequireConfirmation)
              || Exceeds(a, p.autonomy)))
    && (d.executable <==> d.authorization.Allowed? && p.executionEnabled && (a.Routine? || a.Conditional?))
  }

  /** A capability that no rule covers is restricted and blocked. */
  ghost predicate IsDecision(p: Policy, instructions: seq<Instruction>, capability: string, d: Decision) {
    && (forall i: nat :: Decides(p.rules, capability, i) ==> IsDecidedAs(p, instructions, capability, p.rules[i].authority, d))
    && ((forall r :: r in p.rules ==> !Covers(r.prefix, capability)) ==> d == Decision(Restricted, Blocked, false))
    && ((exists r :: r in p.rules && Covers(r.prefix, capability)) ==> exists i: nat :: Decides(p.rules, capability, i))
  }

  lemma CoveringIsMatching(capability: string, prefix: string)
    ensures PrefixMatch(capability, prefix) <==> Covers(prefix, capability)
  {
    if Covers(prefix, capability) && capability != prefix {
      assert capability == prefix + "." + capability[|prefix| + 1..];
    }
  }

  lemma CoveredIsAnyPrefix(capability: string, prefixes: seq<string>)
    ensures AnyPrefix(capability, prefixes) <==> CoveredByAny(prefixes, capability)
  {
    forall prefix { CoveringIsMatching(capability, prefix); }
    hide PrefixMatch, Covers;
    if CoveredByAny(prefixes, capability) {
      var prefix :| prefix in prefixes && Covers(prefix, capability);
      var i :| 0 <= i < |prefixes| && prefixes[i] == prefix;
    }
  }

  lemma InstructedIsApplies(instructions: seq<Instruction>, capability: string, effect: InstructionEffect)
    ensures Applies(instructions, capability, effect) <==> Instructed(instructions, capability, effect)
  {
    forall prefix { CoveringIsMatching(capability, prefix); }
    hide PrefixMatch, Covers;
    if Instructed(instructions, capability, effect) {
      var x :| x in instructions && x.enabled && x.effect == effect && Covers(x.domain, capability);
      var i :| 0 <= i < |instructions| && instructions[i] == x;
      assert Concerns(instructions[i], capability, effect);
    }
  }

  lemma {:induction false} FirstLongestDecides(rules: seq<Rule>, capability: string) returns (i: nat)
    requires Matching(rules, capability) != []
    ensures i < |rules| && Decides(rules, capability, i)
    ensures |SortBy(LongerFirst, Matching(rules, capability))| > 0
    ensures SortBy(LongerFirst, Matching(rules, capability))[0] == rules[i]
  {
    hide Covers, SortBy, Decides, Matching;
    assert rules != [] by { NoRulesNoMatch(capability); }
    if Matching(rules[1..], capability) == [] {
      i := 0;
      OnlyTheFirstMatches(rules, capability);
    } else {
      var k := FirstLongestDecides(rules[1..], capability);
      i := FirstOrRest(rules, capability, k);
      DecidesAmongMore(rules, capability, k, i);
    }
  }

  lemma NoRulesNoMatch(capability: string)
    ensures Matching([], capability) == []
  {}

  lemma OnlyTheFirstMatches(rules: seq<Rule>, capability: string)
    requires rules != [] && Matching(rules, capability) != [] && Matching(rules[1..], capability) == []
    ensures Decides(rules, capability, 0) && SortBy(LongerFirst, Matching(rules, capability)) == [rules[0]]
  {
    CoveringIsMatching(capability, rules[0].prefix);
    NothingMatches(rules[1..], capability);
    SortOfOne(rules[0]);
    hide PrefixMatch, Covers, SortBy;
    assert Matching(rules, capability) == [rules[0]];
    assert forall j :: 1 <= j < |rules| ==> rules[j] == rules[1..][j - 1];
  }

  lemma FirstOrRest(rules: seq<Rule>, capability: string, k: nat) returns (i: nat)
    requires rules != [] && Matching(rules[1..], capability) != [] && k < |rules[1..]|
    requires |SortBy(LongerFirst, Matching(rules[1..], capability))| > 0
    requires SortBy(LongerFirst, Matching(rules[1..], capability))[0] == rules[1..][k]
    ensures i == if Covers(rules[0].prefix, capability) && |rules[0].prefix| >= |rules[1..][k].prefix| then 0 else k + 1
    ensures i < |rules| && |SortBy(LongerFirst, Matching(rules, capability))| > 0
    ensures SortBy(LongerFirst, Matching(rules, capability))[0] == rules[i]
  {
    CoveringIsMatching(capability, rules[0].prefix);
    hide PrefixMatch, Covers, SortBy;
    if Covers(rules[0].prefix, capability) {
      assert Matching(rules, capability)[1..] == Matching(rules[1..], capability);
      HeadOfSorted(Matching(rules, capability));
      i := if |rules[0].prefix| >= |rules[1..][k].prefix| then 0 else k + 1;
    } else {
      assert Matching(rules, capability) == Matching(rules[1..], capability);
      i := k + 1;
    }
  }

  lemma DecidesAmongMore(rules: seq<Rule>, capability: string, k: nat, i: nat)
    requires rules != [] && k < |rules[1..]| && Decides(rules[1..], capability, k)
    requires i == if Covers(rules[0].prefix, capability) && |rules[0].prefix| >= |rules[1..][k].prefix| then 0 else k + 1
    ensures Decides(rules, capability, i)
  {
    hide Covers;
    assert forall j :: 1 <= j < |rules| ==> rules[j] == rules[1..][j - 1];
  }

  lemma SortOfOne(r: Rule)
    ensures SortBy(LongerFirst, [r]) == [r]
  {
    assert [r][1..] == [];
  }

  lemma HeadOfSorted(rules: seq<Rule>)
    requires |rules| > 1
    ensures |SortBy(LongerFirst, rules)| == |rules| && |SortBy(LongerFirst, rules[1..])| > 0
    ensures var next := SortBy(LongerFirst, rules[1..])[0];
            SortBy(LongerFirst, rules)[0] == if |rules[0].prefix| >= |next.prefix| then rules[0] else next
  {}

  lemma {:induction false} NothingMatches(rules: seq<Rule>, capability: string)
    requires Matching(rules, capability) == []
    ensures forall j :: 0 <= j < |rules| ==> !Covers(rules[j].prefix, capability)
  {
    forall j | 0 <= j < |rules| ensures !Covers(rules[j].prefix, capability) {
      MatchingMeans(rules, capability, rules[j]);
      CoveringIsMatching(capability, rules[j].prefix);
    }
  }

  lemma OnlyOneDecides(rules: seq<Rule>, capability: string, i: nat, j: nat)
    requires Decides(rules, capability, i) && Decides(rules, capability, j)
    ensures i == j
  {
    hide Covers;
  }

  /** The authority is that of the rule that decides, and there is none exactly when no rule covers the capability. */
  lemma AuthorityInFull(p: Policy, capability: string)
    ensures forall i: nat :: Decides(p.rules, capability, i) ==> RequiredAuthority(p, capability) == Some(p.rules[i].authority)
    ensures RequiredAuthority(p, capability).None? <==> forall r :: r in p.rules ==> !Covers(r.prefix, capability)
    ensures RequiredAuthority(p, capability).Some? ==> exists i: nat :: Decides(p.rules, capability, i)
  {
    forall r: Rule { CoveringIsMatching(capability, r.prefix); }
    MostSpecificRuleDecides(p, capability);
    hide PrefixMatch, Covers;
    if Matching(p.rules, capability) != [] {
      var i := FirstLongestDecides(p.rules, capability);
      assert RequiredAuthority(p, capability) == Some(p.rules[i].authority);
      hide RequiredAuthority, SortBy, Matching;
      forall j: nat | Decides(p.rules, capability, j) ensures j == i {
        OnlyOneDecides(p.rules, capability, i, j);
      }
    } else {
      NothingMatches(p.rules, capability);
      assert SortBy(LongerFirst, Matching(p.rules, capability)) == [];
    }
  }

  /** What is blocked, what needs confirmation and what can be carried out, under any instructions. */
  lemma EvaluationInFull(p: Policy, instructions: seq<Instruction>, capability: string)
    ensures IsDecision(p, instructions, capability, EvaluateUnder(p, instructions, capability))
  {
    AuthorityInFull(p, capability);
    CoveredIsAnyPrefix(capability, p.blockedPrefixes);
    CoveredIsAnyPrefix(capability, p.confirmPrefixes);
    InstructedIsApplies(instructions, capability, Deny);
    InstructedIsApplies(instructions, capability, RequireConfirmation);
    hide Applies, AnyPrefix, RequiredAuthority, Covers, CoveredByAny, Instructed, Decides;
  }

  // ------------------------------------------------------------ proposals

  datatype Status = IsBlocked | AwaitingConfirmation | Authorized | Approved

  datatype Proposal = Proposal(capability: string, authority: Authority, executable: bool, status: Status)

  datatype AuditEvent = AuditEvent(actor: string, event: string, object: string, executable: bool, time: string)

  datatype Store = Store(
    instructions: seq<Instruction>,
    proposals: map<string, Proposal>,
    audit: seq<Link<AuditEvent>>)

  datatype Op =
    | AddInstruction(instruction: Instruction, id: string, actor: string, time: string)
    | Propose(id: string, capability: string, sensitive: bool, actor: string, time: string)
    | Approve(id: string, actor: string, time: string)

  function StatusFor(d: Decision): Status {
    match d.authorization
    case Blocked => IsBlocked
    case ConfirmationRequired => AwaitingConfirmation
    case Allowed => Authorized
  }

  predicate CleanText(s: string, maximum: nat) {
    0 < |s| <= maximum && '\0' !in s
  }

  /** The audit row is a second transaction: an actor it refuses leaves the first one in place. */
  function Audited(rows: seq<Link<AuditEvent>>, e: AuditEvent): seq<Link<AuditEvent>> {
    if CleanText(e.actor, 128) then Appended(rows, e) else rows
  }

  ghost predicate MayApprove(p: Policy, s: Store, id: string) {
    && id in s.proposals && s.proposals[id].status.AwaitingConfirmation?
    && RequiredAuthority(p, s.proposals[id].capability).Some?
    && !RequiredAuthority(p, s.proposals[id].capability).value.Restricted?
    && !AnyPrefix(s.proposals[id].capability, p.blockedPrefixes)
    && !Applies(s.instructions, s.proposals[id].capability, Deny)
  }

  function ApprovedProposal(p: Policy, q: Proposal): Proposal
    requires RequiredAuthority(p, q.capability).Some?
  {
    q.(executable := Executable(p, RequiredAuthority(p, q.capability).value), status := Approved)
  }

  function Proposed(d: Decision, capability: string): Proposal {
    Proposal(capability, d.authority, d.executable, StatusFor(d))
  }

  ghost function Apply(p: Policy, s: Store, op: Op): Store {
    match op
    case AddInstruction(x, id, actor, time) =>
      s.(instructions := s.instructions + [x],
         audit := Audited(s.audit, AuditEvent(actor, "instruction.created", id, false, time)))
    case Propose(id, capability, sensitive, actor, time) =>
      var d := EvaluateUnder(p, s.instructions, capability);
      if sensitive || id in s.proposals then s
      else s.(proposals := s.proposals[id := Proposed(d, capability)],
              audit := Audited(s.audit, AuditEvent(actor, "action.proposed", id, d.executable, time)))
    case Approve(id, actor, time) =>
      if !MayApprove(p, s, id) then s
      else
        var q := ApprovedProposal(p, s.proposals[id]);
        s.(proposals := s.proposals[id := q],
           audit := Audited(s.audit, AuditEvent(actor, "action.approved", id, q.executable, time)))
  }

  ghost function After(p: Policy, ops: seq<Op>): Store {
    if ops == [] then Store([], map[], []) else Apply(p, After(p, ops[..|ops| - 1]), ops[|ops| - 1])
  }

  /** A proposal that can be carried out passed every hard gate, and either needed no confirmation or was given it. */
  ghost predicate Cleared(p: Policy, q: Proposal) {
    q.executable ==>
      && p.executionEnabled
      && RequiredAuthority(p, q.capability) in {Some(Routine), Some(Conditional)}
      && !AnyPrefix(q.capability, p.blockedPrefixes)
      && (q.status.Approved?
          || (q.status.Authorized? && !AnyPrefix(q.capability, p.confirmPrefixes)
              && Order(RequiredAuthority(p, q.capability).value) <= Order(p.autonomy)))
  }

  ghost predicate Sound(p: Policy, s: Store) {
    && (forall id :: id in s.proposals ==> Cleared(p, s.proposals[id]))
    && Gaps(s.audit) == [] && InStep(s.audit)
  }

  lemma EvaluationIsCleared(p: Policy, capability: string, denied: bool, confirm: bool)
    ensures Cleared(p, Proposed(Evaluate(p, capability, denied, confirm), capability))
  {
    hide AnyPrefix, RequiredAuthority;
  }

  lemma ApprovalIsCleared(p: Policy, s: Store, id: string)
    requires MayApprove(p, s, id)
    ensures Cleared(p, ApprovedProposal(p, s.proposals[id]))
  {
    hide AnyPrefix, RequiredAuthority, Applies;
  }

  lemma StepKeepsSound(p: Policy, s: Store, op: Op)
    requires Sound(p, s)
    ensures Sound(p, Apply(p, s, op))
  {
    forall e {
      AppendingAddsNoGap(s.audit, e);
    }
    hide Gaps, InStep, Cleared, MayApprove, Evaluate, Appended, ApprovedProposal, Proposed, RequiredAuthority;
    match op
    case AddInstruction(_, _, _, _) =>
    case Propose(_, capability, _, _, _) =>
      EvaluationIsCleared(p, capability, Applies(s.instructions, capability, Deny),
                          Applies(s.instructions, capability, RequireConfirmation));
    case Approve(id, _, _) =>
      if MayApprove(p, s, id) {
        ApprovalIsCleared(p, s, id);
      }
  }

  /** In every run each executable proposal is cleared, and the audit chain verifies. */
  lemma {:induction false} RunsAreSound(p: Policy, ops: seq<Op>)
    ensures Sound(p, After(p, ops))
  {
    if ops == [] {
      assert Gaps<AuditEvent>([]) == [];
    } else {
      RunsAreSound(p, ops[..|ops| - 1]);
      hide Sound, Apply;
      StepKeepsSound(p, After(p, ops[..|ops| - 1]), ops[|ops| - 1]);
    }
  }

  lemma StepKeepsBlocked(p: Policy, s: Store, op: Op, id: string)
    requires id in s.proposals && s.proposals[id].status.IsBlocked?
    ensures id in Apply(p, s, op).proposals && Apply(p, s, op).proposals[id] == s.proposals[id]
  {
    hide Evaluate, Applies, RequiredAuthority, AnyPrefix;
  }

  /** A blocked proposal is blocked for good: no later run approves it, makes it executable, or changes it at all. */
  lemma {:induction false} BlockedIsForever(p: Policy, ops: seq<Op>, i: nat, id: string)
    requires i <= |ops| && id in After(p, ops[..i]).proposals && After(p, ops[..i]).proposals[id].status.IsBlocked?
    ensures id in After(p, ops).proposals && After(p, ops).proposals[id] == After(p, ops[..i]).proposals[id]
    decreases |ops|
  {
    hide Apply;
    if i < |ops| {
      var n := |ops| - 1;
      assert ops[..n][..i] == ops[..i];
      BlockedIsForever(p, ops[..n], i, id);
      StepKeepsBlocked(p, After(p, ops[..n]), ops[n], id);
    } else {
      assert ops[..i] == ops;
    }
  }

  /** An approval is the only way out of confirmation, and a step never touches any other proposal. */
  lemma OnlyApprovalConfirms(p: Policy, s: Store, op: Op, id: string)
    requires id in s.proposals
    ensures id in Apply(p, s, op).proposals
    ensures Apply(p, s, op).proposals[id] != s.proposals[id] ==>
              && op.Approve? && op.id == id && s.proposals[id].status.AwaitingConfirmation?
              && Apply(p, s, op).proposals[id].status.Approved?
  {
    hide Evaluate, Applies, RequiredAuthority, AnyPrefix;
  }

  // ------------------------------------------------------------ proposals in full

  /** The status says what was decided. */
  predicate RecordsDecision(q: Proposal, capability: string, d: Decision) {
    && q.capability == capability && q.authority == d.authority && q.executable == d.executable
    && (q.status.IsBlocked? <==> d.authorization.Blocked?)
    && (q.status.AwaitingConfirmation? <==> d.authorization.ConfirmationRequired?)
    && (q.status.Authorized? <==> d.authorization.Allowed?)
  }

  /** The deciding rule is not restricted, no hard gate covers the capability, and no instruction denies it. */
  ghost predicate CanBeApproved(p: Policy, instructions: seq<Instruction>, capability: string) {
    && (exists i: nat :: Decides(p.rules, capability, i) && !p.rules[i].authority.Restricted?)
    && !CoveredByAny(p.blockedPrefixes, capability)
    && !Instructed(instructions, capability, Deny)
  }

  lemma ApprovalInFull(p: Policy, s: Store, id: string)
    requires id in s.proposals
    ensures MayApprove(p, s, id) <==>
      s.proposals[id].status.AwaitingConfirmation? && CanBeApproved(p, s.instructions, s.proposals[id].capability)
    ensures MayApprove(p, s, id) ==>
      var q := ApprovedProposal(p, s.proposals[id]);
      && q.status.Approved? && q.capability == s.proposals[id].capability && q.authority == s.proposals[id].authority
      && forall i: nat :: Decides(p.rules, q.capability, i) ==>
           (q.executable <==> p.executionEnabled && (p.rules[i].authority.Routine? || p.rules[i].authority.Conditional?))
  {
    var capability := s.proposals[id].capability;
    AuthorityInFull(p, capability);
    CoveredIsAnyPrefix(capability, p.blockedPrefixes);
    InstructedIsApplies(s.instructions, capability, Deny);
    hide Applies, AnyPrefix, RequiredAuthority, Covers, CoveredByAny, Instructed, Decides;
  }

  /**
   In every run, a proposal that can be carried out was proposed while execution is enabled, under a routine or
   conditional rule, behind no hard gate; and unless it was approved, no confirmation was called for by the policy.
   */
  lemma ExecutableProposalsPassedTheGates(p: Policy, ops: seq<Op>, id: string)
    requires id in After(p, ops).proposals && After(p, ops).proposals[id].executable
    ensures var q := After(p, ops).proposals[id];
            && p.executionEnabled
            && (exists i: nat :: Decides(p.rules, q.capability, i)
                  && (p.rules[i].authority.Routine? || p.rules[i].authority.Conditional?)
                  && (q.status.Approved? || !Exceeds(p.rules[i].authority, p.autonomy)))
            && !CoveredByAny(p.blockedPrefixes, q.capability)
            && (q.status.Approved? || (q.status.Authorized? && !CoveredByAny(p.confirmPrefixes, q.capability)))
  {
    var q := After(p, ops).proposals[id];
    assert Cleared(p, q) by {
      RunsAreSound(p, ops);
    }
    hide After, Cleared;
    ClearedPassedTheGates(p, q);
  }

  lemma ClearedPassedTheGates(p: Policy, q: Proposal)
    requires Cleared(p, q) && q.executable
    ensures p.executionEnabled
    ensures exists i: nat :: Decides(p.rules, q.capability, i)
              && (p.rules[i].authority.Routine? || p.rules[i].authority.Conditional?)
              && (q.status.Approved? || !Exceeds(p.rules[i].authority, p.autonomy))
    ensures !CoveredByAny(p.blockedPrefixes, q.capability)
    ensures q.status.Approved? || (q.status.Authorized? && !CoveredByAny(p.confirmPrefixes, q.capability))
  {
    hide AnyPrefix, RequiredAuthority, Covers, CoveredByAny, Decides;
    AuthorityInFull(p, q.capability);
    CoveredIsAnyPrefix(q.capability, p.blockedPrefixes);
    CoveredIsAnyPrefix(q.capability, p.confirmPrefixes);
    var i: nat :| Decides(p.rules, q.capability, i);
  }

  // ------------------------------------------------------------ the store object

  datatype Refusal = Sensitive | NotFound | NotAwaiting | BlockedByPolicy | BlockedByInstruction | NotAudited

  class OfficeManagerStore {
    const policy: Policy
    var instructions: seq<Instruction>
    var proposals: map<string, Proposal>
    var audit: seq<Link<AuditEvent>>

    function View(): Store
      reads this
    {
      Store(instructions, proposals, audit)
    }

    /** Every audit row has its hash: the column may not be null. */
    ghost predicate Valid()
      reads this
    {
      forall i :: 0 <= i < |audit| ==> audit[i].hash.Some?
    }

    constructor (policy: Policy)
      ensures this.policy == policy && Valid() && View() == After(policy, [])
    {
      this.policy := policy;
      instructions, proposals, audit := [], map[], [];
    }

    method Audit(e: AuditEvent) returns (ok: bool)
      requires Valid()
      modifies this`audit
      ensures Valid() && audit == Audited(old(audit), e)
      ensures ok <==> 1 <= |e.actor| <= 128 && '\0' !in e.actor
      ensures if ok then |audit| == |old(audit)| + 1 && old(audit) <= audit else audit == old(audit)
    {
      if !CleanText(e.actor, 128) {
        return false;
      }
      var previous := if audit == [] then None else audit[|audit| - 1].hash;
      audit := audit + [Link(e, previous, Some(DigestOf(e, previous)))];
      ok := true;
    }

    /** The verifier's loop stops at the first row that does not fit. */
    method VerifyAuditChain() returns (ok: bool)
      ensures ok <==> Gaps(audit) == []
    {
      var previous: Option<Digest<AuditEvent>> := None;
      for i := 0 to |audit|
        invariant previous == LastHash(audit[..i]) && Gaps(audit[..i]) == []
      {
        assert audit[..i + 1][..i] == audit[..i];
        assert Gaps(audit[..i + 1]) == Gaps(audit[..i]) + GapsAt(audit[..i + 1], i);
        if audit[i].previous != previous || audit[i].hash != Some(DigestOf(audit[i].content, previous)) {
          PrefixesHaveFewerGaps(audit, i + 1);
          return false;
        }
        previous := audit[i].hash;
      }
      assert audit[..|audit|] == audit;
      ok := true;
    }

    method AnyConcerns(capability: string, effect: InstructionEffect) returns (found: bool)
      ensures found <==> Applies(instructions, capability, effect)
    {
      for i := 0 to |instructions|
        invariant forall j :: 0 <= j < i ==> !Concerns(instructions[j], capability, effect)
      {
        if Concerns(instructions[i], capability, effect) {
          return true;
        }
      }
      found := false;
    }

    method AddStandingInstruction(x: Instruction, id: string, actor: string, time: string) returns (ok: bool)
      requires Valid()
      modifies this
      ensures Valid() && View() == Apply(policy, old(View()), AddInstruction(x, id, actor, time))
    {
      instructions := instructions + [x];
      ok := Audit(AuditEvent(actor, "instruction.created", id, false, time));
    }

    method EvaluateAction(capability: string) returns (d: Decision)
      ensures d == EvaluateUnder(policy, instructions, capability)
      ensures IsDecision(policy, instructions, capability, d)
    {
      EvaluationInFull(policy, instructions, capability);
      hide IsDecision;
      var denied := AnyConcerns(capability, Deny);
      var confirm := AnyConcerns(capability, RequireConfirmation);
      d := Evaluate(policy, capability, denied, confirm);
    }

    method ProposeAction(id: string, capability: string, sensitive: bool, actor: string, time: string)
        returns (r: Result<Proposal, Refusal>)
      requires Valid() && id !in proposals
      modifies this
      ensures Valid() && View() == Apply(policy, old(View()), Propose(id, capability, sensitive, actor, time))
      ensures r.Ok? <==> !sensitive && 1 <= |actor| <= 128 && '\0' !in actor
      ensures r.Ok? ==> id in proposals && proposals[id] == r.value && proposals == old(proposals)[id := r.value]
      ensures sensitive ==> proposals == old(proposals)
      ensures !sensitive ==> id in proposals
      ensures !sensitive ==>
        exists d :: IsDecision(policy, instructions, capability, d) && RecordsDecision(proposals[id], capability, d)
    {
      hide Evaluate, Applies, Audited, IsDecision;
      if sensitive {
        return Err(Sensitive);
      }
      var d := EvaluateAction(capability);
      var q := Proposal(capability, d.authority, d.executable, StatusFor(d));
      proposals := proposals[id := q];
      var audited := Audit(AuditEvent(actor, "action.proposed", id, d.executable, time));
      r := if audited then Ok(q) else Err(NotAudited);
    }

    method ApproveAction(id: string, actor: string, time: string) returns (r: Result<Proposal, Refusal>)
      requires Valid()
      modifies this
      ensures Valid() && View() == Apply(policy, old(View()), Approve(id, actor, time))
      ensures r.Ok? <==> MayApprove(policy, old(View()), id) && 1 <= |actor| <= 128 && '\0' !in actor
      ensures r.Ok? ==> id in proposals && proposals[id] == r.value && r.value.status.Approved?
      ensures r == Err(NotFound) <==> id !in old(proposals)
      ensures r == Err(NotAwaiting) <==> id in old(proposals) && !old(proposals)[id].status.AwaitingConfirmation?
      ensures r.Ok? || r.error.NotAudited? <==>
        && id in old(proposals) && old(proposals)[id].status.AwaitingConfirmation?
        && CanBeApproved(policy, instructions, old(proposals)[id].capability)
      ensures r.Ok? ==> forall i: nat :: Decides(policy.rules, r.value.capability, i) ==>
        (r.value.executable <==>
          policy.executionEnabled && (policy.rules[i].authority.Routine? || policy.rules[i].authority.Conditional?))
    {
      if id in proposals {
        ApprovalInFull(policy, View(), id);
      }
      hide Applies, AnyPrefix, RequiredAuthority, Audited, CanBeApproved, Decides;
      if id !in proposals {
        return Err(NotFound);
      }
      var q := proposals[id];
      if !q.status.AwaitingConfirmation? {
        return Err(NotAwaiting);
      }
      var authority := RequiredAuthority(policy, q.capability);
      if authority.None? || authority.value.Restricted? || AnyPrefix(q.capability, policy.blockedPrefixes) {
        return Err(BlockedByPolicy);
      }
      var denied := AnyConcerns(q.capability, Deny);
      if denied {
        return Err(BlockedByInstruction);
      }
      var executable := policy.executionEnabled
        && !authority.value.Observe? && !authority.value.Prepare? && !authority.value.Restricted?;
      q := q.(executable := executable, status := Approved);
      proposals := proposals[id := q];
      var audited := Audit(AuditEvent(actor, "action.approved", id, executable, time));
      r := if audited then Ok(q) else Err(NotAudited);
    }
  }
}
