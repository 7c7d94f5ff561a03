/**
  The gate every proposed change passes (crates/sysboost-core/src/planner.rs, 385-410, 928-961, 1310-1972,
  2281-2540).  Evidence lists, rationales and reasons are not part of this model; a case carries the
  descriptor and the contract that were looked up for it.
 */
module Admission {
  import opened Outcome
  import opened Bytes
  import opened Mutation
  import opened Keys
  import opened Ordering
  import Proposals

  datatype Profile = BalancedProfile | PerformanceProfile | ExtremeProfile

  datatype Mode = ReportMode | BoostMode

  datatype Risk = LowRisk | MediumRisk | HighRisk | CriticalRisk

  function RiskRank(r: Risk): nat {
    match r
    case LowRisk => 0
    case MediumRisk => 1
    case HighRisk => 2
    case CriticalRisk => 3
  }

  datatype FeatureClass = RuntimeMutable | ConditionalClass | ExperimentalClass | BootOnlyReportOnly

  datatype Feature =
    | GovernorFeature | FrequencyFeature | EnergyFeature | BoostFeature | ProfileFeature | CgroupFeature
    | PlacementFeature | GpuFeature | IrqFeature | SchedulerFeature | MemoryFeature | HugePagesFeature
    | CustomFeature(capability: Identifier)

  predicate IsExperimental(f: Feature) { f.GpuFeature? || f.IrqFeature? || f.SchedulerFeature? }

  datatype Control =
    | GovernorControl | EnergyControl | FrequencyControl | BoostControl | ProfileControl | CpuWeightControl
    | CpuMaxControl | CpusetControl | IoWeightControl | WorkloadControl | BackgroundControl | GpuProfileControl
    | GpuPowerControl | IrqControl | SchedulerControl | PlacementControl | NiceControl | IoPriorityControl
    | UclampControl | UclampMinControl | UclampMaxControl | HugePagesControl | MemoryControl | ReportControl

  datatype TargetKind = CpuPolicyTarget | CpuSystemTarget | CgroupTarget | ProcessTarget | GpuTarget | IrqTarget | SysctlTarget

  datatype TypedTarget =
    | OnPolicy(policy: u32) | OnSystem | OnCgroup(cgroup: CgroupId) | OnProcess(process: ProcessId)
    | OnGpu(device: u32) | OnIrq(irq: u32) | OnSysctl(key: SysctlKey)

  datatype PlanValue = Typed(value: TypedValue) | Text(text: seq<byte>)

  datatype CurrentValue = Known(value: PlanValue) | Unknown

  datatype Fact = Fact(
    value: CurrentValue, fingerprint: Option<Fingerprint>, identity: Option<Bytes16>, supported: seq<PlanValue>,
    typedTarget: Option<TypedTarget>)

  datatype CapabilityState = Available | ReadOnly | UnsupportedState | IndeterminateState | DeniedState

  datatype Descriptor = Descriptor(
    capability: Identifier, state: CapabilityState, backend: Identifier, classification: FeatureClass,
    targetKind: TargetKind, equality: Equality, operations: seq<Identifier>)

  datatype Contract = Contract(
    operation: Identifier, backend: Identifier, targetKind: TargetKind, control: Control, equality: Equality,
    risk: Risk, classification: FeatureClass, explicitOptIn: bool, identityRequired: bool, stateRequired: bool,
    dependencies: seq<Identifier>,
    snapshotEquality: Equality, snapshotDefined: bool, typedPreimage: bool,
    restoreEquality: Equality, restoreDefined: bool, restoreMode: Option<RestoreMode>,
    verificationEquality: Equality, verificationDefined: bool, readback: bool)

  /** `OperationContract::validate`. */
  predicate ContractValid(c: Contract) {
    && c.snapshotEquality == c.equality && c.restoreEquality == c.equality && c.verificationEquality == c.equality
    && c.operation !in c.dependencies
    && DistinctNames(c.dependencies)
  }

  /** `OperationContract::is_complete`. */
  predicate ContractComplete(c: Contract) {
    && c.snapshotDefined && c.typedPreimage
    && c.restoreDefined && c.restoreMode.Some?
    && c.verificationDefined && c.readback
    && c.identityRequired && c.stateRequired
  }

  datatype ProfileTarget = GovernorAim | EnergyAim | PlatformAim | GpuAim | NoAim

  datatype Spec = Spec(
    feature: Feature, capability: Identifier, operation: Identifier, control: Control, classification: FeatureClass,
    explicitOptIn: bool, extremeCandidate: bool, aim: ProfileTarget)

  datatype Rule = Rule(feature: Feature, target: Option<Identifier>)

  datatype Policy = Policy(
    profile: Profile, mode: Mode, maxRisk: Risk, allowExperimental: bool, requiredDefault: bool,
    preserves: seq<Rule>, optIns: set<Feature>)

  /** One feature on one target, with the evidence found for it. */
  datatype Case = Case(
    spec: Spec, target: Option<Identifier>, fact: Option<Fact>, proposal: Option<Proposals.Proposal>,
    descriptor: Option<Descriptor>, contract: Option<Contract>)

  datatype Decision =
    | Admit(draft: Draft, dependencies: seq<Identifier>)
    | Keep(action: Action)

  // ----- policy

  predicate RuleMatches(rule: Rule, feature: Feature, target: Option<Identifier>) {
    rule.feature == feature && (rule.target.None? || (target.Some? && rule.target == target))
  }

  /** `is_preserved`. */
  predicate IsPreserved(p: Policy, feature: Feature, target: Option<Identifier>) {
    exists i :: 0 <= i < |p.preserves| && RuleMatches(p.preserves[i], feature, target)
  }

  datatype Experimental = NotExperimental | Enabled | OptInRequired | Disabled

  function ExperimentalStatus(p: Policy, c: Case): Experimental {
    var classification := if c.descriptor.Some? then c.descriptor.value.classification else c.spec.classification;
    if classification.ExperimentalClass? || IsExperimental(c.spec.feature) then
      if !p.allowExperimental then Disabled
      else if c.spec.explicitOptIn && c.spec.feature !in p.optIns then OptInRequired
      else Enabled
    else NotExperimental
  }

  // ----- what a profile wants

  const SCHEDUTIL: SemanticName := [0x73, 0x63, 0x68, 0x65, 0x64, 0x75, 0x74, 0x69, 0x6C]
  const ONDEMAND: SemanticName := [0x6F, 0x6E, 0x64, 0x65, 0x6D, 0x61, 0x6E, 0x64]
  const PERFORMANCE: SemanticName := [0x70, 0x65, 0x72, 0x66, 0x6F, 0x72, 0x6D, 0x61, 0x6E, 0x63, 0x65]

  function GovernorWishes(p: Profile): seq<TypedValue> {
    if p.BalancedProfile? then [GovernorValue(SCHEDUTIL), GovernorValue(ONDEMAND)] else [GovernorValue(PERFORMANCE)]
  }

  function EnergyWishes(p: Profile): seq<TypedValue> {
    if p.BalancedProfile? then [EnergyValue(BalancePerformance), EnergyValue(BalancePower)]
    else [EnergyValue(Performance)]
  }

  /** The first wish the interface advertises; an interface that advertises nothing takes any. */
  function Choose(fact: Fact, wishes: seq<TypedValue>): Option<PlanValue> {
    if wishes == [] then None
    else if fact.supported == [] || Typed(wishes[0]) in fact.supported then Some(Typed(wishes[0]))
    else Choose(fact, wishes[1..])
  }

  datatype Wish = Wish(desired: Option<PlanValue>, unavailable: bool)

  function Wanted(fact: Option<Fact>, wishes: seq<TypedValue>): Wish {
    if fact.None? then Wish(None, false)
    else
      var chosen := Choose(fact.value, wishes);
      Wish(chosen, chosen.None?)
  }

  /** `profile_desired`. */
  function ProfileDesired(p: Profile, spec: Spec, fact: Option<Fact>): Wish {
    match spec.aim
    case GovernorAim => Wanted(fact, GovernorWishes(p))
    case EnergyAim => Wanted(fact, EnergyWishes(p))
    case PlatformAim => if p.BalancedProfile? then Wish(None, false) else Wanted(fact, [ProfileValue(PERFORMANCE)])
    case GpuAim =>
      if p.ExtremeProfile? then Wish(Some(Typed(GpuProfileValue(GpuPerformance))), false) else Wish(None, false)
    case NoAim => Wish(None, false)
  }

  /** `default_kind`: the closed operation for a typed value on a typed target. */
  function DefaultKind(control: Control, fact: Fact, desired: TypedValue): Option<MutationKind> {
    if fact.typedTarget.None? then None
    else
      match (fact.typedTarget.value, desired)
      case (OnPolicy(policy), GovernorValue(governor)) =>
        if control.GovernorControl? then Some(CpuGovernor(policy, governor)) else None
      case (OnPolicy(policy), EnergyValue(energy)) =>
        if control.EnergyControl? then Some(CpuEnergyPreference(policy, energy)) else None
      case (OnSystem, BoostValue(boost)) => if control.BoostControl? then Some(CpuBoost(boost)) else None
      case (OnSystem, ProfileValue(profile)) => if control.ProfileControl? then Some(PlatformProfile(profile)) else None
      case (OnCgroup(g), CpuWeightValue(weight)) =>
        if control.CpuWeightControl? then Some(CgroupCpuWeight(g, weight)) else None
      case (OnCgroup(g), CpuMaxValue(quota, period)) =>
        if control.CpuMaxControl? then Some(CgroupCpuMax(g, quota, period)) else None
      case (OnCgroup(g), CpusetValue(cpus)) => if control.CpusetControl? then Some(CgroupCpuset(g, cpus)) else None
      case (OnCgroup(g), UclampSetting(clamp)) =>
        if control.UclampControl? || control.UclampMinControl? then Some(CgroupUclampMin(g, clamp))
        else if control.UclampMaxControl? then Some(CgroupUclampMax(g, clamp))
        else None
      case (OnCgroup(g), IoWeightValue(weight)) =>
        if control.IoWeightControl? then Some(CgroupIoWeight(g, weight)) else None
      case (OnProcess(p), NiceSetting(nice)) =>
        if control.SchedulerControl? || control.NiceControl? then Some(ProcessNice(p, nice)) else None
      case (OnProcess(p), IoPriorityValue(priority)) =>
        if control.SchedulerControl? || control.IoPriorityControl? then Some(ProcessIoPriority(p, priority)) else None
      case (OnProcess(p), PlacementValue(g)) =>
        if control.SchedulerControl? || control.PlacementControl? then Some(ProcessPlacement(p, g)) else None
      case (OnCgroup(parent), LifecycleValue(kind, name, present)) =>
        if !present then None
        else if control.WorkloadControl? && kind.Workload? then Some(CgroupWorkload(parent, name))
        else if control.BackgroundControl? && kind.ConservativeBackground? then Some(CgroupBackground(parent, name))
        else None
      case (OnGpu(device), GpuProfileValue(gpu)) =>
        if control.GpuProfileControl? then Some(GpuPerformanceProfile(device, gpu)) else None
      case _ => None
  }

  /** The target an operation acts on. */
  function ActsOn(kind: MutationKind): TypedTarget {
    match kind
    case CpuFrequency(policy, _, _) => OnPolicy(policy)
    case CpuGovernor(policy, _) => OnPolicy(policy)
    case CpuEnergyPreference(policy, _) => OnPolicy(policy)
    case CpuBoost(_) => OnSystem
    case PlatformProfile(_) => OnSystem
    case CgroupCpuWeight(g, _) => OnCgroup(g)
    case CgroupCpuMax(g, _, _) => OnCgroup(g)
    case CgroupCpuset(g, _) => OnCgroup(g)
    case CgroupIoWeight(g, _) => OnCgroup(g)
    case CgroupUclampMin(g, _) => OnCgroup(g)
    case CgroupUclampMax(g, _) => OnCgroup(g)
    case CgroupWorkload(parent, _) => OnCgroup(parent)
    case CgroupBackground(parent, _) => OnCgroup(parent)
    case ProcessPlacement(process, _) => OnProcess(process)
    case ProcessNice(process, _) => OnProcess(process)
    case ProcessIoPriority(process, _) => OnProcess(process)
    case GpuPerformanceProfile(device, _) => OnGpu(device)
    case GpuPowerLimit(device, _) => OnGpu(device)
    case IrqAffinity(irq, _) => OnIrq(irq)
    case RuntimeSysctl(key, _) => OnSysctl(key)
  }

  /** The operation belongs to the control.  Without a bound named, a utilization clamp is the lower one; frequency
      ranges, power limits, interrupts and sysctls have no default operation. */
  predicate BelongsTo(kind: MutationKind, control: Control) {
    || (kind.CpuGovernor? && control.GovernorControl?)
    || (kind.CpuEnergyPreference? && control.EnergyControl?)
    || (kind.CpuBoost? && control.BoostControl?)
    || (kind.PlatformProfile? && control.ProfileControl?)
    || (kind.CgroupCpuWeight? && control.CpuWeightControl?)
    || (kind.CgroupCpuMax? && control.CpuMaxControl?)
    || (kind.CgroupCpuset? && control.CpusetControl?)
    || (kind.CgroupIoWeight? && control.IoWeightControl?)
    || (kind.CgroupUclampMin? && (control.UclampControl? || control.UclampMinControl?))
    || (kind.CgroupUclampMax? && control.UclampMaxControl?)
    || (kind.CgroupWorkload? && control.WorkloadControl?)
    || (kind.CgroupBackground? && control.BackgroundControl?)
    || (kind.ProcessPlacement? && (control.SchedulerControl? || control.PlacementControl?))
    || (kind.ProcessNice? && (control.SchedulerControl? || control.NiceControl?))
    || (kind.ProcessIoPriority? && (control.SchedulerControl? || control.IoPriorityControl?))
    || (kind.GpuPerformanceProfile? && control.GpuProfileControl?)
  }

  /** The default operation is the one of the control that acts on the target of the fact and stands for the value;
      there is none exactly when no operation is so. */
  lemma {:induction false} DefaultKindExactly(control: Control, fact: Fact, desired: TypedValue, kind: MutationKind)
    ensures DefaultKind(control, fact, desired) == Some(kind)
            <==> fact.typedTarget == Some(ActsOn(kind)) && BelongsTo(kind, control) && Desired(kind) == desired
  {
  }

  /** The default operation for a value is one that stands for exactly that value. */
  lemma {:induction false} DefaultKindMeansValue(control: Control, fact: Fact, desired: TypedValue)
    requires DefaultKind(control, fact, desired).Some?
    ensures Desired(DefaultKind(control, fact, desired).value) == desired
  {
    DefaultKindExactly(control, fact, desired, DefaultKind(control, fact, desired).value);
  }

  // ----- the gate

  function CurrentOf(c: Case): Option<PlanValue> {
    if c.fact.Some? && c.fact.value.value.Known? then Some(c.fact.value.value.value) else None
  }

  function WishOf(p: Policy, c: Case): Wish {
    if c.proposal.Some? then Wish(Some(Typed(Desired(c.proposal.value.kind))), false)
    else ProfileDesired(p.profile, c.spec, c.fact)
  }

  /** `resolve_mutation`. */
  function ResolveMutation(p: Policy, c: Case, d: Descriptor, desired: PlanValue): Result<Decision> {
    var status := ExperimentalStatus(p, c);
    if p.mode.ReportMode? then Ok(Keep(DeniedByPolicy))
    else if status.Disabled? then Ok(Keep(ExperimentalDisabled))
    else if status.OptInRequired? then Ok(Keep(ExplicitOptInRequired))
    else if c.contract.None? then Ok(Keep(Action.Unsupported))
    else
      var contract := c.contract.value;
      if !ContractValid(contract) then Err(PlanningError)
      else if contract.explicitOptIn && c.spec.feature !in p.optIns then Ok(Keep(ExplicitOptInRequired))
      else if !ContractComplete(contract) then Err(PlanningError)
      else if contract.backend != d.backend || contract.targetKind != d.targetKind || contract.control != c.spec.control
              || contract.equality != d.equality || contract.classification != d.classification
              || c.spec.operation !in d.operations
      then Err(InvariantViolation)
      else if RiskRank(contract.risk) > RiskRank(p.maxRisk) then Ok(Keep(DeniedByPolicy))
      else if c.fact.None? then Ok(Keep(Indeterminate))
      else if !(c.fact.value.value.Known? && c.fact.value.value.value.Typed?) then Ok(Keep(Indeterminate))
      else if !desired.Typed? then Ok(Keep(Action.Unsupported))
      else if c.target.None? then Ok(Keep(Indeterminate))
      else if c.fact.value.identity.None? then Ok(Keep(Indeterminate))
      else if c.fact.value.fingerprint.None? then Ok(Keep(Indeterminate))
      else
        var kind := if c.proposal.Some? then Some(c.proposal.value.kind)
                    else DefaultKind(c.spec.control, c.fact.value, desired.value);
        if kind.None? then Ok(Keep(Indeterminate))
        else if Desired(kind.value) != desired.value then Err(PlanningError)
        else Ok(Admit(Draft(c.spec.capability, c.target.value, kind.value, desired.value,
                            c.fact.value.fingerprint.value, contract.equality, c.fact.value.identity.value),
                      contract.dependencies))
  }

  /** `resolve_spec_inner`. */
  function ResolveInner(p: Policy, c: Case): Result<Decision> {
    if IsPreserved(p, c.spec.feature, c.target) then Ok(Keep(Preserved))
    else
      var wish := WishOf(p, c);
      var current := CurrentOf(c);
      if c.descriptor.None? then Ok(Keep(Action.Unsupported))
      else
        var d := c.descriptor.value;
        if d.state.UnsupportedState? then Ok(Keep(Action.Unsupported))
        else if d.state.DeniedState? then Ok(Keep(CapabilityDenied))
        else if d.state.IndeterminateState? then Ok(Keep(Indeterminate))
        else if d.state.ReadOnly? && wish.desired.Some? && current != wish.desired then Ok(Keep(Action.Unsupported))
        else if wish.unavailable then Ok(Keep(Action.Unsupported))
        else if wish.desired.None? then
          var status := ExperimentalStatus(p, c);
          Ok(Keep(if status.Disabled? then ExperimentalDisabled
                  else if c.spec.extremeCandidate && p.profile.ExtremeProfile? && status.OptInRequired?
                  then ExplicitOptInRequired else Preserved))
        else if current == wish.desired then Ok(Keep(NoOp))
        else ResolveMutation(p, c, d, wish.desired.value)
  }

  /** `resolve_spec`: a required request that is neither a change nor already satisfied fails the plan. */
  function ResolveSpec(p: Policy, c: Case): Result<Decision> {
    var decision :- ResolveInner(p, c);
    if c.proposal.Some? && (c.proposal.value.required || p.requiredDefault)
       && !(decision.Admit? || decision.action.NoOp?)
    then Err(PlanningError)
    else Ok(decision)
  }

  // ----- exactly what is admitted

  /** The risk is within the ceiling. */
  predicate Within(risk: Risk, ceiling: Risk) {
    || risk.LowRisk? || ceiling.CriticalRisk?
    || (risk.MediumRisk? && (ceiling.MediumRisk? || ceiling.HighRisk?))
    || (risk.HighRisk? && ceiling.HighRisk?)
  }

  /** A rule protects the feature, on every target or on this one. */
  predicate Protected(p: Policy, c: Case) {
    exists rule :: rule in p.preserves
      && rule.feature == c.spec.feature && (rule.target.None? || rule.target == c.target)
  }

  /** The interface, or without one the feature, is experimental. */
  predicate Experiments(c: Case) {
    || c.spec.feature.GpuFeature? || c.spec.feature.IrqFeature? || c.spec.feature.SchedulerFeature?
    || (c.descriptor.Some? && c.descriptor.value.classification.ExperimentalClass?)
    || (c.descriptor.None? && c.spec.classification.ExperimentalClass?)
  }

  /** The policy permits the change. */
  predicate PolicyPermits(p: Policy, c: Case) {
    && p.mode.BoostMode?
    && !Protected(p, c)
    && (Experiments(c) ==> p.allowExperimental && (c.spec.explicitOptIn ==> c.spec.feature in p.optIns))
    && c.contract.Some?
    && (c.contract.value.explicitOptIn ==> c.spec.feature in p.optIns)
    && Within(c.contract.value.risk, p.maxRisk)
  }

  /** The interface is available under a complete contract that agrees with it. */
  predicate ContractHolds(c: Case) {
    && c.descriptor.Some? && c.contract.Some?
    && var d, k := c.descriptor.value, c.contract.value;
       && d.state.Available?
       && k.snapshotEquality == k.equality && k.restoreEquality == k.equality && k.verificationEquality == k.equality
       && k.operation !in k.dependencies
       && (forall i, j :: 0 <= i < j < |k.dependencies| ==> k.dependencies[i] != k.dependencies[j])
       && k.snapshotDefined && k.typedPreimage && k.restoreDefined && k.restoreMode.Some?
       && k.verificationDefined && k.readback && k.identityRequired && k.stateRequired
       && k.backend == d.backend && k.targetKind == d.targetKind && k.control == c.spec.control
       && k.equality == d.equality && k.classification == d.classification && c.spec.operation in d.operations
  }

  /** The interface advertises the value, or advertises nothing. */
  predicate Advertised(fact: Fact, v: TypedValue) {
    fact.supported == [] || Typed(v) in fact.supported
  }

  /** What a profile wants of an interface. */
  predicate ProfileWants(p: Profile, aim: ProfileTarget, fact: Option<Fact>, v: TypedValue) {
    match aim
    case GovernorAim =>
      && fact.Some? && Advertised(fact.value, v)
      && (if p.BalancedProfile?
          then v == GovernorValue(SCHEDUTIL)
               || (v == GovernorValue(ONDEMAND) && !Advertised(fact.value, GovernorValue(SCHEDUTIL)))
          else v == GovernorValue(PERFORMANCE))
    case EnergyAim =>
      && fact.Some? && Advertised(fact.value, v)
      && (if p.BalancedProfile?
          then v == EnergyValue(BalancePerformance)
               || (v == EnergyValue(BalancePower) && !Advertised(fact.value, EnergyValue(BalancePerformance)))
          else v == EnergyValue(Performance))
    case PlatformAim =>
      !p.BalancedProfile? && fact.Some? && Advertised(fact.value, v) && v == ProfileValue(PERFORMANCE)
    case GpuAim => p.ExtremeProfile? && v == GpuProfileValue(GpuPerformance)
    case NoAim => false
  }

  /** What is wished for: the value of the proposed operation, or without a proposal what the profile wants. */
  predicate Wishes(p: Policy, c: Case, v: TypedValue) {
    if c.proposal.Some? then v == Desired(c.proposal.value.kind)
    else ProfileWants(p.profile, c.spec.aim, c.fact, v)
  }

  lemma {:induction false} ChooseOne(fact: Fact, v: TypedValue)
    ensures Choose(fact, [v]) == if Advertised(fact, v) then Some(Typed(v)) else None
  {
    assert [v][1..] == [];
  }

  lemma {:induction false} ChooseTwo(fact: Fact, v: TypedValue, w: TypedValue)
    ensures Choose(fact, [v, w])
            == if Advertised(fact, v) then Some(Typed(v)) else if Advertised(fact, w) then Some(Typed(w)) else None
  {
    assert [v, w][1..] == [w];
    ChooseOne(fact, w);
  }

  lemma {:induction false} WishTyped(p: Policy, c: Case)
    ensures WishOf(p, c).desired.Some? ==> WishOf(p, c).desired.value.Typed? && !WishOf(p, c).unavailable
  {
    if c.fact.Some? {
      ChooseTyped(c.fact.value, GovernorWishes(p.profile));
      ChooseTyped(c.fact.value, EnergyWishes(p.profile));
      ChooseTyped(c.fact.value, [ProfileValue(PERFORMANCE)]);
    }
  }

  lemma {:induction false} ChooseTyped(fact: Fact, wishes: seq<TypedValue>)
    ensures Choose(fact, wishes).Some? ==> Choose(fact, wishes).value.Typed?
  {
    if wishes != [] {
      ChooseTyped(fact, wishes[1..]);
    }
  }

  lemma {:induction false} ProfileMeans(p: Profile, spec: Spec, fact: Option<Fact>, v: TypedValue)
    ensures ProfileDesired(p, spec, fact).desired == Some(Typed(v)) <==> ProfileWants(p, spec.aim, fact, v)
  {
    if fact.Some? {
      match spec.aim {
        case GovernorAim =>
          ChooseTwo(fact.value, GovernorValue(SCHEDUTIL), GovernorValue(ONDEMAND));
          ChooseOne(fact.value, GovernorValue(PERFORMANCE));
        case EnergyAim =>
          ChooseTwo(fact.value, EnergyValue(BalancePerformance), EnergyValue(BalancePower));
          ChooseOne(fact.value, EnergyValue(Performance));
        case PlatformAim => ChooseOne(fact.value, ProfileValue(PERFORMANCE));
        case _ =>
      }
    }
  }

  /** The gate wishes exactly that. */
  lemma {:induction false} WishMeans(p: Policy, c: Case, v: TypedValue)
    ensures WishOf(p, c).desired == Some(Typed(v)) <==> Wishes(p, c, v)
  {
    ProfileMeans(p.profile, c.spec, c.fact, v);
  }

  /** The draft is bound to the evidence: it changes the known typed current value of an identified, fingerprinted
      target into the wish, by the proposed operation or else by the default one of the control on the typed target. */
  predicate DraftFits(p: Policy, c: Case, draft: Draft) {
    && c.fact.Some? && c.contract.Some?
    && draft.capability == c.spec.capability
    && c.target == Some(draft.target)
    && c.fact.value.fingerprint == Some(draft.precondition)
    && c.fact.value.identity == Some(draft.identity)
    && draft.equality == c.contract.value.equality
    && Wishes(p, c, draft.desired)
    && c.fact.value.value.Known? && c.fact.value.value.value.Typed?
    && c.fact.value.value.value.value != draft.desired
    && Desired(draft.kind) == draft.desired
    && (c.proposal.Some? ==> draft.kind == c.proposal.value.kind)
    && (c.proposal.None? ==>
          c.fact.value.typedTarget == Some(ActsOn(draft.kind)) && BelongsTo(draft.kind, c.spec.control))
  }

  lemma {:induction false} ProtectedIsPreserved(p: Policy, c: Case)
    ensures IsPreserved(p, c.spec.feature, c.target) <==> Protected(p, c)
  {
    if rule :| rule in p.preserves && rule.feature == c.spec.feature && (rule.target.None? || rule.target == c.target) {
      var i :| 0 <= i < |p.preserves| && p.preserves[i] == rule;
    }
  }

  /** The policy permits the change exactly when none of the tests of the gate against it refuses. */
  lemma {:induction false} PermitsMeans(p: Policy, c: Case)
    ensures PolicyPermits(p, c) <==>
      && p.mode.BoostMode? && !IsPreserved(p, c.spec.feature, c.target)
      && !ExperimentalStatus(p, c).Disabled? && !ExperimentalStatus(p, c).OptInRequired?
      && c.contract.Some? && (c.contract.value.explicitOptIn ==> c.spec.feature in p.optIns)
      && RiskRank(c.contract.value.risk) <= RiskRank(p.maxRisk)
  {
    ProtectedIsPreserved(p, c);
  }

  /** A change is admitted exactly when policy and contract permit it and the draft is bound to the evidence. */
  lemma {:induction false} AdmittedExactly(p: Policy, c: Case, draft: Draft, dependencies: seq<Identifier>)
    ensures ResolveInner(p, c) == Ok(Admit(draft, dependencies))
            <==> && PolicyPermits(p, c) && ContractHolds(c) && DraftFits(p, c, draft)
                 && dependencies == c.contract.value.dependencies
  {
    PermitsMeans(p, c);
    WishTyped(p, c);
    WishMeans(p, c, draft.desired);
    if c.fact.Some? {
      DefaultKindExactly(c.spec.control, c.fact.value, draft.desired, draft.kind);
      if WishOf(p, c).desired.Some? {
        var v := WishOf(p, c).desired.value.value;
        WishMeans(p, c, v);
        DefaultKindExactly(c.spec.control, c.fact.value, v, draft.kind);
      }
    }
  }

  // ----- what is kept, and why

  /** The interface could be changed: nothing protects it, it is available, and its value is not the wish. */
  predicate Changeable(p: Policy, c: Case, v: TypedValue) {
    && !Protected(p, c) && c.descriptor.Some? && c.descriptor.value.state.Available?
    && Wishes(p, c, v) && !(c.fact.Some? && c.fact.value.value == Known(Typed(v)))
  }

  /** An operation counts as satisfied exactly when its readable, unprotected interface already has the wish. */
  lemma {:induction false} SatisfiedExactly(p: Policy, c: Case)
    ensures ResolveInner(p, c) == Ok(Keep(NoOp)) <==>
      && !Protected(p, c) && c.descriptor.Some?
      && (c.descriptor.value.state.Available? || c.descriptor.value.state.ReadOnly?)
      && c.fact.Some? && c.fact.value.value.Known? && c.fact.value.value.value.Typed?
      && Wishes(p, c, c.fact.value.value.value.value)
  {
    ProtectedIsPreserved(p, c);
    WishTyped(p, c);
    if c.fact.Some? && c.fact.value.value.Known? && c.fact.value.value.value.Typed? {
      WishMeans(p, c, c.fact.value.value.value.value);
    }
    if WishOf(p, c).desired.Some? {
      WishMeans(p, c, WishOf(p, c).desired.value.value);
    }
  }

  /** A denied interface is reported as such exactly when nothing protects the feature. */
  lemma {:induction false} DeniedExactly(p: Policy, c: Case)
    ensures ResolveInner(p, c) == Ok(Keep(CapabilityDenied)) <==>
      !Protected(p, c) && c.descriptor.Some? && c.descriptor.value.state.DeniedState?
  {
    ProtectedIsPreserved(p, c);
  }

  /** What the policy holds back of a changeable interface: everything in report mode, then experiments that are
      disabled or lack their opt-in, and what is otherwise permitted but rated above the ceiling. */
  lemma {:induction false} HeldBack(p: Policy, c: Case, v: TypedValue)
    requires Changeable(p, c, v)
    ensures var answer := ResolveInner(p, c);
      var experiment := p.mode.BoostMode? && Experiments(c);
      && (p.mode.ReportMode? ==> answer == Ok(Keep(DeniedByPolicy)))
      && (experiment && !p.allowExperimental ==> answer == Ok(Keep(ExperimentalDisabled)))
      && (experiment && p.allowExperimental && c.spec.explicitOptIn && c.spec.feature !in p.optIns ==>
            answer == Ok(Keep(ExplicitOptInRequired)))
      && (ContractHolds(c) && PolicyPermits(p.(maxRisk := CriticalRisk), c) ==>
            Within(c.contract.value.risk, p.maxRisk) || answer == Ok(Keep(DeniedByPolicy)))
  {
    ProtectedIsPreserved(p, c);
    PermitsMeans(p.(maxRisk := CriticalRisk), c);
    WishTyped(p, c);
    WishMeans(p, c, v);
  }

  /** A protected feature is preserved, whatever the evidence. */
  lemma {:induction false} ProtectedIsKept(p: Policy, c: Case)
    requires Protected(p, c)
    ensures ResolveInner(p, c) == Ok(Keep(Preserved))
  {
    ProtectedIsPreserved(p, c);
  }

  /** A required request fails the plan unless it is a change or already satisfied. */
  lemma {:induction false} RequiredOrFails(p: Policy, c: Case, decision: Decision)
    ensures ResolveSpec(p, c) == Ok(decision) <==>
      && ResolveInner(p, c) == Ok(decision)
      && (c.proposal.Some? && (c.proposal.value.required || p.requiredDefault) ==>
            decision.Admit? || decision == Keep(NoOp))
  {
  }

  // ----- tightening a policy

  /** `p` permits no more than `q`: no higher risk, no further opt-in, no experiment, no fewer preserve rules. */
  predicate Tighter(p: Policy, q: Policy) {
    && p.profile == q.profile
    && (p.mode.BoostMode? ==> q.mode.BoostMode?)
    && Within(p.maxRisk, q.maxRisk)
    && (p.allowExperimental ==> q.allowExperimental)
    && p.optIns <= q.optIns
    && (forall rule :: rule in q.preserves ==> rule in p.preserves)
  }

  lemma {:induction false} TighterPermits(p: Policy, q: Policy, c: Case)
    requires Tighter(p, q) && PolicyPermits(p, c)
    ensures PolicyPermits(q, c)
  {
  }

  /** What a tighter policy admits, the looser one admits unchanged. */
  lemma {:induction false} TighteningIsMonotone(p: Policy, q: Policy, c: Case)
    requires Tighter(p, q) && ResolveInner(p, c).Ok? && ResolveInner(p, c).value.Admit?
    ensures ResolveInner(q, c) == ResolveInner(p, c)
  {
    var admitted := ResolveInner(p, c).value;
    AdmittedExactly(p, c, admitted.draft, admitted.dependencies);
    AdmittedExactly(q, c, admitted.draft, admitted.dependencies);
    TighterPermits(p, q, c);
  }

  // ----- what ordering is given

  /** The candidate of a decision. */
  function CandidateOf(c: Case, order: u16, decision: Decision): Candidate {
    Candidate(CandidateKey(c.spec.capability, c.target, c.spec.operation, order), c.target, c.spec.operation,
              if decision.Admit? then Mutate else decision.action,
              if decision.Admit? then Some(decision.draft) else None,
              if decision.Admit? then decision.dependencies else [])
  }

  lemma {:induction false} KeepsNoMutation(p: Policy, c: Case)
    requires ResolveInner(p, c).Ok? && ResolveInner(p, c).value.Keep?
    ensures !ResolveInner(p, c).value.action.Mutate?
  {
  }

  /** Every candidate the gate makes has what ordering relies on: a draft exactly when it is executable, then a
      target, and distinct dependencies that do not name the operation itself. */
  lemma {:induction false} GateBuildsCandidates(p: Policy, c: Case, order: u16)
    requires ResolveInner(p, c).Ok?
    ensures WellBuilt(CandidateOf(c, order, ResolveInner(p, c).value))
    ensures ResolveInner(p, c).value.Admit? ==>
              c.contract.Some? && c.contract.value.operation !in ResolveInner(p, c).value.dependencies
  {
    if ResolveInner(p, c).value.Keep? {
      KeepsNoMutation(p, c);
    } else {
      var admitted := ResolveInner(p, c).value;
      AdmittedExactly(p, c, admitted.draft, admitted.dependencies);
    }
  }

  // ----- choosing a descriptor

  function StateRank(s: CapabilityState): nat {
    match s
    case Available => 0
    case ReadOnly => 1
    case DeniedState => 2
    case IndeterminateState => 3
    case UnsupportedState => 4
  }

  predicate NotWorse(a: Descriptor, b: Descriptor) {
    || StateRank(a.state) < StateRank(b.state)
    || (StateRank(a.state) == StateRank(b.state) && !TextLess(b.backend, a.backend))
  }

  /** Available goes before read-only, denied, indeterminate and unsupported, in this order; equal states go by the
      name of the backend. */
  predicate Outranks(a: Descriptor, b: Descriptor) {
    if a.state == b.state then a.backend == b.backend || TextLess(a.backend, b.backend)
    else
      || a.state.Available? || b.state.UnsupportedState?
      || (a.state.ReadOnly? && !b.state.Available?)
      || (a.state.DeniedState? && b.state.IndeterminateState?)
  }

  /** `DescriptorIndex::select`: the descriptor of a capability in the best state, then with the first backend. */
  method SelectDescriptor(descriptors: seq<Descriptor>, capability: Identifier) returns (r: Option<Descriptor>)
    ensures r.None? <==> forall d :: d in descriptors ==> d.capability != capability
    ensures r.Some? ==> r.value in descriptors && r.value.capability == capability
    ensures r.Some? ==> forall d :: d in descriptors && d.capability == capability ==> Outranks(r.value, d)
  {
    r := None;
    for i := 0 to |descriptors|
      invariant r.None? ==> forall j :: 0 <= j < i ==> descriptors[j].capability != capability
      invariant r.Some? ==> r.value in descriptors && r.value.capability == capability
      invariant r.Some? ==> forall j :: 0 <= j < i && descriptors[j].capability == capability ==> NotWorse(r.value, descriptors[j])
    {
      var d := descriptors[i];
      if d.capability == capability {
        if r.None? {
          r := Some(d);
        } else if !NotWorse(r.value, d) {
          ghost var best := r.value;
          forall x | NotWorse(best, x) ensures NotWorse(d, x) {
            BetterThanBest(d, best, x);
          }
          r := Some(d);
        }
        TextTotal(d.backend, d.backend);
      }
    }
    if r.Some? {
      forall d | d in descriptors && d.capability == capability ensures Outranks(r.value, d) {
        TextTotal(r.value.backend, d.backend);
      }
    }
  }

  lemma {:induction false} BetterThanBest(d: Descriptor, best: Descriptor, x: Descriptor)
    requires !NotWorse(best, d) && NotWorse(best, x)
    ensures NotWorse(d, x)
  {
    TextTotal(d.backend, best.backend);
    TextTotal(x.backend, best.backend);
    TextTotal(x.backend, d.backend);
    if TextLess(x.backend, d.backend) && TextLess(d.backend, best.backend) {
      TextTransitive(x.backend, d.backend, best.backend);
    }
  }
}
