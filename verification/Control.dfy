// rucelium-policy/src/pipeline.rs with rucelium-gateway/src/control.rs: the governed
// control path from an agent's proposal to the local execution of a signed command,
// with the journal of command phases and the two execution budgets.
module Control {
  import opened Common
  import opened Words
  import opened Domain

  // ---------------------------------------------------------------------
  // Proposals and commands
  // ---------------------------------------------------------------------

  // i32 without the one value whose absolute value overflows.
  type Coord = x: int | -0x7FFF_FFFF <= x <= 0x7FFF_FFFF

  datatype ProposalKind =
    | SetSamplingRate(nodeId: U64, intervalS: U32)
    | DeployModel(modelId: string, targetGateway: string)
    | RepositionSensor(nodeId: U64, latitudeE7: Coord, longitudeE7: Coord)
    | ActuatorCommand(actuatorId: string, action: string, magnitude: real)

  datatype AgentProposal = AgentProposal(
    proposalId: string, agentId: string, biomeId: string, kind: ProposalKind, justification: string)

  datatype CommandPayload = CommandPayload(
    commandId: string, biomeId: string, agentId: string, kind: ProposalKind, issuedNs: U64, expiresNs: U64)

  datatype SignedCommand = SignedCommand(payload: CommandPayload, signature: string, signer: string)

  datatype PolicyReason =
    | EmptyProposalId | EmptyAgentId | EmptyBiomeId | EmptyJustification
    | IntervalOutOfRange | EmptyModelId | EmptyTarget | InvalidGeo | ActuatorNotAllowed | MagnitudeAbovePolicy

  datatype UnsafeReason = AboveEnvelope | BudgetExhausted | CapExhausted

  datatype ControlError =
    | PolicyViolation(reason: PolicyReason)
    | Unsafe(why: UnsafeReason)
    | NotAuthorized(biomeId: string, agentId: string, actuatorId: string)
    | UntrustedKey(key: string)
    | BadEncoding
    | BadSignature
    | Expired(expiresNs: U64, nowNs: U64)
    | DuplicateCommand(commandId: string)
    | ExecutionFailed(message: string)

  function AbsReal(x: real): real {
    if x < 0.0 then -x else x
  }

  // ---------------------------------------------------------------------
  // Stages 1 to 3: policy, safety envelope, authority
  // ---------------------------------------------------------------------

  datatype PolicyConfig = PolicyConfig(
    minIntervalS: U32, maxIntervalS: U32, maxMagnitude: real, allowedActuators: set<string>)

  function DefaultPolicy(allowed: set<string>): PolicyConfig {
    PolicyConfig(10, 86_400, 1.0, allowed)
  }

  datatype SafetyConfig = SafetyConfig(safeMagnitude: real, maxCommands: U32)

  const DEFAULT_SAFETY := SafetyConfig(0.8, 10)

  function CheckPolicy(config: PolicyConfig, p: AgentProposal): Result<(), ControlError> {
    if p.proposalId == "" then Err(PolicyViolation(EmptyProposalId))
    else if p.agentId == "" then Err(PolicyViolation(EmptyAgentId))
    else if p.biomeId == "" then Err(PolicyViolation(EmptyBiomeId))
    else if p.justification == "" then Err(PolicyViolation(EmptyJustification))
    else match p.kind
      case SetSamplingRate(_, interval) =>
        if interval < config.minIntervalS || interval > config.maxIntervalS
        then Err(PolicyViolation(IntervalOutOfRange)) else Ok(())
      case DeployModel(model, target) =>
        if model == "" then Err(PolicyViolation(EmptyModelId))
        else if target == "" then Err(PolicyViolation(EmptyTarget)) else Ok(())
      case RepositionSensor(_, lat, lon) =>
        if Abs(lat) > LAT_E7_MAX || Abs(lon) > LON_E7_MAX then Err(PolicyViolation(InvalidGeo)) else Ok(())
      case ActuatorCommand(actuator, _, magnitude) =>
        if actuator !in config.allowedActuators then Err(PolicyViolation(ActuatorNotAllowed))
        else if AbsReal(magnitude) > config.maxMagnitude then Err(PolicyViolation(MagnitudeAbovePolicy))
        else Ok(())
  }

  type Counts = map<string, nat>

  function CountOf(counts: Counts, actuator: string): nat {
    if actuator in counts then counts[actuator] else 0
  }

  function CheckSafety(config: SafetyConfig, executed: Counts, p: AgentProposal): Result<(), ControlError> {
    match p.kind
    case ActuatorCommand(actuator, _, magnitude) =>
      if AbsReal(magnitude) > config.safeMagnitude then Err(Unsafe(AboveEnvelope))
      else if CountOf(executed, actuator) >= config.maxCommands then Err(Unsafe(BudgetExhausted))
      else Ok(())
    case _ => Ok(())
  }

  datatype Grant = Grant(biomeId: string, agentId: string, actuatorId: string)

  function CheckAuthority(grants: set<Grant>, p: AgentProposal): Result<(), ControlError> {
    match p.kind
    case ActuatorCommand(actuator, _, _) =>
      if Grant(p.biomeId, p.agentId, actuator) !in grants
      then Err(NotAuthorized(p.biomeId, p.agentId, actuator)) else Ok(())
    case _ => Ok(())
  }

  // ---------------------------------------------------------------------
  // Stage 4: signing
  // ---------------------------------------------------------------------

  // Signatures: the owner's key, what it signs, and the check of any key, which can
  // also fail on malformed material.
  datatype Crypto = Crypto(
    ownKey: string,
    sign: CommandPayload -> string,
    verify: (string, CommandPayload, string) -> Result<(), ControlError>)
  {
    // The owner's own signatures verify.
    ghost predicate Honest() {
      forall p :: verify(ownKey, p, sign(p)) == Ok(())
    }
  }

  const COMMAND_TTL_NS: U64 := 3_600 * 1_000_000_000

  function PayloadOf(p: AgentProposal, nowNs: U64): CommandPayload {
    CommandPayload("cmd-" + p.proposalId, p.biomeId, p.agentId, p.kind, nowNs, SaturatingAdd(nowNs, COMMAND_TTL_NS))
  }

  function Sign(crypto: Crypto, payload: CommandPayload): SignedCommand {
    SignedCommand(payload, crypto.sign(payload), crypto.ownKey)
  }

  // ---------------------------------------------------------------------
  // Stages 5 and 6: gateway validation and two-phase execution
  // ---------------------------------------------------------------------

  datatype Phase = Executing | Executed | Failed

  function AsStr(phase: Phase): string {
    match phase
    case Executing => "executing"
    case Executed => "executed"
    case Failed => "failed"
  }

  function ParsePhase(s: string): Option<Phase> {
    if s == "executing" then Some(Executing)
    else if s == "executed" then Some(Executed)
    else if s == "failed" then Some(Failed)
    else None
  }

  type Phases = map<string, Phase>

  datatype Validator = Validator(trusted: set<string>, phases: Phases, executed: Counts, cap: U32)

  function NewValidator(trusted: set<string>): Validator {
    Validator(trusted, map[], map[], U32_LIMIT - 1)
  }

  function CheckCommand(v: Validator, crypto: Crypto, cmd: SignedCommand, nowNs: U64): Result<(), ControlError> {
    if cmd.signer !in v.trusted then Err(UntrustedKey(cmd.signer))
    else if crypto.verify(cmd.signer, cmd.payload, cmd.signature).Err?
    then Err(crypto.verify(cmd.signer, cmd.payload, cmd.signature).error)
    else if nowNs >= cmd.payload.expiresNs then Err(Expired(cmd.payload.expiresNs, nowNs))
    else if cmd.payload.commandId in v.phases then Err(DuplicateCommand(cmd.payload.commandId))
    else match cmd.payload.kind
      case ActuatorCommand(actuator, _, _) =>
        if CountOf(v.executed, actuator) >= v.cap then Err(Unsafe(CapExhausted)) else Ok(())
      case _ => Ok(())
  }

  function Charge(counts: Counts, kind: ProposalKind): Counts {
    match kind
    case ActuatorCommand(actuator, _, _) => counts[actuator := CountOf(counts, actuator) + 1]
    case _ => counts
  }

  datatype Receipt = Receipt(commandId: string, executedNs: U64, outcome: string)

  // `ran`: the execution closure was called.
  datatype Attempt = Attempt(v: Validator, result: Result<Receipt, ControlError>, ran: bool)

  type Execute = ProposalKind -> Result<string, string>

  function ValidateAndExecute(v: Validator, crypto: Crypto, cmd: SignedCommand, nowNs: U64, execute: Execute): Attempt {
    var id, kind := cmd.payload.commandId, cmd.payload.kind;
    match CheckCommand(v, crypto, cmd, nowNs)
    case Err(e) => Attempt(v, Err(e), false)
    case Ok(_) =>
      match execute(kind)
      case Ok(outcome) =>
        Attempt(v.(phases := v.phases[id := Executed], executed := Charge(v.executed, kind)),
                Ok(Receipt(id, nowNs, outcome)), true)
      case Err(message) =>
        Attempt(v.(phases := v.phases[id := Failed]), Err(ExecutionFailed(message)), true)
  }

  // ---------------------------------------------------------------------
  // The journal
  // ---------------------------------------------------------------------

  datatype JournalLine = JournalLine(commandId: string, phase: string)

  // The table, listed in whatever order.
  ghost predicate IsExportOf(lines: seq<JournalLine>, phases: Phases) {
    && (forall l :: l in lines ==> l.commandId in phases && l.phase == AsStr(phases[l.commandId]))
    && (forall id :: id in phases ==> JournalLine(id, AsStr(phases[id])) in lines)
  }

  // Lines with an unknown phase are skipped.
  function Restore(phases: Phases, lines: seq<JournalLine>): Phases {
    if lines == [] then phases
    else
      var before, last := Restore(phases, lines[..|lines| - 1]), lines[|lines| - 1];
      match ParsePhase(last.phase)
      case None => before
      case Some(phase) => before[last.commandId := phase]
  }

  lemma {:induction false} RestoreAdds(phases: Phases, lines: seq<JournalLine>, target: Phases)
    requires forall l :: l in lines ==> l.commandId in target && l.phase == AsStr(target[l.commandId])
    requires forall id :: id in phases ==> id in target && phases[id] == target[id]
    ensures var r := Restore(phases, lines);
            && (forall id :: id in r <==> id in phases || exists l :: l in lines && l.commandId == id)
            && (forall id :: id in r ==> id in target && r[id] == target[id])
  {
    hide AsStr, ParsePhase;
    if lines != [] {
      var init, last := lines[..|lines| - 1], lines[|lines| - 1];
      assert lines == init + [last] && last in lines;
      RestoreAdds(phases, init, target);
      PhaseRoundTrips(target[last.commandId]);
    }
  }

  lemma PhaseRoundTrips(phase: Phase)
    ensures ParsePhase(AsStr(phase)) == Some(phase)
  {
  }

  // restore_phases(export_phases()) gives back the table.
  lemma {:induction false} JournalRoundTrips(phases: Phases, lines: seq<JournalLine>)
    requires IsExportOf(lines, phases)
    ensures Restore(map[], lines) == phases
  {
    RestoreAdds(map[], lines, phases);
  }

  // The last line about the id whose phase is known.
  ghost predicate DecidesPhase(lines: seq<JournalLine>, id: string, k: nat) {
    && k < |lines| && lines[k].commandId == id && lines[k].phase in {"executing", "executed", "failed"}
    && forall j :: k < j < |lines| && lines[j].commandId == id ==>
         lines[j].phase !in {"executing", "executed", "failed"}
  }

  // Whatever the file holds, the last line with a known phase decides, and lines with
  // any other phase count for nothing.
  lemma {:induction false} LastLineDecides(phases: Phases, lines: seq<JournalLine>, id: string, k: nat)
    ensures var r := Restore(phases, lines);
            && (DecidesPhase(lines, id, k) ==>
                  && id in r
                  && (r[id] == Executing <==> lines[k].phase == "executing")
                  && (r[id] == Executed <==> lines[k].phase == "executed")
                  && (r[id] == Failed <==> lines[k].phase == "failed"))
            && ((forall j: nat :: !DecidesPhase(lines, id, j)) ==>
                  (id in r <==> id in phases) && (id in phases ==> r[id] == phases[id]))
  {
    if lines != [] {
      var n := |lines| - 1;
      var init, last := lines[..n], lines[n];
      if last.commandId == id && last.phase in {"executing", "executed", "failed"} {
        assert DecidesPhase(lines, id, n);
      } else {
        forall j: nat
          ensures DecidesPhase(lines, id, j) <==> DecidesPhase(init, id, j)
        {
          DecidesWithout(lines, id, j);
        }
        LastLineDecides(phases, init, id, k);
      }
    }
  }

  lemma {:induction false} DecidesWithout(lines: seq<JournalLine>, id: string, j: nat)
    requires lines != []
    requires var last := lines[|lines| - 1];
             last.commandId != id || last.phase !in {"executing", "executed", "failed"}
    ensures DecidesPhase(lines, id, j) <==> DecidesPhase(lines[..|lines| - 1], id, j)
  {
    assert forall i :: 0 <= i < |lines| - 1 ==> lines[..|lines| - 1][i] == lines[i];
  }

  // ---------------------------------------------------------------------
  // The whole path
  // ---------------------------------------------------------------------

  // The grants are those made at start.
  datatype Config = Config(policy: PolicyConfig, safety: SafetyConfig, grants: set<Grant>)

  datatype Path = Path(
    config: Config, safetyExecuted: Counts, grants: set<Grant>, gateway: Validator,
    receipts: seq<Receipt>, commandsExecuted: nat, proposalsRejected: nat)

  // The three gates before signing, in order.
  function Gates(d: Path, p: AgentProposal): Result<(), ControlError> {
    var _ :- CheckPolicy(d.config.policy, p);
    var _ :- CheckSafety(d.config.safety, d.safetyExecuted, p);
    CheckAuthority(d.grants, p)
  }

  datatype Driven = Driven(path: Path, result: Result<Receipt, ControlError>, ran: bool)

  function Drive(d: Path, crypto: Crypto, p: AgentProposal, nowNs: U64, execute: Execute): Driven {
    match Gates(d, p)
    case Err(e) => Driven(d, Err(e), false)
    case Ok(_) =>
      var a := ValidateAndExecute(d.gateway, crypto, Sign(crypto, PayloadOf(p, nowNs)), nowNs, execute);
      Driven(d.(gateway := a.v,
                safetyExecuted := if a.result.Ok? then Charge(d.safetyExecuted, p.kind) else d.safetyExecuted),
             a.result, a.ran)
  }

  // run_proposal without the journal write, which rewrites the exported table.
  function RunProposal(d: Path, crypto: Crypto, p: AgentProposal, nowNs: U64, execute: Execute): Driven {
    var r := Drive(d, crypto, p, nowNs, execute);
    if r.result.Ok?
    then r.(path := r.path.(commandsExecuted := d.commandsExecuted + 1, receipts := d.receipts + [r.result.value]))
    else r.(path := r.path.(proposalsRejected := d.proposalsRejected + 1))
  }

  predicate Capped(v: Validator, kind: ProposalKind) {
    kind.ActuatorCommand? && CountOf(v.executed, kind.actuatorId) >= v.cap
  }

  // A proposal runs exactly when it passes every gate under an unused id, within the
  // gateway's cap, and not in the last nanosecond of time, when every command is
  // born expired; it succeeds exactly when its execution then does.
  lemma {:induction false} DriveRunsIff(d: Path, crypto: Crypto, p: AgentProposal, nowNs: U64, execute: Execute)
    requires crypto.Honest() && crypto.ownKey in d.gateway.trusted
    ensures var r := Drive(d, crypto, p, nowNs, execute);
            && (r.ran <==> Gates(d, p).Ok? && nowNs < U64_MAX
                           && "cmd-" + p.proposalId !in d.gateway.phases && !Capped(d.gateway, p.kind))
            && (r.result.Ok? <==> r.ran && execute(p.kind).Ok?)
            && (Gates(d, p).Ok? && nowNs == U64_MAX ==> r.result == Err(Expired(U64_MAX, U64_MAX)))
            && (r.ran <==> "cmd-" + p.proposalId !in d.gateway.phases
                           && "cmd-" + p.proposalId in r.path.gateway.phases)
  {
    var payload := PayloadOf(p, nowNs);
    assert crypto.verify(crypto.ownKey, payload, crypto.sign(payload)) == Ok(());
  }

  // A signed command is good for one hour, or until the last nanosecond of time.
  lemma {:induction false} SignedCommandLivesOneHour(
      v: Validator, crypto: Crypto, p: AgentProposal, issuedNs: U64, atNs: U64)
    requires crypto.Honest() && crypto.ownKey in v.trusted
    requires "cmd-" + p.proposalId !in v.phases && !Capped(v, p.kind)
    ensures CheckCommand(v, crypto, Sign(crypto, PayloadOf(p, issuedNs)), atNs).Ok?
       <==> atNs - issuedNs < 60 * 60 * 1_000_000_000 && atNs < U64_MAX
  {
    var payload := PayloadOf(p, issuedNs);
    assert crypto.verify(crypto.ownKey, payload, crypto.sign(payload)) == Ok(());
  }

  // One proposal moves exactly one counter; a success adds the one receipt, which names
  // the command, the time and what the execution said.
  lemma {:induction false} ProposalIsCountedOnce(
      d: Path, crypto: Crypto, p: AgentProposal, nowNs: U64, execute: Execute)
    ensures var r := RunProposal(d, crypto, p, nowNs, execute);
            && r.path.commandsExecuted + r.path.proposalsRejected == d.commandsExecuted + d.proposalsRejected + 1
            && (r.result.Ok? <==> r.path.commandsExecuted == d.commandsExecuted + 1)
            && (r.result.Ok? ==>
                 && r.ran && execute(p.kind).Ok?
                 && r.path.receipts
                    == d.receipts + [Receipt("cmd-" + p.proposalId, nowNs, execute(p.kind).value)])
            && (r.result.Err? ==> r.path.receipts == d.receipts)
            && (!r.ran ==> r.path.gateway == d.gateway && r.path.safetyExecuted == d.safetyExecuted)
  {
    hide CheckPolicy, CheckSafety, CheckAuthority, CheckCommand;
  }

  // ---- What each refusal names ----

  ghost function PolicyChecks(policy: PolicyConfig, p: AgentProposal): seq<Check<ControlError>> {
    var k := p.kind;
    [Check(p.proposalId != "", PolicyViolation(EmptyProposalId)),
     Check(p.agentId != "", PolicyViolation(EmptyAgentId)),
     Check(p.biomeId != "", PolicyViolation(EmptyBiomeId)),
     Check(p.justification != "", PolicyViolation(EmptyJustification)),
     Check(k.SetSamplingRate? ==> policy.minIntervalS <= k.intervalS <= policy.maxIntervalS,
           PolicyViolation(IntervalOutOfRange)),
     Check(k.DeployModel? ==> k.modelId != "", PolicyViolation(EmptyModelId)),
     Check(k.DeployModel? ==> k.targetGateway != "", PolicyViolation(EmptyTarget)),
     Check(k.RepositionSensor? ==>
             && -90 * 10_000_000 <= k.latitudeE7 <= 90 * 10_000_000
             && -180 * 10_000_000 <= k.longitudeE7 <= 180 * 10_000_000, PolicyViolation(InvalidGeo)),
     Check(k.ActuatorCommand? ==> k.actuatorId in policy.allowedActuators, PolicyViolation(ActuatorNotAllowed)),
     Check(k.ActuatorCommand? ==> -policy.maxMagnitude <= k.magnitude <= policy.maxMagnitude,
           PolicyViolation(MagnitudeAbovePolicy))]
  }

  ghost function SafetyChecks(safety: SafetyConfig, executed: Counts, p: AgentProposal): seq<Check<ControlError>> {
    var k := p.kind;
    [Check(k.ActuatorCommand? ==> -safety.safeMagnitude <= k.magnitude <= safety.safeMagnitude, Unsafe(AboveEnvelope)),
     Check(k.ActuatorCommand? ==> CountOf(executed, k.actuatorId) < safety.maxCommands, Unsafe(BudgetExhausted))]
  }

  ghost function AuthorityChecks(grants: set<Grant>, p: AgentProposal): seq<Check<ControlError>> {
    var k := p.kind;
    [Check(k.ActuatorCommand? ==> Grant(p.biomeId, p.agentId, k.actuatorId) in grants,
           NotAuthorized(p.biomeId, p.agentId, if k.ActuatorCommand? then k.actuatorId else ""))]
  }

  // The gates' checks in order: policy, safety envelope and budget, authority.
  ghost function GateChecks(d: Path, p: AgentProposal): seq<Check<ControlError>> {
    PolicyChecks(d.config.policy, p)
    + (SafetyChecks(d.config.safety, d.safetyExecuted, p) + AuthorityChecks(d.grants, p))
  }

  lemma {:induction false} PolicyNamesTheFirst(policy: PolicyConfig, p: AgentProposal)
    ensures IsFirstFailure(Failure(CheckPolicy(policy, p)), PolicyChecks(policy, p))
  {
    var checks, r := PolicyChecks(policy, p), CheckPolicy(policy, p);
    if r.Err? {
      var k := match r.error.reason
        case EmptyProposalId => 0
        case EmptyAgentId => 1
        case EmptyBiomeId => 2
        case EmptyJustification => 3
        case IntervalOutOfRange => 4
        case EmptyModelId => 5
        case EmptyTarget => 6
        case InvalidGeo => 7
        case ActuatorNotAllowed => 8
        case MagnitudeAbovePolicy => 9;
      assert FailsFirst(checks, k) && checks[k].error == r.error;
    }
  }

  lemma {:induction false} SafetyNamesTheFirst(safety: SafetyConfig, executed: Counts, p: AgentProposal)
    ensures IsFirstFailure(Failure(CheckSafety(safety, executed, p)), SafetyChecks(safety, executed, p))
  {
    var checks, r := SafetyChecks(safety, executed, p), CheckSafety(safety, executed, p);
    if r.Err? {
      var k := if r.error.why.AboveEnvelope? then 0 else 1;
      assert FailsFirst(checks, k) && checks[k].error == r.error;
    }
  }

  lemma {:induction false} AuthorityNamesTheFirst(grants: set<Grant>, p: AgentProposal)
    ensures IsFirstFailure(Failure(CheckAuthority(grants, p)), AuthorityChecks(grants, p))
  {
    var checks := AuthorityChecks(grants, p);
    if CheckAuthority(grants, p).Err? {
      assert FailsFirst(checks, 0);
    }
  }

  lemma {:induction false} GatesNameTheFirst(d: Path, p: AgentProposal)
    ensures IsFirstFailure(Failure(Gates(d, p)), GateChecks(d, p))
  {
    hide CheckPolicy, CheckSafety, CheckAuthority, PolicyChecks, SafetyChecks, AuthorityChecks, IsFirstFailure;
    var policed, simulated := CheckPolicy(d.config.policy, p), CheckSafety(d.config.safety, d.safetyExecuted, p);
    PolicyNamesTheFirst(d.config.policy, p);
    SafetyNamesTheFirst(d.config.safety, d.safetyExecuted, p);
    AuthorityNamesTheFirst(d.grants, p);
    var safety, authority := SafetyChecks(d.config.safety, d.safetyExecuted, p), AuthorityChecks(d.grants, p);
    var later := if simulated.Err? then Failure(simulated) else Failure(CheckAuthority(d.grants, p));
    FirstFailureOfSum(Failure(simulated), later, safety, authority);
    FirstFailureOfSum(Failure(policed), if policed.Err? then Failure(policed) else later,
                      PolicyChecks(d.config.policy, p), safety + authority);
  }

  // The gateway's checks of a signed command, then the execution itself.
  ghost function CommandChecks(
      v: Validator, crypto: Crypto, cmd: SignedCommand, nowNs: U64, execute: Execute): seq<Check<ControlError>>
  {
    var c := cmd.payload;
    var verified, done := crypto.verify(cmd.signer, c, cmd.signature), execute(c.kind);
    [Check(cmd.signer in v.trusted, UntrustedKey(cmd.signer)),
     Check(verified.Ok?, if verified.Err? then verified.error else ControlError.BadSignature),
     Check(nowNs < c.expiresNs, Expired(c.expiresNs, nowNs)),
     Check(c.commandId !in v.phases, DuplicateCommand(c.commandId)),
     Check(c.kind.ActuatorCommand? ==> CountOf(v.executed, c.kind.actuatorId) < v.cap, Unsafe(CapExhausted)),
     Check(done.Ok?, ExecutionFailed(if done.Err? then done.error else ""))]
  }

  // A command refused by its checks changes nothing; else it runs once, is recorded as
  // executed and charged, or as failed, and the receipt says what the execution said.
  lemma {:induction false} AttemptsAreRecorded(
      v: Validator, crypto: Crypto, cmd: SignedCommand, nowNs: U64, execute: Execute)
    ensures var a, checks := ValidateAndExecute(v, crypto, cmd, nowNs, execute),
                             CommandChecks(v, crypto, cmd, nowNs, execute);
            var id, done := cmd.payload.commandId, execute(cmd.payload.kind);
            && IsFirstFailure(Failure(a.result), checks)
            && (a.ran <==> forall k :: 0 <= k < 5 ==> checks[k].passes)
            && (!a.ran ==> a.v == v)
            && (a.ran ==> a.v.phases == v.phases[id := if done.Ok? then Executed else Failed])
            && (a.result.Ok? ==> a.ran && a.result.value == Receipt(id, nowNs, done.value))
            && (a.ran ==> (a.result.Ok? <==> done.Ok?))
            && (forall x :: CountOf(a.v.executed, x)
                  == CountOf(v.executed, x)
                     + (if a.result.Ok? && cmd.payload.kind.ActuatorCommand? && cmd.payload.kind.actuatorId == x
                        then 1 else 0))
  {
    var a, checks := ValidateAndExecute(v, crypto, cmd, nowNs, execute),
                     CommandChecks(v, crypto, cmd, nowNs, execute);
    if a.result.Err? {
      var k := if !checks[0].passes then 0 else if !checks[1].passes then 1 else if !checks[2].passes then 2
               else if !checks[3].passes then 3 else if !checks[4].passes then 4 else 5;
      assert FailsFirst(checks, k) && checks[k].error == a.result.error;
    }
  }

  // What the owner signs for a proposal: good from now for an hour, saturating.
  ghost function CommandFor(p: AgentProposal, nowNs: U64): CommandPayload {
    var end := nowNs + 60 * 60 * 1_000_000_000;
    CommandPayload("cmd-" + p.proposalId, p.biomeId, p.agentId, p.kind, nowNs,
                   if end < 0x1_0000_0000_0000_0000 then end else 0xFFFF_FFFF_FFFF_FFFF)
  }

  // The whole path refuses a proposal with the first check to fail, gates first, then
  // those of the command signed for it, then its execution.
  lemma {:induction false} DriveNamesTheFirst(
      d: Path, crypto: Crypto, p: AgentProposal, nowNs: U64, execute: Execute)
    ensures var c := CommandFor(p, nowNs);
            var cmd := SignedCommand(c, crypto.sign(c), crypto.ownKey);
            IsFirstFailure(Failure(Drive(d, crypto, p, nowNs, execute).result),
                           GateChecks(d, p) + CommandChecks(d.gateway, crypto, cmd, nowNs, execute))
  {
    hide Gates, GateChecks, ValidateAndExecute, CommandChecks, IsFirstFailure;
    var c := CommandFor(p, nowNs);
    var cmd := SignedCommand(c, crypto.sign(c), crypto.ownKey);
    assert cmd == Sign(crypto, PayloadOf(p, nowNs));
    GatesNameTheFirst(d, p);
    AttemptsAreRecorded(d.gateway, crypto, cmd, nowNs, execute);
    FirstFailureOfSum(Failure(Gates(d, p)), Failure(Drive(d, crypto, p, nowNs, execute).result),
                      GateChecks(d, p), CommandChecks(d.gateway, crypto, cmd, nowNs, execute));
  }

  // ---------------------------------------------------------------------
  // Whole lives of the daemon
  // ---------------------------------------------------------------------

  datatype Step =
    // run_proposal to its end, journal write included.
    | Propose(p: AgentProposal, nowNs: U64, execute: Execute)
    // a command from elsewhere, given to the validator and journaled.
    | Present(cmd: SignedCommand, nowNs: U64, execute: Execute)
    // the process dies in run_proposal: before the closure, or after it and before
    // the journal write.
    | CrashBefore(p: AgentProposal, nowNs: U64)
    | CrashAfter(p: AgentProposal, nowNs: U64, execute: Execute)
    | GrantAuthority(grant: Grant)
    | Restart

  // One call of the execution closure.
  datatype Run = Run(payload: CommandPayload, ok: bool)

  // Beside the daemon: the table on disk, every payload the owner ever signed, every
  // grant ever made, every closure call ever made and how many preceded the last boot.
  datatype Life = Life(
    path: Path, journal: Phases, signed: set<CommandPayload>, granted: set<Grant>, runs: seq<Run>, bootAt: nat)

  function Booted(config: Config, ownKey: string, journal: Phases): Path {
    Path(config, map[], config.grants, NewValidator({ownKey}).(phases := journal), [], 0, 0)
  }

  function NewLife(config: Config, ownKey: string): Life {
    Life(Booted(config, ownKey, map[]), map[], {}, config.grants, [], 0)
  }

  // Nobody else can make a signature that verifies under the owner's key.
  predicate Forged(life: Life, crypto: Crypto, cmd: SignedCommand) {
    crypto.verify(crypto.ownKey, cmd.payload, cmd.signature).Ok? && cmd.payload !in life.signed
  }

  function Signing(life: Life, p: AgentProposal, nowNs: U64): set<CommandPayload> {
    if Gates(life.path, p).Ok? then life.signed + {PayloadOf(p, nowNs)} else life.signed
  }

  // The closure call a step makes, if any.
  function RunOf(life: Life, crypto: Crypto, step: Step): seq<Run> {
    match step
    case Propose(p, nowNs, execute) =>
      var r := Drive(life.path, crypto, p, nowNs, execute);
      if r.ran then [Run(PayloadOf(p, nowNs), r.result.Ok?)] else []
    case CrashAfter(p, nowNs, execute) =>
      var r := Drive(life.path, crypto, p, nowNs, execute);
      if r.ran then [Run(PayloadOf(p, nowNs), r.result.Ok?)] else []
    case Present(cmd, nowNs, execute) =>
      var a := ValidateAndExecute(life.path.gateway, crypto, cmd, nowNs, execute);
      if a.ran && !Forged(life, crypto, cmd) then [Run(cmd.payload, a.result.Ok?)] else []
    case _ => []
  }

  function Reboot(life: Life, crypto: Crypto): Life {
    life.(path := Booted(life.path.config, crypto.ownKey, life.journal), bootAt := |life.runs|)
  }

  function NextLife(life: Life, crypto: Crypto, step: Step): Life {
    var d, l := life.path, life.(runs := life.runs + RunOf(life, crypto, step));
    match step
    case Propose(p, nowNs, execute) =>
      var r := RunProposal(d, crypto, p, nowNs, execute);
      l.(path := r.path, journal := r.path.gateway.phases, signed := Signing(life, p, nowNs))
    case Present(cmd, nowNs, execute) =>
      if Forged(life, crypto, cmd) then life
      else
        var v := ValidateAndExecute(d.gateway, crypto, cmd, nowNs, execute).v;
        l.(path := d.(gateway := v), journal := v.phases)
    case CrashBefore(p, nowNs) => Reboot(l.(signed := Signing(life, p, nowNs)), crypto)
    case CrashAfter(p, nowNs, _) => Reboot(l.(signed := Signing(life, p, nowNs)), crypto)
    case GrantAuthority(grant) => l.(path := d.(grants := d.grants + {grant}), granted := life.granted + {grant})
    case Restart => Reboot(l, crypto)
  }

  ghost function IdsOf(runs: seq<Run>): set<string> {
    set r | r in runs :: r.payload.commandId
  }

  ghost predicate OncePerId(runs: seq<Run>) {
    forall i, j :: 0 <= i < j < |runs| ==> runs[i].payload.commandId != runs[j].payload.commandId
  }

  // Successful runs of an actuator.
  ghost function Successes(runs: seq<Run>, actuator: string): nat {
    if runs == [] then 0
    else
      var last := runs[|runs| - 1];
      Successes(runs[..|runs| - 1], actuator)
      + (if last.ok && last.payload.kind.ActuatorCommand? && last.payload.kind.actuatorId == actuator then 1 else 0)
  }

  // What every gate together promises of a command, whatever its route.
  ghost predicate Passed(config: Config, granted: set<Grant>, c: CommandPayload) {
    && c.commandId != "cmd-" && c.biomeId != "" && c.agentId != ""
    && match c.kind
       case SetSamplingRate(_, interval) => config.policy.minIntervalS <= interval <= config.policy.maxIntervalS
       case DeployModel(model, target) => model != "" && target != ""
       case RepositionSensor(_, lat, lon) => Abs(lat) <= LAT_E7_MAX && Abs(lon) <= LON_E7_MAX
       case ActuatorCommand(actuator, _, magnitude) =>
         && actuator in config.policy.allowedActuators
         && AbsReal(magnitude) <= config.policy.maxMagnitude && AbsReal(magnitude) <= config.safety.safeMagnitude
         && Grant(c.biomeId, c.agentId, actuator) in granted
  }

  // Kept by every step: the table in memory is the one on disk and holds no command in
  // mid-execution; every run was of a signed payload, every signed payload passed
  // every gate; the gateway counted exactly the successes since boot.
  ghost predicate GoodLife(life: Life, crypto: Crypto) {
    var d := life.path;
    && d.gateway.trusted == {crypto.ownKey} && d.gateway.cap == U32_LIMIT - 1
    && d.gateway.phases == life.journal
    && (forall id :: id in life.journal ==> life.journal[id] != Executing)
    && d.grants <= life.granted && d.config.grants <= life.granted
    && (forall c :: c in life.signed ==> Passed(d.config, life.granted, c))
    && (forall r :: r in life.runs ==> r.payload in life.signed)
    && life.bootAt <= |life.runs|
    && (forall a :: CountOf(d.gateway.executed, a) == Successes(life.runs[life.bootAt..], a) <= d.gateway.cap)
    && d.commandsExecuted == |d.receipts|
  }

  // The gates let through exactly the justified proposals whose command passes every
  // static check, while the actuator's safety budget lasts.
  lemma {:induction false} GatesPassIff(d: Path, p: AgentProposal, nowNs: U64)
    ensures Gates(d, p).Ok?
       <==> && Passed(d.config, d.grants, PayloadOf(p, nowNs)) && p.justification != ""
            && (p.kind.ActuatorCommand? ==> CountOf(d.safetyExecuted, p.kind.actuatorId) < d.config.safety.maxCommands)
  {
    assert ("cmd-" + p.proposalId)[|"cmd-"|..] == p.proposalId;
    assert p.proposalId == "" ==> "cmd-" + p.proposalId == "cmd-";
  }

  lemma {:induction false} GatesPromise(d: Path, granted: set<Grant>, p: AgentProposal, nowNs: U64)
    requires Gates(d, p).Ok? && d.grants <= granted
    ensures Passed(d.config, granted, PayloadOf(p, nowNs))
  {
    hide Gates;
    GatesPassIff(d, p, nowNs);
  }

  lemma {:induction false} SuccessesThen(runs: seq<Run>, r: Run, actuator: string)
    ensures Successes(runs + [r], actuator)
         == Successes(runs, actuator)
            + (if r.ok && r.payload.kind.ActuatorCommand? && r.payload.kind.actuatorId == actuator then 1 else 0)
  {
    assert (runs + [r])[..|runs|] == runs;
  }

  // A validation attempt, run or not, keeps the table free of mid-execution entries
  // and the count exact.
  lemma {:induction false} AttemptCounts(
      v: Validator, crypto: Crypto, cmd: SignedCommand, nowNs: U64, execute: Execute, runs: seq<Run>)
    requires forall id :: id in v.phases ==> v.phases[id] != Executing
    requires forall a :: CountOf(v.executed, a) == Successes(runs, a) <= v.cap
    ensures var a := ValidateAndExecute(v, crypto, cmd, nowNs, execute);
            && a.v.trusted == v.trusted && a.v.cap == v.cap
            && (forall id :: id in a.v.phases ==> a.v.phases[id] != Executing)
            && (forall x :: CountOf(a.v.executed, x)
                  == Successes(runs + (if a.ran then [Run(cmd.payload, a.result.Ok?)] else []), x) <= v.cap)
            && (a.ran ==> cmd.payload.commandId !in v.phases && cmd.signer in v.trusted
                          && crypto.verify(cmd.signer, cmd.payload, cmd.signature).Ok?)
            && a.v.phases.Keys == v.phases.Keys + (if a.ran then {cmd.payload.commandId} else {})
  {
    hide Successes;
    var a := ValidateAndExecute(v, crypto, cmd, nowNs, execute);
    assert runs + [] == runs;
    if a.ran {
      forall x {
        SuccessesThen(runs, Run(cmd.payload, a.result.Ok?), x);
      }
    }
  }

  lemma {:induction false} NextKeepsGood(life: Life, crypto: Crypto, step: Step)
    requires GoodLife(life, crypto)
    ensures GoodLife(NextLife(life, crypto, step), crypto)
  {
    hide Passed, ValidateAndExecute, Gates, Successes, PayloadOf;
    var d, ran := life.path, RunOf(life, crypto, step);
    var since := life.runs[life.bootAt..];
    assert (life.runs + ran)[life.bootAt..] == since + ran;
    assert since + [] == since && life.runs + [] == life.runs;
    NoSuccesses();
    assert (life.runs + ran)[|life.runs + ran|..] == [];
    match step
    case Propose(p, nowNs, execute) => ProposalKeepsGood(life, crypto, step, p, nowNs, execute);
    case CrashBefore(p, nowNs) =>
      if Gates(d, p).Ok? { GatesPromise(d, life.granted, p, nowNs); }
    case CrashAfter(p, nowNs, execute) =>
      if Gates(d, p).Ok? { GatesPromise(d, life.granted, p, nowNs); }
    case Present(cmd, nowNs, execute) => PresentKeepsGood(life, crypto, step, cmd, nowNs, execute);
    case GrantAuthority(grant) =>
      forall c | c in life.signed
        ensures Passed(d.config, life.granted + {grant}, c)
      {
        MoreGrants(d.config, life.granted, grant, c);
      }
    case Restart =>
  }

  lemma {:induction false} NoSuccesses()
    ensures forall a :: Successes([], a) == 0
  {
  }

  lemma {:induction false} MoreGrants(config: Config, granted: set<Grant>, grant: Grant, c: CommandPayload)
    requires Passed(config, granted, c)
    ensures Passed(config, granted + {grant}, c)
  {
  }

  lemma {:induction false} ProposalKeepsGood(
      life: Life, crypto: Crypto, step: Step, p: AgentProposal, nowNs: U64, execute: Execute)
    requires GoodLife(life, crypto) && step == Propose(p, nowNs, execute)
    ensures GoodLife(NextLife(life, crypto, step), crypto)
  {
    hide Passed, ValidateAndExecute, Gates, Successes, PayloadOf;
    var d, ran := life.path, RunOf(life, crypto, step);
    var since := life.runs[life.bootAt..];
    assert (life.runs + ran)[life.bootAt..] == since + ran;
    assert since + [] == since && life.runs + [] == life.runs;
    var life' := NextLife(life, crypto, step);
    assert life'.runs[life'.bootAt..] == since + ran;
    if Gates(d, p).Ok? {
      GatesPromise(d, life.granted, p, nowNs);
      AttemptCounts(d.gateway, crypto, Sign(crypto, PayloadOf(p, nowNs)), nowNs, execute, since);
      var a := ValidateAndExecute(d.gateway, crypto, Sign(crypto, PayloadOf(p, nowNs)), nowNs, execute);
      assert ran == if a.ran then [Run(PayloadOf(p, nowNs), a.result.Ok?)] else [];
      assert life'.path.gateway == a.v && life'.signed == life.signed + {PayloadOf(p, nowNs)};
      assert forall x :: CountOf(a.v.executed, x) == Successes(since + ran, x) <= a.v.cap;
      assert forall r :: r in life'.runs ==> r in life.runs || r == Run(PayloadOf(p, nowNs), a.result.Ok?);
    } else {
      assert ran == [] && life'.path.gateway == d.gateway && life'.signed == life.signed;
    }
  }

  lemma {:induction false} PresentKeepsGood(
      life: Life, crypto: Crypto, step: Step, cmd: SignedCommand, nowNs: U64, execute: Execute)
    requires GoodLife(life, crypto) && step == Present(cmd, nowNs, execute)
    ensures GoodLife(NextLife(life, crypto, step), crypto)
  {
    hide Passed, ValidateAndExecute, Successes;
    if !Forged(life, crypto, cmd) {
      var a, ran := ValidateAndExecute(life.path.gateway, crypto, cmd, nowNs, execute), RunOf(life, crypto, step);
      var since := life.runs[life.bootAt..];
      AttemptCounts(life.path.gateway, crypto, cmd, nowNs, execute, since);
      assert a.ran ==> cmd.signer == crypto.ownKey && cmd.payload in life.signed;
      assert (life.runs + ran)[life.bootAt..] == since + ran;
      assert ran == if a.ran then [Run(cmd.payload, a.result.Ok?)] else [];
    }
  }

  ghost function LifeAfter(config: Config, crypto: Crypto, steps: seq<Step>): (life: Life)
    ensures GoodLife(life, crypto)
  {
    if steps == [] then
      NewLifeIsGood(config, crypto);
      NewLife(config, crypto.ownKey)
    else
      var before := LifeAfter(config, crypto, steps[..|steps| - 1]);
      NextKeepsGood(before, crypto, steps[|steps| - 1]);
      NextLife(before, crypto, steps[|steps| - 1])
  }

  lemma {:induction false} NewLifeIsGood(config: Config, crypto: Crypto)
    ensures GoodLife(NewLife(config, crypto.ownKey), crypto)
  {
  }

  // A grant authorises its actuator at once and until the next start, which knows the
  // configured grants, the journal, and nothing else of the past.
  lemma {:induction false} GrantsLastUntilRestart(life: Life, crypto: Crypto, grant: Grant, p: AgentProposal)
    requires p.biomeId == grant.biomeId && p.agentId == grant.agentId
    requires p.kind.ActuatorCommand? && p.kind.actuatorId == grant.actuatorId
    ensures var granted := NextLife(life, crypto, GrantAuthority(grant));
            var started := NextLife(granted, crypto, Restart).path;
            && CheckAuthority(granted.path.grants, p).Ok?
            && (CheckAuthority(started.grants, p).Ok? <==> grant in life.path.config.grants)
            && started.gateway.phases == life.journal && started.gateway.executed == started.safetyExecuted == map[]
            && started.receipts == [] && started.commandsExecuted == started.proposalsRejected == 0
  {
  }

  // ---- Main results ----

  // Whatever arrives, however the process dies: each executed command was signed by
  // the owner after passing policy, safety and authority.
  lemma {:induction false} EveryRunPassedEveryGate(config: Config, crypto: Crypto, steps: seq<Step>, run: Run)
    requires run in LifeAfter(config, crypto, steps).runs
    ensures run.payload in LifeAfter(config, crypto, steps).signed
    ensures Passed(LifeAfter(config, crypto, steps).path.config, LifeAfter(config, crypto, steps).granted, run.payload)
  {
    hide Passed;
  }

  lemma {:induction false} ConfigStays(config: Config, crypto: Crypto, steps: seq<Step>)
    ensures LifeAfter(config, crypto, steps).path.config == config
  {
    hide GoodLife, Gates, ValidateAndExecute, Forged;
    if steps != [] {
      ConfigStays(config, crypto, steps[..|steps| - 1]);
    }
  }

  // With the default limits: only listed actuators, never beyond 0.8, and a sample at
  // most every ten seconds and at least once a day.
  lemma {:induction false} DefaultsBoundEveryActuation(
      allowed: set<string>, grants: set<Grant>, crypto: Crypto, steps: seq<Step>, run: Run)
    requires run in LifeAfter(Config(DefaultPolicy(allowed), DEFAULT_SAFETY, grants), crypto, steps).runs
    ensures run.payload.kind.ActuatorCommand? ==>
              run.payload.kind.actuatorId in allowed && -0.8 <= run.payload.kind.magnitude <= 0.8
    ensures run.payload.kind.SetSamplingRate? ==> 10 <= run.payload.kind.intervalS <= 24 * 60 * 60
  {
    hide GoodLife, LifeAfter;
    var config := Config(DefaultPolicy(allowed), DEFAULT_SAFETY, grants);
    EveryRunPassedEveryGate(config, crypto, steps, run);
    ConfigStays(config, crypto, steps);
  }

  // Ids that ran without a trace in the journal.
  ghost function Lost(life: Life): set<string> {
    IdsOf(life.runs) - life.journal.Keys
  }

  lemma {:induction false} NewRun(runs: seq<Run>, run: Run)
    ensures OncePerId(runs + [run]) <==> OncePerId(runs) && run.payload.commandId !in IdsOf(runs)
    ensures IdsOf(runs + [run]) == IdsOf(runs) + {run.payload.commandId}
  {
    var all := runs + [run];
    assert run in all && all[|runs|] == run && forall r :: r in all <==> r in runs || r == run;
    assert forall i :: 0 <= i < |runs| ==> all[i] == runs[i] && runs[i] in runs;
    if run.payload.commandId in IdsOf(runs) {
      var r :| r in runs && r.payload.commandId == run.payload.commandId;
      var i :| 0 <= i < |runs| && runs[i] == r;
      assert all[i].payload.commandId == all[|runs|].payload.commandId;
    } else {
      assert forall i :: 0 <= i < |runs| ==> runs[i].payload.commandId in IdsOf(runs);
    }
  }

  // What a step runs is never in the journal; it repeats an id exactly when that id is
  // lost, and only a crash after the closure loses one.
  lemma {:induction false} RerunsExactlyTheLost(life: Life, crypto: Crypto, step: Step)
    requires GoodLife(life, crypto) && life.journal.Keys <= IdsOf(life.runs)
    ensures var life', ran := NextLife(life, crypto, step), IdsOf(RunOf(life, crypto, step));
            && life'.journal.Keys <= IdsOf(life'.runs)
            && ran !! life.journal.Keys
            && (OncePerId(life'.runs) <==> OncePerId(life.runs) && ran !! Lost(life))
            && Lost(life') == (if step.CrashAfter? then Lost(life) + ran else Lost(life) - ran)
  {
    hide Passed, Gates, Successes, PayloadOf, Booted, OncePerId, IdsOf;
    var ran := RunOf(life, crypto, step);
    assert life.runs + [] == life.runs;
    NoIds();
    if ran != [] {
      NewRun(life.runs, ran[0]);
      NewRun([], ran[0]);
      assert [] + [ran[0]] == ran;
    }
  }

  lemma {:induction false} NoIds()
    ensures IdsOf([]) == {}
  {
  }

  ghost function IdOf(step: Step): string {
    match step
    case Propose(p, _, _) => "cmd-" + p.proposalId
    case CrashAfter(p, _, _) => "cmd-" + p.proposalId
    case Present(cmd, _, _) => cmd.payload.commandId
    case _ => ""
  }

  // The guards of a step that would call the closure, as they stand before it: the
  // three gates, the time, the phase table and the cap; or the checks of a command
  // that the owner signed.
  ghost predicate Admits(life: Life, crypto: Crypto, step: Step) {
    var v := life.path.gateway;
    match step
    case Propose(p, nowNs, _) => ProposalAdmitted(life.path, p, nowNs)
    case CrashAfter(p, nowNs, _) => ProposalAdmitted(life.path, p, nowNs)
    case Present(cmd, nowNs, _) => !Forged(life, crypto, cmd) && CheckCommand(v, crypto, cmd, nowNs).Ok?
    case _ => false
  }

  ghost predicate ProposalAdmitted(d: Path, p: AgentProposal, nowNs: U64) {
    && Gates(d, p).Ok? && nowNs < U64_MAX
    && "cmd-" + p.proposalId !in d.gateway.phases && !Capped(d.gateway, p.kind)
  }

  // The guards decide whether the closure is called, and for which id.
  lemma {:induction false} AdmittedIsWhatRuns(life: Life, crypto: Crypto, step: Step)
    requires GoodLife(life, crypto) && crypto.Honest()
    ensures IdsOf(RunOf(life, crypto, step)) == if Admits(life, crypto, step) then {IdOf(step)} else {}
  {
    hide Passed, Gates, Successes, CheckCommand;
    NoIds();
    match step
    case Propose(p, nowNs, execute) => DriveRunsIff(life.path, crypto, p, nowNs, execute);
    case CrashAfter(p, nowNs, execute) => DriveRunsIff(life.path, crypto, p, nowNs, execute);
    case _ =>
  }

  // The ids admitted at a crash between closure and journal write, and not since.
  ghost function InFlight(config: Config, crypto: Crypto, steps: seq<Step>): set<string> {
    if steps == [] then {}
    else
      var init, step := steps[..|steps| - 1], steps[|steps| - 1];
      var before := InFlight(config, crypto, init);
      if !Admits(LifeAfter(config, crypto, init), crypto, step) then before
      else if step.CrashAfter? then before + {IdOf(step)}
      else before - {IdOf(step)}
  }

  // No step is let in for an id that a crash left in flight.
  ghost predicate NeverReadmits(config: Config, crypto: Crypto, steps: seq<Step>) {
    steps != [] ==>
      var init, step := steps[..|steps| - 1], steps[|steps| - 1];
      && NeverReadmits(config, crypto, init)
      && !(Admits(LifeAfter(config, crypto, init), crypto, step) && IdOf(step) in InFlight(config, crypto, init))
  }

  // Over every life no command id runs twice exactly if no step is let in for an id in
  // flight; and the ids in flight are those that ran without reaching the journal.
  lemma {:induction false} OnceIffNeverReadmitted(config: Config, crypto: Crypto, steps: seq<Step>)
    requires crypto.Honest()
    ensures var life := LifeAfter(config, crypto, steps);
            && (OncePerId(life.runs) <==> NeverReadmits(config, crypto, steps))
            && Lost(life) == InFlight(config, crypto, steps)
            && life.journal.Keys <= IdsOf(life.runs)
  {
    hide GoodLife, OncePerId, IdsOf, RunOf, NextLife, Admits, IdOf;
    if steps == [] {
      NewLifeRanNothing(config, crypto.ownKey);
    } else {
      var init, step := steps[..|steps| - 1], steps[|steps| - 1];
      OnceIffNeverReadmitted(config, crypto, init);
      RerunsExactlyTheLost(LifeAfter(config, crypto, init), crypto, step);
      AdmittedIsWhatRuns(LifeAfter(config, crypto, init), crypto, step);
    }
  }

  lemma {:induction false} NewLifeRanNothing(config: Config, ownKey: string)
    ensures var life := NewLife(config, ownKey);
            OncePerId(life.runs) && Lost(life) == {} && life.journal.Keys <= IdsOf(life.runs)
  {
  }

  ghost predicate NeverLoses(steps: seq<Step>) {
    forall step :: step in steps ==> !step.CrashAfter?
  }

  // With restarts at journal points only, no command id ever runs twice, and the
  // journal names exactly the ids that ran.
  lemma {:induction false} AtMostOnce(config: Config, crypto: Crypto, steps: seq<Step>)
    requires NeverLoses(steps)
    ensures var life := LifeAfter(config, crypto, steps);
            OncePerId(life.runs) && IdsOf(life.runs) == life.journal.Keys
  {
    hide GoodLife, OncePerId, IdsOf, RunOf, NextLife;
    if steps == [] {
      NewLifeRanNothing(config, crypto.ownKey);
      assert LifeAfter(config, crypto, steps) == NewLife(config, crypto.ownKey);
    } else {
      var init, step := steps[..|steps| - 1], steps[|steps| - 1];
      assert step in steps && forall x :: x in init ==> x in steps;
      AtMostOnce(config, crypto, init);
      RerunsExactlyTheLost(LifeAfter(config, crypto, init), crypto, step);
      assert Lost(LifeAfter(config, crypto, steps)) == {};
    }
    var life := LifeAfter(config, crypto, steps);
    forall id | id in IdsOf(life.runs)
      ensures id in life.journal.Keys
    {
      assert id !in Lost(life);
    }
  }

  // The last run of the id, which its phase tells of.
  ghost predicate TellsLastRun(life: Life, id: string, k: nat)
    requires id in life.journal
  {
    && k < |life.runs| && life.runs[k].payload.commandId == id
    && (forall j :: k < j < |life.runs| ==> life.runs[j].payload.commandId != id)
    && life.journal[id] == (if life.runs[k].ok then Executed else Failed)
  }

  ghost predicate Truthful(life: Life) {
    forall id :: id in life.journal ==> exists k: nat :: TellsLastRun(life, id, k)
  }

  // What a step runs is recorded with its outcome, unless the step is a crash.
  lemma {:induction false} RunsAreRecorded(life: Life, crypto: Crypto, step: Step)
    requires GoodLife(life, crypto)
    ensures var ran, life' := RunOf(life, crypto, step), NextLife(life, crypto, step);
            && |ran| <= 1 && life'.runs == life.runs + ran
            && life'.journal == if ran == [] || step.CrashAfter? then life.journal
                                else life.journal[ran[0].payload.commandId := if ran[0].ok then Executed else Failed]
  {
    hide Passed, Gates, Successes, PayloadOf, ValidateAndExecute;
    var d := life.path;
    match step
    case Propose(p, nowNs, execute) =>
      AttemptsAreRecorded(d.gateway, crypto, Sign(crypto, PayloadOf(p, nowNs)), nowNs, execute);
    case Present(cmd, nowNs, execute) => AttemptsAreRecorded(d.gateway, crypto, cmd, nowNs, execute);
    case _ =>
  }

  lemma {:induction false} NextStaysTruthful(life: Life, crypto: Crypto, step: Step)
    requires GoodLife(life, crypto) && Truthful(life) && life.journal.Keys <= IdsOf(life.runs)
    ensures Truthful(NextLife(life, crypto, step))
  {
    hide GoodLife, NextLife, RunOf, IdsOf;
    RunsAreRecorded(life, crypto, step);
    RerunsExactlyTheLost(life, crypto, step);
    var life', ran := NextLife(life, crypto, step), RunOf(life, crypto, step);
    forall id | id in life'.journal
      ensures exists k: nat :: TellsLastRun(life', id, k)
    {
      if ran != [] && !step.CrashAfter? && id == ran[0].payload.commandId {
        assert TellsLastRun(life', id, |life.runs|);
      } else {
        var k: nat :| TellsLastRun(life, id, k);
        RanIsNotOnRecord(life, ran, id);
        assert TellsLastRun(life', id, k);
      }
    }
  }

  lemma {:induction false} RanIsNotOnRecord(life: Life, ran: seq<Run>, id: string)
    requires IdsOf(ran) !! life.journal.Keys && id in life.journal
    ensures forall j :: 0 <= j < |ran| ==> ran[j].payload.commandId != id
  {
    assert forall j :: 0 <= j < |ran| ==> ran[j].payload.commandId in IdsOf(ran);
  }

  // Over every life, crashes included, the table in memory and the one on disk say of
  // each id they hold whether the last execution under it succeeded or failed.
  lemma {:induction false} PhasesTellOutcomes(config: Config, crypto: Crypto, steps: seq<Step>)
    ensures var life := LifeAfter(config, crypto, steps);
            Truthful(life) && life.path.gateway.phases == life.journal && life.journal.Keys <= IdsOf(life.runs)
  {
    hide GoodLife, NextLife, RunOf, IdsOf, Truthful;
    if steps == [] {
      NothingOnRecord(config, crypto.ownKey);
    } else {
      var init, step := steps[..|steps| - 1], steps[|steps| - 1];
      PhasesTellOutcomes(config, crypto, init);
      RerunsExactlyTheLost(LifeAfter(config, crypto, init), crypto, step);
      NextStaysTruthful(LifeAfter(config, crypto, init), crypto, step);
    }
    MemoryIsJournal(LifeAfter(config, crypto, steps), crypto);
  }

  lemma {:induction false} NothingOnRecord(config: Config, ownKey: string)
    ensures Truthful(NewLife(config, ownKey)) && NewLife(config, ownKey).journal == map[]
  {
  }

  lemma {:induction false} MemoryIsJournal(life: Life, crypto: Crypto)
    requires GoodLife(life, crypto)
    ensures life.path.gateway.phases == life.journal
  {
  }

  // So without a crash between closure and journal write, an id reads "executed" in the
  // journal exactly if its one run succeeded and "failed" exactly if it failed.
  lemma {:induction false} JournalReadsTheOutcome(
      config: Config, crypto: Crypto, steps: seq<Step>, lines: seq<JournalLine>)
    requires NeverLoses(steps)
    requires IsExportOf(lines, LifeAfter(config, crypto, steps).journal)
    ensures var runs := LifeAfter(config, crypto, steps).runs;
            forall id, phase :: JournalLine(id, phase) in lines <==>
              exists k :: 0 <= k < |runs| && runs[k].payload.commandId == id
                          && phase == (if runs[k].ok then "executed" else "failed")
  {
    hide LifeAfter, GoodLife, NeverLoses, IdsOf;
    var life := LifeAfter(config, crypto, steps);
    PhasesTellOutcomes(config, crypto, steps);
    AtMostOnce(config, crypto, steps);
    forall id, phase | JournalLine(id, phase) in lines
      ensures exists k :: 0 <= k < |life.runs| && life.runs[k].payload.commandId == id
                          && phase == (if life.runs[k].ok then "executed" else "failed")
    {
      var l := JournalLine(id, phase);
      var k: nat :| TellsLastRun(life, l.commandId, k);
    }
    forall k | 0 <= k < |life.runs|
      ensures JournalLine(life.runs[k].payload.commandId, if life.runs[k].ok then "executed" else "failed") in lines
    {
      var id := life.runs[k].payload.commandId;
      RunIsNamed(life.runs, k);
      var j: nat :| TellsLastRun(life, id, j);
      assert j == k;
    }
  }

  lemma {:induction false} RunIsNamed(runs: seq<Run>, k: nat)
    requires k < |runs|
    ensures runs[k].payload.commandId in IdsOf(runs)
  {
  }

  // The run of the step's own command, with the step's own execution.
  ghost predicate Stems(run: Run, step: Step) {
    match step
    case Propose(p, nowNs, execute) => run == Run(CommandFor(p, nowNs), execute(p.kind).Ok?)
    case CrashAfter(p, nowNs, execute) => run == Run(CommandFor(p, nowNs), execute(p.kind).Ok?)
    case Present(cmd, _, execute) => run == Run(cmd.payload, execute(cmd.payload.kind).Ok?)
    case _ => false
  }

  ghost predicate IsSignedFor(c: CommandPayload, step: Step) {
    (step.Propose? || step.CrashBefore? || step.CrashAfter?) && c == CommandFor(step.p, step.nowNs)
  }

  lemma {:induction false} RunsStem(life: Life, crypto: Crypto, step: Step)
    ensures forall run :: run in RunOf(life, crypto, step) ==> Stems(run, step)
    ensures forall c :: c in NextLife(life, crypto, step).signed ==> c in life.signed || IsSignedFor(c, step)
  {
    hide Gates, ValidateAndExecute;
    var v := life.path.gateway;
    match step
    case Propose(p, nowNs, execute) =>
      AttemptsAreRecorded(v, crypto, Sign(crypto, PayloadOf(p, nowNs)), nowNs, execute);
    case CrashAfter(p, nowNs, execute) =>
      AttemptsAreRecorded(v, crypto, Sign(crypto, PayloadOf(p, nowNs)), nowNs, execute);
    case Present(cmd, nowNs, execute) => AttemptsAreRecorded(v, crypto, cmd, nowNs, execute);
    case _ =>
  }

  ghost predicate AskedFor(run: Run, steps: seq<Step>) {
    exists step :: step in steps && Stems(run, step)
  }

  ghost predicate SignedFor(c: CommandPayload, steps: seq<Step>) {
    exists step :: step in steps && IsSignedFor(c, step)
  }

  lemma {:induction false} AskedForStays(run: Run, c: CommandPayload, steps: seq<Step>, last: Step)
    ensures AskedFor(run, steps + [last]) <==> AskedFor(run, steps) || Stems(run, last)
    ensures SignedFor(c, steps + [last]) <==> SignedFor(c, steps) || IsSignedFor(c, last)
  {
    hide Stems, IsSignedFor;
    assert forall x :: x in steps + [last] <==> x in steps || x == last;
  }

  // Over every life: each run is of the command of some step, and succeeded as that
  // step's execution did; each command signed is the one for some proposal.
  lemma {:induction false} EveryRunWasAskedFor(
      config: Config, crypto: Crypto, steps: seq<Step>, run: Run, c: CommandPayload)
    ensures run in LifeAfter(config, crypto, steps).runs ==> AskedFor(run, steps)
    ensures c in LifeAfter(config, crypto, steps).signed ==> SignedFor(c, steps)
  {
    hide GoodLife, NextLife, RunOf, Stems, IsSignedFor, AskedFor, SignedFor;
    if steps == [] {
      NothingAskedFor(config, crypto.ownKey);
    } else {
      var init, last := steps[..|steps| - 1], steps[|steps| - 1];
      EveryRunWasAskedFor(config, crypto, init, run, c);
      assert init + [last] == steps;
      AskedForStays(run, c, init, last);
      RunsStem(LifeAfter(config, crypto, init), crypto, last);
      RunsGrow(LifeAfter(config, crypto, init), crypto, last);
    }
  }

  lemma {:induction false} NothingAskedFor(config: Config, ownKey: string)
    ensures NewLife(config, ownKey).runs == [] && NewLife(config, ownKey).signed == {}
  {
  }

  lemma {:induction false} RunsGrow(life: Life, crypto: Crypto, step: Step)
    ensures forall run :: run in NextLife(life, crypto, step).runs ==>
              run in life.runs || run in RunOf(life, crypto, step)
  {
    hide RunOf, Gates, ValidateAndExecute;
  }

  // The daemon's own comment says a crash can never leave an executed command absent
  // from disk (crates/rucelium-gateway/src/control.rs:19-20).  After a crash between
  // the closure and the journal write it is absent, and the proposal runs again.
  lemma {:induction false} CrashAfterRunsAgain(
      life: Life, crypto: Crypto, p: AgentProposal, nowNs: U64, execute: Execute)
    requires GoodLife(life, crypto) && crypto.Honest()
    requires Drive(life.path, crypto, p, nowNs, execute).ran
    requires Gates(Booted(life.path.config, crypto.ownKey, life.journal), p).Ok?
    ensures var crashed := NextLife(life, crypto, CrashAfter(p, nowNs, execute));
            var again := NextLife(crashed, crypto, Propose(p, nowNs, execute));
            && "cmd-" + p.proposalId !in crashed.journal
            && again.runs == life.runs + [Run(PayloadOf(p, nowNs), execute(p.kind).Ok?),
                                          Run(PayloadOf(p, nowNs), execute(p.kind).Ok?)]
  {
    hide Passed, Gates, Successes, PayloadOf;
    DriveRunsIff(life.path, crypto, p, nowNs, execute);
    var crashed := NextLife(life, crypto, CrashAfter(p, nowNs, execute));
    DriveRunsIff(crashed.path, crypto, p, nowNs, execute);
  }

  // ---- Budgets ----

  ghost predicate OwnProposalsOnly(steps: seq<Step>) {
    forall step :: step in steps ==> !step.Present?
  }

  // Both budgets count the successes since boot, and never exceed the safety budget.
  ghost predicate Balanced(life: Life) {
    forall a :: CountOf(life.path.safetyExecuted, a) == CountOf(life.path.gateway.executed, a)
                <= life.path.config.safety.maxCommands
  }

  // A success charges both budgets, anything else neither.
  lemma {:induction false} DriveKeepsBalance(d: Path, crypto: Crypto, p: AgentProposal, nowNs: U64, execute: Execute)
    requires forall a :: CountOf(d.safetyExecuted, a) == CountOf(d.gateway.executed, a) <= d.config.safety.maxCommands
    ensures var r := Drive(d, crypto, p, nowNs, execute);
            && r.path.config == d.config
            && (forall a :: CountOf(r.path.safetyExecuted, a) == CountOf(r.path.gateway.executed, a)
                            <= d.config.safety.maxCommands)
            && (!r.result.Ok? ==>
                 r.path.safetyExecuted == d.safetyExecuted && r.path.gateway.executed == d.gateway.executed)
  {
    hide CheckPolicy, CheckAuthority, CheckCommand;
    var r := Drive(d, crypto, p, nowNs, execute);
    if r.result.Ok? {
      assert CheckSafety(d.config.safety, d.safetyExecuted, p).Ok?;
      assert r.path.safetyExecuted == Charge(d.safetyExecuted, p.kind);
      assert r.path.gateway.executed == Charge(d.gateway.executed, p.kind);
      forall a
        ensures CountOf(r.path.safetyExecuted, a) == CountOf(r.path.gateway.executed, a) <= d.config.safety.maxCommands
      {
        assert CountOf(d.safetyExecuted, a) == CountOf(d.gateway.executed, a);
      }
    }
  }

  lemma {:induction false} NextKeepsBalance(life: Life, crypto: Crypto, step: Step)
    requires Balanced(life) && !step.Present?
    ensures Balanced(NextLife(life, crypto, step))
    ensures NextLife(life, crypto, step).path.config == life.path.config
  {
    hide Drive, Gates, Booted;
    match step
    case Propose(p, nowNs, execute) => DriveKeepsBalance(life.path, crypto, p, nowNs, execute);
    case _ => BootedIsBalanced(life.path.config, crypto.ownKey, life.journal);
  }

  lemma {:induction false} BootedIsBalanced(config: Config, ownKey: string, journal: Phases)
    ensures var d := Booted(config, ownKey, journal);
            d.config == config && d.safetyExecuted == map[] == d.gateway.executed
  {
  }

  lemma {:induction false} BudgetsAgree(config: Config, crypto: Crypto, steps: seq<Step>, actuator: string)
    requires OwnProposalsOnly(steps)
    ensures var life := LifeAfter(config, crypto, steps);
            && Balanced(life) && life.path.config == config
            && CountOf(life.path.safetyExecuted, actuator)
               == CountOf(life.path.gateway.executed, actuator)
               == Successes(life.runs[life.bootAt..], actuator)
               <= config.safety.maxCommands
            && (config.safety == DEFAULT_SAFETY ==> CountOf(life.path.gateway.executed, actuator) <= 10)
  {
    hide NextLife, Passed, Successes;
    if steps != [] {
      var init, step := steps[..|steps| - 1], steps[|steps| - 1];
      assert step in steps && forall x :: x in init ==> x in steps;
      BudgetsAgree(config, crypto, init, actuator);
      NextKeepsBalance(LifeAfter(config, crypto, init), crypto, step);
    }
  }

  // ---------------------------------------------------------------------
  // The components as objects
  // ---------------------------------------------------------------------

  class SafetySimulator {
    const config: SafetyConfig
    var executed: Counts

    constructor (config: SafetyConfig)
      ensures this.config == config && executed == map[]
    {
      this.config, executed := config, map[];
    }

    // Charged only after an execution, whatever its budget says.
    method RecordExecution(actuator: string)
      modifies this
      ensures executed == old(executed)[actuator := CountOf(old(executed), actuator) + 1]
    {
      executed := executed[actuator := CountOf(executed, actuator) + 1];
    }
  }

  class GatewayValidator {
    const crypto: Crypto
    const trusted: set<string>
    var phases: Phases
    var executed: Counts
    const cap: U32

    constructor (crypto: Crypto, trusted: set<string>)
      ensures this.crypto == crypto && State() == NewValidator(trusted)
    {
      this.crypto, this.trusted, cap := crypto, trusted, U32_LIMIT - 1;
      phases, executed := map[], map[];
    }

    function State(): Validator
      reads this
    {
      Validator(trusted, phases, executed, cap)
    }

    method ExportPhases() returns (lines: seq<JournalLine>)
      ensures IsExportOf(lines, phases)
    {
      var todo := phases.Keys;
      lines := [];
      while todo != {}
        invariant todo <= phases.Keys
        invariant forall l :: l in lines ==> l.commandId in phases && l.phase == AsStr(phases[l.commandId])
        invariant forall id :: id in phases && id !in todo ==> JournalLine(id, AsStr(phases[id])) in lines
      {
        var id :| id in todo;
        var line := JournalLine(id, AsStr(phases[id]));
        assert line in lines + [line];
        lines, todo := lines + [line], todo - {id};
      }
    }

    method RestorePhases(lines: seq<JournalLine>)
      modifies this`phases
      ensures phases == Restore(old(phases), lines)
    {
      for i := 0 to |lines|
        invariant phases == Restore(old(phases), lines[..i])
      {
        assert lines[..i + 1][..i] == lines[..i];
        var parsed := ParsePhase(lines[i].phase);
        if parsed.Some? {
          phases := phases[lines[i].commandId := parsed.value];
        }
      }
      assert lines[..|lines|] == lines;
    }

    // Intent is recorded before the closure runs, its end after.
    method ValidateAndExecuteNow(cmd: SignedCommand, nowNs: U64, execute: Execute)
      returns (result: Result<Receipt, ControlError>, ghost ran: bool)
      modifies this
      ensures Attempt(State(), result, ran) == ValidateAndExecute(old(State()), crypto, cmd, nowNs, execute)
    {
      var checked := CheckCommand(State(), crypto, cmd, nowNs);
      if checked.Err? {
        return Err(checked.error), false;
      }
      var id, kind := cmd.payload.commandId, cmd.payload.kind;
      ran := true;
      phases := phases[id := Executing];
      var done := execute(kind);
      match done
      case Ok(outcome) =>
        phases := phases[id := Executed];
        executed := Charge(executed, kind);
        result := Ok(Receipt(id, nowNs, outcome));
      case Err(message) =>
        phases := phases[id := Failed];
        result := Err(ExecutionFailed(message));
    }
  }

  // The control part of the daemon's state, with its journal file.
  class ControlPath {
    const crypto: Crypto
    const config: Config
    const safety: SafetySimulator
    const gateway: GatewayValidator
    var grants: set<Grant>
    var receipts: seq<Receipt>
    var commandsExecuted: nat
    var proposalsRejected: nat
    var journal: seq<JournalLine>

    ghost predicate Valid()
      reads this
    {
      safety.config == config.safety && gateway.crypto == crypto
    }

    ghost function State(): Path
      reads this, safety, gateway
    {
      Path(config, safety.executed, grants, gateway.State(), receipts, commandsExecuted, proposalsRejected)
    }

    // Inner::open: budgets start empty, phases come back from the journal.
    constructor (crypto: Crypto, config: Config, journal: seq<JournalLine>)
      ensures Valid() && fresh(safety) && fresh(gateway)
      ensures this.crypto == crypto && this.journal == journal && this.config == config
      ensures grants == config.grants && receipts == [] && commandsExecuted == proposalsRejected == 0
      ensures safety.executed == gateway.executed == map[] && gateway.trusted == {crypto.ownKey}
      ensures forall table: Phases :: IsExportOf(journal, table) ==> State() == Booted(config, crypto.ownKey, table)
    {
      this.crypto, this.config, this.journal := crypto, config, journal;
      var safety := new SafetySimulator(config.safety);
      var gateway := new GatewayValidator(crypto, {crypto.ownKey});
      gateway.RestorePhases(journal);
      this.safety, this.gateway, grants := safety, gateway, config.grants;
      receipts, commandsExecuted, proposalsRejected := [], 0, 0;
      forall table: Phases | IsExportOf(journal, table)
        ensures Restore(map[], journal) == table
      {
        JournalRoundTrips(table, journal);
      }
    }

    method DriveNow(p: AgentProposal, nowNs: U64, execute: Execute)
      returns (result: Result<Receipt, ControlError>, ghost ran: bool)
      requires Valid()
      modifies this, safety, gateway
      ensures Valid() && journal == old(journal)
      ensures Driven(State(), result, ran) == Drive(old(State()), crypto, p, nowNs, execute)
    {
      hide CheckPolicy, CheckSafety, CheckAuthority, ValidateAndExecute;
      ran := false;
      var policed := CheckPolicy(config.policy, p);
      if policed.Err? {
        return Err(policed.error), false;
      }
      var simulated := CheckSafety(safety.config, safety.executed, p);
      if simulated.Err? {
        return Err(simulated.error), false;
      }
      var authorized := CheckAuthority(grants, p);
      if authorized.Err? {
        return Err(authorized.error), false;
      }
      var cmd := Sign(crypto, PayloadOf(p, nowNs));
      result, ran := gateway.ValidateAndExecuteNow(cmd, nowNs, execute);
      if result.Err? {
        return;
      }
      if p.kind.ActuatorCommand? {
        safety.RecordExecution(p.kind.actuatorId);
      }
    }

    // Every way out rewrites the journal from the phase table.
    method Run(p: AgentProposal, nowNs: U64, execute: Execute)
      returns (result: Result<Receipt, ControlError>, ghost ran: bool)
      requires Valid()
      modifies this, safety, gateway
      ensures Valid()
      ensures Driven(State(), result, ran) == RunProposal(old(State()), crypto, p, nowNs, execute)
      ensures IsExportOf(journal, gateway.phases)
      ensures commandsExecuted + proposalsRejected == old(commandsExecuted) + old(proposalsRejected) + 1
      ensures result.Ok? <==> commandsExecuted == old(commandsExecuted) + 1
      ensures result.Ok? ==> ran && execute(p.kind).Ok?
      ensures receipts
           == old(receipts) + if result.Ok? then [Receipt("cmd-" + p.proposalId, nowNs, execute(p.kind).value)] else []
      ensures !ran ==> gateway.State() == old(gateway.State()) && safety.executed == old(safety.executed)
    {
      ProposalIsCountedOnce(State(), crypto, p, nowNs, execute);
      result, ran := DriveNow(p, nowNs, execute);
      journal := gateway.ExportPhases();
      if result.Ok? {
        commandsExecuted := commandsExecuted + 1;
        receipts := receipts + [result.value];
      } else {
        proposalsRejected := proposalsRejected + 1;
      }
    }
  }
}
