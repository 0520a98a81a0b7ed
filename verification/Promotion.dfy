/**
 * The governed promotion lifecycle and its audit wrapper, on values. What a governance gateway answers
 * is part of each operation, so the results hold for every gateway, a failing one (`None`) included.
 */
module Promotion {
  import opened Order
  import opened SafetyInterlocks

  datatype Verdict = Allow | Deny | RequireApproval
  datatype Decision = Decision(verdict: Verdict, reason: string)
  datatype Approval = Approval(approver: string, comments: string)

  datatype Status =
    | Draft | SafetyChecksPassed | SafetyFailed | GovernancePending | GovernanceDenied
    | Approved | Promoted | RolledBack | Rejected

  datatype ControlPolicy = ControlPolicy(
    requireSafety: bool, autoSubmit: bool, governed: set<string>, autoApprove: bool, failClosed: bool)

  /** `lower` is Python's `str.lower`. */
  datatype Config = Config(control: ControlPolicy, safety: SafetyPolicy, hasGateway: bool, lower: string -> string)

  datatype Subject = Subject(proposal: string, candidate: string, environment: string, actor: string)

  datatype Request = Request(
    id: string, subject: Subject, evidence: Evidence, status: Status, report: Option<Report>,
    decision: Option<Decision>, approval: Option<Approval>, rollbackPlan: Option<map<string, string>>,
    error: Option<string>)

  type Requests = map<string, Request>

  /** The requests after an operation, and the request it returned; it raised when there is none. */
  datatype Outcome = Outcome(requests: Requests, returned: Option<Request>)

  predicate Governed(cfg: Config, environment: string) {
    cfg.lower(environment) in (set item | item in cfg.control.governed :: cfg.lower(item))
  }

  // ---------------------------------------------------------------- operations

  function Screened(cfg: Config, id: string, subject: Subject, e: Evidence): Request {
    var draft := Request(id, subject, e, Draft, None, None, None, e.rollbackPlan, None);
    if !cfg.control.requireSafety then draft.(status := SafetyChecksPassed)
    else
      var report := Assess(e, cfg.safety);
      if report.passed then draft.(report := Some(report), status := SafetyChecksPassed)
      else draft.(report := Some(report), status := SafetyFailed, error := Some("Safety interlocks failed."))
  }

  function Ruling(cfg: Config, r: Request, answer: Option<Decision>): Option<Decision> {
    if cfg.hasGateway then answer
    else if cfg.control.failClosed && Governed(cfg, r.subject.environment) then
      Some(Decision(Deny, "Governance gateway is unavailable."))
    else Some(Decision(Allow, "Governance is not required."))
  }

  function Ruled(cfg: Config, r: Request, d: Decision): Request {
    match d.verdict
    case Allow => r.(decision := Some(d), status := if cfg.control.autoApprove then Approved else GovernancePending)
    case RequireApproval => r.(decision := Some(d), status := GovernancePending)
    case Deny => r.(decision := Some(d), status := GovernanceDenied, error := Some(d.reason))
  }

  function SubmitGovernance(cfg: Config, s: Requests, id: string, answer: Option<Decision>): Outcome {
    if id !in s || s[id].status != SafetyChecksPassed then Outcome(s, None)
    else
      var d := Ruling(cfg, s[id], answer);
      if d.None? then Outcome(s, None) else Kept(s, id, Ruled(cfg, s[id], d.value))
  }

  function Kept(s: Requests, id: string, r: Request): Outcome { Outcome(s[id := r], Some(r)) }

  /** `e` is the evidence given, or else collected; `None` when there is neither. */
  function Create(cfg: Config, s: Requests, id: string, subject: Subject, e: Option<Evidence>, answer: Option<Decision>)
    : Outcome
  {
    if e.None? then Outcome(s, None)
    else
      var r := Screened(cfg, id, subject, e.value);
      if r.status == SafetyFailed then Kept(s, id, r) else Routed(cfg, s[id := r], id, answer)
  }

  /** What follows passed safety checks. */
  function Routed(cfg: Config, s: Requests, id: string, answer: Option<Decision>): Outcome
    requires id in s
  {
    if !Governed(cfg, s[id].subject.environment) then Kept(s, id, s[id].(status := Approved))
    else if cfg.control.autoSubmit then SubmitGovernance(cfg, s, id, answer)
    else Kept(s, id, s[id].(status := GovernancePending))
  }

  function Approve(s: Requests, id: string, approval: Approval): Outcome {
    if id !in s || s[id].status != GovernancePending then Outcome(s, None)
    else Kept(s, id, s[id].(approval := Some(approval), status := Approved))
  }

  function Promote(s: Requests, id: string): Outcome {
    if id !in s || s[id].status != Approved then Outcome(s, None)
    else Kept(s, id, s[id].(status := Promoted))
  }

  function Rollback(s: Requests, id: string, reason: string): Outcome {
    if id !in s || s[id].status != Promoted then Outcome(s, None)
    else
      var plan := if s[id].rollbackPlan.None? then map[] else s[id].rollbackPlan.value;
      Kept(s, id, s[id].(status := RolledBack, rollbackPlan := Some(plan["rollback_reason" := reason])))
  }

  datatype Op =
    | CreateOp(id: string, subject: Subject, evidence: Option<Evidence>, answer: Option<Decision>)
    | SubmitOp(id: string, actor: string, answer: Option<Decision>)
    | ApproveOp(id: string, approval: Approval)
    | PromoteOp(id: string, actor: string)
    | RollbackOp(id: string, actor: string, reason: string)

  function Step(cfg: Config, s: Requests, op: Op): Outcome {
    match op
    case CreateOp(id, subject, e, answer) => Create(cfg, s, id, subject, e, answer)
    case SubmitOp(id, _, answer) => SubmitGovernance(cfg, s, id, answer)
    case ApproveOp(id, approval) => Approve(s, id, approval)
    case PromoteOp(id, _) => Promote(s, id)
    case RollbackOp(id, _, reason) => Rollback(s, id, reason)
  }

  // ---------------------------------------------------------------- audit

  datatype Entry =
    | Reached(status: Status, subject: Subject, verdict: Option<Verdict>, safety: Option<bool>, actor: string)
    | Refused(operation: string, actor: string)

  type Trail = map<string, seq<Entry>>

  datatype World = World(requests: Requests, trail: Trail)

  const UNKNOWN := "unknown"

  function TrailOf(t: Trail, id: string): seq<Entry> { if id in t then t[id] else [] }

  function Recorded(t: Trail, id: string, e: Entry): Trail { t[id := TrailOf(t, id) + [e]] }

  function Actor(op: Op): string {
    match op
    case CreateOp(_, subject, _, _) => subject.actor
    case SubmitOp(_, actor, _) => actor
    case ApproveOp(_, approval) => approval.approver
    case PromoteOp(_, actor) => actor
    case RollbackOp(_, actor, _) => actor
  }

  function Operation(op: Op): string {
    match op
    case CreateOp(_, _, _, _) => "create_promotion_request"
    case SubmitOp(_, _, _) => "submit_governance"
    case ApproveOp(_, _) => "approve"
    case PromoteOp(_, _) => "promote"
    case RollbackOp(_, _, _) => "rollback"
  }

  function Snapshot(r: Request, actor: string): Entry {
    Reached(r.status, r.subject,
            if r.decision.None? then None else Some(r.decision.value.verdict),
            if r.report.None? then None else Some(r.report.value.passed), actor)
  }

  /** A failed creation has no request to record it under. */
  function AuditKey(op: Op, returned: Option<Request>): string {
    if returned.Some? then returned.value.id else if op.CreateOp? then UNKNOWN else op.id
  }

  function AuditEntry(op: Op, returned: Option<Request>): Entry {
    if returned.Some? then Snapshot(returned.value, Actor(op)) else Refused(Operation(op), Actor(op))
  }

  /** An operation through the audit wrapper: the request's new state is recorded, or the refusal is. */
  function AuditedStep(cfg: Config, w: World, op: Op): World {
    var out := Step(cfg, w.requests, op);
    World(out.requests, Recorded(w.trail, AuditKey(op, out.returned), AuditEntry(op, out.returned)))
  }

  /** A new request's id is new; it is a prefixed digest, so never the wrapper's "unknown". */
  predicate Allowed(s: Requests, op: Op) { op.CreateOp? ==> op.id !in s && op.id != UNKNOWN }

  predicate AllowedRun(cfg: Config, w: World, ops: seq<Op>)
    decreases |ops|
  {
    ops == [] || (Allowed(w.requests, ops[0]) && AllowedRun(cfg, AuditedStep(cfg, w, ops[0]), ops[1..]))
  }

  function Run(cfg: Config, w: World, ops: seq<Op>): World
    decreases |ops|
  {
    if ops == [] then w else Run(cfg, AuditedStep(cfg, w, ops[0]), ops[1..])
  }

  const START := World(map[], map[])

  // ---------------------------------------------------------------- what a request must show

  predicate Cleared(cfg: Config, r: Request) {
    cfg.control.requireSafety ==> r.report == Some(Assess(r.evidence, cfg.safety)) && Safe(r.evidence, cfg.safety)
  }

  predicate Denied(r: Request) { r.decision.Some? && r.decision.value.verdict == Deny }

  predicate Authorised(cfg: Config, r: Request) {
    Governed(cfg, r.subject.environment) ==>
      r.approval.Some? || (r.decision.Some? && r.decision.value.verdict == Allow && cfg.control.autoApprove)
  }

  predicate Sound(cfg: Config, r: Request) {
    match r.status
    case SafetyFailed =>
      cfg.control.requireSafety && !Safe(r.evidence, cfg.safety) && r.decision.None? && r.approval.None?
    case SafetyChecksPassed =>
      Cleared(cfg, r) && r.decision.None? && r.approval.None? && Governed(cfg, r.subject.environment)
    case GovernancePending => Cleared(cfg, r) && !Denied(r) && r.approval.None?
    case GovernanceDenied => Cleared(cfg, r) && Denied(r) && r.approval.None?
    case Approved | Promoted | RolledBack => Cleared(cfg, r) && !Denied(r) && Authorised(cfg, r)
    case Draft | Rejected => false
  }

  function Statuses(log: seq<Entry>): seq<Status> {
    if log == [] then []
    else
      var last := log[|log| - 1];
      Statuses(log[..|log| - 1]) + if last.Reached? then [last.status] else []
  }

  /** First recorded statuses, and the moves between recorded statuses. */
  predicate Opening(s: Status) { s in {SafetyFailed, GovernancePending, GovernanceDenied, Approved} }

  predicate Move(a: Status, b: Status) {
    || (a == GovernancePending && b == Approved)
    || (a == Approved && b == Promoted)
    || (a == Promoted && b == RolledBack)
  }

  predicate Lifecycle(path: seq<Status>) {
    (path != [] ==> Opening(path[0])) && forall i :: 0 < i < |path| ==> Move(path[i - 1], path[i])
  }

  /** The recorded statuses end in the current one; only an interrupted creation leaves none. */
  predicate Traced(r: Request, path: seq<Status>) {
    && Lifecycle(path)
    && (path == [] <==> r.status == SafetyChecksPassed)
    && (path != [] ==> path[|path| - 1] == r.status)
  }

  ghost predicate Inv(cfg: Config, w: World) {
    && (forall id :: id in w.requests ==>
        var r := w.requests[id];
        r.id == id && id != UNKNOWN && Sound(cfg, r) && Traced(r, PathOf(w, id)))
    && (forall id :: id !in w.requests ==> PathOf(w, id) == [])
  }

  // ---------------------------------------------------------------- every run

  lemma StatusesAppend(log: seq<Entry>, e: Entry)
    ensures Statuses(log + [e]) == Statuses(log) + if e.Reached? then [e.status] else []
  {
    assert (log + [e])[..|log|] == log;
  }

  lemma ScreenedIsSound(cfg: Config, id: string, subject: Subject, e: Evidence)
    ensures var r := Screened(cfg, id, subject, e);
      && r.id == id && r.subject == subject && r.evidence == e && r.decision.None? && r.approval.None?
      && r.status in {SafetyChecksPassed, SafetyFailed}
      && (if r.status == SafetyFailed then Sound(cfg, r) else Cleared(cfg, r))
  {
    hide Assess, Governed;
  }

  predicate Wellformed(cfg: Config, s: Requests) {
    forall id :: id in s ==> s[id].id == id && Sound(cfg, s[id])
  }

  /** `r` came out of an operation on the stored `old`: the next status, with the screened facts kept. */
  predicate Follows(cfg: Config, r0: Request, r: Request) {
    && r.id == r0.id && r.subject == r0.subject && r.evidence == r0.evidence && r.report == r0.report && Sound(cfg, r)
    && (if r0.status == SafetyChecksPassed
        then Opening(r.status) && r.status != SafetyFailed else Move(r0.status, r.status))
  }

  lemma SubmitCase(cfg: Config, s: Requests, id: string, answer: Option<Decision>)
    requires id in s && s[id].id == id && Sound(cfg, s[id])
    ensures var out := SubmitGovernance(cfg, s, id, answer);
      && (out.returned.None? ==> out.requests == s)
      && (out.returned.Some? ==> out.requests == s[id := out.returned.value] && Follows(cfg, s[id], out.returned.value))
  {
    hide Assess, Governed;
  }

  lemma CreateCase(cfg: Config, s: Requests, id: string, subject: Subject, e: Option<Evidence>,
                   answer: Option<Decision>)
    ensures var out := Create(cfg, s, id, subject, e, answer);
      match out.returned
      case Some(r) =>
        out.requests == s[id := r] && r.id == id && r.subject == subject && Sound(cfg, r) && Opening(r.status)
      case None =>
        || (e.None? && out.requests == s)
        || (e.Some? && out.requests == s[id := Screened(cfg, id, subject, e.value)]
            && Interrupted(cfg, out.requests[id]))
  {
    hide Assess, Governed, Screened, Routed;
    if e.Some? {
      ScreenedIsSound(cfg, id, subject, e.value);
      var r := Screened(cfg, id, subject, e.value);
      if r.status == SafetyChecksPassed {
        RoutedCase(cfg, s[id := r], id, answer);
        var out := Routed(cfg, s[id := r], id, answer);
        assert out.returned.Some? ==> s[id := r][id := out.returned.value] == s[id := out.returned.value];
      }
    }
  }

  lemma RoutedCase(cfg: Config, s: Requests, id: string, answer: Option<Decision>)
    requires id in s && s[id].id == id && s[id].status == SafetyChecksPassed && Cleared(cfg, s[id])
    requires s[id].decision.None? && s[id].approval.None?
    ensures var out := Routed(cfg, s, id, answer);
      match out.returned
      case Some(r) =>
        out.requests == s[id := r] && r.id == id && r.subject == s[id].subject && Sound(cfg, r) && Opening(r.status)
      case None =>
        out.requests == s && Interrupted(cfg, s[id]) && Governed(cfg, s[id].subject.environment) && answer.None?
  {
    hide Assess, Governed, SubmitGovernance;
    if Governed(cfg, s[id].subject.environment) && cfg.control.autoSubmit {
      SubmitCase(cfg, s, id, answer);
      if SubmitGovernance(cfg, s, id, answer).returned.None? { SubmitRaises(cfg, s, id, answer); }
    }
  }

  lemma SubmitRaises(cfg: Config, s: Requests, id: string, answer: Option<Decision>)
    requires id in s && s[id].status == SafetyChecksPassed && SubmitGovernance(cfg, s, id, answer).returned.None?
    ensures cfg.hasGateway && answer.None?
  {
    hide Governed;
  }

  /** Left behind by a creation whose governance gateway raised. */
  predicate Interrupted(cfg: Config, r: Request) {
    r.status == SafetyChecksPassed && cfg.hasGateway && cfg.control.autoSubmit && Sound(cfg, r)
  }

  /** The four operations on a stored request either take its next step or change nothing. */
  lemma LaterCases(cfg: Config, s: Requests, op: Op)
    requires !op.CreateOp? && Wellformed(cfg, s)
    ensures var out := Step(cfg, s, op);
      match out.returned
      case Some(r) => op.id in s && out.requests == s[op.id := r] && Follows(cfg, s[op.id], r)
      case None => out.requests == s
  {
    if op.id in s {
      assert s[op.id].id == op.id && Sound(cfg, s[op.id]);
      if op.SubmitOp? { SubmitCase(cfg, s, op.id, op.answer); }
      hide Assess, Governed, SubmitGovernance, Wellformed;
    }
  }

  lemma TracedAppend(r: Request, r2: Request, path: seq<Status>)
    requires Traced(r, path) && r2.status != SafetyChecksPassed
    requires if r.status == SafetyChecksPassed then Opening(r2.status) else Move(r.status, r2.status)
    ensures Traced(r2, path + [r2.status])
  {}

  lemma TracedFirst(r: Request)
    requires Opening(r.status)
    ensures Traced(r, [r.status])
  {}

  function PathOf(w: World, id: string): seq<Status> { Statuses(TrailOf(w.trail, id)) }

  lemma RecordKeepsInv(cfg: Config, w: World, w2: World, id: string, r: Request)
    requires Inv(cfg, w) && id != UNKNOWN && r.id == id && Sound(cfg, r) && r.status != SafetyChecksPassed
    requires id in w.requests && w.requests[id].status != SafetyChecksPassed ==> Move(w.requests[id].status, r.status)
    requires id in w.requests && w.requests[id].status == SafetyChecksPassed ==> Opening(r.status)
    requires id !in w.requests ==> Opening(r.status)
    requires w2.requests == w.requests[id := r]
    requires forall k :: PathOf(w2, k) == if k == id then PathOf(w, id) + [r.status] else PathOf(w, k)
    ensures Inv(cfg, w2)
  {
    hide Sound, Statuses, Traced, TrailOf;
    if id in w.requests {
      TracedAppend(w.requests[id], r, PathOf(w, id));
    } else {
      TracedFirst(r);
      assert PathOf(w2, id) == [r.status];
    }
  }

  lemma SamePathsKeepInv(cfg: Config, w: World, w2: World, id: string)
    requires Inv(cfg, w) && forall k :: PathOf(w2, k) == PathOf(w, k)
    requires w2.requests == w.requests || LeftBehind(cfg, w.requests, id, w2.requests)
    ensures Inv(cfg, w2)
  {
    hide Sound, Statuses;
  }

  lemma PathsAfter(w: World, w2: World, key: string, e: Entry)
    requires w2.trail == Recorded(w.trail, key, e)
    ensures forall k :: PathOf(w2, k) == PathOf(w, k) + if k == key && e.Reached? then [e.status] else []
  {
    StatusesAppend(TrailOf(w.trail, key), e);
    hide Statuses;
  }

  /** Nothing but a new, interrupted request was added. */
  predicate LeftBehind(cfg: Config, s: Requests, id: string, after: Requests) {
    && id !in s && id != UNKNOWN && id in after && after == s[id := after[id]]
    && after[id].id == id && Interrupted(cfg, after[id])
  }

  /** What an operation leaves: the request it returned under its id, or for a refusal what `left` says. */
  lemma OutcomeKeepsInv(cfg: Config, w: World, op: Op, out: Outcome, w2: World)
    requires Inv(cfg, w) && out == Step(cfg, w.requests, op) && w2 == AuditedStep(cfg, w, op)
    requires match out.returned
      case Some(r) =>
        && op.id != UNKNOWN && r.id == op.id && Sound(cfg, r) && r.status != SafetyChecksPassed
        && out.requests == w.requests[op.id := r]
        && (if op.id in w.requests && w.requests[op.id].status != SafetyChecksPassed
            then Move(w.requests[op.id].status, r.status) else Opening(r.status))
      case None => out.requests == w.requests || LeftBehind(cfg, w.requests, op.id, out.requests)
    ensures Inv(cfg, w2)
  {
    hide Step, Inv, Sound, Statuses, Actor, Operation, Interrupted;
    PathsAfter(w, w2, AuditKey(op, out.returned), AuditEntry(op, out.returned));
    if out.returned.Some? {
      RecordKeepsInv(cfg, w, w2, op.id, out.returned.value);
    } else {
      SamePathsKeepInv(cfg, w, w2, op.id);
    }
  }

  lemma CreationKeepsInv(cfg: Config, w: World, op: Op)
    requires Inv(cfg, w) && op.CreateOp? && op.id !in w.requests && op.id != UNKNOWN
    ensures Inv(cfg, AuditedStep(cfg, w, op))
  {
    hide Inv, Sound, Screened, Create, Assess, Governed;
    CreateCase(cfg, w.requests, op.id, op.subject, op.evidence, op.answer);
    if op.evidence.Some? { ScreenedIsSound(cfg, op.id, op.subject, op.evidence.value); }
    OutcomeKeepsInv(cfg, w, op, Step(cfg, w.requests, op), AuditedStep(cfg, w, op));
  }

  lemma InvWellformed(cfg: Config, w: World)
    requires Inv(cfg, w)
    ensures Wellformed(cfg, w.requests) && UNKNOWN !in w.requests
  {
    hide Sound, Traced, PathOf;
  }

  lemma LaterKeepsInv(cfg: Config, w: World, op: Op)
    requires Inv(cfg, w) && !op.CreateOp?
    ensures Inv(cfg, AuditedStep(cfg, w, op))
  {
    hide Inv, Sound, Step, AuditedStep;
    InvWellformed(cfg, w);
    LaterCases(cfg, w.requests, op);
    OutcomeKeepsInv(cfg, w, op, Step(cfg, w.requests, op), AuditedStep(cfg, w, op));
  }

  /** Every audited operation keeps every request sound and its trail a legal path to its status. */
  lemma StepKeepsInv(cfg: Config, w: World, op: Op)
    requires Inv(cfg, w) && Allowed(w.requests, op)
    ensures Inv(cfg, AuditedStep(cfg, w, op))
  {
    hide Inv, AuditedStep;
    if op.CreateOp? { CreationKeepsInv(cfg, w, op); } else { LaterKeepsInv(cfg, w, op); }
  }

  lemma {:induction false} RunKeepsInv(cfg: Config, w: World, ops: seq<Op>)
    requires Inv(cfg, w) && AllowedRun(cfg, w, ops)
    ensures Inv(cfg, Run(cfg, w, ops))
    decreases |ops|
  {
    if ops != [] {
      StepKeepsInv(cfg, w, ops[0]);
      RunKeepsInv(cfg, AuditedStep(cfg, w, ops[0]), ops[1..]);
    }
  }

  /** In every run, nothing is promoted past a closed interlock, a denial or a missing authorisation. */
  lemma PromotedOnlyWhenCleared(cfg: Config, ops: seq<Op>, id: string)
    requires AllowedRun(cfg, START, ops) && id in Run(cfg, START, ops).requests
    requires Run(cfg, START, ops).requests[id].status in {Promoted, RolledBack}
    ensures var r := Run(cfg, START, ops).requests[id];
      && (cfg.control.requireSafety ==>
          r.report.Some? && r.report.value.passed && MeetsSafety(r.evidence, cfg.safety))
      && (r.decision.Some? ==> r.decision.value.verdict != Deny)
      && (Concerns(cfg, r.subject.environment) ==>
          r.approval.Some? || (r.decision.Some? && r.decision.value.verdict == Allow && cfg.control.autoApprove))
  {
    hide Trips, Assess, Governed, Run, AllowedRun, MeetsSafety, Safe;
    RunKeepsInv(cfg, START, ops);
    SafeIffMet(Run(cfg, START, ops).requests[id].evidence, cfg.safety);
    SafeIsPassed(Run(cfg, START, ops).requests[id].evidence, cfg.safety);
    GovernedIffConcerns(cfg, Run(cfg, START, ops).requests[id].subject.environment);
  }

  lemma SafeIsPassed(e: Evidence, p: SafetyPolicy)
    ensures Safe(e, p) <==> Assess(e, p).passed
  {}

  // ---------------------------------------------------------------- each operation, on its request's fields

  /** The status and the verdict that a request's way through governance gives it. */
  datatype Way = Way(status: Status, verdict: Option<Verdict>)

  /** The way of a request that governance rules on; none where its gateway raises. */
  ghost function GovernanceWay(cfg: Config, environment: string, answer: Option<Decision>): Option<Way> {
    var allowed := if cfg.control.autoApprove then Approved else GovernancePending;
    if cfg.hasGateway then
      match answer
      case None => None
      case Some(Decision(Allow, _)) => Some(Way(allowed, Some(Allow)))
      case Some(Decision(RequireApproval, _)) => Some(Way(GovernancePending, Some(RequireApproval)))
      case Some(Decision(Deny, _)) => Some(Way(GovernanceDenied, Some(Deny)))
    else if Concerns(cfg, environment) && cfg.control.failClosed then Some(Way(GovernanceDenied, Some(Deny)))
    else Some(Way(allowed, Some(Allow)))
  }

  /** `r` went the way `way`, and keeps everything else of `r0`. */
  predicate Went(r0: Request, r: Request, way: Way) {
    && r.status == way.status && r.decision.Some? == way.verdict.Some?
    && (way.verdict.Some? ==> r.decision.value.verdict == way.verdict.value)
    && r == r0.(status := r.status, decision := r.decision, error := r.error)
    && r.error == if way.verdict == Some(Deny) then Some(r.decision.value.reason) else r0.error
  }

  /** A new request as it is stored: evidence that fails a required check stops it. */
  predicate IsScreened(cfg: Config, id: string, subject: Subject, e: Evidence, r: Request) {
    && r.id == id && r.subject == subject && r.evidence == e && r.decision.None? && r.approval.None?
    && r.rollbackPlan == e.rollbackPlan
    && (r.report.Some? <==> cfg.control.requireSafety)
    && (r.report.Some? ==> r.report.value.passed == MeetsSafety(e, cfg.safety))
    && (if cfg.control.requireSafety && !MeetsSafety(e, cfg.safety)
        then r.status == SafetyFailed && r.error.Some? else r.status == SafetyChecksPassed && r.error.None?)
  }

  /** `submit_governance` of a request that cleared the checks; of any other it is refused. */
  lemma SubmissionOutcome(cfg: Config, s: Requests, id: string, answer: Option<Decision>)
    ensures var out := SubmitGovernance(cfg, s, id, answer);
      if id in s && s[id].status == SafetyChecksPassed
         && GovernanceWay(cfg, s[id].subject.environment, answer).Some?
      then
        && out.returned.Some? && out.requests == s[id := out.returned.value]
        && Went(s[id], out.returned.value, GovernanceWay(cfg, s[id].subject.environment, answer).value)
      else out.returned.None? && out.requests == s
  {
    if id in s { GovernedIffConcerns(cfg, s[id].subject.environment); }
    hide Governed, Concerns;
  }

  /** Where the screened request `r` goes: nowhere further, on without governance, or as governance sends it. */
  ghost predicate Proceeds(cfg: Config, r: Request, answer: Option<Decision>, out: Outcome) {
    if r.status == SafetyFailed then out.returned == Some(r)
    else if !Concerns(cfg, r.subject.environment) then out.returned == Some(r.(status := Approved))
    else if !cfg.control.autoSubmit then out.returned == Some(r.(status := GovernancePending))
    else
      match GovernanceWay(cfg, r.subject.environment, answer)
      case None => out.returned.None? && r.id in out.requests && out.requests[r.id] == r
      case Some(way) => out.returned.Some? && Went(r, out.returned.value, way)
  }

  /**
   * `create_promotion_request`: evidence that does not clear the checks fails; a request for an environment that is
   * not governed is approved; any other waits, or, where requests are submitted at once, goes the way governance
   * sends it. A gateway that raises leaves the screened request behind.
   */
  lemma CreationOutcome(cfg: Config, s: Requests, id: string, subject: Subject, e: Evidence, answer: Option<Decision>)
    ensures var out := Create(cfg, s, id, subject, Some(e), answer);
      && id in out.requests && out.requests == s[id := out.requests[id]]
      && (out.returned.Some? ==> out.returned.value == out.requests[id])
      && exists r :: IsScreened(cfg, id, subject, e, r) && Proceeds(cfg, r, answer, out)
  {
    hide Assess, MeetsSafety, Governed, Concerns, GovernanceWay, Went, SubmitGovernance, Screened, IsScreened;
    GovernedIffConcerns(cfg, subject.environment);
    var r := Screened(cfg, id, subject, e);
    ScreenedIs(cfg, id, subject, e, r);
    SubmissionOutcome(cfg, s[id := r], id, answer);
    assert Proceeds(cfg, r, answer, Create(cfg, s, id, subject, Some(e), answer));
  }

  lemma ScreenedIs(cfg: Config, id: string, subject: Subject, e: Evidence, r: Request)
    requires r == Screened(cfg, id, subject, e)
    ensures IsScreened(cfg, id, subject, e, r)
    ensures r.id == id && r.subject == subject && r.status in {SafetyFailed, SafetyChecksPassed}
  {
    hide Assess, MeetsSafety;
    SafeIffMet(e, cfg.safety);
    SafeIsPassed(e, cfg.safety);
  }

  /** Approval takes a pending request, promotion an approved one, and rollback a promoted one, and each only that. */
  lemma LaterOutcomes(s: Requests, id: string, approval: Approval, reason: string)
    ensures var out := Approve(s, id, approval);
      if id in s && s[id].status == GovernancePending
      then out.returned == Some(s[id].(status := Approved, approval := Some(approval)))
        && out.requests == s[id := out.returned.value]
      else out.returned.None? && out.requests == s
    ensures var out := Promote(s, id);
      if id in s && s[id].status == Approved
      then out.returned == Some(s[id].(status := Promoted)) && out.requests == s[id := out.returned.value]
      else out.returned.None? && out.requests == s
    ensures var out := Rollback(s, id, reason);
      if id in s && s[id].status == Promoted
      then
        && out.returned.Some? && out.requests == s[id := out.returned.value]
        && var plan := out.returned.value.rollbackPlan;
           && plan.Some? && out.returned.value == s[id].(status := RolledBack, rollbackPlan := plan)
           && "rollback_reason" in plan.value && plan.value["rollback_reason"] == reason
           && plan.value - {"rollback_reason"}
              == (if s[id].rollbackPlan.Some? then s[id].rollbackPlan.value else map[]) - {"rollback_reason"}
      else out.returned.None? && out.requests == s
  {}

  /** `actor` asked for the operation. */
  predicate By(op: Op, actor: string) {
    && (op.CreateOp? ==> actor == op.subject.actor) && (op.ApproveOp? ==> actor == op.approval.approver)
    && (!op.CreateOp? && !op.ApproveOp? ==> actor == op.actor)
  }

  /**
   * The audit wrapper adds one entry to one trail: what a request has become, under its id, or the refusal, under
   * the id asked for; a refused creation has none and goes under "unknown".
   */
  lemma AuditOutcome(cfg: Config, w: World, op: Op)
    ensures var out, w' := Step(cfg, w.requests, op), AuditedStep(cfg, w, op);
      var key := if out.returned.Some? then out.returned.value.id else if op.CreateOp? then "unknown" else op.id;
      && w'.requests == out.requests
      && (forall k :: k != key ==> TrailOf(w'.trail, k) == TrailOf(w.trail, k))
      && |TrailOf(w'.trail, key)| == |TrailOf(w.trail, key)| + 1 && TrailOf(w.trail, key) <= TrailOf(w'.trail, key)
      && match TrailOf(w'.trail, key)[|TrailOf(w.trail, key)|]
         case Reached(status, subject, verdict, safety, actor) =>
           && By(op, actor)
           && out.returned.Some? && status == out.returned.value.status && subject == out.returned.value.subject
           && verdict.Some? == out.returned.value.decision.Some? && safety.Some? == out.returned.value.report.Some?
           && (verdict.Some? ==> verdict.value == out.returned.value.decision.value.verdict)
           && (safety.Some? ==> safety.value == out.returned.value.report.value.passed)
         case Refused(name, actor) =>
           && out.returned.None? && By(op, actor)
           && (name == "create_promotion_request" <==> op.CreateOp?) && (name == "submit_governance" <==> op.SubmitOp?)
           && (name == "approve" <==> op.ApproveOp?) && (name == "promote" <==> op.PromoteOp?)
           && (name == "rollback" <==> op.RollbackOp?)
  {
    hide Step;
  }

  /** One of the governed environments is this one, but for upper and lower case. */
  ghost predicate Concerns(cfg: Config, environment: string) {
    exists item :: item in cfg.control.governed && cfg.lower(item) == cfg.lower(environment)
  }

  lemma GovernedIffConcerns(cfg: Config, environment: string)
    ensures Governed(cfg, environment) <==> Concerns(cfg, environment)
  {}

  /** In every run, a request's recorded statuses are one legal path to its status; an unknown id has none. */
  lemma TrailIsTheLifecycle(cfg: Config, ops: seq<Op>, id: string)
    requires AllowedRun(cfg, START, ops)
    ensures var w := Run(cfg, START, ops);
      if id !in w.requests then PathOf(w, id) == []
      else
        && PathOf(w, id) in LegalPaths()
        && (PathOf(w, id) == [] <==> w.requests[id].status == SafetyChecksPassed)
        && (PathOf(w, id) != [] ==> PathOf(w, id)[|PathOf(w, id)| - 1] == w.requests[id].status)
  {
    RunKeepsInv(cfg, START, ops);
    var w := Run(cfg, START, ops);
    if id in w.requests { LifecycleIsLegal(PathOf(w, id)); }
  }

  /** The ten histories a request can have. */
  function LegalPaths(): set<seq<Status>> {
    {[], [SafetyFailed], [GovernanceDenied],
     [GovernancePending], [GovernancePending, Approved], [GovernancePending, Approved, Promoted],
     [GovernancePending, Approved, Promoted, RolledBack],
     [Approved], [Approved, Promoted], [Approved, Promoted, RolledBack]}
  }

  lemma LifecycleIsLegal(path: seq<Status>)
    ensures Lifecycle(path) <==> path in LegalPaths()
  {
    if Lifecycle(path) {
      if |path| > 1 { assert Move(path[0], path[1]); }
      if |path| > 2 { assert Move(path[1], path[2]); }
      if |path| > 3 { assert Move(path[2], path[3]); }
      if |path| > 4 { assert Move(path[3], path[4]); }
      assert |path| == 1 ==> path == [path[0]];
      assert |path| == 2 ==> path == [path[0], path[1]];
      assert |path| == 3 ==> path == [path[0], path[1], path[2]];
      assert |path| == 4 ==> path == [path[0], path[1], path[2], path[3]];
    }
  }

  /** A refused operation changes no request, except that an interrupted creation leaves the new one behind. */
  lemma RefusalChangesNothing(cfg: Config, w: World, op: Op)
    requires Inv(cfg, w) && Allowed(w.requests, op) && Step(cfg, w.requests, op).returned.None?
    ensures Step(cfg, w.requests, op).requests == w.requests <==> !(op.CreateOp? && op.evidence.Some?)
    ensures op.CreateOp? && op.evidence.Some? ==>
      && op.answer.None? && cfg.hasGateway && cfg.control.autoSubmit && Governed(cfg, op.subject.environment)
      && Step(cfg, w.requests, op).requests == w.requests[op.id := Screened(cfg, op.id, op.subject, op.evidence.value)]
  {
    if op.CreateOp? {
      CreateCase(cfg, w.requests, op.id, op.subject, op.evidence, op.answer);
    } else {
      LaterCases(cfg, w.requests, op);
    }
    hide Assess, Governed;
  }

  /** Evidence that gets past the safety checks, if there are any. */
  predicate Clears(cfg: Config, e: Evidence) { cfg.control.requireSafety ==> Safe(e, cfg.safety) }

  /** A creation is refused and yet leaves its request behind exactly when its governance gateway raises. */
  lemma InterruptedCreationIff(cfg: Config, s: Requests, op: Op)
    requires op.CreateOp? && op.id !in s
    ensures var out := Step(cfg, s, op);
      out.returned.None? && op.id in out.requests <==>
        && op.evidence.Some? && Clears(cfg, op.evidence.value) && Governed(cfg, op.subject.environment)
        && cfg.control.autoSubmit && cfg.hasGateway && op.answer.None?
  {
    hide Assess, Governed;
  }

  const SOME_EVIDENCE: Evidence :=
    Evidence(None, None, None, [], None, None, false, false, false, None, false, false, None)

  /** Governance is asked about production, safety checks are off. */
  const ASKING: Config := Config(
    ControlPolicy(false, true, {"production"}, true, true),
    SafetyPolicy(false, false, false, false, false, false, false, false, false, false, None, false), true, s => s)

  /** For one: a first request for production whose gateway raises. */
  lemma AnInterruptedCreation()
    ensures var op := CreateOp("r", Subject("p", "c", "production", "a"), Some(SOME_EVIDENCE), None);
      && AllowedRun(ASKING, START, [op]) && Step(ASKING, START.requests, op).returned.None?
      && "r" in Run(ASKING, START, [op]).requests
  {
    var subject := Subject("p", "c", "production", "a");
    var op := CreateOp("r", subject, Some(SOME_EVIDENCE), None);
    assert [op][1..] == [];
    assert Governed(ASKING, "production") by { assert "production" in ASKING.control.governed; }
    InterruptedCreationIff(ASKING, START.requests, op);
    assert Run(ASKING, START, [op]) == AuditedStep(ASKING, START, op);
  }

  predicate Final(s: Status) { s in {SafetyFailed, GovernanceDenied, RolledBack} }

  /** A final request never changes again, and the screened facts of any request never change. */
  lemma {:induction false} FinalForever(cfg: Config, w: World, ops: seq<Op>, id: string)
    requires Inv(cfg, w) && AllowedRun(cfg, w, ops) && id in w.requests
    ensures var later := Run(cfg, w, ops).requests;
      && id in later && later[id].evidence == w.requests[id].evidence && later[id].report == w.requests[id].report
      && later[id].subject == w.requests[id].subject
      && (Final(w.requests[id].status) ==> later[id] == w.requests[id])
    decreases |ops|
  {
    if ops != [] {
      StepKeepsInv(cfg, w, ops[0]);
      StepKeepsFinal(cfg, w, ops[0], id);
      FinalForever(cfg, AuditedStep(cfg, w, ops[0]), ops[1..], id);
    }
  }

  lemma StepKeepsFinal(cfg: Config, w: World, op: Op, id: string)
    requires Inv(cfg, w) && Allowed(w.requests, op) && id in w.requests
    ensures var later := AuditedStep(cfg, w, op).requests;
      && id in later && later[id].evidence == w.requests[id].evidence && later[id].report == w.requests[id].report
      && later[id].subject == w.requests[id].subject
      && (Final(w.requests[id].status) ==> later[id] == w.requests[id])
  {
    if op.CreateOp? {
      CreateCase(cfg, w.requests, op.id, op.subject, op.evidence, op.answer);
    } else {
      LaterCases(cfg, w.requests, op);
    }
    hide Sound, Statuses, Traced, Step, Recorded;
  }

  predicate Shut(cfg: Config, s: Requests) {
    forall id :: id in s && Governed(cfg, s[id].subject.environment) ==>
      s[id].status in {SafetyFailed, GovernanceDenied}
  }

  lemma StepStaysShut(cfg: Config, s: Requests, op: Op)
    requires !cfg.hasGateway && cfg.control.failClosed && cfg.control.autoSubmit && Shut(cfg, s)
    ensures Shut(cfg, Step(cfg, s, op).requests)
  {
    hide Assess, Governed;
  }

  /** Without a gateway, a policy that fails closed and submits at once lets no governed request through. */
  lemma {:induction false} SubmittingStaysShut(cfg: Config, w: World, ops: seq<Op>)
    requires !cfg.hasGateway && cfg.control.failClosed && cfg.control.autoSubmit && Shut(cfg, w.requests)
    ensures Shut(cfg, Run(cfg, w, ops).requests)
    decreases |ops|
  {
    if ops != [] {
      StepStaysShut(cfg, w.requests, ops[0]);
      SubmittingStaysShut(cfg, AuditedStep(cfg, w, ops[0]), ops[1..]);
    }
  }

  /** The way round: create, approve and promote. */
  function Unasked(id: string, subject: Subject, e: Evidence, approval: Approval): seq<Op> {
    [CreateOp(id, subject, Some(e), None), ApproveOp(id, approval), PromoteOp(id, subject.actor)]
  }

  /**
   * A policy that does not submit at once, whatever its gateway, lets a governed request be approved and
   * promoted without any ruling on it.
   */
  lemma PromotedUnasked(cfg: Config, id: string, subject: Subject, e: Evidence, approval: Approval)
    requires !cfg.control.autoSubmit && Governed(cfg, subject.environment) && Clears(cfg, e) && id != UNKNOWN
    ensures var w := Run(cfg, START, Unasked(id, subject, e, approval));
      && AllowedRun(cfg, START, Unasked(id, subject, e, approval))
      && id in w.requests && w.requests[id].status == Promoted && w.requests[id].decision.None?
      && w.requests[id].subject == subject
  {
    hide Assess, Governed, Actor, Operation, Snapshot, Recorded;
    var ops := Unasked(id, subject, e, approval);
    assert ops[1..] == [ops[1], ops[2]] && ops[1..][1..] == [ops[2]] && ops[1..][1..][1..] == [];
    var w1 := AuditedStep(cfg, START, ops[0]);
    assert w1.requests[id].status == GovernancePending && w1.requests[id].decision.None?;
    var w2 := AuditedStep(cfg, w1, ops[1]);
    assert w2.requests[id].status == Approved && w2.requests[id].decision.None?;
    var w3 := AuditedStep(cfg, w2, ops[2]);
    RunOfThree(cfg, START, ops[0], ops[1], ops[2]);
  }

  lemma RunOfThree(cfg: Config, w: World, a: Op, b: Op, c: Op)
    ensures var w1 := AuditedStep(cfg, w, a);
      var w2 := AuditedStep(cfg, w1, b);
      && Run(cfg, w, [a, b, c]) == AuditedStep(cfg, w2, c)
      && (Allowed(w.requests, a) && Allowed(w1.requests, b) && Allowed(w2.requests, c) ==>
          AllowedRun(cfg, w, [a, b, c]))
  {
    hide AuditedStep, Allowed;
    var ops := [a, b, c];
    assert ops[1..] == [b, c] && [b, c][1..] == [c] && [c][1..] == [];
    var w1 := AuditedStep(cfg, w, a);
    var w2 := AuditedStep(cfg, w1, b);
    assert Run(cfg, w2, [c]) == AuditedStep(cfg, w2, c);
    assert Run(cfg, w1, [b, c]) == Run(cfg, w2, [c]);
    assert AllowedRun(cfg, w2, [c]) <==> Allowed(w2.requests, c);
    assert AllowedRun(cfg, w1, [b, c]) <==> Allowed(w1.requests, b) && AllowedRun(cfg, w2, [c]);
  }

  ghost predicate AlwaysShut(cfg: Config) {
    forall ops :: AllowedRun(cfg, START, ops) ==> Shut(cfg, Run(cfg, START, ops).requests)
  }

  /** Some governed environment, and evidence that gets past the safety checks. */
  ghost predicate Attemptable(cfg: Config) {
    exists subject: Subject, e: Evidence :: Governed(cfg, subject.environment) && Clears(cfg, e)
  }

  /**
   * Without a gateway, a policy that fails closed keeps every governed request out, in every run, if and
   * only if it submits new requests at once, or no governed request could get past the checks anyway.
   */
  lemma FailsClosedIff(cfg: Config)
    requires !cfg.hasGateway && cfg.control.failClosed
    ensures AlwaysShut(cfg) <==> cfg.control.autoSubmit || !Attemptable(cfg)
  {
    hide Run, AllowedRun, Assess, Governed;
    if cfg.control.autoSubmit {
      forall ops ensures Shut(cfg, Run(cfg, START, ops).requests) { SubmittingStaysShut(cfg, START, ops); }
    } else if !Attemptable(cfg) {
      forall ops | AllowedRun(cfg, START, ops) ensures Shut(cfg, Run(cfg, START, ops).requests) {
        RunKeepsInv(cfg, START, ops);
        SoundIsShut(cfg, Run(cfg, START, ops));
      }
    } else {
      var subject: Subject, e: Evidence :| Governed(cfg, subject.environment) && Clears(cfg, e);
      var ops := Unasked("r", subject, e, Approval("a", ""));
      PromotedUnasked(cfg, "r", subject, e, Approval("a", ""));
      assert !Shut(cfg, Run(cfg, START, ops).requests);
    }
  }

  lemma SoundIsShut(cfg: Config, w: World)
    requires Inv(cfg, w) && !Attemptable(cfg)
    ensures Shut(cfg, w.requests)
  {
    hide Traced, PathOf, Assess, Governed;
    forall id | id in w.requests && Governed(cfg, w.requests[id].subject.environment)
      ensures w.requests[id].status in {SafetyFailed, GovernanceDenied}
    {
      var r := w.requests[id];
      assert Sound(cfg, r);
      assert Governed(cfg, r.subject.environment) && !Clears(cfg, r.evidence);
    }
  }
}
