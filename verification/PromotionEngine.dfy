/**
 * The promotion engine and its audit wrapper as objects. Each method is proved against the functions of
 * `Promotion`, so what holds of every run there holds of these objects.
 */
module PromotionEngine {
  import opened Order
  import opened SafetyInterlocks
  import P = Promotion
  import opened HashChain

  class PromotionRequest {
    const id: string
    const subject: P.Subject
    const evidence: Evidence
    var status: P.Status
    var report: Option<Report>
    var decision: Option<P.Decision>
    var approval: Option<P.Approval>
    var rollbackPlan: Option<map<string, string>>
    var error: Option<string>

    constructor (id: string, subject: P.Subject, evidence: Evidence)
      ensures View() == P.Request(id, subject, evidence, P.Draft, None, None, None, evidence.rollbackPlan, None)
    {
      this.id, this.subject, this.evidence := id, subject, evidence;
      status, report, decision, approval, error := P.Draft, None, None, None, None;
      rollbackPlan := evidence.rollbackPlan;
    }

    function View(): P.Request
      reads this
    {
      P.Request(id, subject, evidence, status, report, decision, approval, rollbackPlan, error)
    }
  }

  class PromotionControlEngine {
    const cfg: P.Config
    const safetyEngine: SafetyInterlockEngine
    var requests: map<string, PromotionRequest>

    constructor (cfg: P.Config)
      ensures this.cfg == cfg && Valid() && State() == map[] && requests == map[]
    {
      this.cfg := cfg;
      safetyEngine := new SafetyInterlockEngine();
      requests := map[];
    }

    /** Requests are filed under their own id, so no object is filed twice. */
    predicate Valid()
      reads this, requests.Values
    {
      forall id :: id in requests ==> requests[id].id == id
    }

    function State(): P.Requests
      reads this, requests.Values
    {
      map id | id in requests :: requests[id].View()
    }

    predicate GovernanceRequired(environment: string)
      reads this
    {
      P.Governed(cfg, environment)
    }

    method CreatePromotionRequest(id: string, subject: P.Subject, evidence: Option<Evidence>,
                                  answer: Option<P.Decision>)
      returns (r: Option<PromotionRequest>)
      requires Valid() && id !in requests && (evidence.Some? ==> NamesDistinct(evidence.value))
      modifies this, requests.Values
      ensures Valid() && old(requests.Values) <= requests.Values
      ensures fresh(requests.Values - old(requests.Values))
      ensures var out := P.Create(cfg, old(State()), id, subject, evidence, answer);
        State() == out.requests && Returns(r, id, out)
    {
      if evidence.None? { return None; }
      hide Assess, P.Screened, P.Routed;
      ghost var before := State();
      var request := Register(id, subject, evidence.value);
      if request.status == P.SafetyFailed {
        return Some(request);
      }
      r := Route(request, answer);
    }

    /** What follows passed safety checks. */
    method Route(request: PromotionRequest, answer: Option<P.Decision>) returns (r: Option<PromotionRequest>)
      requires Valid() && request.id in requests && requests[request.id] == request
      modifies requests.Values
      ensures Valid() && requests == old(requests)
      ensures var out := P.Routed(cfg, old(State()), request.id, answer);
        State() == out.requests && Returns(r, request.id, out)
    {
      hide P.Governed, P.SubmitGovernance;
      ghost var before := State();
      if GovernanceRequired(request.subject.environment) {
        if cfg.control.autoSubmit {
          r := SubmitGovernance(request.id, answer);
          return;
        }
        request.status := P.GovernancePending;
      } else {
        request.status := P.Approved;
      }
      assert State() == before[request.id := request.View()];
      r := Some(request);
    }

    /** Files a new request and runs its safety checks. */
    method Register(id: string, subject: P.Subject, evidence: Evidence) returns (request: PromotionRequest)
      requires Valid() && id !in requests && NamesDistinct(evidence)
      modifies this
      ensures Valid() && requests == old(requests)[id := request] && fresh(request)
      ensures requests.Values == old(requests.Values) + {request}
      ensures request.View() == P.Screened(cfg, id, subject, evidence)
      ensures State() == old(State())[id := request.View()]
    {
      hide P.Screened;
      request := new PromotionRequest(id, subject, evidence);
      ValuesAfterAdding(requests, id, request);
      requests := requests[id := request];
      Screen(request);
    }

    /** The safety checks on a new request. */
    method Screen(request: PromotionRequest)
      requires NamesDistinct(request.evidence)
      requires request.View() == P.Request(request.id, request.subject, request.evidence, P.Draft, None, None, None,
                                           request.evidence.rollbackPlan, None)
      modifies request
      ensures request.View() == P.Screened(cfg, request.id, request.subject, request.evidence)
    {
      if cfg.control.requireSafety {
        var report := safetyEngine.Evaluate(request.evidence, cfg.safety);
        request.report := Some(report);
        if !report.passed {
          request.status, request.error := P.SafetyFailed, Some("Safety interlocks failed.");
          return;
        }
      }
      request.status := P.SafetyChecksPassed;
    }

    /** The object returned is the stored one, and shows what the specification returns. */
    predicate Returns(r: Option<PromotionRequest>, id: string, out: P.Outcome)
      reads this, requests.Values
    {
      match r
      case None => out.returned.None?
      case Some(request) => id in requests && requests[id] == request && out.returned == Some(request.View())
    }

    method SubmitGovernance(id: string, answer: Option<P.Decision>) returns (r: Option<PromotionRequest>)
      requires Valid()
      modifies requests.Values
      ensures Valid() && requests == old(requests)
      ensures var out := P.SubmitGovernance(cfg, old(State()), id, answer);
        State() == out.requests && Returns(r, id, out)
    {
      if id !in requests || requests[id].status != P.SafetyChecksPassed { return None; }
      hide P.Ruling, P.Ruled;
      ghost var before := State();
      var request := requests[id];
      var decision := Rule(request, answer);
      if decision.None? { return None; }
      Apply(request, decision.value);
      assert State() == before[id := request.View()];
      r := Some(request);
    }

    /** What governance says, or what stands in for it; None where asking it raises. */
    method Rule(request: PromotionRequest, answer: Option<P.Decision>) returns (decision: Option<P.Decision>)
      ensures decision == P.Ruling(cfg, request.View(), answer)
    {
      if cfg.hasGateway { return answer; }
      if cfg.control.failClosed && GovernanceRequired(request.subject.environment) {
        decision := Some(P.Decision(P.Deny, "Governance gateway is unavailable."));
      } else {
        decision := Some(P.Decision(P.Allow, "Governance is not required."));
      }
    }

    method Apply(request: PromotionRequest, decision: P.Decision)
      modifies request
      ensures request.View() == P.Ruled(cfg, old(request.View()), decision)
    {
      request.decision := Some(decision);
      if decision.verdict == P.Allow {
        request.status := if cfg.control.autoApprove then P.Approved else P.GovernancePending;
      } else if decision.verdict == P.RequireApproval {
        request.status := P.GovernancePending;
      } else {
        request.status, request.error := P.GovernanceDenied, Some(decision.reason);
      }
    }

    method Approve(id: string, approver: string, comments: string) returns (r: Option<PromotionRequest>)
      requires Valid()
      modifies requests.Values
      ensures Valid() && requests == old(requests)
      ensures var out := P.Approve(old(State()), id, P.Approval(approver, comments));
        State() == out.requests && Returns(r, id, out)
    {
      if id !in requests || requests[id].status != P.GovernancePending { return None; }
      ghost var before := State();
      var request := requests[id];
      request.approval, request.status := Some(P.Approval(approver, comments)), P.Approved;
      assert State() == before[id := request.View()];
      r := Some(request);
    }

    method Promote(id: string) returns (r: Option<PromotionRequest>)
      requires Valid()
      modifies requests.Values
      ensures Valid() && requests == old(requests)
      ensures var out := P.Promote(old(State()), id);
        State() == out.requests && Returns(r, id, out)
    {
      if id !in requests || requests[id].status != P.Approved { return None; }
      ghost var before := State();
      var request := requests[id];
      request.status := P.Promoted;
      assert State() == before[id := request.View()];
      r := Some(request);
    }

    method Rollback(id: string, reason: string) returns (r: Option<PromotionRequest>)
      requires Valid()
      modifies requests.Values
      ensures Valid() && requests == old(requests)
      ensures var out := P.Rollback(old(State()), id, reason);
        State() == out.requests && Returns(r, id, out)
    {
      if id !in requests || requests[id].status != P.Promoted { return None; }
      ghost var before := State();
      var request := requests[id];
      request.status := P.RolledBack;
      if request.rollbackPlan.None? { request.rollbackPlan := Some(map[]); }
      request.rollbackPlan := Some(request.rollbackPlan.value["rollback_reason" := reason]);
      assert State() == before[id := request.View()];
      r := Some(request);
    }
  }

  /** What the trail hashes besides the previous hash. */
  datatype Body = Body(requestId: string, entry: P.Entry, stamp: string)

  class AuditedPromotionEngine {
    const inner: PromotionControlEngine
    const trail: AuditTrail<Body>

    constructor (cfg: P.Config, h: HashOf<Body>)
      ensures fresh(inner) && fresh(trail) && inner.cfg == cfg && trail.h == h && inner.requests == map[]
      ensures Valid() && World() == P.START
    {
      inner := new PromotionControlEngine(cfg);
      trail := new AuditTrail(h);
    }

    ghost predicate Valid()
      reads this, inner, inner.requests.Values, trail
    {
      && inner.Valid() && trail.Valid()
      && P.Inv(inner.cfg, World())
    }

    ghost function World(): P.World
      reads this, inner, inner.requests.Values, trail
    {
      P.World(inner.State(), Trail(trail.logs))
    }

    /** Any of the five operations: perform it, then record the new state or the refusal. */
    method Act(op: P.Op, stamp: string) returns (r: Option<PromotionRequest>)
      requires Valid() && P.Allowed(inner.State(), op)
      requires op.CreateOp? && op.evidence.Some? ==> NamesDistinct(op.evidence.value)
      modifies inner, inner.requests.Values, trail
      ensures Valid() && World() == P.AuditedStep(inner.cfg, old(World()), op)
      ensures r.None? <==> P.Step(inner.cfg, old(inner.State()), op).returned.None?
      ensures fresh(inner.requests.Values - old(inner.requests.Values))
    {
      ghost var w, cfg := World(), inner.cfg;
      P.StepKeepsInv(cfg, w, op);
      r := Perform(op);
      var returned := if r.Some? then Some(r.value.View()) else None;
      hide P.Inv, P.Step, P.AuditKey, P.AuditEntry, P.Recorded, Trail, PromotionControlEngine.State;
      ghost var after := inner.State();
      Note(P.AuditKey(op, returned), P.AuditEntry(op, returned), stamp);
      assert World() == P.World(after, P.Recorded(w.trail, P.AuditKey(op, returned), P.AuditEntry(op, returned)));
      assert World() == P.AuditedStep(cfg, w, op);
    }

    method Note(key: string, entry: P.Entry, stamp: string)
      requires inner.Valid() && trail.Valid()
      modifies trail
      ensures inner.Valid() && trail.Valid() && inner.State() == old(inner.State())
      ensures Trail(trail.logs) == P.Recorded(old(Trail(trail.logs)), key, entry)
    {
      hide Trail, P.Recorded;
      ghost var logs := trail.logs;
      var e := trail.Record(key, Body(key, entry, stamp));
      TrailAfter(logs, key, e);
    }

    method Perform(op: P.Op) returns (r: Option<PromotionRequest>)
      requires inner.Valid() && P.Allowed(inner.State(), op)
      requires op.CreateOp? && op.evidence.Some? ==> NamesDistinct(op.evidence.value)
      modifies inner, inner.requests.Values
      ensures inner.Valid() && fresh(inner.requests.Values - old(inner.requests.Values))
      ensures var out := P.Step(inner.cfg, old(inner.State()), op);
        inner.State() == out.requests && inner.Returns(r, op.id, out)
    {
      assert forall id :: id in inner.State() <==> id in inner.requests;
      hide P.Create, P.SubmitGovernance, P.Approve, P.Promote, P.Rollback, PromotionControlEngine.State;
      match op {
        case CreateOp(id, subject, evidence, answer) =>
          r := inner.CreatePromotionRequest(id, subject, evidence, answer);
        case SubmitOp(id, _, answer) => r := inner.SubmitGovernance(id, answer);
        case ApproveOp(id, approval) => r := inner.Approve(id, approval.approver, approval.comments);
        case PromoteOp(id, _) => r := inner.Promote(id);
        case RollbackOp(id, _, reason) => r := inner.Rollback(id, reason);
      }
    }
  }

  function Entries(events: seq<Event<Body>>): seq<P.Entry> {
    seq(|events|, i requires 0 <= i < |events| => events[i].body.entry)
  }

  function Trail(logs: map<string, seq<Event<Body>>>): P.Trail { map id | id in logs :: Entries(logs[id]) }

  lemma TrailAfter(logs: map<string, seq<Event<Body>>>, key: string, e: Event<Body>)
    ensures var before := if key in logs then logs[key] else [];
      Trail(logs[key := before + [e]]) == P.Recorded(Trail(logs), key, e.body.entry)
  {
    var before := if key in logs then logs[key] else [];
    assert Entries(before + [e]) == Entries(before) + [e.body.entry];
  }

  lemma ValuesAfterAdding<T>(m: map<string, T>, id: string, x: T)
    requires id !in m
    ensures m[id := x].Values == m.Values + {x}
  {
    assert m[id := x][id] == x;
    forall y | y in m.Values ensures y in m[id := x].Values {
      var k :| k in m && m[k] == y;
      assert m[id := x][k] == y;
    }
  }
}
