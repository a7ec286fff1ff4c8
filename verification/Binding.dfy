/** What the handlers let through to the services: the bounds of request bodies and the roles
    of the routes. */
module Binding {
  import opened Domain
  import opened Protocol

  /** A user, as the token of a request names it. */
  datatype Account = Account(name: string, role: Role)

  /** The accounts of a freshly seeded server. */
  const SEED_ACCOUNTS := {
    Account("admin", Admin), Account("reviewer", Reviewer), Account("operator", Operator), Account("viewer", Viewer)
  }

  const RISK_LEVELS := {"low", "medium", "high", "critical"}

  predicate Sized(s: string, low: nat, high: nat) { low <= |s| <= high }

  /** Times are counted from the zero time, which stands for a missing one. */
  predicate FieldsFit(agg: Aggregate, f: Fields) {
    && Sized(f.name, 2, 160) && Sized(f.description, 0, 1000) && Sized(f.facility, 1, 120) && Sized(f.owner, 1, 120)
    && Sized(f.category, 1, 80) && f.riskLevel in RISK_LEVELS && Sized(f.metricUnit, 0, 24) && f.effectiveAt != 0
    && Sized(f.evidence, if agg == DefectFinding || agg == PriorityDecision then 1 else 0, 2000)
    && Sized(f.relatedCode, if agg == PriorityDecision then 1 else 0, 64)
  }

  /** A request that reaches its service. */
  predicate Receivable(req: Request) {
    match req
    case Create(agg, code, fields, _, role, _) => Sized(code, 2, 64) && FieldsFit(agg, fields) && role != Viewer
    case Update(key, expected, fields, _, role, _) => expected >= 1 && FieldsFit(key.agg, fields) && role != Viewer
    case Transition(_, expected, target, reason, _, role, _) =>
      expected >= 1 && Sized(target, 1, 40) && Sized(reason, 3, 500) && role != Viewer
    case Delete(_, _, role, _) => role == Admin
  }

  /** All requests that arrive are receivable and come from the given accounts. */
  predicate Received(steps: seq<Step>, accounts: set<Account>) {
    forall i :: 0 <= i < |steps| && steps[i].Invoke? ==>
      Receivable(steps[i].req) && Account(steps[i].req.actor, steps[i].req.role) in accounts
  }

  /** May edit a draft of this preparer. */
  predicate MayEdit(a: Account, preparedBy: string) {
    a.role == Admin || (a.name == preparedBy && a.role != Viewer)
  }

  /** May finalise a draft of this preparer. */
  predicate MayFinalise(a: Account, preparedBy: string) {
    (a.role == Reviewer || a.role == Admin) && a.name != preparedBy
  }
}
