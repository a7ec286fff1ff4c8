/** Records, text normalisation and status graphs shared by the four aggregates. */
module Domain {

  datatype Option<+T> = None | Some(value: T)

  /** The four aggregates; each has its own table and its own status graph. */
  datatype Aggregate = BridgeAsset | InspectionRound | DefectFinding | PriorityDecision

  /** Identity of a row: the table it lives in and its primary key. */
  datatype Key = Key(agg: Aggregate, id: nat)

  /** The roles an authenticated request can carry. */
  datatype Role = Viewer | Operator | Reviewer | Admin

  /** The columns a client may edit. */
  datatype Fields = Fields(
    name: string, description: string, facility: string, owner: string, category: string,
    riskLevel: string, metricValue: real, metricUnit: string, effectiveAt: int,
    evidence: string, relatedCode: string)

  /** A stored record.  Only priority decisions make use of `preparedBy`. */
  datatype Row = Row(
    code: string, fields: Fields, status: string, version: nat, preparedBy: string,
    createdAt: int, updatedAt: int, deleted: bool)

  /** What a revision's serialized snapshot says about the record. */
  datatype Snapshot =
    | FullSnapshot(code: string, fields: Fields, status: string, version: nat, preparedBy: string)
    | SeedSnapshot(code: string, status: string, evidence: string)

  /** An entry of a decision's revision chain.  `role` is an observer: the role the
      writing request carried, which the program checks but does not store. */
  datatype Revision = Revision(
    version: nat, status: string, evidence: string, reason: string, actor: string,
    requestId: string, snapshot: Snapshot, role: Role)

  // ---------- text ----------

  predicate IsSpace(c: char) {
    c == ' ' || c == '\t' || c == '\n' || c == '\r' || c == '\U{0B}' || c == '\U{0C}' || c == '\U{85}' || c == '\U{A0}'
  }

  function TrimLeft(s: string): string {
    if s != [] && IsSpace(s[0]) then TrimLeft(s[1..]) else s
  }

  function TrimRight(s: string): string {
    if s != [] && IsSpace(s[|s| - 1]) then TrimRight(s[..|s| - 1]) else s
  }

  function Trim(s: string): string {
    TrimRight(TrimLeft(s))
  }

  function UpperChar(c: char): char {
    if 'a' <= c <= 'z' then c - 'a' + 'A' else c
  }

  function ToUpper(s: string): string {
    seq(|s|, i requires 0 <= i < |s| => UpperChar(s[i]))
  }

  /** The form in which client-supplied fields are stored. */
  function Normalize(f: Fields): Fields {
    f.(name := Trim(f.name), description := Trim(f.description), facility := Trim(f.facility),
       owner := Trim(f.owner), category := Trim(f.category), metricUnit := Trim(f.metricUnit),
       evidence := Trim(f.evidence), relatedCode := ToUpper(Trim(f.relatedCode)))
  }

  // ---------- status graphs ----------

  type Graph = map<string, map<string, bool>>

  const BRIDGE_TRANSITIONS: Graph := map[
    "active" := map["restricted" := true, "closed" := true],
    "restricted" := map["closed" := true, "retired" := true, "active" := true],
    "closed" := map["retired" := true, "restricted" := true],
    "retired" := map["closed" := true]
  ]

  const INSPECTION_TRANSITIONS: Graph := map[
    "planned" := map["running" := true, "review" := true],
    "running" := map["review" := true, "completed" := true, "planned" := true],
    "review" := map["completed" := true, "running" := true],
    "completed" := map["review" := true]
  ]

  const DEFECT_TRANSITIONS: Graph := map[
    "new" := map["verified" := true, "monitoring" := true],
    "verified" := map["monitoring" := true, "mitigated" := true, "new" := true],
    "monitoring" := map["mitigated" := true, "closed" := true, "verified" := true],
    "mitigated" := map["closed" := true, "monitoring" := true],
    "closed" := map["mitigated" := true]
  ]

  const PRIORITY_TRANSITIONS: Graph := map[
    "draft" := map["observe" := true, "restrict" := true, "urgent" := true],
    "observe" := map[],
    "restrict" := map[],
    "urgent" := map[]
  ]

  function Transitions(agg: Aggregate): Graph {
    match agg
    case BridgeAsset => BRIDGE_TRANSITIONS
    case InspectionRound => INSPECTION_TRANSITIONS
    case DefectFinding => DEFECT_TRANSITIONS
    case PriorityDecision => PRIORITY_TRANSITIONS
  }

  const DRAFT := "draft"

  function InitialStatus(agg: Aggregate): string {
    match agg
    case BridgeAsset => "active"
    case InspectionRound => "planned"
    case DefectFinding => "new"
    case PriorityDecision => DRAFT
  }

  predicate CanTransition(graph: Graph, from: string, to: string) {
    from in graph && to in graph[from] && graph[from][to]
  }

  /** The statuses that close a priority decision. */
  predicate IsFinal(status: string) {
    status == "observe" || status == "restrict" || status == "urgent"
  }

  /** The decision graph has exactly the edges from the draft to a final status;
      in particular nothing leaves a final status. */
  lemma DecisionEdges(from: string, to: string)
    ensures CanTransition(PRIORITY_TRANSITIONS, from, to) <==> from == DRAFT && IsFinal(to)
    ensures IsFinal(to) ==> to != DRAFT
  {
    assert "observe" != "draft" && "restrict" != "draft" && "urgent" != "draft" by {
      assert "observe"[0] == 'o' && "restrict"[0] == 'r' && "urgent"[0] == 'u' && "draft"[0] == 'd';
    }
  }
}
