/** The four transition graphs. */
module Statuses {

  type Graph = map<string, set<string>>

  const BRIDGE_TRANSITIONS: Graph := map[
    "active" := {"restricted", "closed"},
    "restricted" := {"closed", "retired", "active"},
    "closed" := {"retired", "restricted"},
    "retired" := {"closed"}
  ]

  const INSPECTION_TRANSITIONS: Graph := map[
    "planned" := {"running", "review"},
    "running" := {"review", "completed", "planned"},
    "review" := {"completed", "running"},
    "completed" := {"review"}
  ]

  const DEFECT_TRANSITIONS: Graph := map[
    "new" := {"verified", "monitoring"},
    "verified" := {"monitoring", "mitigated", "new"},
    "monitoring" := {"mitigated", "closed", "verified"},
    "mitigated" := {"closed", "monitoring"},
    "closed" := {"mitigated"}
  ]

  const DECISION_TRANSITIONS: Graph := map[
    "draft" := {"observe", "restrict", "urgent"},
    "observe" := {},
    "restrict" := {},
    "urgent" := {}
  ]

  predicate CanTransition(graph: Graph, from: string, to: string) {
    from in graph && to in graph[from]
  }

  predicate IsPriorityLevel(status: string) {
    status == "observe" || status == "restrict" || status == "urgent"
  }

  /** A decision can only move from draft, and only to one of the three priority levels. */
  lemma DecisionMoves(from: string, to: string)
    ensures CanTransition(DECISION_TRANSITIONS, from, to) <==> from == "draft" && IsPriorityLevel(to)
    ensures IsPriorityLevel(to) <==> to == "observe" || to == "restrict" || to == "urgent"
  {
  }

  lemma BridgeMoves(from: string, to: string)
    ensures CanTransition(BRIDGE_TRANSITIONS, from, to) <==>
            || (from == "active" && (to == "restricted" || to == "closed"))
            || (from == "restricted" && (to == "closed" || to == "retired" || to == "active"))
            || (from == "closed" && (to == "retired" || to == "restricted"))
            || (from == "retired" && to == "closed")
  {
  }

  lemma InspectionMoves(from: string, to: string)
    ensures CanTransition(INSPECTION_TRANSITIONS, from, to) <==>
            || (from == "planned" && (to == "running" || to == "review"))
            || (from == "running" && (to == "review" || to == "completed" || to == "planned"))
            || (from == "review" && (to == "completed" || to == "running"))
            || (from == "completed" && to == "review")
  {
  }

  lemma DefectMoves(from: string, to: string)
    ensures CanTransition(DEFECT_TRANSITIONS, from, to) <==>
            || (from == "new" && (to == "verified" || to == "monitoring"))
            || (from == "verified" && (to == "monitoring" || to == "mitigated" || to == "new"))
            || (from == "monitoring" && (to == "mitigated" || to == "closed" || to == "verified"))
            || (from == "mitigated" && (to == "closed" || to == "monitoring"))
            || (from == "closed" && to == "mitigated")
  {
  }
}
