/** Entities and the rules that the services evaluate on a row they have read. */
module Records {
  import opened Basics
  import opened Text
  import opened Statuses

  const ADMIN := "admin"
  const REVIEWER := "reviewer"

  /** The editable business fields. */
  datatype Fields = Fields(
    name: string, description: string, facility: string, owner: string, category: string,
    riskLevel: string, metricValue: real, metricUnit: string, effectiveAt: int,
    evidence: string, relatedCode: string)

  /** One row of an aggregate's table; `preparedBy` is empty for all but decisions. */
  datatype Row = Row(
    id: nat, code: string, status: string, version: Uint, fields: Fields, preparedBy: string,
    createdAt: int, updatedAt: int, deleted: bool)

  /** The serialized decision inside a revision; seeded revisions hold only three fields of it. */
  datatype Snapshot = Full(row: Row) | Brief(code: string, status: string, evidence: string)

  datatype Revision = Revision(
    decisionId: nat, version: Uint, status: string, evidence: string, reason: string,
    actor: string, requestID: string, snapshot: Snapshot, createdAt: int)

  datatype Caller = Caller(actor: string, role: string, requestID: string)

  /** Inputs are held as the services normalise them; `reason` is the caller's text and `note` the
      same text trimmed. */
  datatype Op =
    | Create(code: string, fields: Fields)
    | Update(expected: Uint, fields: Fields)
    | Transition(expected: Uint, target: string, reason: string, note: string)
    | Delete

  /** `id` is ignored by `Create`. */
  datatype Request = Request(op: Op, id: nat, caller: Caller) {
    predicate IsChange() { op.Update? || op.Transition? }
  }

  /** What a request is about to write: the item, and for decisions its revision. */
  datatype Draft = Draft(item: Row, revision: Option<Revision>)

  function Normalise(f: Fields): Fields {
    Fields(Trim(f.name), Trim(f.description), Trim(f.facility), Trim(f.owner), Trim(f.category),
           f.riskLevel, f.metricValue, Trim(f.metricUnit), f.effectiveAt, Trim(f.evidence),
           Upper(Trim(f.relatedCode)))
  }

  /** The checks on business fields shared by the bridge, inspection and defect services. */
  predicate ValidRecord(code: string, f: Fields) {
    Trim(code) != "" && Trim(f.name) != "" && Trim(f.facility) != "" && Trim(f.owner) != ""
  }

  /** Decisions also need evidence and a related code. */
  predicate ValidDecision(code: string, f: Fields) {
    ValidRecord(code, f) && Trim(f.evidence) != "" && Trim(f.relatedCode) != ""
  }

  /** The fixed wording of a service: audit details, and the notes on the revisions it writes. */
  datatype Texts = Texts(created: string, updated: string, deleted: string, firstNote: string, editNote: string)

  function TextsFor(noun: string): Texts {
    Texts("created " + noun, "updated business fields", "soft deleted " + noun,
          "decision draft created", "draft business fields updated")
  }

  /** What distinguishes one aggregate's service from another's. `reviewed` stands for the
      priority-decision rules: draft lock, ownership, independent review and revisions. */
  datatype Policy = Policy(
    entity: string, texts: Texts, initial: string, graph: Graph, reviewed: bool,
    valid: (string, Fields) -> bool)

  const BRIDGE := Policy("BridgeAsset", TextsFor("桥梁资产"), "active", BRIDGE_TRANSITIONS, false, ValidRecord)
  const INSPECTION := Policy("InspectionRound", TextsFor("检查批次"), "planned", INSPECTION_TRANSITIONS, false, ValidRecord)
  const DEFECT := Policy("DefectFinding", TextsFor("缺陷发现"), "new", DEFECT_TRANSITIONS, false, ValidRecord)
  const DECISION := Policy("PriorityDecision", TextsFor("优先级决定"), "draft", DECISION_TRANSITIONS, true, ValidDecision)

  function NewRevision(item: Row, note: string, caller: Caller, at: int): Revision {
    Revision(0, item.version, item.status, item.fields.evidence, note, caller.actor,
             caller.requestID, Full(item), at)
  }

  function WithRevision(p: Policy, item: Row, note: string, caller: Caller, at: int): Draft {
    Draft(item, if p.reviewed then Some(NewRevision(item, note, caller, at)) else None)
  }

  function PrepareCreate(p: Policy, code: string, fields: Fields, caller: Caller, at: int): Result<Draft> {
    if !p.valid(code, fields) then Err(InvalidInput)
    else
      var preparer := if p.reviewed then caller.actor else "";
      var item := Row(0, code, p.initial, 1, fields, preparer, 0, 0, false);
      Ok(WithRevision(p, item, p.texts.firstNote, caller, at))
  }

  function PrepareUpdate(p: Policy, current: Row, expected: Uint, fields: Fields, caller: Caller,
                         at: int): Result<Draft> {
    if p.reviewed && current.status != p.initial then Err(DecisionLocked)
    else if p.reviewed && caller.actor != current.preparedBy && caller.role != ADMIN then Err(NotDecisionOwner)
    else if !p.valid(current.code, fields) then Err(InvalidInput)
    else
      var item := current.(fields := fields, version := NextVersion(expected), updatedAt := at);
      Ok(WithRevision(p, item, p.texts.editNote, caller, at))
  }

  function PrepareTransition(p: Policy, current: Row, expected: Uint, target: string, note: string,
                             caller: Caller, at: int): Result<Draft> {
    if p.reviewed && caller.role != REVIEWER && caller.role != ADMIN then Err(ReviewRole)
    else if p.reviewed && caller.actor == current.preparedBy then Err(SeparationOfDuty)
    else if !CanTransition(p.graph, current.status, target) then Err(InvalidTransition)
    else
      var item := current.(status := target, version := NextVersion(expected), updatedAt := at);
      Ok(WithRevision(p, item, note, caller, at))
  }

  function PrepareDelete(p: Policy, current: Row): Result<Draft> {
    if p.reviewed && current.status != p.initial then Err(DecisionLocked) else Ok(Draft(current, None))
  }

  /** Everything a request does between reading `current` and writing. */
  function Prepare(p: Policy, current: Row, req: Request, at: int): Result<Draft> {
    match req.op
    case Create(code, fields) => PrepareCreate(p, code, fields, req.caller, at)
    case Update(expected, fields) => PrepareUpdate(p, current, expected, fields, req.caller, at)
    case Transition(expected, target, _, note) =>
      PrepareTransition(p, current, expected, target, note, req.caller, at)
    case Delete => PrepareDelete(p, current)
  }

  /** Each field is trimmed on its own; the related code is upper-cased too. */
  lemma NormaliseByField(f: Fields)
    ensures var n := Normalise(f);
            && n.name == Trim(f.name) && n.description == Trim(f.description) && n.facility == Trim(f.facility)
            && n.owner == Trim(f.owner) && n.category == Trim(f.category) && n.riskLevel == f.riskLevel
            && n.metricValue == f.metricValue && n.metricUnit == Trim(f.metricUnit) && n.effectiveAt == f.effectiveAt
            && n.evidence == Trim(f.evidence) && n.relatedCode == Upper(Trim(f.relatedCode))
  {
  }

  /** Normalising twice is normalising once, so a record saved back exactly as it was served keeps
      its business fields; and the checks judge raw and normalised input alike. */
  lemma NormaliseProjects(code: string, f: Fields)
    ensures Normalise(Normalise(f)) == Normalise(f)
    ensures ValidRecord(Upper(Trim(code)), Normalise(f)) <==> ValidRecord(code, f)
    ensures ValidDecision(Upper(Trim(code)), Normalise(f)) <==> ValidDecision(code, f)
    ensures ValidRecord(code, Normalise(f)) <==> ValidRecord(code, f)
    ensures ValidDecision(code, Normalise(f)) <==> ValidDecision(code, f)
  {
    TrimTwice(f.name); TrimTwice(f.description); TrimTwice(f.facility); TrimTwice(f.owner);
    TrimTwice(f.category); TrimTwice(f.metricUnit); TrimTwice(f.evidence);
    UpperTrimProjects(f.relatedCode);
    UpperTrimProjects(code);
  }
}
