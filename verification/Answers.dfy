/** What each call answers, stores and logs, spelled out case by case in the order of the checks, and
    independently of the functions that the services and the protocol share. */
module Answers {
  import opened Basics
  import opened Text
  import opened Statuses
  import opened Records
  import opened Tables
  import opened Protocol
  import opened Invariant
  import opened Serving
  import opened Trails

  /** The call fails with `e` and leaves everything as it was. */
  ghost predicate Refused(w: World, after: (World, Result<Reply>), e: Error) {
    after.0 == w && after.1 == Err(e)
  }

  /** The call has stored `row`, and `revision` behind the revisions that were there. */
  ghost predicate Stores(w: World, after: (World, Result<Reply>), row: Row, revision: Option<Revision>) {
    && after.0.db.rows == w.db.rows[row.id := row]
    && after.0.db.revisions ==
         if revision.None? then w.db.revisions
         else w.db.revisions[row.id := RevisionsOf(w.db, row.id) + [revision.value]]
  }

  /** One more entry in the audit log if its insertion is accepted, signed by the caller. */
  ghost predicate Enters(w: World, after: (World, Result<Reply>), up: Storage, caller: Caller, action: string,
                         entity: string, id: nat, before: string, then': string, detail: string, now: int) {
    after.0.audits ==
      if !up.audit then w.audits
      else w.audits + [AuditLog(
        requestID := if caller.requestID == "" then "untracked" else caller.requestID,
        actor := if caller.actor == "" then "system" else caller.actor,
        action := action, entityType := entity, entityID := id,
        before := before, after := then', detail := detail, createdAt := now)]
  }

  predicate Complete(code: string, f: Fields) {
    !Blank(code) && !Blank(f.name) && !Blank(f.facility) && !Blank(f.owner)
  }

  predicate Substantiated(code: string, f: Fields) {
    Complete(code, f) && !Blank(f.evidence) && !Blank(f.relatedCode)
  }

  /** Validation looks at four fields, for decisions at six, and refuses blank ones. */
  lemma ValidIffFilledIn(code: string, f: Fields)
    ensures ValidRecord(code, f) <==> Complete(code, f)
    ensures ValidDecision(code, f) <==> Substantiated(code, f)
  {
    TrimBlank(code); TrimBlank(f.name); TrimBlank(f.facility); TrimBlank(f.owner);
    TrimBlank(f.evidence); TrimBlank(f.relatedCode);
  }

  // ---- what the checks decide on the row read ----

  /** A review passes if and only if a reviewer or an admin other than the preparer moves a draft to a
      priority level; the first condition that fails names the error. */
  lemma ReviewChecked(row: Row, req: Request, at: int)
    requires req.op.Transition?
    ensures var mayReview := req.caller.role == "reviewer" || req.caller.role == "admin";
            var target := req.op.target;
            var moves := row.status == "draft" && (target == "observe" || target == "restrict" || target == "urgent");
            var r := Prepare(DECISION, row, req, at);
            && (r.Ok? <==> mayReview && req.caller.actor != row.preparedBy && moves)
            && (r.Err? ==> r.error == if !mayReview then ReviewRole
                                      else if req.caller.actor == row.preparedBy then SeparationOfDuty
                                      else InvalidTransition)
  {
    DecisionMoves(row.status, req.op.target);
  }

  /** An edit passes if and only if the preparer or an admin edits a draft with complete input. */
  lemma EditChecked(row: Row, req: Request, at: int)
    requires req.op.Update?
    ensures var owns := req.caller.actor == row.preparedBy || req.caller.role == "admin";
            var r := Prepare(DECISION, row, req, at);
            && (r.Ok? <==> row.status == "draft" && owns && Substantiated(row.code, req.op.fields))
            && (r.Err? ==> r.error == if row.status != "draft" then DecisionLocked
                                      else if !owns then NotDecisionOwner
                                      else InvalidInput)
  {
    ValidIffFilledIn(row.code, req.op.fields);
  }

  /** A deletion passes if and only if the decision is a draft. */
  lemma DiscardChecked(row: Row, req: Request, at: int)
    requires req.op.Delete?
    ensures var r := Prepare(DECISION, row, req, at);
            (r.Ok? <==> row.status == "draft") && (r.Err? ==> r.error == DecisionLocked)
  {
  }

  ghost predicate Unreviewed(p: Policy) {
    p == BRIDGE || p == INSPECTION || p == DEFECT
  }

  /** The other aggregates ask for no role: complete input for an update, an edge of the graph for a
      transition, and nothing at all for a deletion. */
  lemma RecordChecked(p: Policy, row: Row, req: Request, at: int)
    requires Unreviewed(p) && !req.op.Create?
    ensures var r := Prepare(p, row, req, at);
            match req.op
            case Update(_, fields) =>
              (r.Ok? <==> Complete(row.code, fields)) && (r.Err? ==> r.error == InvalidInput)
            case Transition(_, target, _, _) =>
              (r.Ok? <==> CanTransition(p.graph, row.status, target)) && (r.Err? ==> r.error == InvalidTransition)
            case Delete => r.Ok?
  {
    if req.op.Update? { ValidIffFilledIn(row.code, req.op.fields); }
  }

  /** The four aggregates by name. */
  lemma PoliciesByName()
    ensures BRIDGE.entity == "BridgeAsset" && INSPECTION.entity == "InspectionRound"
    ensures DEFECT.entity == "DefectFinding" && DECISION.entity == "PriorityDecision"
    ensures BRIDGE.initial == "active" && INSPECTION.initial == "planned"
    ensures DEFECT.initial == "new" && DECISION.initial == "draft"
    ensures BRIDGE.graph == BRIDGE_TRANSITIONS && INSPECTION.graph == INSPECTION_TRANSITIONS
    ensures DEFECT.graph == DEFECT_TRANSITIONS && DECISION.graph == DECISION_TRANSITIONS
    ensures BRIDGE.texts.created == "created 桥梁资产" && BRIDGE.texts.deleted == "soft deleted 桥梁资产"
    ensures INSPECTION.texts.created == "created 检查批次" && INSPECTION.texts.deleted == "soft deleted 检查批次"
    ensures DEFECT.texts.created == "created 缺陷发现" && DEFECT.texts.deleted == "soft deleted 缺陷发现"
    ensures DECISION.texts.created == "created 优先级决定" && DECISION.texts.deleted == "soft deleted 优先级决定"
    ensures forall p :: Unreviewed(p) || p == DECISION ==> p.texts.updated == "updated business fields"
    ensures DECISION.texts.firstNote == "decision draft created"
    ensures DECISION.texts.editNote == "draft business fields updated"
  {
  }

  // ---- decisions, call by call ----

  /** A creation. `id` is the key that the database hands out. */
  lemma CreateAnswer(w: World, code: string, fields: Fields, caller: Caller, id: nat, clock: Clock, up: Storage)
    requires id !in w.db.rows && Sound(w.db, id)
    ensures var after := Handle(DECISION, w, Request(Op.Create(code, fields), 0, caller), id, clock, up);
            if !Substantiated(code, fields) then Refused(w, after, InvalidInput)
            else if !up.write then Refused(w, after, Unavailable)
            else if exists u :: u in w.db.rows && w.db.rows[u].code == code then Refused(w, after, Rejected)
            else
              var stored := Row(id, code, "draft", 1, fields, caller.actor, clock.now, clock.now, false);
              var taken := Row(0, code, "draft", 1, fields, caller.actor, 0, 0, false);
              var revision := Revision(id, 1, "draft", fields.evidence, "decision draft created", caller.actor,
                                       caller.requestID, Full(taken), clock.at);
              && Stores(w, after, stored, Some(revision))
              && Enters(w, after, up, caller, "create", "PriorityDecision", id, "", "draft", "created 优先级决定",
                        clock.audited)
              && after.1 == if !up.reread then Err(Unavailable) else Ok(Reply(stored, [revision]))
  {
    ValidIffFilledIn(code, fields);
    PoliciesByName();
    if !CodeTaken(w.db, code) {
      DraftStored(w.db, id, Row(0, code, "draft", 1, fields, caller.actor, 0, 0, false), "decision draft created",
                  caller, clock);
    } else {
      assert Write(DECISION, w.db, Request(Op.Create(code, fields), 0, caller), id, clock, up).Err?;
    }
  }

  lemma DraftStored(db: Db, id: nat, item: Row, note: string, caller: Caller, clock: Clock)
    requires id !in db.rows && RevisionsOf(db, id) == [] && !CodeTaken(db, item.code)
    ensures var draft := Draft(item, Some(NewRevision(item, note, caller, clock.at)));
            var stored := item.(id := id, createdAt := clock.now, updatedAt := clock.now);
            var revision := Revision(id, item.version, item.status, item.fields.evidence, note, caller.actor,
                                     caller.requestID, Full(item), clock.at);
            InsertRow(db, id, draft, clock.now) == Ok(Db(db.rows[id := stored], db.revisions[id := [revision]]))
  {
    var revision := NewRevision(item, note, caller, clock.at).(decisionId := id);
    InsertAtEnd([], revision);
    assert [] + [revision] == [revision];
  }

  /** The write of a checked change: by version, and within the range of the column. */
  lemma ChangeStored(db: Db, row: Row, expected: Uint, item: Row, note: string, caller: Caller, clock: Clock)
    requires Leads(db, row.id) && Find(db, row.id) == Some(row)
    requires item == row.(status := item.status, fields := item.fields, version := NextVersion(expected),
                          updatedAt := clock.at)
    ensures var draft := Draft(item, Some(NewRevision(item, note, caller, clock.at)));
            var r := CompareAndSet(db, row.id, expected, draft, clock.now);
            if expected != row.version then r == Err(VersionConflict)
            else if expected + 1 == VERSION_LIMIT then r == Err(Rejected)
            else
              var stored := item.(version := expected + 1, updatedAt := clock.now);
              var revision := Revision(row.id, expected + 1, item.status, item.fields.evidence, note, caller.actor,
                                       caller.requestID, Full(item.(version := expected + 1)), clock.at);
              r == Ok(Db(db.rows[row.id := stored], db.revisions[row.id := RevisionsOf(db, row.id) + [revision]]))
  {
    if expected == row.version {
      InsertAtEnd(RevisionsOf(db, row.id), NewRevision(item, note, caller, clock.at).(decisionId := row.id));
    }
  }

  /** An edit of a draft. */
  lemma UpdateAnswer(w: World, id: nat, expected: Uint, fields: Fields, caller: Caller, clock: Clock, up: Storage)
    requires Sound(w.db, id)
    ensures var after := Handle(DECISION, w, Request(Op.Update(expected, fields), id, caller), 0, clock, up);
            if !up.read then Refused(w, after, Unavailable)
            else if id !in w.db.rows || w.db.rows[id].deleted then Refused(w, after, NotFound)
            else
              var row := w.db.rows[id];
              if row.status != "draft" then Refused(w, after, DecisionLocked)
              else if caller.actor != row.preparedBy && caller.role != "admin" then Refused(w, after, NotDecisionOwner)
              else if !Substantiated(row.code, fields) then Refused(w, after, InvalidInput)
              else if !up.write then Refused(w, after, Unavailable)
              else if expected != row.version then Refused(w, after, VersionConflict)
              else if expected + 1 == VERSION_LIMIT then Refused(w, after, Rejected)
              else
                var stored := row.(fields := fields, version := expected + 1, updatedAt := clock.now);
                var revision := Revision(id, expected + 1, "draft", fields.evidence, "draft business fields updated",
                                         caller.actor, caller.requestID, Full(stored.(updatedAt := clock.at)),
                                         clock.at);
                && Stores(w, after, stored, Some(revision))
                && Enters(w, after, up, caller, "update", "PriorityDecision", id, "draft", "draft",
                          "updated business fields", clock.audited)
                && after.1 == if !up.reread then Err(Unavailable)
                              else Ok(Reply(stored, RevisionsOf(w.db, id) + [revision]))
  {
    var req := Request(Op.Update(expected, fields), id, caller);
    PoliciesByName();
    if Find(w.db, id).Some? {
      var row := w.db.rows[id];
      EditChecked(row, req, clock.at);
      var item := row.(fields := fields, version := NextVersion(expected), updatedAt := clock.at);
      ChangeStored(w.db, row, expected, item, "draft business fields updated", caller, clock);
    }
  }

  /** A review. */
  lemma TransitionAnswer(w: World, id: nat, expected: Uint, target: string, reason: string, note: string,
                         caller: Caller, clock: Clock, up: Storage)
    requires Sound(w.db, id)
    ensures var req := Request(Op.Transition(expected, target, reason, note), id, caller);
            var after := Handle(DECISION, w, req, 0, clock, up);
            if !up.read then Refused(w, after, Unavailable)
            else if id !in w.db.rows || w.db.rows[id].deleted then Refused(w, after, NotFound)
            else
              var row := w.db.rows[id];
              if caller.role != "reviewer" && caller.role != "admin" then Refused(w, after, ReviewRole)
              else if caller.actor == row.preparedBy then Refused(w, after, SeparationOfDuty)
              else if row.status != "draft" || !(target == "observe" || target == "restrict" || target == "urgent") then
                Refused(w, after, InvalidTransition)
              else if !up.write then Refused(w, after, Unavailable)
              else if expected != row.version then Refused(w, after, VersionConflict)
              else if expected + 1 == VERSION_LIMIT then Refused(w, after, Rejected)
              else
                var stored := row.(status := target, version := expected + 1, updatedAt := clock.now);
                var revision := Revision(id, expected + 1, target, row.fields.evidence, note, caller.actor,
                                         caller.requestID, Full(stored.(updatedAt := clock.at)), clock.at);
                && Stores(w, after, stored, Some(revision))
                && Enters(w, after, up, caller, "transition", "PriorityDecision", id, "draft", target, reason,
                          clock.audited)
                && after.1 == if !up.audit then Err(AuditFailed)
                              else if !up.reread then Err(Unavailable)
                              else Ok(Reply(stored, RevisionsOf(w.db, id) + [revision]))
  {
    var req := Request(Op.Transition(expected, target, reason, note), id, caller);
    PoliciesByName();
    if Find(w.db, id).Some? {
      var row := w.db.rows[id];
      ReviewChecked(row, req, clock.at);
      var item := row.(status := target, version := NextVersion(expected), updatedAt := clock.at);
      ChangeStored(w.db, row, expected, item, note, caller, clock);
    }
  }

  /** A deletion. */
  lemma DeleteAnswer(w: World, id: nat, caller: Caller, clock: Clock, up: Storage)
    requires Sound(w.db, id)
    ensures var after := Handle(DECISION, w, Request(Op.Delete, id, caller), 0, clock, up);
            if !up.read then Refused(w, after, Unavailable)
            else if id !in w.db.rows || w.db.rows[id].deleted then Refused(w, after, NotFound)
            else if w.db.rows[id].status != "draft" then Refused(w, after, DecisionLocked)
            else if !up.write then Refused(w, after, Unavailable)
            else
              var gone := w.db.rows[id].(deleted := true);
              && Stores(w, after, gone, None)
              && Enters(w, after, up, caller, "delete", "PriorityDecision", id, "draft", "deleted",
                        "soft deleted 优先级决定", clock.audited)
              && after.1 == if !up.audit then Err(AuditFailed) else Ok(Reply(gone, []))
  {
    PoliciesByName();
    if Find(w.db, id).Some? {
      DiscardChecked(w.db.rows[id], Request(Op.Delete, id, caller), clock.at);
    }
  }

  // ---- bridges, inspections and defects, call by call ----

  lemma RecordCreateAnswer(p: Policy, w: World, code: string, fields: Fields, caller: Caller, id: nat,
                           clock: Clock, up: Storage)
    requires Unreviewed(p) && id !in w.db.rows
    ensures var after := Handle(p, w, Request(Op.Create(code, fields), 0, caller), id, clock, up);
            if !Complete(code, fields) then Refused(w, after, InvalidInput)
            else if !up.write then Refused(w, after, Unavailable)
            else if exists u :: u in w.db.rows && w.db.rows[u].code == code then Refused(w, after, Rejected)
            else
              var stored := Row(id, code, p.initial, 1, fields, "", clock.now, clock.now, false);
              && Stores(w, after, stored, None)
              && Enters(w, after, up, caller, "create", p.entity, id, "", p.initial, p.texts.created, clock.audited)
              && after.1 == Ok(Reply(stored, []))
  {
    ValidIffFilledIn(code, fields);
    if !CodeTaken(w.db, code) {
      RowInserted(w.db, id, Row(0, code, p.initial, 1, fields, "", 0, 0, false), clock.now);
    }
  }

  lemma RecordUpdateAnswer(p: Policy, w: World, id: nat, expected: Uint, fields: Fields, caller: Caller,
                           clock: Clock, up: Storage)
    requires Unreviewed(p) && Keyed(w.db.rows) && (id in w.db.rows ==> w.db.rows[id].version < VERSION_LIMIT)
    ensures var after := Handle(p, w, Request(Op.Update(expected, fields), id, caller), 0, clock, up);
            if !up.read then Refused(w, after, Unavailable)
            else if id !in w.db.rows || w.db.rows[id].deleted then Refused(w, after, NotFound)
            else
              var row := w.db.rows[id];
              if !Complete(row.code, fields) then Refused(w, after, InvalidInput)
              else if !up.write then Refused(w, after, Unavailable)
              else if expected != row.version then Refused(w, after, VersionConflict)
              else if expected + 1 == VERSION_LIMIT then Refused(w, after, Rejected)
              else
                var stored := row.(fields := fields, version := expected + 1, updatedAt := clock.now);
                && Stores(w, after, stored, None)
                && Enters(w, after, up, caller, "update", p.entity, id, row.status, row.status,
                          "updated business fields", clock.audited)
                && after.1 == if !up.reread then Err(Unavailable) else Ok(Reply(stored, []))
  {
    if Find(w.db, id).Some? {
      RecordChecked(p, w.db.rows[id], Request(Op.Update(expected, fields), id, caller), clock.at);
    }
  }

  lemma RecordTransitionAnswer(p: Policy, w: World, id: nat, expected: Uint, target: string, reason: string,
                               note: string, caller: Caller, clock: Clock, up: Storage)
    requires Unreviewed(p) && Keyed(w.db.rows) && (id in w.db.rows ==> w.db.rows[id].version < VERSION_LIMIT)
    ensures var after := Handle(p, w, Request(Op.Transition(expected, target, reason, note), id, caller), 0, clock, up);
            if !up.read then Refused(w, after, Unavailable)
            else if id !in w.db.rows || w.db.rows[id].deleted then Refused(w, after, NotFound)
            else
              var row := w.db.rows[id];
              if !CanTransition(p.graph, row.status, target) then Refused(w, after, InvalidTransition)
              else if !up.write then Refused(w, after, Unavailable)
              else if expected != row.version then Refused(w, after, VersionConflict)
              else if expected + 1 == VERSION_LIMIT then Refused(w, after, Rejected)
              else
                var stored := row.(status := target, version := expected + 1, updatedAt := clock.now);
                && Stores(w, after, stored, None)
                && Enters(w, after, up, caller, "transition", p.entity, id, row.status, target, reason, clock.audited)
                && after.1 == if !up.audit then Err(AuditFailed)
                              else if !up.reread then Err(Unavailable)
                              else Ok(Reply(stored, []))
  {
    if Find(w.db, id).Some? {
      RecordChecked(p, w.db.rows[id], Request(Op.Transition(expected, target, reason, note), id, caller), clock.at);
    }
  }

  lemma RecordDeleteAnswer(p: Policy, w: World, id: nat, caller: Caller, clock: Clock, up: Storage)
    requires Unreviewed(p) && Keyed(w.db.rows)
    ensures var after := Handle(p, w, Request(Op.Delete, id, caller), 0, clock, up);
            if !up.read then Refused(w, after, Unavailable)
            else if id !in w.db.rows || w.db.rows[id].deleted then Refused(w, after, NotFound)
            else if !up.write then Refused(w, after, Unavailable)
            else
              var gone := w.db.rows[id].(deleted := true);
              && Stores(w, after, gone, None)
              && Enters(w, after, up, caller, "delete", p.entity, id, gone.status, "deleted", p.texts.deleted,
                        clock.audited)
              && after.1 == if !up.audit then Err(AuditFailed) else Ok(Reply(gone, []))
  {
    if Find(w.db, id).Some? {
      RecordChecked(p, w.db.rows[id], Request(Op.Delete, id, caller), clock.at);
    }
  }
}
