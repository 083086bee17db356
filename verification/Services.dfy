/** The services, call by call. Each method is proved to do what `Serving.Handle` says, which is also
    what an uninterrupted task of the protocol does (`Serving.UninterruptedTaskIsCall`). */
module Services {
  import opened Basics
  import opened Text
  import opened Statuses
  import opened Records
  import opened Tables
  import opened Serving
  import opened Repositories

  function RowOf(r: Result<Reply>): Result<Row> {
    match r case Ok(reply) => Ok(reply.row) case Err(e) => Err(e)
  }

  function ErrorOf(r: Result<Reply>): Option<Error> {
    match r case Ok(_) => None case Err(e) => Some(e)
  }

  /** Row, or error, of an answer. */
  lemma AnswerInParts(reply: Reply, e: Error)
    ensures RowOf(Ok(reply)) == Ok(reply.row) && RowOf(Err(e)) == Err(e)
    ensures ErrorOf(Ok(reply)) == None && ErrorOf(Err(e)) == Some(e)
  {
  }

  /** Overwrites the business fields, one by one, with the trimmed input. */
  method AssignFields(row: Row, input: Fields) returns (current: Row)
    ensures current == row.(fields := Normalise(input))
    ensures var f := current.fields;
            && f.name == Trim(input.name) && f.description == Trim(input.description)
            && f.facility == Trim(input.facility) && f.owner == Trim(input.owner)
            && f.category == Trim(input.category) && f.riskLevel == input.riskLevel
            && f.metricValue == input.metricValue && f.metricUnit == Trim(input.metricUnit)
            && f.effectiveAt == input.effectiveAt && f.evidence == Trim(input.evidence)
            && f.relatedCode == Upper(Trim(input.relatedCode))
  {
    var fields := row.fields;
    fields := fields.(name := Trim(input.name));
    fields := fields.(description := Trim(input.description));
    fields := fields.(facility := Trim(input.facility));
    fields := fields.(owner := Trim(input.owner));
    fields := fields.(category := Trim(input.category));
    fields := fields.(riskLevel := input.riskLevel);
    fields := fields.(metricValue := input.metricValue);
    fields := fields.(metricUnit := Trim(input.metricUnit));
    fields := fields.(effectiveAt := input.effectiveAt);
    fields := fields.(evidence := Trim(input.evidence));
    fields := fields.(relatedCode := Upper(Trim(input.relatedCode)));
    current := row.(fields := fields);
  }

  /** A policy's validation is one of the two in the source. */
  ghost predicate Validates(p: Policy) {
    forall code: string, f: Fields ::
      p.valid(code, f) == if p.reviewed then ValidDecision(code, f) else ValidRecord(code, f)
  }

  /** Raw input passes validation exactly when the normalised input does. */
  lemma SameVerdict(p: Policy, code: string, input: Fields)
    requires Validates(p)
    ensures p.valid(code, Normalise(input)) == p.valid(code, input)
  {
    NormaliseProjects(code, input);
  }

  lemma SameVerdictOnNew(p: Policy, code: string, input: Fields)
    requires Validates(p)
    ensures p.valid(Upper(Trim(code)), Normalise(input)) == p.valid(code, input)
  {
    NormaliseProjects(code, input);
  }

  /** Invalid input stores nothing. */
  lemma InvalidCreate(p: Policy, w: World, code: string, fields: Fields, caller: Caller, id: nat, clock: Clock,
                      up: Storage)
    requires !p.valid(code, fields)
    ensures var after := Handle(p, w, Request(Op.Create(code, fields), 0, caller), id, clock, up);
            after.0 == w && after.1 == Err(InvalidInput)
  {
  }

  /** Bridges, inspection rounds and defect findings: one service text for three policies. */
  class RecordService {
    const policy: Policy
    const store: Store
    const security: SecurityService

    constructor (policy: Policy, store: Store, security: SecurityService)
      requires policy == BRIDGE || policy == INSPECTION || policy == DEFECT
      requires store.table.Valid()
      ensures Valid() && Validates(policy) && this.policy == policy && this.store == store && this.security == security
    {
      this.policy := policy;
      this.store := store;
      this.security := security;
    }

    ghost predicate Valid()
      reads store.table
    {
      && store.table.Valid()
      && !policy.reviewed && policy.entity != ""
    }

    function Current(): World
      reads store.table, security.audits
    {
      World(store.table.View(), security.audits.logs)
    }

    method Create(code: string, input: Fields, caller: Caller, clock: Clock, up: Storage) returns (r: Result<Row>)
      requires Valid() && Validates(policy)
      modifies store.table, security.audits
      ensures Valid()
      ensures var req := Request(Op.Create(Upper(Trim(code)), Normalise(input)), 0, caller);
              var after := Handle(policy, old(Current()), req, old(store.table.lastId) + 1, clock, up);
              Current() == after.0 && r == RowOf(after.1)
    {
      SameVerdictOnNew(policy, code, input);
      if policy.valid(code, input) {
        r := Save(Upper(Trim(code)), Normalise(input), caller, clock, up);
      } else {
        InvalidCreate(policy, Current(), Upper(Trim(code)), Normalise(input), caller, store.table.lastId + 1,
                      clock, up);
        r := Err(InvalidInput);
      }
    }

    /** Stores a validated new record and audits it. */
    method Save(code: string, fields: Fields, caller: Caller, clock: Clock, up: Storage) returns (r: Result<Row>)
      requires Valid() && policy.valid(code, fields)
      modifies store.table, security.audits
      ensures Valid()
      ensures var after := Handle(policy, old(Current()), Request(Op.Create(code, fields), 0, caller),
                                  old(store.table.lastId) + 1, clock, up);
              Current() == after.0 && r == RowOf(after.1)
    {
      var item := Row(0, code, policy.initial, 1, fields, "", 0, 0, false);
      r := store.Create(item, up.write, clock.now);
      if r.Err? {
        return;
      }
      var _ := security.Audit(caller, "create", policy.entity, r.value.id, "", r.value.status,
                              policy.texts.created, up.audit, clock.audited);
    }

    method Update(id: nat, expected: Uint, input: Fields, caller: Caller, clock: Clock, up: Storage)
      returns (r: Result<Row>)
      requires Valid() && Validates(policy)
      modifies store.table, security.audits
      ensures Valid()
      ensures var req := Request(Op.Update(expected, Normalise(input)), id, caller);
              var after := Handle(policy, old(Current()), req, 0, clock, up);
              Current() == after.0 && r == RowOf(after.1)
    {
      var found := store.Get(id, up.read);
      if found.Err? {
        return found;
      }
      var current := found.value;
      SameVerdict(policy, current.code, input);
      if !policy.valid(current.code, input) {
        return Err(InvalidInput);
      }
      current := AssignFields(current, input);
      current := current.(version := NextVersion(expected));
      current := current.(updatedAt := clock.at);
      var failed := store.Update(id, expected, current, up.write, clock.now);
      if failed.Some? {
        return Err(failed.value);
      }
      var _ := security.Audit(caller, "update", policy.entity, id, current.status, current.status,
                              policy.texts.updated, up.audit, clock.audited);
      r := store.Get(id, up.reread);
    }

    method Transition(id: nat, expected: Uint, status: string, reason: string, caller: Caller, clock: Clock,
                      up: Storage) returns (r: Result<Row>)
      requires Valid()
      modifies store.table, security.audits
      ensures Valid()
      ensures var req := Request(Op.Transition(expected, Trim(status), reason, Trim(reason)), id, caller);
              var after := Handle(policy, old(Current()), req, 0, clock, up);
              Current() == after.0 && r == RowOf(after.1)
    {
      var found := store.Get(id, up.read);
      if found.Err? {
        return found;
      }
      var current := found.value;
      var target := Trim(status);
      if !CanTransition(policy.graph, current.status, target) {
        return Err(InvalidTransition);
      }
      var before := current.status;
      current := current.(status := target);
      current := current.(version := NextVersion(expected));
      current := current.(updatedAt := clock.at);
      var failed := store.Update(id, expected, current, up.write, clock.now);
      if failed.Some? {
        return Err(failed.value);
      }
      var audited := security.Audit(caller, "transition", policy.entity, id, before, target, reason,
                                    up.audit, clock.audited);
      if !audited {
        return Err(AuditFailed);
      }
      r := store.Get(id, up.reread);
    }

    method Delete(id: nat, caller: Caller, clock: Clock, up: Storage) returns (failed: Option<Error>)
      requires Valid()
      modifies store.table, security.audits
      ensures Valid()
      ensures var after := Handle(policy, old(Current()), Request(Op.Delete, id, caller), 0, clock, up);
              Current() == after.0 && failed == ErrorOf(after.1)
    {
      var found := store.Get(id, up.read);
      if found.Err? {
        return Some(found.error);
      }
      failed := store.Delete(id, up.write);
      if failed.Some? {
        return;
      }
      var audited := security.Audit(caller, "delete", policy.entity, id, found.value.status, "deleted",
                                    policy.texts.deleted, up.audit, clock.audited);
      failed := if audited then None else Some(AuditFailed);
    }
  }

  /** Priority decisions. */
  class DecisionService {
    const policy: Policy
    const repository: DecisionRepository
    const security: SecurityService

    constructor (repository: DecisionRepository, security: SecurityService)
      requires repository.table.Valid() && repository.store.table == repository.table
      ensures Valid() && Validates(policy) && policy == DECISION
      ensures this.repository == repository && this.security == security
    {
      this.policy := DECISION;
      this.repository := repository;
      this.security := security;
    }

    ghost predicate Valid()
      reads repository.table
    {
      && repository.table.Valid() && repository.store.table == repository.table
      && policy.reviewed && policy.entity != ""
    }

    function Current(): World
      reads repository.table, security.audits
    {
      World(repository.table.View(), security.audits.logs)
    }

    method Create(code: string, input: Fields, caller: Caller, clock: Clock, up: Storage) returns (r: Result<Reply>)
      requires Valid() && Validates(policy)
      modifies repository.table, security.audits
      ensures Valid()
      ensures var req := Request(Op.Create(Upper(Trim(code)), Normalise(input)), 0, caller);
              var after := Handle(policy, old(Current()), req, old(repository.table.lastId) + 1, clock, up);
              Current() == after.0 && r == after.1
    {
      SameVerdictOnNew(policy, code, input);
      if policy.valid(code, input) {
        r := Save(Upper(Trim(code)), Normalise(input), caller, clock, up);
      } else {
        InvalidCreate(policy, Current(), Upper(Trim(code)), Normalise(input), caller, repository.table.lastId + 1,
                      clock, up);
        r := Err(InvalidInput);
      }
    }

    /** Stores a validated new draft with its first revision, audits it and reads it back. */
    method Save(code: string, fields: Fields, caller: Caller, clock: Clock, up: Storage) returns (r: Result<Reply>)
      requires Valid() && policy.valid(code, fields)
      modifies repository.table, security.audits
      ensures Valid()
      ensures var after := Handle(policy, old(Current()), Request(Op.Create(code, fields), 0, caller),
                                  old(repository.table.lastId) + 1, clock, up);
              Current() == after.0 && r == after.1
    {
      ghost var before := Current();
      ghost var req := Request(Op.Create(code, fields), 0, caller);
      var item := Row(0, code, policy.initial, 1, fields, caller.actor, 0, 0, false);
      var revision := NewRevision(item, policy.texts.firstNote, caller, clock.at);
      assert PrepareCreate(policy, code, fields, caller, clock.at) == Ok(Draft(item, Some(revision)));
      var created := repository.CreateWithRevision(item, revision, up.write, clock.now);
      if created.Err? {
        return Err(created.error);
      }
      assert Write(policy, before.db, req, created.value.id, clock, up) == Ok(repository.table.View());
      var _ := security.Audit(caller, "create", policy.entity, created.value.id, "", created.value.status,
                              policy.texts.created, up.audit, clock.audited);
      assert Current() == Handle(policy, before, req, created.value.id, clock, up).0;
      r := repository.Get(created.value.id, up.reread);
    }

    method Update(id: nat, expected: Uint, input: Fields, caller: Caller, clock: Clock, up: Storage)
      returns (r: Result<Reply>)
      requires Valid() && Validates(policy)
      modifies repository.table, security.audits
      ensures Valid()
      ensures var req := Request(Op.Update(expected, Normalise(input)), id, caller);
              var after := Handle(policy, old(Current()), req, 0, clock, up);
              Current() == after.0 && r == after.1
    {
      var found := repository.Get(id, up.read);
      if found.Err? {
        return found;
      }
      var current := found.value.row;
      if current.status != policy.initial {
        return Err(DecisionLocked);
      }
      if caller.actor != current.preparedBy && caller.role != ADMIN {
        return Err(NotDecisionOwner);
      }
      SameVerdict(policy, current.code, input);
      if !policy.valid(current.code, input) {
        return Err(InvalidInput);
      }
      current := AssignFields(current, input);
      r := Rewrite(id, expected, found.value.row, current, caller, clock, up);
    }

    /** Writes back a draft whose checks have passed and whose fields have been replaced. */
    method Rewrite(id: nat, expected: Uint, row: Row, edited: Row, caller: Caller, clock: Clock, up: Storage)
      returns (r: Result<Reply>)
      requires Valid() && up.read && Find(repository.table.View(), id) == Some(row)
      requires edited == row.(fields := edited.fields)
      requires PrepareUpdate(policy, row, expected, edited.fields, caller, clock.at).Ok?
      modifies repository.table, security.audits
      ensures Valid()
      ensures var req := Request(Op.Update(expected, edited.fields), id, caller);
              var after := Handle(policy, old(Current()), req, 0, clock, up);
              Current() == after.0 && r == after.1
    {
      ghost var req := Request(Op.Update(expected, edited.fields), id, caller);
      var current := edited.(version := NextVersion(expected));
      current := current.(updatedAt := clock.at);
      var revision := NewRevision(current, policy.texts.editNote, caller, clock.at);
      assert Prepare(policy, row, req, clock.at) == Ok(Draft(current, Some(revision)));
      var failed := repository.UpdateWithRevision(id, expected, current, revision, up.write, clock.now);
      if failed.Some? {
        return Err(failed.value);
      }
      assert Write(policy, old(Current()).db, req, 0, clock, up) == Ok(repository.table.View());
      var _ := security.Audit(caller, "update", policy.entity, id, current.status, current.status,
                              policy.texts.updated, up.audit, clock.audited);
      assert Current() == Handle(policy, old(Current()), req, 0, clock, up).0;
      r := repository.Get(id, up.reread);
    }

    method Transition(id: nat, expected: Uint, status: string, reason: string, caller: Caller, clock: Clock,
                      up: Storage) returns (r: Result<Reply>)
      requires Valid()
      modifies repository.table, security.audits
      ensures Valid()
      ensures var req := Request(Op.Transition(expected, Trim(status), reason, Trim(reason)), id, caller);
              var after := Handle(policy, old(Current()), req, 0, clock, up);
              Current() == after.0 && r == after.1
    {
      ghost var req := Request(Op.Transition(expected, Trim(status), reason, Trim(reason)), id, caller);
      var found := repository.Get(id, up.read);
      if found.Err? {
        return found;
      }
      var current := found.value.row;
      if caller.role != REVIEWER && caller.role != ADMIN {
        return Err(ReviewRole);
      }
      if caller.actor == current.preparedBy {
        return Err(SeparationOfDuty);
      }
      var target := Trim(status);
      if !CanTransition(policy.graph, current.status, target) {
        return Err(InvalidTransition);
      }
      var before := current.status;
      current := current.(status := target);
      current := current.(version := NextVersion(expected));
      current := current.(updatedAt := clock.at);
      var revision := NewRevision(current, Trim(reason), caller, clock.at);
      assert Prepare(policy, found.value.row, req, clock.at) == Ok(Draft(current, Some(revision)));
      var failed := repository.UpdateWithRevision(id, expected, current, revision, up.write, clock.now);
      if failed.Some? {
        return Err(failed.value);
      }
      assert Write(policy, old(Current()).db, req, 0, clock, up) == Ok(repository.table.View());
      var audited := security.Audit(caller, "transition", policy.entity, id, before, target, reason,
                                    up.audit, clock.audited);
      if !audited {
        assert Current() == Handle(policy, old(Current()), req, 0, clock, up).0;
        return Err(AuditFailed);
      }
      r := repository.Get(id, up.reread);
    }

    method Delete(id: nat, caller: Caller, clock: Clock, up: Storage) returns (failed: Option<Error>)
      requires Valid()
      modifies repository.table, security.audits
      ensures Valid()
      ensures var after := Handle(policy, old(Current()), Request(Op.Delete, id, caller), 0, clock, up);
              Current() == after.0 && failed == ErrorOf(after.1)
    {
      var found := repository.Get(id, up.read);
      if found.Err? {
        return Some(found.error);
      }
      var current := found.value.row;
      if current.status != policy.initial {
        return Some(DecisionLocked);
      }
      failed := repository.store.Delete(id, up.write);
      if failed.Some? {
        return;
      }
      var audited := security.Audit(caller, "delete", policy.entity, id, current.status, "deleted",
                                    policy.texts.deleted, up.audit, clock.audited);
      failed := if audited then None else Some(AuditFailed);
    }
  }
}
