/** Runs of whole calls: the audit trail of each decision against its revisions. */
module Trails {
  import opened Basics
  import opened Records
  import opened Tables
  import opened Protocol
  import opened Invariant
  import opened Serving

  datatype Call = Call(req: Request, id: nat, clock: Clock, up: Storage)

  function HandleAll(p: Policy, w: World, calls: seq<Call>): World {
    if calls == [] then w
    else
      var c := calls[|calls| - 1];
      Handle(p, HandleAll(p, w, calls[..|calls| - 1]), c.req, c.id, c.clock, c.up).0
  }

  /** The statuses that the audit log reports for one record, in order. */
  function Trail(audits: seq<AuditLog>, id: nat): seq<string> {
    if audits == [] then []
    else
      var last := audits[|audits| - 1];
      Trail(audits[..|audits| - 1], id) + (if last.entityID == id then [last.after] else [])
  }

  function StatusesOf(revs: seq<Revision>): seq<string> {
    seq(|revs|, k requires 0 <= k < |revs| => revs[k].status)
  }

  lemma TrailNext(audits: seq<AuditLog>, a: AuditLog, id: nat)
    ensures Trail(audits + [a], id) == Trail(audits, id) + (if a.entityID == id then [a.after] else [])
  {
    assert (audits + [a])[..|audits + [a]| - 1] == audits;
  }

  /** What a decision has been through: its revision statuses, and "deleted" at the end if it is gone. */
  function Line(db: Db, id: nat): seq<string> {
    StatusesOf(RevisionsOf(db, id)) + if id in db.rows && db.rows[id].deleted then ["deleted"] else []
  }

  /** The newest revision of a stored decision has the row's version. */
  ghost predicate Leads(db: Db, id: nat) {
    && id in db.rows && db.rows[id].id == id && db.rows[id].version < VERSION_LIMIT
    && var revs := RevisionsOf(db, id);
       revs != [] && revs[|revs| - 1].version == db.rows[id].version
  }

  lemma CreateWrites(db: Db, req: Request, id: nat, clock: Clock, up: Storage)
    requires req.op.Create? && RevisionsOf(db, id) == [] && Write(DECISION, db, req, id, clock, up).Ok?
    ensures var db' := Write(DECISION, db, req, id, clock, up).value;
            && id !in db.rows && Leads(db', id) && !db'.rows[id].deleted
            && StatusesOf(RevisionsOf(db', id)) == ["draft"]
  {
  }

  lemma ChangeWrites(db: Db, req: Request, id: nat, clock: Clock, up: Storage)
    requires req.IsChange() && Leads(db, req.id) && Write(DECISION, db, req, id, clock, up).Ok?
    ensures var db' := Write(DECISION, db, req, id, clock, up).value;
            && Leads(db', req.id) && !db.rows[req.id].deleted && !db'.rows[req.id].deleted
            && StatusesOf(RevisionsOf(db', req.id)) == StatusesOf(RevisionsOf(db, req.id)) + [db'.rows[req.id].status]
            && db'.rows[req.id].status == (if req.op.Transition? then req.op.target else db.rows[req.id].status)
  {
    var row := db.rows[req.id];
    var draft := Prepare(DECISION, row, req, clock.at).value;
    ChangeDrafts(row, req, clock.at);
    CompareAndSetLeads(db, req.id, req.op.expected, draft, clock.now);
  }

  lemma CompareAndSetLeads(db: Db, id: nat, expected: Uint, draft: Draft, now: int)
    requires Leads(db, id) && draft.revision.Some?
    requires draft.revision.value.version == draft.item.version == NextVersion(expected)
    requires draft.revision.value.status == draft.item.status && CompareAndSet(db, id, expected, draft, now).Ok?
    ensures var db' := CompareAndSet(db, id, expected, draft, now).value;
            && Leads(db', id) && !db.rows[id].deleted && !db'.rows[id].deleted
            && StatusesOf(RevisionsOf(db', id)) == StatusesOf(RevisionsOf(db, id)) + [draft.item.status]
            && db'.rows[id].status == draft.item.status
  {
    var revs, rev := RevisionsOf(db, id), draft.revision.value.(decisionId := id);
    InsertAtEnd(revs, rev);
    assert StatusesOf(revs + [rev]) == StatusesOf(revs) + [rev.status];
  }

  lemma ChangeDrafts(row: Row, req: Request, at: int)
    requires req.IsChange() && Prepare(DECISION, row, req, at).Ok?
    ensures var draft := Prepare(DECISION, row, req, at).value;
            && draft.item.version == NextVersion(req.op.expected)
            && draft.item.status == (if req.op.Transition? then req.op.target else row.status)
            && draft.revision.Some? && draft.revision.value.version == draft.item.version
            && draft.revision.value.status == draft.item.status
  {
  }

  lemma DeleteWrites(db: Db, req: Request, id: nat, clock: Clock, up: Storage)
    requires req.op.Delete? && Leads(db, req.id) && Write(DECISION, db, req, id, clock, up).Ok?
    ensures var db' := Write(DECISION, db, req, id, clock, up).value;
            && Leads(db', req.id) && db'.rows[req.id].deleted && !db.rows[req.id].deleted
            && db.rows[req.id].status == "draft"
            && db'.rows[req.id].status == "draft" && RevisionsOf(db', req.id) == RevisionsOf(db, req.id)
  {
  }

  lemma OthersKept(p: Policy, db: Db, req: Request, id: nat, clock: Clock, up: Storage, other: nat)
    requires Write(p, db, req, id, clock, up).Ok? && other != KeyOf(req, id)
    ensures var db' := Write(p, db, req, id, clock, up).value;
            && RevisionsOf(db', other) == RevisionsOf(db, other)
            && (other in db'.rows <==> other in db.rows) && (other in db.rows ==> db'.rows[other] == db.rows[other])
  {
  }

  lemma WriteKeepsKeyed(p: Policy, db: Db, req: Request, id: nat, clock: Clock, up: Storage)
    requires Keyed(db.rows) && Write(p, db, req, id, clock, up).Ok?
    ensures Keyed(Write(p, db, req, id, clock, up).value.rows)
  {
    var db' := Write(p, db, req, id, clock, up).value;
    forall u | u in db'.rows ensures db'.rows[u].id == u {
      if u != KeyOf(req, id) { OthersKept(p, db, req, id, clock, up, u); }
    }
  }

  /** A decision is there with its newest revision, or there is nothing of it. */
  ghost predicate Sound(db: Db, id: nat) {
    if id in db.rows then Leads(db, id) else RevisionsOf(db, id) == []
  }

  /** So it is in every state that the protocol reaches. */
  lemma InvIsSound(s: State, id: nat)
    requires Inv(DECISION, s)
    ensures Keyed(s.db.rows) && Sound(s.db, id)
  {
    forall u | u in s.db.rows ensures s.db.rows[u].id == u { StoredIsPast(DECISION, s, u); }
    if id in s.db.rows {
      assert RecordOk(DECISION, s.db, s.hist, id);
      var revs, h := RevisionsOf(s.db, id), s.hist[id];
      assert MirrorAt(revs, h, |h| - 1) && EntryOk(DECISION, id, h, |h| - 1);
    }
  }

  // ---- what a call adds ----

  /** A committed write: the status that it gave, and whether its audit entry was stored. */
  datatype Effect = Effect(status: string, audited: bool)

  /** What call `c` does to decision `id`: one write, or none. */
  function EffectOf(w: World, c: Call, id: nat): seq<Effect> {
    match Write(DECISION, w.db, c.req, c.id, c.clock, c.up)
    case Err(_) => []
    case Ok(db) =>
      WriteKeepsKey(DECISION, w.db, c.req, c.id, c.clock, c.up);
      if KeyOf(c.req, c.id) != id then []
      else [Effect(if c.req.op.Delete? then "deleted" else db.rows[id].status, c.up.audit)]
  }

  function EffectsOf(w: World, calls: seq<Call>, id: nat): seq<Effect> {
    if calls == [] then []
    else
      var front := calls[..|calls| - 1];
      EffectsOf(w, front, id) + EffectOf(HandleAll(DECISION, w, front), calls[|calls| - 1], id)
  }

  function AllStatuses(effects: seq<Effect>): seq<string> {
    seq(|effects|, i requires 0 <= i < |effects| => effects[i].status)
  }

  function AuditedStatuses(effects: seq<Effect>): seq<string> {
    if effects == [] then []
    else
      var last := effects[|effects| - 1];
      AuditedStatuses(effects[..|effects| - 1]) + if last.audited then [last.status] else []
  }

  function Lost(effects: seq<Effect>): nat {
    if effects == [] then 0
    else Lost(effects[..|effects| - 1]) + if effects[|effects| - 1].audited then 0 else 1
  }

  lemma EffectsNext(effects: seq<Effect>, e: Effect)
    ensures AllStatuses(effects + [e]) == AllStatuses(effects) + [e.status]
    ensures AuditedStatuses(effects + [e]) == AuditedStatuses(effects) + if e.audited then [e.status] else []
    ensures Lost(effects + [e]) == Lost(effects) + if e.audited then 0 else 1
  {
    assert (effects + [e])[..|effects + [e]| - 1] == effects;
  }

  lemma {:induction false} EffectsAddUp(effects: seq<Effect>)
    ensures |AuditedStatuses(effects)| + Lost(effects) == |effects| == |AllStatuses(effects)|
    ensures Lost(effects) == 0 <==> AuditedStatuses(effects) == AllStatuses(effects)
  {
    if effects != [] {
      var front, last := effects[..|effects| - 1], effects[|effects| - 1];
      assert effects == front + [last];
      EffectsAddUp(front);
      EffectsNext(front, last);
    }
  }

  /** The write of a call adds its status to the line of its decision. */
  lemma WriteExtendsLine(db: Db, c: Call)
    requires Sound(db, KeyOf(c.req, c.id)) && Write(DECISION, db, c.req, c.id, c.clock, c.up).Ok?
    ensures var key, db' := KeyOf(c.req, c.id), Write(DECISION, db, c.req, c.id, c.clock, c.up).value;
            && key in db'.rows && Sound(db', key)
            && Line(db', key) ==
                 Line(db, key) + [if c.req.op.Delete? then "deleted" else db'.rows[key].status]
            && (db'.rows[key].deleted ==> db'.rows[key].status == "draft")
  {
    if c.req.op.Create? {
      CreateWrites(db, c.req, c.id, c.clock, c.up);
    } else if c.req.op.Delete? {
      DeleteWrites(db, c.req, c.id, c.clock, c.up);
    } else {
      ChangeWrites(db, c.req, c.id, c.clock, c.up);
    }
  }

  /** And its audit entry reports that status. */
  lemma EntryReportsStatus(db: Db, c: Call, now: int)
    requires Sound(db, KeyOf(c.req, c.id)) && Write(DECISION, db, c.req, c.id, c.clock, c.up).Ok?
    ensures var key, db' := KeyOf(c.req, c.id), Write(DECISION, db, c.req, c.id, c.clock, c.up).value;
            && key in db'.rows
            && var seen := if c.req.op.Create? then None else Find(db, c.req.id);
               var entry := AuditFor(DECISION, c.req, seen, db'.rows[key], now);
               && entry.entityID == key
               && entry.after == if c.req.op.Delete? then "deleted" else db'.rows[key].status
  {
    if c.req.op.Create? {
      CreateWrites(db, c.req, c.id, c.clock, c.up);
    } else if c.req.op.Delete? {
      DeleteWrites(db, c.req, c.id, c.clock, c.up);
    } else {
      ChangeWrites(db, c.req, c.id, c.clock, c.up);
    }
  }

  /** `w'` follows `w` by writes with these effects on decision `id`. */
  ghost predicate Extends(w: World, w': World, id: nat, effects: seq<Effect>) {
    && Keyed(w'.db.rows) && Sound(w'.db, id)
    && Line(w'.db, id) == Line(w.db, id) + AllStatuses(effects)
    && Trail(w'.audits, id) == Trail(w.audits, id) + AuditedStatuses(effects)
    && (id in w'.db.rows && w'.db.rows[id].deleted ==>
          w'.db.rows[id].status == "draft" || (id in w.db.rows && w.db.rows[id] == w'.db.rows[id]))
  }

  lemma NothingExtends(w: World, id: nat)
    requires Keyed(w.db.rows) && Sound(w.db, id)
    ensures Extends(w, w, id, [])
  {
  }

  lemma OneExtends(w: World, db: Db, entry: AuditLog, id: nat, e: Effect)
    requires Keyed(db.rows) && Sound(db, id) && Line(db, id) == Line(w.db, id) + [e.status]
    requires entry.entityID == id && entry.after == e.status
    requires id in db.rows && (db.rows[id].deleted ==> db.rows[id].status == "draft")
    ensures Extends(w, World(db, if e.audited then w.audits + [entry] else w.audits), id, [e])
  {
    TrailNext(w.audits, entry, id);
    EffectsNext([], e);
    assert [] + [e] == [e];
  }

  lemma OtherExtends(w: World, db: Db, entry: AuditLog, id: nat, audited: bool)
    requires Sound(w.db, id) && Keyed(db.rows) && entry.entityID != id && RevisionsOf(db, id) == RevisionsOf(w.db, id)
    requires (id in db.rows <==> id in w.db.rows) && (id in w.db.rows ==> db.rows[id] == w.db.rows[id])
    ensures Extends(w, World(db, if audited then w.audits + [entry] else w.audits), id, [])
  {
    TrailNext(w.audits, entry, id);
  }

  lemma CallExtends(w: World, c: Call, id: nat)
    requires Keyed(w.db.rows) && Sound(w.db, id)
    ensures Extends(w, Handle(DECISION, w, c.req, c.id, c.clock, c.up).0, id, EffectOf(w, c, id))
  {
    var r := Write(DECISION, w.db, c.req, c.id, c.clock, c.up);
    if r.Err? {
      NothingExtends(w, id);
    } else {
      var key := KeyOf(c.req, c.id);
      WriteKeepsKey(DECISION, w.db, c.req, c.id, c.clock, c.up);
      WriteKeepsKeyed(DECISION, w.db, c.req, c.id, c.clock, c.up);
      var seen := if c.req.op.Create? then None else Find(w.db, c.req.id);
      var entry := AuditFor(DECISION, c.req, seen, r.value.rows[key], c.clock.audited);
      if id == key {
        WriteExtendsLine(w.db, c);
        EntryReportsStatus(w.db, c, c.clock.audited);
        OneExtends(w, r.value, entry, id, EffectOf(w, c, id)[0]);
      } else {
        OthersKept(DECISION, w.db, c.req, c.id, c.clock, c.up, id);
        OtherExtends(w, r.value, entry, id, c.up.audit);
      }
    }
  }

  lemma ExtendsFurther(a: World, b: World, c: World, id: nat, first: seq<Effect>, next: seq<Effect>)
    requires Extends(a, b, id, first) && Extends(b, c, id, next)
    ensures Extends(a, c, id, first + next)
  {
    EffectsJoin(first, next);
    Regroup(Line(a.db, id), AllStatuses(first), AllStatuses(next));
    Regroup(Trail(a.audits, id), AuditedStatuses(first), AuditedStatuses(next));
  }

  lemma Regroup(a: seq<string>, b: seq<string>, c: seq<string>)
    ensures a + b + c == a + (b + c)
  {
  }

  lemma {:induction false} EffectsJoin(first: seq<Effect>, next: seq<Effect>)
    ensures AllStatuses(first + next) == AllStatuses(first) + AllStatuses(next)
    ensures AuditedStatuses(first + next) == AuditedStatuses(first) + AuditedStatuses(next)
  {
    if next == [] {
      assert first + next == first;
    } else {
      var front, last := next[..|next| - 1], next[|next| - 1];
      assert front + [last] == next && first + next == first + front + [last];
      EffectsJoin(first, front);
      EffectsNext(first + front, last);
      EffectsNext(front, last);
      Regroup(AuditedStatuses(first), AuditedStatuses(front), if last.audited then [last.status] else []);
    }
  }

  /** Over any run of whole calls the audit trail of each decision reports exactly the commits whose
      entries were stored, in order, as its revisions report all of them; the two differ by the lost
      entries alone, and agree if and only if there are none. Only drafts are deleted. */
  lemma {:induction false} TrailsMatchRevisions(w: World, calls: seq<Call>, id: nat)
    requires Keyed(w.db.rows) && Sound(w.db, id)
    ensures var end, effects := HandleAll(DECISION, w, calls), EffectsOf(w, calls, id);
            && Extends(w, end, id, effects)
            && |Line(end.db, id)| - |Line(w.db, id)| == |Trail(end.audits, id)| - |Trail(w.audits, id)| + Lost(effects)
            && (Lost(effects) == 0 <==> AuditedStatuses(effects) == AllStatuses(effects))
  {
    EffectsAddUp(EffectsOf(w, calls, id));
    if calls == [] {
      NothingExtends(w, id);
    } else {
      var front, c := calls[..|calls| - 1], calls[|calls| - 1];
      var mid := HandleAll(DECISION, w, front);
      TrailsMatchRevisions(w, front, id);
      CallExtends(mid, c, id);
      ExtendsFurther(w, mid, HandleAll(DECISION, w, calls), id, EffectsOf(w, front, id), EffectOf(mid, c, id));
    }
  }

  lemma {:induction false} NoneLost(w: World, calls: seq<Call>, id: nat)
    requires forall c :: c in calls ==> c.up.audit
    ensures Lost(EffectsOf(w, calls, id)) == 0
  {
    if calls != [] {
      var front, c := calls[..|calls| - 1], calls[|calls| - 1];
      NoneLost(w, front, id);
      assert c in calls;
      var added := EffectOf(HandleAll(DECISION, w, front), c, id);
      if added == [] {
        assert EffectsOf(w, front, id) + added == EffectsOf(w, front, id);
      } else {
        EffectsNext(EffectsOf(w, front, id), added[0]);
        assert [added[0]] == added;
      }
    }
  }

  /** With no entry lost and nothing deleted before: what a decision had at the start, followed by its
      audit trail, is what it has been through in the end. */
  lemma TrailsContinue(start: Db, calls: seq<Call>, id: nat)
    requires Keyed(start.rows) && Sound(start, id) && (id in start.rows ==> !start.rows[id].deleted)
    requires forall c :: c in calls ==> c.up.audit
    ensures var end := HandleAll(DECISION, World(start, []), calls);
            && Line(end.db, id) == StatusesOf(RevisionsOf(start, id)) + Trail(end.audits, id)
            && (id in end.db.rows && end.db.rows[id].deleted ==> end.db.rows[id].status == "draft")
  {
    TrailsMatchRevisions(World(start, []), calls, id);
    NoneLost(World(start, []), calls, id);
    assert Line(start, id) == StatusesOf(RevisionsOf(start, id));
    assert Trail([], id) + AuditedStatuses(EffectsOf(World(start, []), calls, id))
        == AuditedStatuses(EffectsOf(World(start, []), calls, id));
  }
}
