/** Every step keeps the ledger's invariant. */
module LedgerSteps {
  import opened Wrappers
  import opened LedgerTables
  import opened DraftSteps
  import opened SubmitSteps
  import opened GovernanceSteps
  import opened LedgerInvariant

  // ----- Drafts -----

  /** Shifts keep their stations, so idempotency rows keep theirs. */
  lemma StationsKept(shifts: map<Id, Shift>, shifts': map<Id, Shift>, idem: map<IdemKey, Idem>)
    requires IdemKeysOk(shifts, idem)
    requires forall s | s in shifts :: s in shifts' && shifts'[s].station == shifts[s].station
    ensures IdemKeysOk(shifts', idem)
  {
  }

  lemma OpenKeys(t: Tables, q: OpenRequest, t': Tables)
    requires KeysOk(t) && ShiftOpened(t, q) == Success(t')
    ensures KeysOk(t')
  {
  }

  lemma FreshKey(t: Tables, s: Id)
    requires KeysOk(t) && s >= t.nextId
    ensures s !in t.shifts && s !in t.reports && s !in t.children && s !in t.heads && s !in t.decisions && s !in t.amendments
  {
  }

  lemma NewShiftFits(shifts: map<Id, Shift>, id: Id, shift: Shift)
    requires ShiftsOk(shifts) && shift.sequence > 0
    requires forall s | s in shifts && shifts[s].station == shift.station ::
               shifts[s].sequence < shift.sequence && !IsActive(shifts[s].status)
    ensures ShiftsOk(shifts[id := shift])
  {
  }

  lemma OpenShifts(t: Tables, q: OpenRequest, t': Tables)
    requires KeysOk(t) && ShiftsOk(t.shifts) && ShiftOpened(t, q) == Success(t')
    ensures ShiftsOk(t'.shifts)
  {
    assert forall s | s in t.shifts && t.shifts[s].station == q.station ::
        t.shifts[s].sequence in Sequences(t.shifts, q.station);
    hide KeysOk, ShiftsOk, BackfillError, BackfillIsFree;
    NewShiftFits(t.shifts, t.nextId, t'.shifts[t.nextId]);
  }

  lemma OpenDrafts(t: Tables, t': Tables, s: Id, d: Id)
    requires KeysOk(t) && DraftsOk(t.shifts, t.drafts) && RevisionsOk(t.drafts, t.draftRows)
    requires s == t.nextId && d == s + 1 && s in t'.shifts && t'.shifts == t.shifts[s := t'.shifts[s]]
    requires d in t'.drafts && t'.drafts == t.drafts[d := t'.drafts[d]]
    requires t'.draftRows == t.draftRows[d := DraftRows([], [], [], [])]
    requires t'.drafts[d].shift == s && t'.drafts[d].station == t'.shifts[s].station && t'.drafts[d].revision == 1
    ensures DraftsOk(t'.shifts, t'.drafts) && RevisionsOk(t'.drafts, t'.draftRows)
  {
  }

  lemma OpenReports(shifts: map<Id, Shift>, shifts': map<Id, Shift>, reports: map<Id, Report>, s: Id)
    requires ReportsOk(shifts, reports) && s !in shifts && shifts.Keys <= shifts'.Keys
    ensures ReportsOk(shifts', reports)
    ensures forall r | r in reports :: reports[r].shift in shifts && reports[r].shift != s
  {
  }

  lemma OpenCurrent(shifts: map<Id, Shift>, shifts': map<Id, Shift>, reports: map<Id, Report>, s: Id)
    requires CurrentOk(shifts, reports) && s !in shifts
    requires forall r | r in reports :: reports[r].shift in shifts && reports[r].shift != s
    requires s in shifts' && shifts' == shifts[s := shifts'[s]]
    requires shifts'[s].status == Open && shifts'[s].current.None?
    ensures CurrentOk(shifts', reports)
  {
  }

  lemma OpenPending(t: Tables, t': Tables, s: Id)
    requires KeysOk(t) && PendingOk(t.shifts, t.amendments)
    requires s == t.nextId && s in t'.shifts && t'.shifts == t.shifts[s := t'.shifts[s]]
    ensures PendingOk(t'.shifts, t.amendments)
  {
  }

  lemma OpenHeads(t: Tables, t': Tables, s: Id)
    requires KeysOk(t) && HeadsOk(t.shifts, t.reports, t.heads, t.decisions) && StatusOk(t.shifts, t.heads, t.decisions)
    requires s == t.nextId && s in t'.shifts && t'.shifts == t.shifts[s := t'.shifts[s]]
    requires t'.shifts[s].current.None?
    ensures HeadsOk(t'.shifts, t.reports, t.heads, t.decisions) && StatusOk(t'.shifts, t.heads, t.decisions)
  {
  }

  lemma OpenKeeps(t: Tables, q: OpenRequest, hash: SnapshotHash)
    requires Inv(t, hash) && ShiftOpened(t, q).Success?
    ensures Inv(ShiftOpened(t, q).value, hash)
  {
    hide KeysOk, ShiftsOk, DraftsOk, RevisionsOk, ReportsOk, CurrentOk, HeadsOk, StatusOk, DecisionsOk, SeparationOk,
      PendingOk, DigestsOk, AppliedOk, OriginOk, IdemOk, IdemKeysOk, ItemsOk, RowIdsOk;
    var t' := ShiftOpened(t, q).value;
    var s, d := t.nextId, t.nextId + 1;
    OpenKeys(t, q, t');
    OpenShifts(t, q, t');
    OpenDrafts(t, t', s, d);
    FreshKey(t, s);
    OpenReports(t.shifts, t'.shifts, t.reports, s);
    OpenCurrent(t.shifts, t'.shifts, t.reports, s);
    OpenPending(t, t', s);
    OpenHeads(t, t', s);
    StationsKept(t.shifts, t'.shifts, t.idem);
  }

  /** A step on the lease of one draft. */
  lemma DraftChanged(shifts: map<Id, Shift>, drafts: map<Id, Draft>, rows: map<Id, DraftRows>, d: Id, draft: Draft)
    requires DraftsOk(shifts, drafts) && RevisionsOk(drafts, rows) && d in drafts
    requires draft.shift == drafts[d].shift && draft.station == drafts[d].station && draft.revision == drafts[d].revision
    ensures DraftsOk(shifts, drafts[d := draft]) && RevisionsOk(drafts[d := draft], rows)
  {
  }

  lemma DraftKeys(t: Tables, t': Tables, d: Id)
    requires KeysOk(t) && d in t.drafts && d in t'.drafts && t.nextId <= t'.nextId
    requires t' == t.(nextId := t'.nextId, drafts := t.drafts[d := t'.drafts[d]])
    requires t'.drafts[d].token.Some? && t'.drafts[d].token != t.drafts[d].token ==> t'.drafts[d].token.value < t'.nextId
    ensures KeysOk(t')
  {
  }

  lemma DraftKeeps(t: Tables, t': Tables, d: Id)
    requires KeysOk(t) && DraftsOk(t.shifts, t.drafts) && RevisionsOk(t.drafts, t.draftRows)
    requires d in t.drafts && d in t'.drafts && t.nextId <= t'.nextId
    requires t' == t.(nextId := t'.nextId, drafts := t.drafts[d := t'.drafts[d]])
    requires t'.drafts[d].shift == t.drafts[d].shift && t'.drafts[d].station == t.drafts[d].station
    requires t'.drafts[d].revision == t.drafts[d].revision
    requires t'.drafts[d].token.Some? && t'.drafts[d].token != t.drafts[d].token ==> t'.drafts[d].token.value < t'.nextId
    ensures KeysOk(t') && DraftsOk(t.shifts, t'.drafts) && RevisionsOk(t'.drafts, t.draftRows)
  {
    hide KeysOk, DraftsOk, RevisionsOk;
    DraftKeys(t, t', d);
    DraftChanged(t.shifts, t.drafts, t.draftRows, d, t'.drafts[d]);
  }

  lemma ClaimKeeps(t: Tables, draft: Id, shift: Id, actor: User, now: Time, hash: SnapshotHash)
    requires Inv(t, hash) && DraftClaimed(t, draft, shift, actor, now).Success?
    ensures Inv(DraftClaimed(t, draft, shift, actor, now).value, hash)
  {
    hide KeysOk, ShiftsOk, DraftsOk, RevisionsOk, ReportsOk, CurrentOk, HeadsOk, StatusOk, DecisionsOk, SeparationOk,
      PendingOk, DigestsOk, AppliedOk, OriginOk, IdemOk, IdemKeysOk, ItemsOk, RowIdsOk;
    DraftKeeps(t, DraftClaimed(t, draft, shift, actor, now).value, draft);
  }

  lemma ExtendKeeps(t: Tables, draft: Id, actor: User, token: Id, now: Time, hash: SnapshotHash)
    requires Inv(t, hash) && LeaseExtended(t, draft, actor, token, now).Success?
    ensures Inv(LeaseExtended(t, draft, actor, token, now).value, hash)
  {
    hide KeysOk, ShiftsOk, DraftsOk, RevisionsOk, ReportsOk, CurrentOk, HeadsOk, StatusOk, DecisionsOk, SeparationOk,
      PendingOk, DigestsOk, AppliedOk, OriginOk, IdemOk, IdemKeysOk, ItemsOk, RowIdsOk;
    DraftKeeps(t, LeaseExtended(t, draft, actor, token, now).value, draft);
  }

  lemma WriteRows(t: Tables, t': Tables, d: Id)
    requires KeysOk(t) && DraftsOk(t.shifts, t.drafts) && RevisionsOk(t.drafts, t.draftRows)
    requires d in t.drafts && d in t.draftRows && d in t'.draftRows
    requires t' == t.(nextId := t.nextId + 1, drafts := t.drafts[d := t.drafts[d].(revision := t.drafts[d].revision + 1)],
                      draftRows := t.draftRows[d := t'.draftRows[d]])
    requires t'.draftRows[d].Count() == t.draftRows[d].Count() + 1
    ensures KeysOk(t') && DraftsOk(t.shifts, t'.drafts) && RevisionsOk(t'.drafts, t'.draftRows)
  {
  }

  lemma WriteKeeps(t: Tables, w: Write, row: Row, now: Time, hash: SnapshotHash)
    requires Inv(t, hash) && RowWritten(t, w, row, now).Success?
    ensures Inv(RowWritten(t, w, row, now).value, hash)
  {
    hide KeysOk, ShiftsOk, DraftsOk, RevisionsOk, ReportsOk, CurrentOk, HeadsOk, StatusOk, DecisionsOk, SeparationOk,
      PendingOk, DigestsOk, AppliedOk, OriginOk, IdemOk, IdemKeysOk, ItemsOk, RowIdsOk;
    hide RowFits;
    var t' := RowWritten(t, w, row, now).value;
    assert t'.draftRows[w.draft].Count() == t.draftRows[w.draft].Count() + 1;
    hide MutationError, WithRow;
    WriteRows(t, t', w.draft);
  }

  // ----- Acknowledgement -----

  /** Two shift tables that differ in the status of shifts alone. */
  ghost predicate SameButStatus(shifts: map<Id, Shift>, shifts': map<Id, Shift>) {
    && shifts'.Keys == shifts.Keys
    && forall s | s in shifts :: shifts'[s] == shifts[s].(status := shifts'[s].status)
  }

  lemma AckKeys(t: Tables, q: AckRequest, t': Tables, now: Time)
    requires KeysOk(t) && Acknowledged(t, q, now) == Success(t')
    ensures KeysOk(t')
  {
    hide AckReasons, AckSequences;
  }

  lemma AckFacts(t: Tables, q: AckRequest)
    requires AckError(t, q).None?
    ensures q.report in t.heads && t.heads[q.report].None? && q.report in t.reports
    ensures t.reports[q.report].shift == q.shift && q.shift in t.shifts && t.shifts[q.shift].current == Some(q.report)
  {
    hide AckReasons, CreatedRows;
  }

  lemma NoSequences(decisions: map<Id, Decision>, report: Id)
    requires forall k | k in decisions :: decisions[k].report != report
    ensures CoalesceMax(AckSequences(decisions, report)) == 0
  {
    assert AckSequences(decisions, report) == {};
  }

  /** No report supersedes the current one. */
  lemma NoSuccessor(shifts: map<Id, Shift>, reports: map<Id, Report>, r: Id, n: Id)
    requires ReportsOk(shifts, reports) && CurrentOk(shifts, reports) && r in reports && n in reports
    requires reports[r].shift in shifts && shifts[reports[r].shift].current == Some(r)
    ensures reports[n].supersedes != Some(r)
  {
  }

  lemma UndecidedWhileCurrent(t: Tables, r: Id, k: Id)
    requires ReportsOk(t.shifts, t.reports) && CurrentOk(t.shifts, t.reports)
    requires DecisionsOk(t.reports, t.heads, t.decisions, t.superseded)
    requires r in t.reports && r in t.heads && t.heads[r].None? && k in t.decisions
    requires t.reports[r].shift in t.shifts && t.shifts[t.reports[r].shift].current == Some(r)
    ensures t.decisions[k].report != r
  {
    forall n | n in t.reports ensures t.reports[n].supersedes != Some(r) {
      NoSuccessor(t.shifts, t.reports, r, n);
    }
    hide ReportsOk, CurrentOk;
  }

  /** While a version awaits its decision there is none on record for it, in force or superseded. */
  lemma NotDecidedYet(t: Tables, q: AckRequest)
    requires KeysOk(t) && ReportsOk(t.shifts, t.reports) && CurrentOk(t.shifts, t.reports)
    requires DecisionsOk(t.reports, t.heads, t.decisions, t.superseded)
    requires AckError(t, q).None?
    ensures forall k | k in t.decisions :: t.decisions[k].report != q.report
    ensures CoalesceMax(AckSequences(t.decisions, q.report)) == 0
  {
    hide KeysOk, ReportsOk, CurrentOk, DecisionsOk, AckError, AckSequences;
    AckFacts(t, q);
    forall k | k in t.decisions ensures t.decisions[k].report != q.report {
      UndecidedWhileCurrent(t, q.report, k);
    }
    NoSequences(t.decisions, q.report);
  }

  lemma StatusShifts(shifts: map<Id, Shift>, shifts': map<Id, Shift>, s: Id)
    requires SameButStatus(shifts, shifts') && s in shifts && shifts' == shifts[s := shifts'[s]]
    requires IsActive(shifts[s].status) && !IsActive(shifts'[s].status)
    requires ShiftsOk(shifts)
    ensures ShiftsOk(shifts')
  {
  }

  lemma StatusDrafts(shifts: map<Id, Shift>, shifts': map<Id, Shift>, drafts: map<Id, Draft>)
    requires SameButStatus(shifts, shifts') && DraftsOk(shifts, drafts)
    ensures DraftsOk(shifts', drafts)
  {
  }

  lemma StatusReports(shifts: map<Id, Shift>, shifts': map<Id, Shift>, reports: map<Id, Report>)
    requires SameButStatus(shifts, shifts') && ReportsOk(shifts, reports)
    ensures ReportsOk(shifts', reports)
  {
  }

  lemma StatusCurrent(shifts: map<Id, Shift>, shifts': map<Id, Shift>, reports: map<Id, Report>, s: Id)
    requires SameButStatus(shifts, shifts') && s in shifts && shifts' == shifts[s := shifts'[s]]
    requires shifts[s].status != Open && shifts'[s].status != Open
    requires CurrentOk(shifts, reports)
    ensures CurrentOk(shifts', reports)
  {
  }

  lemma StatusPending(shifts: map<Id, Shift>, shifts': map<Id, Shift>, amendments: map<Id, Amendment>)
    requires SameButStatus(shifts, shifts') && PendingOk(shifts, amendments)
    ensures PendingOk(shifts', amendments)
  {
  }

  lemma AckFrame(t: Tables, t': Tables, s: Id)
    requires SameButStatus(t.shifts, t'.shifts) && s in t.shifts
    requires t'.shifts == t.shifts[s := t'.shifts[s]]
    requires IsActive(t.shifts[s].status) && t.shifts[s].status != Open && !IsActive(t'.shifts[s].status)
    requires ShiftsOk(t.shifts) && DraftsOk(t.shifts, t.drafts) && ReportsOk(t.shifts, t.reports)
    requires CurrentOk(t.shifts, t.reports) && PendingOk(t.shifts, t.amendments)
    ensures ShiftsOk(t'.shifts) && DraftsOk(t'.shifts, t.drafts) && ReportsOk(t'.shifts, t.reports)
    ensures CurrentOk(t'.shifts, t.reports) && PendingOk(t'.shifts, t.amendments)
  {
    hide ShiftsOk, DraftsOk, ReportsOk, CurrentOk, PendingOk, SameButStatus;
    StatusShifts(t.shifts, t'.shifts, s);
    StatusDrafts(t.shifts, t'.shifts, t.drafts);
    StatusReports(t.shifts, t'.shifts, t.reports);
    StatusCurrent(t.shifts, t'.shifts, t.reports, s);
    StatusPending(t.shifts, t'.shifts, t.amendments);
  }

  lemma HeadIsSet(shifts: map<Id, Shift>, shifts': map<Id, Shift>, reports: map<Id, Report>, heads: map<Id, Option<Id>>,
                  decisions: map<Id, Decision>, s: Id, r: Id, k: Id, d: Decision)
    requires HeadsOk(shifts, reports, heads, decisions) && SameButStatus(shifts, shifts')
    requires s in shifts && shifts[s].current == Some(r) && r in heads && r in reports && reports[r].shift == s
    requires k !in decisions && d.report == r
    ensures HeadsOk(shifts', reports, heads[r := Some(k)], decisions[k := d])
  {
  }

  lemma StatusFollows(shifts: map<Id, Shift>, reports: map<Id, Report>, heads: map<Id, Option<Id>>,
                      decisions: map<Id, Decision>, s: Id, r: Id, k: Id, d: Decision)
    requires StatusOk(shifts, heads, decisions) && CurrentOk(shifts, reports)
    requires s in shifts && shifts[s].current == Some(r) && r in heads && k !in decisions
    requires forall h | h in heads && heads[h].Some? :: heads[h].value in decisions
    ensures StatusOk(shifts[s := shifts[s].(status := if d.acked then Locked else NeedsCorrection)], heads[r := Some(k)], decisions[k := d])
  {
  }

  lemma AckHeads(t: Tables, t': Tables, s: Id, r: Id, k: Id, d: Decision)
    requires KeysOk(t) && HeadsOk(t.shifts, t.reports, t.heads, t.decisions) && StatusOk(t.shifts, t.heads, t.decisions)
    requires CurrentOk(t.shifts, t.reports)
    requires s in t.shifts && t.shifts[s].current == Some(r) && r in t.heads && r in t.reports && k == t.nextId
    requires SameButStatus(t.shifts, t'.shifts)
    requires t'.shifts == t.shifts[s := t.shifts[s].(status := if d.acked then Locked else NeedsCorrection)]
    requires t'.heads == t.heads[r := Some(k)] && t'.decisions == t.decisions[k := d] && d.report == r
    ensures HeadsOk(t'.shifts, t.reports, t'.heads, t'.decisions) && StatusOk(t'.shifts, t'.heads, t'.decisions)
  {
    hide StatusOk;
    assert k !in t.decisions;
    assert t.reports[r].shift == s;
    hide KeysOk;
    assert forall h | h in t.heads && t.heads[h].Some? :: t.heads[h].value in t.decisions;
    hide CurrentOk;
    StatusFollows(t.shifts, t.reports, t.heads, t.decisions, s, r, k, d);
    hide HeadsOk, SameButStatus;
    HeadIsSet(t.shifts, t'.shifts, t.reports, t.heads, t.decisions, s, r, k, d);
  }

  lemma AckDecisions(t: Tables, t': Tables, r: Id, k: Id, d: Decision)
    requires KeysOk(t) && DecisionsOk(t.reports, t.heads, t.decisions, t.superseded)
    requires SeparationOk(t.reports, t.children, t.decisions)
    requires r in t.heads && r in t.reports && r in t.children && t.heads[r].None? && k == t.nextId
    requires forall l | l in t.decisions :: t.decisions[l].report != r
    requires t'.heads == t.heads[r := Some(k)] && t'.decisions == t.decisions[k := d]
    requires d.report == r && d.version == t.reports[r].version && d.ackSeq == 1
    requires d.actor != t.reports[r].submittedBy && !CreatedRows(t.children[r], d.actor)
    ensures DecisionsOk(t.reports, t'.heads, t'.decisions, t.superseded)
    ensures SeparationOk(t.reports, t.children, t'.decisions)
  {
    hide CreatedRows;
  }

  lemma AckKeeps(t: Tables, q: AckRequest, now: Time, hash: SnapshotHash)
    requires Inv(t, hash) && Acknowledged(t, q, now).Success?
    ensures Inv(Acknowledged(t, q, now).value, hash)
  {
    hide KeysOk, ShiftsOk, DraftsOk, RevisionsOk, ReportsOk, CurrentOk, HeadsOk, StatusOk, DecisionsOk, SeparationOk,
      PendingOk, DigestsOk, AppliedOk, OriginOk, IdemOk, IdemKeysOk, ItemsOk, RowIdsOk, AckReasons;
    var t' := Acknowledged(t, q, now).value;
    AckKeys(t, q, t', now);
    NotDecidedYet(t, q);
    var d := t'.decisions[t.nextId];
    hide AckError, Acknowledged, AckSequences, CreatedRows;
    AckFrame(t, t', q.shift);
    AckHeads(t, t', q.shift, q.report, t.nextId, d);
    AckDecisions(t, t', q.report, t.nextId, d);
    StationsKept(t.shifts, t'.shifts, t.idem);
  }

  // ----- Submission -----

  lemma AddRowIds(t: Tables, t': Tables, r: Id)
    requires RowIdsOk(t.children) && r in t'.children && t'.children == t.children[r := t'.children[r]]
    requires RowIdsDistinct(t'.children[r])
    ensures RowIdsOk(t'.children)
  {
  }

  lemma NoCurrentWhileOpen(t: Tables, s: Id)
    requires CurrentOk(t.shifts, t.reports) && s in t.shifts && t.shifts[s].status == Open
    ensures t.shifts[s].current.None?
  {
  }

  lemma DecidedReports(t: Tables)
    requires DecisionsOk(t.reports, t.heads, t.decisions, t.superseded)
    ensures forall k | k in t.decisions :: t.decisions[k].report in t.reports
  {
  }

  lemma SubmitKeys(t: Tables, q: SubmitRequest, c: Children, now: Time)
    requires KeysOk(t) && q.shift in t.shifts && q.draft in t.drafts
    requires RevisionsOk(t.drafts, t.draftRows)
    ensures KeysOk(WithReport(t, q, t.nextId, c, now))
    ensures RevisionsOk(WithReport(t, q, t.nextId, c, now).drafts, t.draftRows)
  {
    assert KeysOk(WithReport(t, q, t.nextId, c, now)) by {
      hide RevisionsOk, SucceededRow, LossIds;
    }
    hide KeysOk, SucceededRow, LossIds;
  }

  lemma SubmitShifts(t: Tables, t': Tables, s: Id)
    requires ShiftsOk(t.shifts) && DraftsOk(t.shifts, t.drafts) && PendingOk(t.shifts, t.amendments)
    requires CurrentOk(t.shifts, t.reports)
    requires s in t.shifts && s in t'.shifts && t'.shifts == t.shifts[s := t'.shifts[s]] && IsActive(t.shifts[s].status)
    requires t.shifts[s].status == Open
    requires t'.shifts[s].station == t.shifts[s].station && t'.shifts[s].sequence == t.shifts[s].sequence
    requires t'.drafts.Keys == t.drafts.Keys
    requires forall d | d in t.drafts :: t'.drafts[d].shift == t.drafts[d].shift && t'.drafts[d].station == t.drafts[d].station
    ensures ShiftsOk(t'.shifts) && DraftsOk(t'.shifts, t'.drafts) && PendingOk(t'.shifts, t.amendments)
  {
  }

  lemma NoReportsWhileOpen(shifts: map<Id, Shift>, reports: map<Id, Report>, s: Id)
    requires CurrentOk(shifts, reports) && s in shifts && shifts[s].status == Open
    requires forall u | u in reports :: reports[u].shift in shifts
    ensures forall u | u in reports :: reports[u].shift != s
  {
  }

  /** A report that extends the versions of its shift by one. */
  lemma AddReport(shifts: map<Id, Shift>, shifts': map<Id, Shift>, reports: map<Id, Report>, r: Id, report: Report)
    requires ReportsOk(shifts, reports) && r !in reports && shifts'.Keys == shifts.Keys && report.shift in shifts
    requires forall u | u in reports && reports[u].shift == report.shift :: reports[u].version < report.version
    requires report.supersedes.None? <==> report.version == 1
    requires report.version >= 1
    requires report.supersedes.Some? ==>
               && report.supersedes.value in reports && reports[report.supersedes.value].shift == report.shift
               && reports[report.supersedes.value].version + 1 == report.version
    ensures ReportsOk(shifts', reports[r := report])
  {
  }

  /** Pointing a shift at its new latest version. */
  lemma MoveCurrent(shifts: map<Id, Shift>, shifts': map<Id, Shift>, reports: map<Id, Report>, s: Id, r: Id, report: Report)
    requires CurrentOk(shifts, reports) && r !in reports && report.shift == s
    requires forall u | u in reports :: reports[u].shift in shifts
    requires forall u | u in reports && reports[u].shift == s :: reports[u].version < report.version
    requires s in shifts && s in shifts' && shifts' == shifts[s := shifts'[s]]
    requires shifts'[s].current == Some(r) && shifts'[s].status != Open
    ensures CurrentOk(shifts', reports[r := report])
  {
  }

  lemma SubmitReports(shifts: map<Id, Shift>, shifts': map<Id, Shift>, reports: map<Id, Report>, s: Id, r: Id, report: Report)
    requires ReportsOk(shifts, reports) && CurrentOk(shifts, reports) && r !in reports
    requires s in shifts && shifts[s].status == Open && s in shifts' && shifts' == shifts[s := shifts'[s]]
    requires shifts'[s].current == Some(r) && shifts'[s].status != Open
    requires report.shift == s && report.version == 1 && report.supersedes.None?
    ensures ReportsOk(shifts', reports[r := report]) && CurrentOk(shifts', reports[r := report])
  {
    hide CurrentOk;
    assert forall u | u in reports :: reports[u].shift in shifts;
    hide ReportsOk;
    NoReportsWhileOpen(shifts, reports, s);
    AddReport(shifts, shifts', reports, r, report);
    MoveCurrent(shifts, shifts', reports, s, r, report);
  }

  lemma SubmitHeads(t: Tables, t': Tables, s: Id, r: Id)
    requires HeadsOk(t.shifts, t.reports, t.heads, t.decisions) && StatusOk(t.shifts, t.heads, t.decisions)
    requires CurrentOk(t.shifts, t.reports)
    requires s in t.shifts && t.shifts[s].current.None? && s in t'.shifts && t'.shifts == t.shifts[s := t'.shifts[s]]
    requires t'.shifts[s].current == Some(r) && t'.shifts[s].status == AwaitingConfirmation
    requires r !in t.heads && r !in t.reports && r in t'.reports
    requires t'.heads == t.heads[r := None] && t'.reports == t.reports[r := t'.reports[r]]
    ensures HeadsOk(t'.shifts, t'.reports, t'.heads, t.decisions) && StatusOk(t'.shifts, t'.heads, t.decisions)
  {
  }

  /** A new report without a head leaves what is recorded about decisions alone. */
  lemma ExtendDecisions(t: Tables, t': Tables, r: Id)
    requires DecisionsOk(t.reports, t.heads, t.decisions, t.superseded)
    requires r !in t.reports && r !in t.heads && r in t'.reports
    requires t'.reports == t.reports[r := t'.reports[r]] && t'.heads == t.heads[r := None]
    ensures DecisionsOk(t'.reports, t'.heads, t.decisions, t.superseded)
  {
  }

  lemma ExtendSeparation(t: Tables, t': Tables, r: Id)
    requires SeparationOk(t.reports, t.children, t.decisions)
    requires r !in t.reports && r !in t.children && r in t'.reports && r in t'.children
    requires forall k | k in t.decisions :: t.decisions[k].report in t.reports
    requires t'.reports == t.reports[r := t'.reports[r]] && t'.children == t.children[r := t'.children[r]]
    ensures SeparationOk(t'.reports, t'.children, t.decisions)
  {
    hide CreatedRows;
  }

  lemma ExtendDigests(t: Tables, t': Tables, amendments: map<Id, Amendment>, r: Id, hash: SnapshotHash)
    requires DigestsOk(t.reports, t.children, amendments, hash)
    requires r !in t.reports && r !in t.children && r in t'.reports && r in t'.children
    requires t'.reports == t.reports[r := t'.reports[r]] && t'.children == t.children[r := t'.children[r]]
    ensures DigestsOk(t'.reports, t'.children, amendments, hash)
  {
    hide SnapshotOf;
  }

  lemma ExtendApplied(t: Tables, t': Tables, r: Id)
    requires AppliedOk(t.reports, t.children, t.amendments)
    requires r !in t.reports && r !in t.children && r in t'.reports && r in t'.children
    requires t'.reports == t.reports[r := t'.reports[r]] && t'.children == t.children[r := t'.children[r]]
    ensures AppliedOk(t'.reports, t'.children, t.amendments)
  {
    hide CopiedChildren;
    forall a | a in t.amendments && t.amendments[a].status == Approved
      ensures IsApplied(t'.reports, t'.children, t.amendments[a])
    {
      assert IsApplied(t.reports, t.children, t.amendments[a]);
    }
  }

  /** A new report leaves what is recorded about the rows of the others alone. */
  lemma ExtendRows(t: Tables, t': Tables, r: Id, hash: SnapshotHash)
    requires SeparationOk(t.reports, t.children, t.decisions) && DigestsOk(t.reports, t.children, t.amendments, hash)
    requires AppliedOk(t.reports, t.children, t.amendments) && OriginOk(t.reports, t.amendments)
    requires r !in t.reports && r !in t.children && r in t'.reports && r in t'.children
    requires forall k | k in t.decisions :: t.decisions[k].report in t.reports
    requires t'.reports == t.reports[r := t'.reports[r]] && t'.children == t.children[r := t'.children[r]]
    requires t'.reports[r].supersedes.None?
    ensures SeparationOk(t'.reports, t'.children, t.decisions) && DigestsOk(t'.reports, t'.children, t.amendments, hash)
    ensures AppliedOk(t'.reports, t'.children, t.amendments) && OriginOk(t'.reports, t.amendments)
  {
    ExtendSeparation(t, t', r);
    ExtendDigests(t, t', t.amendments, r, hash);
    ExtendApplied(t, t', r);
    hide SeparationOk, DigestsOk, AppliedOk;
    forall u | u in t'.reports && t'.reports[u].supersedes.Some?
      ensures exists a :: a in t.amendments && t.amendments[a].status == Approved && t.amendments[a].applied == Some(u)
                          && t.amendments[a].base == t'.reports[u].supersedes.value
    {
      assert u in t.reports && t.reports[u] == t'.reports[u];
    }
  }

  lemma SubmitIdem(t: Tables, t': Tables, q: SubmitRequest, now: Time)
    requires IdemOk(t.reports, t.idem) && t.nextId !in t.reports && t.nextId in t'.reports
    requires t'.reports == t.reports[t.nextId := t'.reports[t.nextId]]
    requires t'.reports[t.nextId].shift == q.shift && t'.reports[t.nextId].version == 1
    requires t'.idem == t.idem[IdemKey(q.station, q.shift, q.key) := SucceededRow(t, q, t.nextId)]
    ensures IdemOk(t'.reports, t'.idem)
  {
  }

  lemma KeyAdded(shifts: map<Id, Shift>, idem: map<IdemKey, Idem>, k: IdemKey, row: Idem)
    requires IdemKeysOk(shifts, idem) && HoldsShift(shifts, k.station, k.shift)
    ensures IdemKeysOk(shifts, idem[k := row])
  {
  }

  lemma WithReportKeeps(t: Tables, q: SubmitRequest, c: Children, now: Time, hash: SnapshotHash)
    requires Inv(t, hash) && q.shift in t.shifts && q.draft in t.drafts && t.shifts[q.shift].status == Open
    requires RowIdsDistinct(c) && HoldsShift(t.shifts, q.station, q.shift)
    ensures Inv(WithReport(t, q, t.nextId, c, now), hash)
  {
    hide KeysOk, ShiftsOk, DraftsOk, RevisionsOk, ReportsOk, CurrentOk, HeadsOk, StatusOk, DecisionsOk, SeparationOk,
      PendingOk, DigestsOk, AppliedOk, OriginOk, IdemOk, IdemKeysOk, ItemsOk, RowIdsOk;
    var t' := WithReport(t, q, t.nextId, c, now);
    var s, r := q.shift, t.nextId;
    FreshKey(t, r);
    SubmitKeys(t, q, c, now);
    SubmitShifts(t, t', s);
    NoCurrentWhileOpen(t, s);
    DecidedReports(t);
    SubmitReports(t.shifts, t'.shifts, t.reports, s, r, t'.reports[r]);
    SubmitHeads(t, t', s, r);
    ExtendDecisions(t, t', r);
    ExtendRows(t, t', r, hash);
    SubmitIdem(t, t', q, now);
    StationsKept(t.shifts, t'.shifts, t.idem);
    KeyAdded(t'.shifts, t.idem, IdemKey(q.station, q.shift, q.key), SucceededRow(t, q, r));
    AddRowIds(t, t', r);
  }

  lemma {:induction false} PromotedLossIds(rows: seq<DraftLoss>, inputs: seq<InputLoss>, taken: set<Id>, firstId: Id)
    requires PromotedLosses(rows, inputs, taken, firstId).Success?
    ensures var losses := PromotedLosses(rows, inputs, taken, firstId).value;
            |losses| == |rows| && forall i | 0 <= i < |losses| :: losses[i].id == firstId + i
  {
    hide LossInputFor, LossIds;
    if rows != [] {
      PromotedLossIds(rows[..|rows| - 1], inputs, taken, firstId);
    }
  }

  lemma PromotedRowIds(t: Tables, q: SubmitRequest, threshold: string, firstId: Id)
    requires q.shift in t.shifts && q.draft in t.draftRows
    requires PromotedChildren(t, q, threshold, firstId).Success?
    ensures RowIdsDistinct(PromotedChildren(t, q, threshold, firstId).value)
  {
    hide PromotedReadings, CarriedReadings, PromotedEvidence, EvidenceValid, PromotedLosses;
    var rows := t.draftRows[q.draft];
    var readings := if t.shifts[q.shift].backfill.Some? then CarriedReadings(t, t.shifts[q.shift], t.shifts[q.shift].catalog, firstId)
                    else PromotedReadings(t, q.shift, t.shifts[q.shift], rows.readings, q.payload.value, q.policies, threshold, firstId);
    PromotedLossIds(rows.losses, q.payload.value.losses, t.lossIds, firstId + |readings.value| + |rows.sales|);
  }

  lemma SubmitKeeps(t: Tables, q: SubmitRequest, now: Time, hash: SnapshotHash)
    requires Inv(t, hash) && Submitted(t, q, now).Success?
    ensures Inv(Submitted(t, q, now).value, hash)
  {
    hide KeysOk, ShiftsOk, DraftsOk, RevisionsOk, ReportsOk, CurrentOk, HeadsOk, StatusOk, DecisionsOk, SeparationOk,
      PendingOk, DigestsOk, AppliedOk, OriginOk, IdemOk, IdemKeysOk, ItemsOk, RowIdsOk, PromotedChildren;
    if CheckIdempotency(t, q, now).Proceed? {
      var report := t.nextId;
      var children := PromotedChildren(t, q, q.policies.threshold.value, report + 1).value;
      PromotedRowIds(t, q, q.policies.threshold.value, report + 1);
      hide CheckIdempotency, Holds;
      WithReportKeeps(t, q, children, now, hash);
    }
  }

  lemma MarkIdem(shifts: map<Id, Shift>, reports: map<Id, Report>, idem: map<IdemKey, Idem>, k: IdemKey, requestHash: Digest)
    requires IdemOk(reports, idem) && IdemKeysOk(shifts, idem)
    requires k !in idem ==> HoldsShift(shifts, k.station, k.shift)
    ensures IdemOk(reports, MarkedRows(idem, k, requestHash)) && IdemKeysOk(shifts, MarkedRows(idem, k, requestHash))
  {
  }

  lemma MarkKeys(t: Tables, t': Tables)
    requires KeysOk(t) && t' == t.(idem := t'.idem)
    ensures KeysOk(t')
  {
  }

  lemma MarkKeeps(t: Tables, k: IdemKey, requestHash: Digest, hash: SnapshotHash)
    requires Inv(t, hash) && MarkedFailed(t, k, requestHash).Success?
    ensures Inv(MarkedFailed(t, k, requestHash).value, hash)
  {
    hide KeysOk, ShiftsOk, DraftsOk, RevisionsOk, ReportsOk, CurrentOk, HeadsOk, StatusOk, DecisionsOk, SeparationOk,
      PendingOk, DigestsOk, AppliedOk, OriginOk, IdemOk, IdemKeysOk, ItemsOk, RowIdsOk, MarkedRows;
    MarkIdem(t.shifts, t.reports, t.idem, k, requestHash);
    MarkKeys(t, MarkedFailed(t, k, requestHash).value);
  }

  lemma LeaveIdem(reports: map<Id, Report>, idem: map<IdemKey, Idem>, k: IdemKey, row: Idem)
    requires IdemOk(reports, idem) && row.status == InProgress
    ensures IdemOk(reports, idem[k := row])
  {
  }

  lemma LeaveKeeps(t: Tables, k: IdemKey, row: Idem, hash: SnapshotHash)
    requires Inv(t, hash) && LeftInProgress(t, k, row).Success?
    ensures Inv(LeftInProgress(t, k, row).value, hash)
  {
    hide KeysOk, ShiftsOk, DraftsOk, RevisionsOk, ReportsOk, CurrentOk, HeadsOk, StatusOk, DecisionsOk, SeparationOk,
      PendingOk, DigestsOk, AppliedOk, OriginOk, IdemOk, IdemKeysOk, ItemsOk, RowIdsOk;
    KeyAdded(t.shifts, t.idem, k, row);
    LeaveIdem(t.reports, t.idem, k, row);
    MarkKeys(t, LeftInProgress(t, k, row).value);
  }

  // ----- Amendments -----

  lemma RequestKeys(t: Tables, t': Tables)
    requires KeysOk(t) && t.nextId in t'.amendments
    requires t' == t.(nextId := t.nextId + 1, amendments := t.amendments[t.nextId := t'.amendments[t.nextId]])
    ensures KeysOk(t')
  {
  }

  /** Origins survive as long as every approved amendment does. */
  lemma OriginKept(reports: map<Id, Report>, amendments: map<Id, Amendment>, amendments': map<Id, Amendment>)
    requires OriginOk(reports, amendments)
    requires forall a | a in amendments && amendments[a].status == Approved :: a in amendments' && amendments'[a] == amendments[a]
    ensures OriginOk(reports, amendments')
  {
    forall r | r in reports && reports[r].supersedes.Some?
      ensures exists a :: a in amendments' && amendments'[a].status == Approved && amendments'[a].applied == Some(r)
                          && amendments'[a].base == reports[r].supersedes.value
    {
      var a :| a in amendments && amendments[a].status == Approved && amendments[a].applied == Some(r)
               && amendments[a].base == reports[r].supersedes.value;
      assert amendments'[a] == amendments[a];
    }
  }

  lemma RequestRows(t: Tables, t': Tables, a: Amendment, hash: SnapshotHash)
    requires PendingOk(t.shifts, t.amendments) && DigestsOk(t.reports, t.children, t.amendments, hash)
    requires AppliedOk(t.reports, t.children, t.amendments) && OriginOk(t.reports, t.amendments)
    requires t.nextId !in t.amendments && t'.amendments == t.amendments[t.nextId := a]
    requires a.shift in t.shifts && t.shifts[a.shift].current == Some(a.base) && a.status == Pending
    requires a.base in t.reports && t.reports[a.base].shift == a.shift && a.base in t.children
    requires !HasPending(t.amendments, a.base)
    requires a.digest == hash(SnapshotOf(a.base, t.reports[a.base].version, t.children[a.base]))
    ensures PendingOk(t.shifts, t'.amendments) && DigestsOk(t.reports, t.children, t'.amendments, hash)
    ensures AppliedOk(t.reports, t.children, t'.amendments) && OriginOk(t.reports, t'.amendments)
  {
    hide SnapshotOf, IsApplied;
    assert PendingOk(t.shifts, t'.amendments) by {
      hide DigestsOk, AppliedOk, OriginOk;
    }
    hide PendingOk, HasPending;
    OriginKept(t.reports, t.amendments, t'.amendments);
    hide OriginOk;
  }

  lemma KeepItems(t: Tables, t': Tables, k: Id)
    requires ItemsOk(t.amendments) && k in t'.amendments && t'.amendments == t.amendments[k := t'.amendments[k]]
    requires ItemsDistinct(t'.amendments[k].items)
    ensures ItemsOk(t'.amendments)
  {
    hide ItemsDistinct;
  }

  lemma RequestKeeps(t: Tables, q: AmendRequest, hash: SnapshotHash)
    requires Inv(t, hash) && AmendmentRequested(t, q, hash).Success?
    ensures Inv(AmendmentRequested(t, q, hash).value, hash)
  {
    hide KeysOk, ShiftsOk, DraftsOk, RevisionsOk, ReportsOk, CurrentOk, HeadsOk, StatusOk, DecisionsOk, SeparationOk,
      PendingOk, DigestsOk, AppliedOk, OriginOk, IdemOk, IdemKeysOk, ItemsOk, RowIdsOk, ItemAllowed, ItemsDistinct, SnapshotOf;
    var t' := AmendmentRequested(t, q, hash).value;
    FreshKey(t, t.nextId);
    RequestKeys(t, t');
    RequestRows(t, t', t'.amendments[t.nextId], hash);
    KeepItems(t, t', t.nextId);
  }

  lemma RejectApplied(reports: map<Id, Report>, children: map<Id, Children>, amendments: map<Id, Amendment>, k: Id, approver: Option<User>)
    requires AppliedOk(reports, children, amendments) && k in amendments
    ensures AppliedOk(reports, children, amendments[k := amendments[k].(status := Rejected, approver := approver)])
  {
    hide IsApplied;
  }

  lemma RejectDigests(reports: map<Id, Report>, children: map<Id, Children>, amendments: map<Id, Amendment>, k: Id,
                      approver: Option<User>, hash: SnapshotHash)
    requires DigestsOk(reports, children, amendments, hash) && k in amendments
    ensures DigestsOk(reports, children, amendments[k := amendments[k].(status := Rejected, approver := approver)], hash)
  {
    hide SnapshotOf;
  }

  lemma RejectPending(shifts: map<Id, Shift>, amendments: map<Id, Amendment>, k: Id, approver: Option<User>)
    requires PendingOk(shifts, amendments) && k in amendments
    ensures PendingOk(shifts, amendments[k := amendments[k].(status := Rejected, approver := approver)])
  {
  }

  lemma RejectRows(t: Tables, t': Tables, k: Id, hash: SnapshotHash)
    requires KeysOk(t) && PendingOk(t.shifts, t.amendments) && DigestsOk(t.reports, t.children, t.amendments, hash)
    requires AppliedOk(t.reports, t.children, t.amendments) && OriginOk(t.reports, t.amendments)
    requires k in t.amendments && k in t'.amendments && t.amendments[k].status == Pending
    requires t' == t.(amendments := t.amendments[k := t.amendments[k].(status := Rejected, approver := t'.amendments[k].approver)])
    ensures KeysOk(t') && PendingOk(t.shifts, t'.amendments) && DigestsOk(t.reports, t.children, t'.amendments, hash)
    ensures AppliedOk(t.reports, t.children, t'.amendments) && OriginOk(t.reports, t'.amendments)
  {
    hide IsApplied, DigestsOk, AppliedOk, PendingOk;
    OriginKept(t.reports, t.amendments, t'.amendments);
    hide OriginOk;
    var approver := t'.amendments[k].approver;
    RejectPending(t.shifts, t.amendments, k, approver);
    RejectDigests(t.reports, t.children, t.amendments, k, approver, hash);
    RejectApplied(t.reports, t.children, t.amendments, k, approver);
  }

  lemma ItemsOf(t: Tables, k: Id)
    requires ItemsOk(t.amendments) && k in t.amendments
    ensures ItemsDistinct(t.amendments[k].items)
  {
  }

  lemma RejectKeeps(t: Tables, station: Station, amendment: Id, approver: User, role: Role, reason: string, hash: SnapshotHash)
    requires Inv(t, hash) && AmendmentRejected(t, station, amendment, approver, role, reason).Success?
    ensures Inv(AmendmentRejected(t, station, amendment, approver, role, reason).value, hash)
  {
    hide KeysOk, ShiftsOk, DraftsOk, RevisionsOk, ReportsOk, CurrentOk, HeadsOk, StatusOk, DecisionsOk, SeparationOk,
      PendingOk, DigestsOk, AppliedOk, OriginOk, IdemOk, IdemKeysOk, ItemsOk, RowIdsOk;
    var t' := AmendmentRejected(t, station, amendment, approver, role, reason).value;
    RejectRows(t, t', amendment, hash);
    ItemsOf(t, amendment);
    KeepItems(t, t', amendment);
  }

  /** What the guards of an approval establish. */
  ghost predicate ApprovalReady(t: Tables, a: Amendment, approver: User) {
    && a.status == Pending
    && (a.requester == approver ==> a.breakGlass)
    && a.shift in t.shifts && t.shifts[a.shift].station == a.station
    && t.shifts[a.shift].current == Some(a.base)
    && a.base in t.reports && t.reports[a.base].shift == a.shift
    && a.base in t.children && a.base in t.heads
    && StationIsFree(t.shifts, a.station, a.shift)
  }

  lemma ApproveFacts(t: Tables, q: ApproveRequest, hash: SnapshotHash, now: Time)
    requires AmendmentApproved(t, q, hash, now).Success?
    ensures q.amendment in t.amendments && ApprovalReady(t, t.amendments[q.amendment], q.approver)
  {
    hide SnapshotOf, CopiedChildren, ItemsError;
  }

  lemma {:induction false} CopiedSaleIds(sales: seq<Sale>, items: seq<Item>, firstId: Id)
    requires CopiedSales(sales, items, firstId).Success?
    ensures var copies := CopiedSales(sales, items, firstId).value;
            |copies| == |sales| && forall i | 0 <= i < |copies| :: copies[i].id == firstId + i
  {
    hide AmendedSale, SaleFits;
    if sales != [] {
      CopiedSaleIds(sales[..|sales| - 1], items, firstId);
    }
  }

  lemma {:induction false} CopiedLossIds(losses: seq<Loss>, items: seq<Item>, version: nat, firstId: Id)
    requires CopiedLosses(losses, items, version, firstId).Success?
    ensures var copies := CopiedLosses(losses, items, version, firstId).value;
            |copies| == |losses| && forall i | 0 <= i < |copies| :: copies[i].id == firstId + i
  {
    hide AmendedLoss, LossFits;
    if losses != [] {
      CopiedLossIds(losses[..|losses| - 1], items, version, firstId);
    }
  }

  lemma CopiedRowIds(c: Children, items: seq<Item>, version: nat, firstId: Id)
    requires CopiedChildren(c, items, version, firstId).Success?
    ensures RowIdsDistinct(CopiedChildren(c, items, version, firstId).value)
  {
    hide CopiedSales, CopiedLosses;
    CopiedSaleIds(c.sales, items, firstId + |c.readings|);
    CopiedLossIds(c.losses, items, version, firstId + |c.readings| + |c.sales|);
  }

  lemma VersionKeys(t: Tables, k: Id, approver: User, c: Children)
    requires KeysOk(t) && k in t.amendments && ApprovalReady(t, t.amendments[k], approver)
    ensures KeysOk(WithVersion(t, k, approver, c))
  {
    hide StationIsFree;
  }

  lemma VersionShifts(t: Tables, t': Tables, s: Id)
    requires ShiftsOk(t.shifts) && DraftsOk(t.shifts, t.drafts)
    requires s in t.shifts && s in t'.shifts && t'.shifts == t.shifts[s := t'.shifts[s]]
    requires StationIsFree(t.shifts, t.shifts[s].station, s)
    requires t'.shifts[s].station == t.shifts[s].station && t'.shifts[s].sequence == t.shifts[s].sequence
    ensures ShiftsOk(t'.shifts) && DraftsOk(t'.shifts, t.drafts)
  {
  }

  lemma LatestVersion(shifts: map<Id, Shift>, reports: map<Id, Report>, s: Id, b: Id)
    requires CurrentOk(shifts, reports) && s in shifts && shifts[s].current == Some(b) && b in reports
    ensures forall u | u in reports && reports[u].shift == s :: reports[u].version <= reports[b].version
  {
  }

  lemma VersionReports(shifts: map<Id, Shift>, shifts': map<Id, Shift>, reports: map<Id, Report>, s: Id, b: Id, r: Id, report: Report)
    requires ReportsOk(shifts, reports) && CurrentOk(shifts, reports) && r !in reports
    requires s in shifts && shifts[s].current == Some(b) && b in reports && reports[b].shift == s
    requires s in shifts' && shifts' == shifts[s := shifts'[s]] && shifts'[s].current == Some(r) && shifts'[s].status != Open
    requires report.shift == s && report.version == reports[b].version + 1 && report.supersedes == Some(b)
    ensures ReportsOk(shifts', reports[r := report]) && CurrentOk(shifts', reports[r := report])
  {
    LatestVersion(shifts, reports, s, b);
    hide CurrentOk;
    assert forall u | u in reports :: reports[u].shift in shifts;
    assert reports[b].version >= 1;
    hide ReportsOk;
    AddReport(shifts, shifts', reports, r, report);
    MoveCurrent(shifts, shifts', reports, s, r, report);
  }

  lemma VersionHeads(t: Tables, t': Tables, s: Id, b: Id, r: Id)
    requires HeadsOk(t.shifts, t.reports, t.heads, t.decisions) && StatusOk(t.shifts, t.heads, t.decisions)
    requires CurrentOk(t.shifts, t.reports)
    requires s in t.shifts && t.shifts[s].current == Some(b) && s in t'.shifts && t'.shifts == t.shifts[s := t'.shifts[s]]
    requires t'.shifts[s].current == Some(r) && t'.shifts[s].status == AwaitingConfirmation
    requires r !in t.heads && r !in t.reports && r in t'.reports && b in t.heads && b in t.reports && t.reports[b].shift == s
    requires t'.heads == t.heads[r := None][b := None] && t'.reports == t.reports[r := t'.reports[r]]
    ensures HeadsOk(t'.shifts, t'.reports, t'.heads, t.decisions) && StatusOk(t'.shifts, t'.heads, t.decisions)
  {
    assert HeadsOk(t'.shifts, t'.reports, t'.heads, t.decisions) by {
      hide StatusOk, CurrentOk;
    }
    hide HeadsOk;
  }

  lemma VersionDecisions(t: Tables, t': Tables, b: Id, r: Id)
    requires DecisionsOk(t.reports, t.heads, t.decisions, t.superseded)
    requires HeadsOk(t.shifts, t.reports, t.heads, t.decisions)
    requires r !in t.reports && r !in t.heads && b in t.reports && b in t.heads
    requires r in t'.reports && t'.reports == t.reports[r := t'.reports[r]] && t'.reports[r].supersedes == Some(b)
    requires t'.heads == t.heads[r := None][b := None]
    requires t'.superseded == if t.heads[b].Some? then t.superseded[t.heads[b].value := Supersession(b, r)] else t.superseded
    ensures DecisionsOk(t'.reports, t'.heads, t.decisions, t'.superseded)
  {
  }

  lemma VersionPending(t: Tables, t': Tables, k: Id, r: Id)
    requires PendingOk(t.shifts, t.amendments) && k in t.amendments && k in t'.amendments && t.amendments[k].status == Pending
    requires t'.amendments == t.amendments[k := t'.amendments[k]] && t'.amendments[k].status == Approved
    requires t.amendments[k].shift in t'.shifts
    requires t'.shifts == t.shifts[t.amendments[k].shift := t'.shifts[t.amendments[k].shift]]
    ensures PendingOk(t'.shifts, t'.amendments)
  {
  }

  lemma VersionAmendments(t: Tables, t': Tables, k: Id, r: Id, hash: SnapshotHash)
    requires DigestsOk(t'.reports, t'.children, t.amendments, hash) && AppliedOk(t'.reports, t'.children, t.amendments)
    requires OriginOk(t.reports, t.amendments)
    requires k in t.amendments && t.amendments[k].status == Pending && k in t'.amendments
    requires t'.amendments == t.amendments[k := t'.amendments[k]] && t'.amendments[k].status == Approved
    requires t'.amendments[k].base == t.amendments[k].base && t'.amendments[k].shift == t.amendments[k].shift
    requires t'.amendments[k].digest == t.amendments[k].digest && t'.amendments[k].applied == Some(r)
    requires t'.amendments[k].approver.Some?
    requires t'.amendments[k].approver.value == t'.amendments[k].requester ==> t'.amendments[k].breakGlass
    requires IsApplied(t'.reports, t'.children, t'.amendments[k])
    requires r !in t.reports && r in t'.reports && t'.reports == t.reports[r := t'.reports[r]]
    requires t'.reports[r].supersedes == Some(t.amendments[k].base)
    ensures DigestsOk(t'.reports, t'.children, t'.amendments, hash) && AppliedOk(t'.reports, t'.children, t'.amendments)
    ensures OriginOk(t'.reports, t'.amendments)
  {
    hide SnapshotOf, IsApplied;
    OriginKept(t.reports, t.amendments, t'.amendments);
    assert OriginOk(t'.reports, t'.amendments) by {
      hide DigestsOk, AppliedOk;
    }
    hide OriginOk;
  }

  lemma VersionIdem(t: Tables, t': Tables, r: Id)
    requires IdemOk(t.reports, t.idem) && r !in t.reports && r in t'.reports && t'.reports == t.reports[r := t'.reports[r]]
    ensures IdemOk(t'.reports, t.idem)
  {
  }

  lemma WithVersionKeeps(t: Tables, k: Id, approver: User, c: Children, hash: SnapshotHash)
    requires Inv(t, hash) && k in t.amendments && ApprovalReady(t, t.amendments[k], approver)
    requires CopiedChildren(t.children[t.amendments[k].base], t.amendments[k].items,
                            t.reports[t.amendments[k].base].version + 1, t.nextId + 1) == Success(c)
    ensures Inv(WithVersion(t, k, approver, c), hash)
  {
    hide KeysOk, ShiftsOk, DraftsOk, RevisionsOk, ReportsOk, CurrentOk, HeadsOk, StatusOk, DecisionsOk, SeparationOk,
      PendingOk, DigestsOk, AppliedOk, OriginOk, IdemOk, IdemKeysOk, ItemsOk, RowIdsOk, CopiedChildren, StationIsFree;
    var t' := WithVersion(t, k, approver, c);
    var a, r := t.amendments[k], t.nextId;
    FreshKey(t, r);
    DecidedReports(t);
    ItemsOf(t, k);
    VersionKeys(t, k, approver, c);
    VersionShifts(t, t', a.shift);
    VersionReports(t.shifts, t'.shifts, t.reports, a.shift, a.base, r, t'.reports[r]);
    VersionHeads(t, t', a.shift, a.base, r);
    VersionDecisions(t, t', a.base, r);
    VersionPending(t, t', k, r);
    ExtendSeparation(t, t', r);
    ExtendDigests(t, t', t.amendments, r, hash);
    ExtendApplied(t, t', r);
    VersionAmendments(t, t', k, r, hash);
    VersionIdem(t, t', r);
    StationsKept(t.shifts, t'.shifts, t.idem);
    CopiedRowIds(t.children[a.base], a.items, t.reports[a.base].version + 1, r + 1);
    AddRowIds(t, t', r);
    KeepItems(t, t', k);
  }

  lemma ApproveKeeps(t: Tables, q: ApproveRequest, hash: SnapshotHash, now: Time)
    requires Inv(t, hash) && AmendmentApproved(t, q, hash, now).Success?
    ensures Inv(AmendmentApproved(t, q, hash, now).value, hash)
  {
    hide KeysOk, ShiftsOk, DraftsOk, RevisionsOk, ReportsOk, CurrentOk, HeadsOk, StatusOk, DecisionsOk, SeparationOk,
      PendingOk, DigestsOk, AppliedOk, OriginOk, IdemOk, IdemKeysOk, ItemsOk, RowIdsOk, SnapshotOf, CopiedChildren, ItemsError, StationIsFree;
    var a := t.amendments[q.amendment];
    var c := CopiedChildren(t.children[a.base], a.items, t.reports[a.base].version + 1, t.nextId + 1).value;
    hide ApproveError;
    ApproveFacts(t, q, hash, now);
    WithVersionKeeps(t, q.amendment, q.approver, c, hash);
  }
}
