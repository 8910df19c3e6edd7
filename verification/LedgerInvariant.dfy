/** What every reachable state of the ledger satisfies. */
module LedgerInvariant {
  import opened Wrappers
  import opened LedgerTables
  import opened GovernanceSteps

  /** Keys and tokens were all generated, and the parallel tables have the same keys. */
  ghost predicate KeysOk(t: Tables) {
    && t.nextId > 0
    && (forall k | k in t.shifts :: 0 < k < t.nextId)
    && (forall k | k in t.drafts :: k < t.nextId)
    && (forall k | k in t.reports :: k < t.nextId)
    && (forall k | k in t.decisions :: k < t.nextId)
    && (forall k | k in t.amendments :: k < t.nextId)
    && (forall k | k in t.drafts && t.drafts[k].token.Some? :: t.drafts[k].token.value < t.nextId)
    && t.draftRows.Keys == t.drafts.Keys
    && t.children.Keys == t.reports.Keys
    && t.heads.Keys == t.reports.Keys
  }

  /** One active shift for each station, and one shift for each sequence number. */
  ghost predicate ShiftsOk(shifts: map<Id, Shift>) {
    && (forall s | s in shifts :: shifts[s].sequence > 0)
    && (forall s, u | s in shifts && u in shifts && shifts[s].station == shifts[u].station ::
          && (IsActive(shifts[s].status) && IsActive(shifts[u].status) ==> s == u)
          && (shifts[s].sequence == shifts[u].sequence ==> s == u))
  }

  /** One draft for each shift, at its shift's station. */
  ghost predicate DraftsOk(shifts: map<Id, Shift>, drafts: map<Id, Draft>) {
    && (forall d | d in drafts :: drafts[d].shift in shifts && shifts[drafts[d].shift].station == drafts[d].station)
    && (forall d, e | d in drafts && e in drafts :: drafts[d].shift == drafts[e].shift ==> d == e)
  }

  /** The revision counts the draft's rows, starting from one. */
  ghost predicate RevisionsOk(drafts: map<Id, Draft>, rows: map<Id, DraftRows>) {
    forall d | d in drafts && d in rows :: drafts[d].revision == 1 + rows[d].Count()
  }

  /** Versions count up along the supersedes chain, and no version occurs twice. */
  ghost predicate ReportsOk(shifts: map<Id, Shift>, reports: map<Id, Report>) {
    && (forall r | r in reports ::
          && reports[r].shift in shifts
          && reports[r].version >= 1
          && (reports[r].supersedes.None? <==> reports[r].version == 1)
          && (reports[r].supersedes.Some? ==>
                && reports[r].supersedes.value in reports
                && reports[reports[r].supersedes.value].shift == reports[r].shift
                && reports[reports[r].supersedes.value].version + 1 == reports[r].version))
    && (forall r, u | r in reports && u in reports ::
          reports[r].shift == reports[u].shift && reports[r].version == reports[u].version ==> r == u)
  }

  /** A shift is open exactly while it has no report; its current report is its latest version. */
  ghost predicate CurrentOk(shifts: map<Id, Shift>, reports: map<Id, Report>) {
    && (forall s | s in shifts ::
          && (shifts[s].status == Open <==> shifts[s].current.None?)
          && (shifts[s].current.Some? ==>
                shifts[s].current.value in reports && reports[shifts[s].current.value].shift == s))
    && (forall r | r in reports && reports[r].shift in shifts ::
          && shifts[reports[r].shift].current.Some?
          && (shifts[reports[r].shift].current.value in reports ==>
                reports[r].version <= reports[shifts[reports[r].shift].current.value].version))
  }

  /** A head is set only on a current report, by a decision on that report. */
  ghost predicate HeadsOk(shifts: map<Id, Shift>, reports: map<Id, Report>, heads: map<Id, Option<Id>>, decisions: map<Id, Decision>) {
    forall r | r in heads && heads[r].Some? ::
      && heads[r].value in decisions && decisions[heads[r].value].report == r
      && r in reports && reports[r].shift in shifts
      && shifts[reports[r].shift].current == Some(r)
  }

  function StatusOf(head: Option<Id>, decisions: map<Id, Decision>): ShiftStatus {
    if head.None? || head.value !in decisions then AwaitingConfirmation
    else if decisions[head.value].acked then Locked
    else NeedsCorrection
  }

  /** The shift's status says what the head of its current report says. */
  ghost predicate StatusOk(shifts: map<Id, Shift>, heads: map<Id, Option<Id>>, decisions: map<Id, Decision>) {
    forall s | s in shifts && shifts[s].current.Some? && shifts[s].current.value in heads ::
      shifts[s].status == StatusOf(heads[shifts[s].current.value], decisions)
  }

  /** One decision for each version; it is in force or it was superseded, never both. */
  ghost predicate DecisionsOk(reports: map<Id, Report>, heads: map<Id, Option<Id>>, decisions: map<Id, Decision>,
                              superseded: map<Id, Supersession>)
  {
    && (forall k | k in decisions ::
          && decisions[k].report in reports && decisions[k].report in heads
          && decisions[k].version == reports[decisions[k].report].version
          && decisions[k].ackSeq == 1
          && (k in superseded <==> heads[decisions[k].report] != Some(k)))
    && (forall k, l | k in decisions && l in decisions :: decisions[k].report == decisions[l].report ==> k == l)
    && (forall k | k in superseded ::
          && k in decisions && superseded[k].report == decisions[k].report
          && superseded[k].replacement in reports
          && reports[superseded[k].replacement].supersedes == Some(superseded[k].report))
  }

  /** No decision by whoever submitted the version or entered its sales or losses. */
  ghost predicate SeparationOk(reports: map<Id, Report>, children: map<Id, Children>, decisions: map<Id, Decision>) {
    forall k | k in decisions && decisions[k].report in reports && decisions[k].report in children ::
      && decisions[k].actor != reports[decisions[k].report].submittedBy
      && !CreatedRows(children[decisions[k].report], decisions[k].actor)
  }

  /** A pending amendment is the only one of its base, which is still the current report. */
  ghost predicate PendingOk(shifts: map<Id, Shift>, amendments: map<Id, Amendment>) {
    && (forall a | a in amendments && amendments[a].status == Pending ::
          amendments[a].shift in shifts && shifts[amendments[a].shift].current == Some(amendments[a].base))
    && (forall a, b | a in amendments && b in amendments && amendments[a].status == Pending && amendments[b].status == Pending ::
          amendments[a].base == amendments[b].base ==> a == b)
  }

  /** An amendment keeps the digest of its base, whose rows never change. */
  ghost predicate DigestsOk(reports: map<Id, Report>, children: map<Id, Children>, amendments: map<Id, Amendment>, hash: SnapshotHash) {
    forall a | a in amendments ::
      && amendments[a].base in reports && amendments[a].base in children
      && amendments[a].shift == reports[amendments[a].base].shift
      && amendments[a].digest == hash(SnapshotOf(amendments[a].base, reports[amendments[a].base].version, children[amendments[a].base]))
  }

  ghost predicate IsApplied(reports: map<Id, Report>, children: map<Id, Children>, a: Amendment) {
    && a.approver.Some? && a.applied.Some?
    && a.applied.value in reports && a.applied.value in children
    && a.base in reports && a.base in children
    && reports[a.applied.value] == Report(a.shift, reports[a.base].version + 1, Some(a.base), a.approver.value)
    && CopiedChildren(children[a.base], a.items, reports[a.base].version + 1, a.applied.value + 1)
       == Success(children[a.applied.value])
  }

  /** An approved amendment produced the report that supersedes its base. */
  ghost predicate AppliedOk(reports: map<Id, Report>, children: map<Id, Children>, amendments: map<Id, Amendment>) {
    forall a | a in amendments && amendments[a].status == Approved ::
      && amendments[a].approver.Some?
      && (amendments[a].approver.value == amendments[a].requester ==> amendments[a].breakGlass)
      && IsApplied(reports, children, amendments[a])
  }

  /** Every later version came from an approved amendment. */
  ghost predicate OriginOk(reports: map<Id, Report>, amendments: map<Id, Amendment>) {
    forall r | r in reports && reports[r].supersedes.Some? ::
      exists a :: a in amendments && amendments[a].status == Approved && amendments[a].applied == Some(r)
                  && amendments[a].base == reports[r].supersedes.value
  }

  /** A succeeded row names a first version of its shift. */
  ghost predicate IdemOk(reports: map<Id, Report>, idem: map<IdemKey, Idem>) {
    forall k | k in idem && idem[k].status == Succeeded ::
      && idem[k].result.Some? && idem[k].result.value in reports
      && reports[idem[k].result.value].shift == k.shift
      && reports[idem[k].result.value].version == 1
  }

  /** The foreign key of the idempotency table: every row's station has its shift. */
  ghost predicate IdemKeysOk(shifts: map<Id, Shift>, idem: map<IdemKey, Idem>) {
    forall k | k in idem :: k.shift in shifts && shifts[k.shift].station == k.station
  }

  /** No amendment names a field twice. */
  ghost predicate ItemsOk(amendments: map<Id, Amendment>) {
    forall a | a in amendments :: ItemsDistinct(amendments[a].items)
  }

  ghost predicate RowIdsDistinct(c: Children) {
    && (forall i, j | 0 <= i < j < |c.sales| :: c.sales[i].id != c.sales[j].id)
    && (forall i, j | 0 <= i < j < |c.losses| :: c.losses[i].id != c.losses[j].id)
  }

  /** The rows of a report have identifiers of their own. */
  ghost predicate RowIdsOk(children: map<Id, Children>) {
    forall r | r in children :: RowIdsDistinct(children[r])
  }

  ghost predicate Inv(t: Tables, hash: SnapshotHash) {
    && KeysOk(t)
    && ShiftsOk(t.shifts)
    && DraftsOk(t.shifts, t.drafts)
    && RevisionsOk(t.drafts, t.draftRows)
    && ReportsOk(t.shifts, t.reports)
    && CurrentOk(t.shifts, t.reports)
    && HeadsOk(t.shifts, t.reports, t.heads, t.decisions)
    && StatusOk(t.shifts, t.heads, t.decisions)
    && DecisionsOk(t.reports, t.heads, t.decisions, t.superseded)
    && SeparationOk(t.reports, t.children, t.decisions)
    && PendingOk(t.shifts, t.amendments)
    && DigestsOk(t.reports, t.children, t.amendments, hash)
    && AppliedOk(t.reports, t.children, t.amendments)
    && OriginOk(t.reports, t.amendments)
    && IdemOk(t.reports, t.idem)
    && IdemKeysOk(t.shifts, t.idem)
    && ItemsOk(t.amendments)
    && RowIdsOk(t.children)
  }

  // ----- Reading the invariant -----

  lemma KeysOfInv(t: Tables, hash: SnapshotHash)
    requires Inv(t, hash)
    ensures KeysOk(t)
  {
    hide KeysOk, ShiftsOk, DraftsOk, RevisionsOk, ReportsOk, CurrentOk, HeadsOk, StatusOk, DecisionsOk, SeparationOk,
      PendingOk, DigestsOk, AppliedOk, OriginOk, IdemOk, IdemKeysOk, ItemsOk, RowIdsOk;
  }

  lemma RowsOfInv(t: Tables, hash: SnapshotHash)
    requires Inv(t, hash)
    ensures IdemOk(t.reports, t.idem) && IdemKeysOk(t.shifts, t.idem)
  {
    hide KeysOk, ShiftsOk, DraftsOk, RevisionsOk, ReportsOk, CurrentOk, HeadsOk, StatusOk, DecisionsOk, SeparationOk,
      PendingOk, DigestsOk, AppliedOk, OriginOk, IdemOk, IdemKeysOk, ItemsOk, RowIdsOk;
  }

  /** A shift has one report of each version. */
  lemma SameVersion(shifts: map<Id, Shift>, reports: map<Id, Report>, r: Id, u: Id)
    requires ReportsOk(shifts, reports) && r in reports && u in reports
    requires reports[r].shift == reports[u].shift && reports[r].version == reports[u].version
    ensures r == u
  {
  }
}
