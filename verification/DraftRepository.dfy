/** Opening shifts and working on drafts, as transactions on the shared database. */
module DraftRepository {
  import opened Wrappers
  import opened TextTrim
  import opened LedgerTables
  import opened LedgerDatabase
  import opened DraftSteps

  datatype ClaimResult = ClaimResult(draft: Id, token: Id, expires: Time, revision: nat)

  datatype OpenedShift = OpenedShift(shift: Id, sequence: nat)

  class Shifts {
    const db: Database

    constructor (db: Database)
      ensures this.db == db
    {
      this.db := db;
    }

    /** A backfilled shift needs a day, an approval and no later shift that was chained; any other shift names none of these. */
    method CheckBackfill(tx: Tables, request: OpenRequest) returns (error: Option<Error>)
      ensures error == BackfillError(tx, request)
      ensures error.None? && request.backfilled ==> request.eventDate.OnDay?
    {
      hide TrimSpace;
      if request.backfilled {
        if !request.eventDate.OnDay? || request.approver == 0 || request.ordinal < 1 || TrimSpace(request.reason) == "" {
          return Some(BackfillApprovalRequired);
        }
        var approverCount := 0;
        if Grant(request.station, request.approver, Owner) in tx.grants {
          approverCount := approverCount + 1;
        }
        if Grant(request.station, request.approver, Superadmin) in tx.grants {
          approverCount := approverCount + 1;
        }
        if approverCount != 1 {
          return Some(BackfillApprovalRequired);
        }
        if LaterChained(tx, request.station, request.eventDate.day) {
          return Some(BackfillOutOfOrder);
        }
      } else if request.eventDate != NoDate || request.ordinal != 0 || request.approver != 0 || TrimSpace(request.reason) != "" {
        return Some(BackfillApprovalRequired);
      }
      return None;
    }

    /** Allocates the station's next sequence number and inserts one shift with its draft. */
    method OpenShift(request: OpenRequest) returns (r: Result<OpenedShift, Error>)
      modifies db
      ensures Ends(old(db.tables), ShiftOpened(old(db.tables), request), db.tables, r)
      ensures r.Success? ==> r.value.shift == old(db.tables.nextId) && r.value.shift in db.tables.shifts
                             && db.tables.shifts[r.value.shift].sequence == r.value.sequence
    {
      hide BackfillError, StationIsFree, BackfillIsFree, Sequences;
      var tx := db.tables;
      if request.station !in tx.enabled {
        return Failure(ScopeDisabled);
      }
      var highest := QueryMax(Sequences(tx.shifts, request.station));
      var error := CheckBackfill(tx, request);
      if error.Some? {
        return Failure(error.value);
      }
      if request.catalog == [] {
        return Failure(NotFound);
      }
      var backfill: Option<BackfillKey> := None;
      if request.backfilled {
        backfill := Some(BackfillKey(request.eventDate.day, request.ordinal));
      }
      var shiftId := tx.nextId;
      tx := tx.(nextId := tx.nextId + 1);
      if !StationIsFree(tx.shifts, request.station, 0) || !BackfillIsFree(tx.shifts, request.station, backfill) {
        return Failure(ConstraintViolation);
      }
      var shift := Shift(request.station, 1 + highest, request.actor, Open, None, backfill, request.businessDate,
                         request.openedAt, None, request.catalog);
      tx := tx.(shifts := tx.shifts[shiftId := shift]);
      var draftId := tx.nextId;
      tx := tx.(nextId := tx.nextId + 1);
      var draft := Draft(request.station, shiftId, Some(request.actor), None, None, Editing, 1);
      tx := tx.(drafts := tx.drafts[draftId := draft], draftRows := tx.draftRows[draftId := DraftRows([], [], [], [])]);
      db.tables := tx;
      return Success(OpenedShift(shiftId, 1 + highest));
    }
  }

  class Drafts {
    const db: Database

    constructor (db: Database)
      ensures this.db == db
    {
      this.db := db;
    }

    /** Acquires a draft, or takes it over when its lease has run out. */
    method Claim(draftId: Id, shiftId: Id, actor: User, now: Time) returns (r: Result<ClaimResult, Error>)
      modifies db
      ensures Ends(old(db.tables), DraftClaimed(old(db.tables), draftId, shiftId, actor, now), db.tables, r)
      ensures r.Success? ==>
                && r.value.draft == draftId && draftId in db.tables.drafts
                && Holds(db.tables.drafts[draftId], actor, r.value.token, now)
                && db.tables.drafts[draftId].expires == Some(r.value.expires)
                && db.tables.drafts[draftId].revision == r.value.revision
    {
      var tx := db.tables;
      if draftId !in tx.drafts || tx.drafts[draftId].shift != shiftId {
        return Failure(NotFound);
      }
      var draft := tx.drafts[draftId];
      if draft.station !in tx.enabled {
        return Failure(ScopeDisabled);
      }
      if draft.expires.Some? && draft.expires.value > now && draft.ownedBy.Some? && draft.ownedBy.value != actor {
        return Failure(ClaimExpired);
      }
      var token := tx.nextId;
      tx := tx.(nextId := tx.nextId + 1);
      var expires := now + DRAFT_LEASE;
      tx := tx.(drafts := tx.drafts[draftId := draft.(ownedBy := Some(actor), token := Some(token),
                                                      expires := Some(expires), status := Editing)]);
      db.tables := tx;
      return Success(ClaimResult(draftId, token, expires, draft.revision));
    }

    /** Extends a lease for its current owner and token. */
    method Heartbeat(draftId: Id, actor: User, token: Id, now: Time) returns (r: Result<(), Error>)
      modifies db
      ensures Ends(old(db.tables), LeaseExtended(old(db.tables), draftId, actor, token, now), db.tables, r)
    {
      var tx := db.tables;
      if draftId !in tx.drafts {
        return Failure(NotFound);
      }
      var draft := tx.drafts[draftId];
      if draft.station !in tx.enabled {
        return Failure(ScopeDisabled);
      }
      if draft.ownedBy != Some(actor) || draft.token != Some(token) || draft.expires.None? || draft.expires.value <= now
         || draft.status != Editing {
        return Failure(ClaimExpired);
      }
      tx := tx.(drafts := tx.drafts[draftId := draft.(expires := Some(now + DRAFT_LEASE))]);
      db.tables := tx;
      return Success(());
    }

    /** Loads a draft for a write: held by the caller, at the revision the caller saw. */
    method LockDraftForMutation(tx: Tables, w: Write, now: Time) returns (r: Result<Draft, Error>)
      ensures match MutationError(tx, w, now)
              case Some(e) => r == Failure(e)
              case None => w.draft in tx.drafts && r == Success(tx.drafts[w.draft])
    {
      if w.draft !in tx.drafts {
        return Failure(NotFound);
      }
      var draft := tx.drafts[w.draft];
      if draft.station !in tx.enabled {
        return Failure(ScopeDisabled);
      }
      if draft.expires.None? || draft.expires.value <= now || draft.token != Some(w.token) || draft.ownedBy != Some(w.actor) {
        return Failure(ClaimExpired);
      }
      if draft.revision != w.revision {
        return Failure(RevisionConflict);
      }
      return Success(draft);
    }

    /** Inserts one row of any kind and advances the revision. */
    method WriteRow(w: Write, row: Row, now: Time) returns (r: Result<nat, Error>)
      modifies db
      ensures Ends(old(db.tables), RowWritten(old(db.tables), w, row, now), db.tables, r)
      ensures r.Success? ==> r.value == w.revision + 1 && w.draft in db.tables.drafts
                             && db.tables.drafts[w.draft].revision == r.value
    {
      hide RowFits, WithRow, Holds;
      var tx := db.tables;
      var locked := LockDraftForMutation(tx, w, now);
      if locked.Failure? {
        return Failure(locked.error);
      }
      var draft := locked.value;
      if w.draft !in tx.draftRows || !RowFits(tx.draftRows[w.draft], row) {
        return Failure(ConstraintViolation);
      }
      var rowId := tx.nextId;
      tx := tx.(nextId := tx.nextId + 1);
      tx := tx.(draftRows := tx.draftRows[w.draft := WithRow(tx.draftRows[w.draft], row, rowId, w.actor)]);
      var next := draft.revision + 1;
      tx := tx.(drafts := tx.drafts[w.draft := draft.(revision := next)]);
      db.tables := tx;
      return Success(next);
    }

    method WriteReading(w: Write, nozzle: Id, meterStart: string, meterEnd: string, now: Time) returns (r: Result<nat, Error>)
      modifies db
      ensures Ends(old(db.tables), RowWritten(old(db.tables), w, ReadingRow(nozzle, meterStart, meterEnd), now), db.tables, r)
      ensures r.Success? ==> r.value == w.revision + 1
    {
      r := WriteRow(w, ReadingRow(nozzle, meterStart, meterEnd), now);
    }

    method WriteSales(w: Write, dispenser: Id, cash: string, cashless: string, now: Time) returns (r: Result<nat, Error>)
      modifies db
      ensures Ends(old(db.tables), RowWritten(old(db.tables), w, SaleRow(dispenser, cash, cashless), now), db.tables, r)
      ensures r.Success? ==> r.value == w.revision + 1
    {
      r := WriteRow(w, SaleRow(dispenser, cash, cashless), now);
    }

    method WriteLoss(w: Write, loss: Id, direction: string, reasonCode: string, liters: string, cash: string, note: string, now: Time)
      returns (r: Result<nat, Error>)
      modifies db
      ensures Ends(old(db.tables), RowWritten(old(db.tables), w, LossRow(loss, direction, reasonCode, liters, cash, note), now),
                   db.tables, r)
      ensures r.Success? ==> r.value == w.revision + 1
    {
      r := WriteRow(w, LossRow(loss, direction, reasonCode, liters, cash, note), now);
    }

    method StageEvidence(w: Write, lossRow: Id, kind: string, mime: string, now: Time) returns (r: Result<nat, Error>)
      modifies db
      ensures Ends(old(db.tables), RowWritten(old(db.tables), w, EvidenceRow(lossRow, kind, mime), now), db.tables, r)
      ensures r.Success? ==> r.value == w.revision + 1
    {
      r := WriteRow(w, EvidenceRow(lossRow, kind, mime), now);
    }
  }
}
