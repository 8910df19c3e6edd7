/** What the searches of a submission find, said without following their recursion. */
module LedgerLookups {
  import opened Wrappers
  import opened LedgerTables
  import opened SubmitSteps

  /** The submitted readings are keyed by nozzle, and a later entry replaces an earlier one; the nil nozzle has none. */
  lemma {:induction false} InputForIs(readings: seq<InputReading>, nozzle: Id)
    ensures InputFor(readings, nozzle).None? <==> nozzle == 0 || forall i | 0 <= i < |readings| :: readings[i].nozzle != nozzle
    ensures InputFor(readings, nozzle).Some? ==>
              exists i :: 0 <= i < |readings| && InputFor(readings, nozzle) == Some(readings[i]) && readings[i].nozzle == nozzle
                          && forall j | i < j < |readings| :: readings[j].nozzle != nozzle
  {
    if readings != [] {
      var front := readings[..|readings| - 1];
      InputForIs(front, nozzle);
      assert forall i | 0 <= i < |front| :: front[i] == readings[i];
    }
  }

  lemma {:induction false} LossInputForIs(losses: seq<InputLoss>, loss: Id)
    ensures LossInputFor(losses, loss).None? <==> loss == 0 || forall i | 0 <= i < |losses| :: losses[i].loss != loss
    ensures LossInputFor(losses, loss).Some? ==>
              exists i :: 0 <= i < |losses| && LossInputFor(losses, loss) == Some(losses[i]) && losses[i].loss == loss
                          && forall j | i < j < |losses| :: losses[j].loss != loss
  {
    if losses != [] {
      var front := losses[..|losses| - 1];
      LossInputForIs(front, loss);
      assert forall i | 0 <= i < |front| :: front[i] == losses[i];
    }
  }

  /** The first catalogue entry of a nozzle. */
  lemma {:induction false} SnapshotItemIs(catalog: seq<CatalogItem>, nozzle: Id)
    ensures SnapshotItem(catalog, nozzle).None? <==> forall i | 0 <= i < |catalog| :: catalog[i].nozzle != nozzle
    ensures SnapshotItem(catalog, nozzle).Some? ==>
              exists i :: 0 <= i < |catalog| && SnapshotItem(catalog, nozzle) == Some(catalog[i]) && catalog[i].nozzle == nozzle
                          && forall j | 0 <= j < i :: catalog[j].nozzle != nozzle
  {
    if catalog != [] {
      SnapshotItemIs(catalog[1..], nozzle);
      assert forall i | 0 < i < |catalog| :: catalog[i] == catalog[1..][i - 1];
      if catalog[0].nozzle != nozzle && SnapshotItem(catalog, nozzle).Some? {
        var i :| 0 <= i < |catalog[1..]| && SnapshotItem(catalog[1..], nozzle) == Some(catalog[1..][i]) && catalog[1..][i].nozzle == nozzle
                 && forall j | 0 <= j < i :: catalog[1..][j].nozzle != nozzle;
        assert catalog[i + 1] == catalog[1..][i];
      }
    }
  }

  /** The first reading of a report for a nozzle. */
  lemma {:induction false} ReadingForIs(rows: seq<Reading>, nozzle: Id)
    ensures ReadingFor(rows, nozzle).None? <==> forall i | 0 <= i < |rows| :: rows[i].nozzle != nozzle
    ensures ReadingFor(rows, nozzle).Some? ==>
              exists i :: 0 <= i < |rows| && ReadingFor(rows, nozzle) == Some(rows[i]) && rows[i].nozzle == nozzle
                          && forall j | 0 <= j < i :: rows[j].nozzle != nozzle
  {
    if rows != [] {
      ReadingForIs(rows[1..], nozzle);
      assert forall i | 0 < i < |rows| :: rows[i] == rows[1..][i - 1];
      if rows[0].nozzle != nozzle && ReadingFor(rows, nozzle).Some? {
        var i :| 0 <= i < |rows[1..]| && ReadingFor(rows[1..], nozzle) == Some(rows[1..][i]) && rows[1..][i].nozzle == nozzle
                 && forall j | 0 <= j < i :: rows[1..][j].nozzle != nozzle;
        assert rows[i + 1] == rows[1..][i];
      }
    }
  }

  lemma {:induction false} DraftLossIs(rows: seq<DraftLoss>, row: Id)
    ensures DraftLossRow(rows, row).None? <==> forall i | 0 <= i < |rows| :: rows[i].row != row
    ensures DraftLossRow(rows, row).Some? ==>
              exists i :: 0 <= i < |rows| && rows[i] == DraftLossRow(rows, row).value && rows[i].row == row
  {
    if rows != [] {
      DraftLossIs(rows[1..], row);
      assert forall i | 0 < i < |rows| :: rows[i] == rows[1..][i - 1];
    }
  }

  lemma {:induction false} ReportLossIs(losses: seq<Loss>, loss: Id)
    ensures ReportLoss(losses, loss).None? <==> forall j | 0 <= j < |losses| :: losses[j].loss != loss
    ensures ReportLoss(losses, loss).Some? ==>
              exists j :: 0 <= j < |losses| && losses[j] == ReportLoss(losses, loss).value && losses[j].loss == loss
  {
    if losses != [] {
      ReportLossIs(losses[1..], loss);
      assert forall j | 0 < j < |losses| :: losses[j] == losses[1..][j - 1];
    }
  }

  /** The reset is approved and names this station, nozzle and shift. */
  predicate IsResetFor(r: MeterReset, station: Station, shift: Id, nozzle: Id) {
    r.approved && r.station == station && r.shift == shift && r.nozzle == nozzle
  }

  /** The first approved reset of a nozzle for a shift; without one there is no value. */
  lemma {:induction false} ResetValueIs(resets: seq<MeterReset>, station: Station, shift: Id, nozzle: Id)
    ensures || (ResetValue(resets, station, shift, nozzle) == "" && forall i | 0 <= i < |resets| :: !IsResetFor(resets[i], station, shift, nozzle))
            || exists i :: 0 <= i < |resets| && IsResetFor(resets[i], station, shift, nozzle)
                           && ResetValue(resets, station, shift, nozzle) == resets[i].value
                           && forall j | 0 <= j < i :: !IsResetFor(resets[j], station, shift, nozzle)
  {
    if resets != [] {
      ResetValueIs(resets[1..], station, shift, nozzle);
      assert forall i | 0 < i < |resets| :: resets[i] == resets[1..][i - 1];
      if IsResetFor(resets[0], station, shift, nozzle) {
        assert ResetValue(resets, station, shift, nozzle) == resets[0].value;
      } else if i :| 0 <= i < |resets[1..]| && IsResetFor(resets[1..][i], station, shift, nozzle)
                     && ResetValue(resets[1..], station, shift, nozzle) == resets[1..][i].value
                     && forall j | 0 <= j < i :: !IsResetFor(resets[1..][j], station, shift, nozzle) {
        assert resets[i + 1] == resets[1..][i];
      }
    }
  }

  /** A baseline counts from its first sequence number on. */
  lemma BaselineValueIs(baselines: map<NozzleKey, Baseline>, station: Station, sequence: nat, nozzle: Id)
    ensures NozzleKey(station, nozzle) in baselines && baselines[NozzleKey(station, nozzle)].effective <= sequence ==>
              BaselineValue(baselines, station, sequence, nozzle) == baselines[NozzleKey(station, nozzle)].value
    ensures NozzleKey(station, nozzle) !in baselines || sequence < baselines[NozzleKey(station, nozzle)].effective ==>
              BaselineValue(baselines, station, sequence, nozzle) == ""
  {
  }

  /** The predecessor is the locked shift next below the number at its station: no other locked one lies between. */
  lemma PredecessorIs(shifts: map<Id, Shift>, station: Station, before: nat, withReport: bool, p: Id)
    requires Predecessor(shifts, station, before, withReport) == Some(p)
    ensures p in shifts && shifts[p].station == station && shifts[p].status == Locked && shifts[p].sequence < before
    ensures withReport ==> shifts[p].current.Some?
    ensures forall s | s in shifts && shifts[s].station == station && shifts[p].sequence < shifts[s].sequence < before ::
              shifts[s].status != Locked || (withReport && shifts[s].current.None?)
  {
  }

  /** There is none exactly when no locked shift of the station has a smaller number. */
  lemma NoPredecessorIff(shifts: map<Id, Shift>, station: Station, before: nat, withReport: bool)
    ensures Predecessor(shifts, station, before, withReport).None? <==>
            forall s | s in shifts && shifts[s].station == station && shifts[s].sequence < before && shifts[s].status == Locked ::
              withReport && shifts[s].current.None?
  {
    if s :| s in shifts && IsEarlierLocked(shifts[s], station, before, withReport) {
      var numbers := set u | u in shifts && IsEarlierLocked(shifts[u], station, before, withReport) :: shifts[u].sequence;
      assert forall u | u in shifts && IsEarlierLocked(shifts[u], station, before, withReport) :: shifts[u].sequence in numbers;
      assert shifts[s].sequence in numbers;
      var m := CoalesceMax(numbers);
      var p :| p in shifts && IsEarlierLocked(shifts[p], station, before, withReport) && shifts[p].sequence == m;
      assert IsPredecessor(shifts, station, before, withReport, p);
    }
  }

  /** The last type of the policy with the name. */
  lemma {:induction false} TypeNamedIs(types: seq<EvidenceType>, kind: string)
    ensures TypeNamed(types, kind).None? <==> forall i | 0 <= i < |types| :: types[i].kind != kind
    ensures TypeNamed(types, kind).Some? ==>
              exists i :: 0 <= i < |types| && TypeNamed(types, kind) == Some(types[i]) && types[i].kind == kind
                          && forall j | i < j < |types| :: types[j].kind != kind
  {
    if types != [] {
      var front := types[..|types| - 1];
      TypeNamedIs(front, kind);
      assert forall i | 0 <= i < |front| :: front[i] == types[i];
    }
  }

  /** The finalized objects of a type for a loss. */
  function FinalizedFor(staged: seq<Staged>, lossRow: Id, kind: string): set<nat> {
    set i | 0 <= i < |staged| && staged[i].status == Finalized && staged[i].lossRow == lossRow && staged[i].kind == kind
  }

  lemma {:induction false} FinalizedCountIs(staged: seq<Staged>, lossRow: Id, kind: string)
    ensures FinalizedCount(staged, lossRow, kind) == |FinalizedFor(staged, lossRow, kind)|
  {
    if staged != [] {
      var last := |staged| - 1;
      FinalizedCountIs(staged[..last], lossRow, kind);
      var earlier, all := FinalizedFor(staged[..last], lossRow, kind), FinalizedFor(staged, lossRow, kind);
      if staged[last].status == Finalized && staged[last].lossRow == lossRow && staged[last].kind == kind {
        assert all == earlier + {last};
      } else {
        assert all == earlier;
      }
    }
  }

  /**
   What the mode demands of a loss for a type: under Wajib at least the minimum,
   which must not be zero, under Opsional at least one finalized object; any
   other mode is never content.
   */
  predicate HasEnough(mode: Mode, kind: EvidenceType, lossRow: Id, staged: seq<Staged>) {
    var finalized := |FinalizedFor(staged, lossRow, kind.kind)|;
    (mode == Wajib && 0 < kind.minimum <= finalized) || (mode == Opsional && 0 < finalized)
  }

  /** The policy accepts the staged objects exactly when each has a type that takes its format, and every loss has enough of every type. */
  lemma EvidenceValidIff(policy: EvidencePolicy, losses: seq<DraftLoss>, staged: seq<Staged>)
    ensures EvidenceValid(policy, losses, staged) <==>
            && (forall i | 0 <= i < |staged| ::
                  TypeNamed(policy.types, staged[i].kind).Some? && staged[i].mime in TypeNamed(policy.types, staged[i].kind).value.mimes)
            && (forall i, j | 0 <= i < |losses| && 0 <= j < |policy.types| ::
                  HasEnough(policy.mode, policy.types[j], losses[i].row, staged))
  {
    hide FinalizedCount, FinalizedFor, TypeNamed;
    forall i, j | 0 <= i < |losses| && 0 <= j < |policy.types|
      ensures HasEnough(policy.mode, policy.types[j], losses[i].row, staged) <==>
              EvidenceSuffices(policy.mode, policy.types[j].minimum, FinalizedCount(staged, losses[i].row, policy.types[j].kind))
    {
      FinalizedCountIs(staged, losses[i].row, policy.types[j].kind);
    }
    hide HasEnough, EvidenceSuffices;
  }
}
