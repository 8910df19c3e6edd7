/** What the invariant says about decisions, versions, amendments and the separation of duties. */
module GovernanceTheorems {
  import opened Wrappers
  import opened LedgerTables
  import opened GovernanceSteps
  import opened LedgerInvariant
  import opened LedgerRuns

  // ----- Status and decisions -----

  /** The decision in force on a report, if any. */
  ghost predicate InForce(t: Tables, report: Id, ack: Id) {
    && report in t.heads && t.heads[report] == Some(ack)
    && ack in t.decisions && t.decisions[ack].report == report
  }

  lemma CurrentHead(t: Tables, s: Id)
    requires KeysOk(t) && CurrentOk(t.shifts, t.reports) && s in t.shifts && t.shifts[s].current.Some?
    requires HeadsOk(t.shifts, t.reports, t.heads, t.decisions)
    ensures var c := t.shifts[s].current.value;
            && c in t.reports && t.reports[c].shift == s && c in t.heads
            && (t.heads[c].Some? ==> t.heads[c].value in t.decisions && t.decisions[t.heads[c].value].report == c)
  {
  }

  /**
   The status of a shift read off its reports: open without any, awaiting while
   its current version has no decision, else locked or in correction as the
   decision says. Superseded versions have no decision in force.
   */
  lemma StatusMeaning(t: Tables, s: Id, hash: SnapshotHash)
    requires Reachable(t, hash) && s in t.shifts
    ensures t.shifts[s].status == Open <==> forall r | r in t.reports :: t.reports[r].shift != s
    ensures t.shifts[s].status == Open <==> t.shifts[s].current.None?
    ensures t.shifts[s].current.Some? ==>
              var c := t.shifts[s].current.value;
              && c in t.heads
              && (t.shifts[s].status == AwaitingConfirmation <==> forall k :: !InForce(t, c, k))
              && (t.shifts[s].status == Locked <==> exists k :: InForce(t, c, k) && t.decisions[k].acked)
              && (t.shifts[s].status == NeedsCorrection <==> exists k :: InForce(t, c, k) && !t.decisions[k].acked)
    ensures forall r, k | r in t.reports && t.reports[r].shift == s && t.shifts[s].current != Some(r) :: !InForce(t, r, k)
  {
    hide Reachable, ShiftsOk, DraftsOk, RevisionsOk, DecisionsOk, SeparationOk, PendingOk, DigestsOk, AppliedOk, OriginOk, IdemOk, IdemKeysOk,
      ItemsOk, RowIdsOk, ReportsOk;
    ReachableIsGood(t, hash);
    if t.shifts[s].current.Some? {
      var c := t.shifts[s].current.value;
      CurrentHead(t, s);
      assert t.heads[c].Some? ==> InForce(t, c, t.heads[c].value);
      hide CurrentOk, KeysOk;
    } else {
      hide HeadsOk, StatusOk, KeysOk;
    }
  }

  /** A version is decided at most once, with sequence number one. */
  lemma OneDecisionPerVersion(t: Tables, k: Id, l: Id, hash: SnapshotHash)
    requires Reachable(t, hash) && k in t.decisions && l in t.decisions
    ensures t.decisions[k].ackSeq == 1
    ensures && t.decisions[k].report in t.reports && t.decisions[l].report in t.reports
            && (t.reports[t.decisions[k].report].shift == t.reports[t.decisions[l].report].shift ==>
                  t.decisions[k].version == t.decisions[l].version ==> k == l)
  {
    hide Reachable, KeysOk, ShiftsOk, DraftsOk, RevisionsOk, CurrentOk, HeadsOk, StatusOk, SeparationOk,
      PendingOk, DigestsOk, AppliedOk, OriginOk, IdemOk, IdemKeysOk, ItemsOk, RowIdsOk;
    ReachableIsGood(t, hash);
  }

  lemma ReasonsNeverSayDecided(q: AckRequest)
    ensures AckReasons(q) != Failure(AckAlreadyDecided)
  {
  }

  /** An acknowledgement is never refused because the version was already decided. */
  lemma NeverAlreadyDecided(t: Tables, q: AckRequest, hash: SnapshotHash)
    requires Reachable(t, hash)
    ensures AckError(t, q) != Some(AckAlreadyDecided)
  {
    hide Reachable, ShiftsOk, DraftsOk, RevisionsOk, ReportsOk, DecisionsOk, SeparationOk, PendingOk, DigestsOk, AppliedOk, OriginOk,
      IdemOk, IdemKeysOk, ItemsOk, RowIdsOk, CreatedRows;
    ReachableIsGood(t, hash);
    hide AckReasons;
    if AckError(t, q) == Some(AckAlreadyDecided) {
      ReasonsNeverSayDecided(q);
      CurrentHead(t, q.shift);
      hide CurrentOk, HeadsOk, KeysOk;
    }
  }

  /** The reports whose head is set. */
  ghost function ActiveHeads(heads: map<Id, Option<Id>>): set<Id> {
    set r | r in heads && heads[r].Some?
  }

  lemma HeadsAndDecisions(t: Tables, inForce: set<Id>)
    requires HeadsOk(t.shifts, t.reports, t.heads, t.decisions)
    requires DecisionsOk(t.reports, t.heads, t.decisions, t.superseded)
    requires inForce == set k | k in t.decisions && k !in t.superseded
    ensures t.decisions.Keys == inForce + t.superseded.Keys
    ensures forall r | r in ActiveHeads(t.heads) ::
              t.heads[r].value in inForce && t.decisions[t.heads[r].value].report == r
    ensures forall k | k in inForce ::
              t.decisions[k].report in ActiveHeads(t.heads) && t.heads[t.decisions[k].report].value == k
  {
    forall r | r in ActiveHeads(t.heads)
      ensures t.heads[r].value in inForce && t.decisions[t.heads[r].value].report == r
    {
      hide StatusOf;
    }
  }

  lemma {:induction false} SameSize(reports: set<Id>, acks: set<Id>, heads: map<Id, Option<Id>>, decisions: map<Id, Decision>)
    requires forall r | r in reports :: r in heads && heads[r].Some? && heads[r].value in acks
    requires forall k | k in acks :: k in decisions && decisions[k].report in reports && heads[decisions[k].report].value == k
    requires forall r | r in reports :: heads[r].value in decisions && decisions[heads[r].value].report == r
    ensures |reports| == |acks|
    decreases |reports|
  {
    if reports == {} {
      assert acks == {};
    } else {
      var r :| r in reports;
      SameSize(reports - {r}, acks - {heads[r].value}, heads, decisions);
    }
  }

  /** Every decision is in force or superseded, so the counts add up. */
  lemma DecisionCount(t: Tables, hash: SnapshotHash)
    requires Reachable(t, hash)
    ensures |t.decisions| == |ActiveHeads(t.heads)| + |t.superseded|
  {
    hide Reachable, KeysOk, ShiftsOk, DraftsOk, RevisionsOk, ReportsOk, CurrentOk, HeadsOk, StatusOk, DecisionsOk, SeparationOk,
      PendingOk, DigestsOk, AppliedOk, OriginOk, IdemOk, IdemKeysOk, ItemsOk, RowIdsOk;
    ReachableIsGood(t, hash);
    var inForce := set k | k in t.decisions && k !in t.superseded;
    HeadsAndDecisions(t, inForce);
    SameSize(ActiveHeads(t.heads), inForce, t.heads, t.decisions);
    assert |t.decisions.Keys| == |inForce| + |t.superseded.Keys|;
  }

  // ----- Versions -----

  /** The report k steps down the supersedes chain. */
  ghost function Ancestor(reports: map<Id, Report>, r: Id, k: nat): Option<Id>
    decreases k
  {
    if r !in reports then None
    else if k == 0 then Some(r)
    else if reports[r].supersedes.None? then None
    else Ancestor(reports, reports[r].supersedes.value, k - 1)
  }

  lemma BaseOfVersion(shifts: map<Id, Shift>, reports: map<Id, Report>, r: Id)
    requires ReportsOk(shifts, reports) && r in reports
    ensures reports[r].version >= 1 && (reports[r].supersedes.None? <==> reports[r].version == 1)
    ensures reports[r].supersedes.Some? ==>
              var p := reports[r].supersedes.value;
              p in reports && reports[p].shift == reports[r].shift && reports[p].version + 1 == reports[r].version
  {
  }

  lemma AncestorStep(reports: map<Id, Report>, r: Id, k: nat)
    requires r in reports
    ensures Ancestor(reports, r, 0) == Some(r)
    ensures k > 0 ==> Ancestor(reports, r, k) == match reports[r].supersedes case None => None case Some(p) => Ancestor(reports, p, k - 1)
  {
  }

  /** The chain from a report runs through exactly one report of each lower version, down to the first. */
  lemma {:induction false} ChainDescends(shifts: map<Id, Shift>, reports: map<Id, Report>, r: Id, k: nat)
    requires ReportsOk(shifts, reports) && r in reports
    ensures k < reports[r].version <==> Ancestor(reports, r, k).Some?
    ensures k < reports[r].version ==>
              var a := Ancestor(reports, r, k).value;
              a in reports && reports[a].shift == reports[r].shift && reports[a].version == reports[r].version - k
    decreases k
  {
    hide ReportsOk, Ancestor;
    BaseOfVersion(shifts, reports, r);
    AncestorStep(reports, r, k);
    if k > 0 && reports[r].supersedes.Some? {
      ChainDescends(shifts, reports, reports[r].supersedes.value, k - 1);
    }
  }

  lemma CurrentIsReport(shifts: map<Id, Shift>, reports: map<Id, Report>, s: Id)
    requires CurrentOk(shifts, reports) && s in shifts && shifts[s].current.Some?
    ensures shifts[s].current.value in reports
  {
  }

  lemma ReportOfShift(t: Tables, s: Id, r: Id)
    requires ReportsOk(t.shifts, t.reports) && CurrentOk(t.shifts, t.reports)
    requires s in t.shifts && t.shifts[s].current.Some? && t.shifts[s].current.value in t.reports && r in t.reports
    ensures t.reports[t.shifts[s].current.value].shift == s && t.reports[r].version >= 1
    ensures t.reports[r].shift == s ==> t.reports[r].version <= t.reports[t.shifts[s].current.value].version
  {
  }

  /**
   The reports of a shift are exactly the links of one chain of versions n, ..,
   2, 1 that starts at the current report.
   */
  lemma VersionsAreOneChain(t: Tables, s: Id, r: Id, hash: SnapshotHash)
    requires Reachable(t, hash) && s in t.shifts && t.shifts[s].current.Some? && r in t.reports
    ensures var c := t.shifts[s].current.value;
            && c in t.reports
            && var n := t.reports[c].version;
            (t.reports[r].shift == s <==>
             1 <= t.reports[r].version <= n && Ancestor(t.reports, c, n - t.reports[r].version) == Some(r))
  {
    hide Reachable, KeysOk, ShiftsOk, DraftsOk, RevisionsOk, HeadsOk, StatusOk, DecisionsOk, SeparationOk,
      PendingOk, DigestsOk, AppliedOk, OriginOk, IdemOk, IdemKeysOk, ItemsOk, RowIdsOk, ReportsOk, CurrentOk, Ancestor;
    ReachableIsGood(t, hash);
    CurrentIsReport(t.shifts, t.reports, s);
    var c := t.shifts[s].current.value;
    var n := t.reports[c].version;
    ReportOfShift(t, s, r);
    if t.reports[r].version <= n {
      ChainDescends(t.shifts, t.reports, c, n - t.reports[r].version);
      var a := Ancestor(t.reports, c, n - t.reports[r].version).value;
      if t.reports[r].shift == s {
        SameVersion(t.shifts, t.reports, r, a);
      }
    }
  }

  /** The reports of a shift up to a version. */
  ghost function VersionsUpTo(reports: map<Id, Report>, s: Id, n: nat): set<Id> {
    set r | r in reports && reports[r].shift == s && reports[r].version <= n
  }

  lemma NoVersionZero(shifts: map<Id, Shift>, reports: map<Id, Report>, s: Id)
    requires ReportsOk(shifts, reports)
    ensures VersionsUpTo(reports, s, 0) == {}
  {
  }

  lemma AddVersion(shifts: map<Id, Shift>, reports: map<Id, Report>, s: Id, n: nat, a: Id)
    requires ReportsOk(shifts, reports) && n > 0
    requires a in reports && reports[a].shift == s && reports[a].version == n
    ensures |VersionsUpTo(reports, s, n)| == |VersionsUpTo(reports, s, n - 1)| + 1
  {
    assert VersionsUpTo(reports, s, n) == VersionsUpTo(reports, s, n - 1) + {a};
  }

  lemma {:induction false} CountVersions(shifts: map<Id, Shift>, reports: map<Id, Report>, c: Id, n: nat)
    requires ReportsOk(shifts, reports) && c in reports && n <= reports[c].version
    ensures |VersionsUpTo(reports, reports[c].shift, n)| == n
  {
    hide ReportsOk, Ancestor;
    var s := reports[c].shift;
    if n == 0 {
      NoVersionZero(shifts, reports, s);
    } else {
      hide VersionsUpTo;
      CountVersions(shifts, reports, c, n - 1);
      ChainDescends(shifts, reports, c, reports[c].version - n);
      var a := Ancestor(reports, c, reports[c].version - n).value;
      AddVersion(shifts, reports, s, n, a);
    }
  }

  /** A shift has as many reports as its current version says. */
  lemma VersionCount(t: Tables, s: Id, hash: SnapshotHash)
    requires Reachable(t, hash) && s in t.shifts && t.shifts[s].current.Some?
    ensures t.shifts[s].current.value in t.reports
    ensures |(set r | r in t.reports && t.reports[r].shift == s)| == t.reports[t.shifts[s].current.value].version
  {
    hide Reachable, KeysOk, ShiftsOk, DraftsOk, RevisionsOk, HeadsOk, StatusOk, DecisionsOk, SeparationOk,
      PendingOk, DigestsOk, AppliedOk, OriginOk, IdemOk, IdemKeysOk, ItemsOk, RowIdsOk;
    ReachableIsGood(t, hash);
    var c := t.shifts[s].current.value;
    CountVersions(t.shifts, t.reports, c, t.reports[c].version);
    hide ReportsOk;
    assert (set r | r in t.reports && t.reports[r].shift == s) == VersionsUpTo(t.reports, s, t.reports[c].version);
  }

  // ----- Pending amendments -----

  /**
   A shift has at most one pending amendment. It is based on the current report,
   and the digest taken when it was requested is the digest of that report now.
   */
  lemma PendingIsFresh(t: Tables, a: Id, b: Id, hash: SnapshotHash)
    requires Reachable(t, hash) && a in t.amendments && t.amendments[a].status == Pending
    ensures var x := t.amendments[a];
            && x.shift in t.shifts && t.shifts[x.shift].current == Some(x.base)
            && x.base in t.reports && x.base in t.children
            && x.digest == hash(SnapshotOf(x.base, t.reports[x.base].version, t.children[x.base]))
    ensures b in t.amendments && t.amendments[b].status == Pending && t.amendments[b].shift == t.amendments[a].shift ==> a == b
  {
    hide Reachable, KeysOk, ShiftsOk, DraftsOk, RevisionsOk, ReportsOk, CurrentOk, HeadsOk, StatusOk, DecisionsOk, SeparationOk,
      AppliedOk, OriginOk, IdemOk, IdemKeysOk, ItemsOk, RowIdsOk, SnapshotOf;
    ReachableIsGood(t, hash);
  }

  // ----- Separation of duties -----

  lemma {:induction false} SaleKeepsCreator(sale: Sale, items: seq<Item>)
    requires AmendedSale(sale, items).Success?
    ensures AmendedSale(sale, items).value.createdBy == sale.createdBy
  {
    if items != [] {
      SaleKeepsCreator(sale, items[..|items| - 1]);
    }
  }

  lemma {:induction false} LossKeepsCreator(loss: Loss, items: seq<Item>)
    requires AmendedLoss(loss, items).Success?
    ensures AmendedLoss(loss, items).value.createdBy == loss.createdBy
  {
    if items != [] {
      LossKeepsCreator(loss, items[..|items| - 1]);
    }
  }

  lemma {:induction false} SalesKeepCreators(sales: seq<Sale>, items: seq<Item>, firstId: Id)
    requires CopiedSales(sales, items, firstId).Success?
    ensures var copies := CopiedSales(sales, items, firstId).value;
            |copies| == |sales| && forall i | 0 <= i < |sales| :: copies[i].createdBy == sales[i].createdBy
  {
    hide AmendedSale, SaleFits;
    if sales != [] {
      SalesKeepCreators(sales[..|sales| - 1], items, firstId);
      SaleKeepsCreator(sales[|sales| - 1], items);
    }
  }

  lemma {:induction false} LossesKeepCreators(losses: seq<Loss>, items: seq<Item>, version: nat, firstId: Id)
    requires CopiedLosses(losses, items, version, firstId).Success?
    ensures var copies := CopiedLosses(losses, items, version, firstId).value;
            |copies| == |losses| && forall i | 0 <= i < |losses| :: copies[i].createdBy == losses[i].createdBy
  {
    hide AmendedLoss, LossFits;
    if losses != [] {
      LossesKeepCreators(losses[..|losses| - 1], items, version, firstId);
      LossKeepsCreator(losses[|losses| - 1], items);
    }
  }

  lemma CopyKeepsCreators(c: Children, items: seq<Item>, version: nat, firstId: Id, user: User)
    requires CopiedChildren(c, items, version, firstId).Success?
    ensures CreatedRows(CopiedChildren(c, items, version, firstId).value, user) <==> CreatedRows(c, user)
  {
    hide CopiedSales, CopiedLosses;
    SalesKeepCreators(c.sales, items, firstId + |c.readings|);
    LossesKeepCreators(c.losses, items, version, firstId + |c.readings| + |c.sales|);
    var copy := CopiedChildren(c, items, version, firstId).value;
    assert forall i | 0 <= i < |c.sales| :: copy.sales[i].createdBy == c.sales[i].createdBy;
    assert forall i | 0 <= i < |c.losses| :: copy.losses[i].createdBy == c.losses[i].createdBy;
  }

  lemma RowsOfReports(t: Tables, r: Id)
    requires KeysOk(t) && r in t.reports
    ensures r in t.children
  {
  }

  /** An amended report has rows by the same people as its base. */
  lemma CreatorsOfBase(t: Tables, r: Id, user: User)
    requires AppliedOk(t.reports, t.children, t.amendments) && OriginOk(t.reports, t.amendments)
    requires r in t.reports && t.reports[r].supersedes.Some?
    ensures var p := t.reports[r].supersedes.value;
            r in t.children && p in t.children && p in t.reports
            && (CreatedRows(t.children[r], user) <==> CreatedRows(t.children[p], user))
  {
    hide CreatedRows, CopiedChildren;
    var p := t.reports[r].supersedes.value;
    var a :| a in t.amendments && t.amendments[a].status == Approved && t.amendments[a].applied == Some(r)
             && t.amendments[a].base == p;
    assert IsApplied(t.reports, t.children, t.amendments[a]);
    hide AppliedOk, OriginOk;
    CopyKeepsCreators(t.children[p], t.amendments[a].items, t.reports[p].version + 1, r + 1, user);
  }

  /** All versions of a report have rows by the same people. */
  lemma {:induction false} CreatorsOfVersions(t: Tables, r: Id, k: nat, user: User, hash: SnapshotHash)
    requires Inv(t, hash) && r in t.reports && Ancestor(t.reports, r, k).Some?
    ensures var a := Ancestor(t.reports, r, k).value;
            r in t.children && a in t.children
            && (CreatedRows(t.children[r], user) <==> CreatedRows(t.children[a], user))
    decreases k
  {
    hide KeysOk, ShiftsOk, DraftsOk, RevisionsOk, ReportsOk, CurrentOk, HeadsOk, StatusOk, DecisionsOk, SeparationOk,
      PendingOk, DigestsOk, AppliedOk, OriginOk, IdemOk, IdemKeysOk, ItemsOk, RowIdsOk, CreatedRows;
    RowsOfReports(t, r);
    if k > 0 {
      CreatorsOfBase(t, r, user);
      CreatorsOfVersions(t, t.reports[r].supersedes.value, k - 1, user, hash);
    }
  }

  lemma DecidedReport(t: Tables, ack: Id)
    requires DecisionsOk(t.reports, t.heads, t.decisions, t.superseded) && ReportsOk(t.shifts, t.reports) && ack in t.decisions
    ensures t.decisions[ack].report in t.reports && t.reports[t.decisions[ack].report].version >= 1
  {
  }

  lemma ActorIsSeparate(t: Tables, ack: Id)
    requires SeparationOk(t.reports, t.children, t.decisions) && ack in t.decisions
    requires t.decisions[ack].report in t.reports && t.decisions[ack].report in t.children
    ensures t.decisions[ack].actor != t.reports[t.decisions[ack].report].submittedBy
    ensures !CreatedRows(t.children[t.decisions[ack].report], t.decisions[ack].actor)
  {
  }

  /**
   Whoever entered a sale or a loss of the first version of a report never
   decides any version of it, and nobody decides a version they submitted.
   */
  lemma CreatorsNeverDecide(t: Tables, ack: Id, first: Id, hash: SnapshotHash)
    requires Reachable(t, hash) && ack in t.decisions && first in t.reports
    ensures var d := t.decisions[ack];
            && d.report in t.reports && first in t.children
            && t.reports[d.report].submittedBy != d.actor
            && (t.reports[first].shift == t.reports[d.report].shift && t.reports[first].version == 1 ==>
                  !CreatedRows(t.children[first], d.actor))
  {
    hide Reachable, KeysOk, ShiftsOk, DraftsOk, RevisionsOk, ReportsOk, CurrentOk, HeadsOk, StatusOk, DecisionsOk, SeparationOk,
      PendingOk, DigestsOk, AppliedOk, OriginOk, IdemOk, IdemKeysOk, ItemsOk, RowIdsOk, CreatedRows;
    ReachableIsGood(t, hash);
    var r := t.decisions[ack].report;
    DecidedReport(t, ack);
    RowsOfReports(t, first);
    RowsOfReports(t, r);
    ActorIsSeparate(t, ack);
    if t.reports[first].shift == t.reports[r].shift && t.reports[first].version == 1 {
      var k := t.reports[r].version - 1;
      ChainDescends(t.shifts, t.reports, r, k);
      SameVersion(t.shifts, t.reports, first, Ancestor(t.reports, r, k).value);
      CreatorsOfVersions(t, r, k, t.decisions[ack].actor, hash);
    }
  }

  /** An approver never decides the version the approval made, and approves an own request only under break-glass. */
  lemma ApproversAreSeparate(t: Tables, a: Id, ack: Id, hash: SnapshotHash)
    requires Reachable(t, hash) && a in t.amendments && t.amendments[a].status == Approved
    ensures t.amendments[a].approver == Some(t.amendments[a].requester) ==> t.amendments[a].breakGlass
    ensures ack in t.decisions && Some(t.decisions[ack].report) == t.amendments[a].applied ==>
              Some(t.decisions[ack].actor) != t.amendments[a].approver
  {
    hide Reachable, ShiftsOk, DraftsOk, RevisionsOk, ReportsOk, CurrentOk, HeadsOk, StatusOk, DecisionsOk,
      PendingOk, DigestsOk, OriginOk, IdemOk, IdemKeysOk, ItemsOk, RowIdsOk, CreatedRows, CopiedChildren, KeysOk;
    ReachableIsGood(t, hash);
    assert IsApplied(t.reports, t.children, t.amendments[a]);
  }
}
