/**
 Station roles and the audit events that record their changes
 (internal/repository/identity).
 */
module RoleGrants {
  import opened Wrappers

  type Id = nat
  type Org = nat
  type User = nat
  type Station = nat

  datatype Role = Operator | Supervisor | StationAdmin | Owner | Superadmin

  datatype Grant = Grant(org: Org, station: Station, user: User, role: Role)

  /** What the audit chain keeps of a role change. */
  datatype RoleEvent =
    | UserCreated(org: Org, station: Station, user: User, role: Role)
    | RoleAssigned(org: Org, station: Station, user: User, role: Role)
    | RoleRevoked(org: Org, station: Station, user: User, role: Role)

  datatype IdentityError =
    | Forbidden
    | UserNotFound
    | WrongOrganization
    | NoStation
    | EmailConflict
    | RoleExists
    | RoleNotFound
    | RoleSeparation
    | LastOwner
    | ConstraintViolation

  /** A user belongs to one organization; its email address is kept trimmed and in lower case. */
  datatype UserRow = UserRow(org: Org, email: string)

  datatype Tables = Tables(
    nextUser: User,
    orgs: set<Org>,
    stations: set<(Org, Station)>,
    users: map<User, UserRow>,
    grants: set<Grant>,
    eventIds: set<Id>,
    log: seq<RoleEvent>)

  /** The roles are the ones the session claims, over all stations. */
  datatype Actor = Actor(user: User, org: Org, roles: set<Role>)

  datatype RoleRequest = RoleRequest(station: Station, role: Role)

  datatype Invitation = Invitation(org: Org, station: Station, email: string, role: Role)

  // ----- Guards -----

  predicate IsSuperadmin(a: Actor) {
    Superadmin in a.roles
  }

  predicate IsOwner(a: Actor) {
    !IsSuperadmin(a) && Owner in a.roles
  }

  predicate IsApprover(role: Role) {
    role == StationAdmin || role == Owner || role == Superadmin
  }

  function TargetError(t: Tables, a: Actor, user: User): Option<IdentityError> {
    if user !in t.users || (!IsSuperadmin(a) && t.users[user].org != a.org) then Some(UserNotFound) else None
  }

  predicate HoldsSomewhere(grants: set<Grant>, org: Org, user: User, role: Role) {
    exists g :: g in grants && g.org == org && g.user == user && g.role == role
  }

  function ActorError(t: Tables, a: Actor, org: Org): Option<IdentityError> {
    if a.user == 0 || a.org == 0 then Some(Forbidden)
    else if IsOwner(a) && a.org != org then Some(WrongOrganization)
    else if !HoldsSomewhere(t.grants, org, a.user, if IsSuperadmin(a) then Superadmin else Owner) then Some(Forbidden)
    else None
  }

  /** The guards that assigning and removing share. */
  function ChangeError(t: Tables, a: Actor, user: User, q: RoleRequest): Option<IdentityError> {
    if TargetError(t, a, user).Some? then TargetError(t, a, user)
    else
      var org := t.users[user].org;
      if ActorError(t, a, org).Some? then ActorError(t, a, org)
      else if IsOwner(a) && (user == a.user || q.role == Owner || q.role == Superadmin) then Some(Forbidden)
      else if (org, q.station) !in t.stations then Some(WrongOrganization)
      else if org !in t.orgs then Some(UserNotFound)
      else None
  }

  function RolesAt(grants: set<Grant>, org: Org, user: User, station: Station): set<Role> {
    set g | g in grants && g.org == org && g.user == user && g.station == station :: g.role
  }

  /** Every role of a user in an organization, with its station. */
  function RolesOf(grants: set<Grant>, org: Org, user: User): set<(Station, Role)> {
    set g | g in grants && g.org == org && g.user == user :: (g.station, g.role)
  }

  /** The requester's role and an approver's role would meet. */
  predicate BreaksSeparation(grants: set<Grant>, org: Org, user: User, station: Station, added: Role) {
    var roles := RolesAt(grants, org, user, station) + {added};
    Supervisor in roles && exists r :: r in roles && IsApprover(r)
  }

  function OwnerGrants(grants: set<Grant>, org: Org): set<Grant> {
    set g | g in grants && g.org == org && g.role == Owner
  }

  // ----- Steps -----

  function Assigned(t: Tables, a: Actor, user: User, q: RoleRequest, event: Id): Result<Tables, IdentityError> {
    if ChangeError(t, a, user, q).Some? then Failure(ChangeError(t, a, user, q).value)
    else
      var org := t.users[user].org;
      var grant := Grant(org, q.station, user, q.role);
      if grant in t.grants then Failure(RoleExists)
      else if BreaksSeparation(t.grants, org, user, q.station, q.role) then Failure(RoleSeparation)
      else if event in t.eventIds then Failure(ConstraintViolation)
      else
        Success(t.(grants := t.grants + {grant}, eventIds := t.eventIds + {event},
                   log := t.log + [RoleAssigned(org, q.station, user, q.role)]))
  }

  function Removed(t: Tables, a: Actor, user: User, q: RoleRequest, event: Id): Result<Tables, IdentityError> {
    if ChangeError(t, a, user, q).Some? then Failure(ChangeError(t, a, user, q).value)
    else
      var org := t.users[user].org;
      var grant := Grant(org, q.station, user, q.role);
      if grant !in t.grants then Failure(RoleNotFound)
      else if q.role == Owner && |OwnerGrants(t.grants, org)| <= 1 then Failure(LastOwner)
      else if event in t.eventIds then Failure(ConstraintViolation)
      else
        Success(t.(grants := t.grants - {grant}, eventIds := t.eventIds + {event},
                   log := t.log + [RoleRevoked(org, q.station, user, q.role)]))
  }

  predicate EmailTaken(users: map<User, UserRow>, email: string) {
    exists u :: u in users && users[u].email == email
  }

  function Invited(t: Tables, q: Invitation, event: Id): Result<Tables, IdentityError> {
    if q.org !in t.orgs then Failure(WrongOrganization)
    else if forall s | s in t.stations :: s.0 != q.org then Failure(NoStation)
    else if (q.org, q.station) !in t.stations then Failure(WrongOrganization)
    else if EmailTaken(t.users, q.email) then Failure(EmailConflict)
    else if event in t.eventIds then Failure(ConstraintViolation)
    else
      var user := t.nextUser;
      Success(t.(nextUser := user + 1,
                 users := t.users[user := UserRow(q.org, q.email)],
                 grants := t.grants + {Grant(q.org, q.station, user, q.role)},
                 eventIds := t.eventIds + {event},
                 log := t.log + [UserCreated(q.org, q.station, user, q.role)]))
  }

  datatype Step =
    | Assign(actor: Actor, user: User, request: RoleRequest, event: Id)
    | Remove(actor: Actor, user: User, request: RoleRequest, event: Id)
    | Invite(invitation: Invitation, event: Id)

  function Outcome(t: Tables, s: Step): Result<Tables, IdentityError> {
    match s
    case Assign(a, user, q, event) => Assigned(t, a, user, q, event)
    case Remove(a, user, q, event) => Removed(t, a, user, q, event)
    case Invite(q, event) => Invited(t, q, event)
  }

  /** A refused step changes nothing. */
  function Next(t: Tables, s: Step): Tables {
    match Outcome(t, s)
    case Success(after) => after
    case Failure(_) => t
  }

  function After(t: Tables, steps: seq<Step>): Tables {
    if steps == [] then t else Next(After(t, steps[..|steps| - 1]), steps[|steps| - 1])
  }

  // ----- Replaying the log -----

  function GrantsOf(grants: set<Grant>, org: Org): set<Grant> {
    set g | g in grants && g.org == org
  }

  /** The role events of one organization, in order. */
  function EventsOf(log: seq<RoleEvent>, org: Org): seq<RoleEvent> {
    if log == [] then []
    else
      var last := log[|log| - 1];
      EventsOf(log[..|log| - 1], org) + if last.org == org then [last] else []
  }

  function Apply(grants: set<Grant>, e: RoleEvent): set<Grant> {
    var g := Grant(e.org, e.station, e.user, e.role);
    if e.RoleRevoked? then grants - {g} else grants + {g}
  }

  function Replay(grants: set<Grant>, events: seq<RoleEvent>): set<Grant> {
    if events == [] then grants else Apply(Replay(grants, events[..|events| - 1]), events[|events| - 1])
  }

  lemma EventsGrow(log: seq<RoleEvent>, e: RoleEvent, org: Org)
    ensures EventsOf(log + [e], org) == if e.org == org then EventsOf(log, org) + [e] else EventsOf(log, org)
  {
    assert (log + [e])[..|log|] == log;
    assert EventsOf(log, org) + [] == EventsOf(log, org);
  }

  lemma ReplayGrows(grants: set<Grant>, events: seq<RoleEvent>, e: RoleEvent)
    ensures Replay(grants, events + [e]) == Apply(Replay(grants, events), e)
  {
    assert (events + [e])[..|events|] == events;
  }

  lemma ApplyOf(grants: set<Grant>, e: RoleEvent, org: Org)
    ensures GrantsOf(Apply(grants, e), org) == if e.org == org then Apply(GrantsOf(grants, org), e) else GrantsOf(grants, org)
  {
  }

  /** A step logs exactly the change it makes. */
  lemma StepIsLogged(t: Tables, s: Step)
    ensures var after := Next(t, s);
            (after.log == t.log && after.grants == t.grants)
            || (exists e :: after.log == t.log + [e] && after.grants == Apply(t.grants, e))
  {
    hide ChangeError, BreaksSeparation, EmailTaken, OwnerGrants;
    var after := Next(t, s);
    if after != t {
      var e := after.log[|t.log|];
      assert after.log == t.log + [e];
      assert after.grants == Apply(t.grants, e);
    }
  }

  /** Replaying an organization's events over the grants it started with gives the role table. */
  lemma {:induction false} ReplayGivesTheTable(t: Tables, steps: seq<Step>, org: Org)
    requires t.log == []
    ensures var after := After(t, steps);
            GrantsOf(after.grants, org) == Replay(GrantsOf(t.grants, org), EventsOf(after.log, org))
  {
    hide Next, Apply, GrantsOf;
    if steps != [] {
      var before, s := After(t, steps[..|steps| - 1]), steps[|steps| - 1];
      ReplayGivesTheTable(t, steps[..|steps| - 1], org);
      StepIsLogged(before, s);
      if Next(before, s).log != before.log || Next(before, s).grants != before.grants {
        var e :| Next(before, s).log == before.log + [e] && Next(before, s).grants == Apply(before.grants, e);
        EventsGrow(before.log, e, org);
        ReplayGrows(GrantsOf(t.grants, org), EventsOf(before.log, org), e);
        ApplyOf(before.grants, e, org);
      }
    }
  }

  // ----- Separation of duty -----

  /** The user holds the requester's role beside an approver's role at one station. */
  predicate Mixes(grants: set<Grant>, org: Org, user: User, station: Station) {
    Supervisor in RolesAt(grants, org, user, station)
    && exists r :: r in RolesAt(grants, org, user, station) && IsApprover(r)
  }

  ghost predicate Separated(grants: set<Grant>) {
    forall org, user, station :: !Mixes(grants, org, user, station)
  }

  /** Grants belong to known users of the same organization, and identifiers are not reused. */
  ghost predicate ForeignKeysOk(t: Tables) {
    && (forall u | u in t.users :: u < t.nextUser)
    && (forall g | g in t.grants :: g.user in t.users && t.users[g.user].org == g.org)
  }

  lemma RolesGrow(grants: set<Grant>, g: Grant, org: Org, user: User, station: Station)
    ensures RolesAt(grants + {g}, org, user, station)
         == RolesAt(grants, org, user, station) + if g.org == org && g.user == user && g.station == station then {g.role} else {}
  {
    var more := RolesAt(grants + {g}, org, user, station);
    if g.org == org && g.user == user && g.station == station {
      assert g in grants + {g};
      assert g.role in more;
      forall r | r in RolesAt(grants, org, user, station) ensures r in more {
        var h :| h in grants && h.org == org && h.user == user && h.station == station && h.role == r;
        assert h in grants + {g};
      }
    }
  }

  lemma RolesShrink(grants: set<Grant>, g: Grant, org: Org, user: User, station: Station)
    ensures RolesAt(grants - {g}, org, user, station) <= RolesAt(grants, org, user, station)
  {
  }

  lemma AssignSeparates(t: Tables, a: Actor, user: User, q: RoleRequest, event: Id)
    requires Separated(t.grants) && Assigned(t, a, user, q, event).Success?
    ensures Separated(Assigned(t, a, user, q, event).value.grants)
  {
    hide ActorError, RolesAt;
    var g := Grant(t.users[user].org, q.station, user, q.role);
    forall org, u, station ensures !Mixes(t.grants + {g}, org, u, station) {
      assert !Mixes(t.grants, org, u, station);
      RolesGrow(t.grants, g, org, u, station);
    }
  }

  lemma RemoveSeparates(t: Tables, a: Actor, user: User, q: RoleRequest, event: Id)
    requires Separated(t.grants) && Removed(t, a, user, q, event).Success?
    ensures Separated(Removed(t, a, user, q, event).value.grants)
  {
    hide ActorError, RolesAt, OwnerGrants;
    var g := Grant(t.users[user].org, q.station, user, q.role);
    forall org, u, station ensures !Mixes(t.grants - {g}, org, u, station) {
      assert !Mixes(t.grants, org, u, station);
      RolesShrink(t.grants, g, org, u, station);
    }
  }

  lemma InviteSeparates(t: Tables, q: Invitation, event: Id)
    requires Separated(t.grants) && ForeignKeysOk(t) && Invited(t, q, event).Success?
    ensures Separated(Invited(t, q, event).value.grants)
  {
    hide EmailTaken;
    var g := Grant(q.org, q.station, t.nextUser, q.role);
    assert RolesAt(t.grants, q.org, t.nextUser, q.station) == {};
    forall org, u, station ensures !Mixes(t.grants + {g}, org, u, station) {
      assert !Mixes(t.grants, org, u, station);
      RolesGrow(t.grants, g, org, u, station);
    }
  }

  lemma StepKeepsKeys(t: Tables, s: Step)
    requires ForeignKeysOk(t)
    ensures ForeignKeysOk(Next(t, s))
  {
    hide ActorError, BreaksSeparation, EmailTaken, OwnerGrants;
  }

  lemma StepSeparates(t: Tables, s: Step)
    requires Separated(t.grants) && ForeignKeysOk(t)
    ensures Separated(Next(t, s).grants) && ForeignKeysOk(Next(t, s))
  {
    hide Separated, ForeignKeysOk, Assigned, Removed, Invited;
    StepKeepsKeys(t, s);
    if Outcome(t, s).Success? {
      match s
      case Assign(a, user, q, event) => AssignSeparates(t, a, user, q, event);
      case Remove(a, user, q, event) => RemoveSeparates(t, a, user, q, event);
      case Invite(q, event) => InviteSeparates(t, q, event);
    }
  }

  /** No run ever gives one user both sides of an approval at one station. */
  lemma {:induction false} SeparationHolds(t: Tables, steps: seq<Step>)
    requires Separated(t.grants) && ForeignKeysOk(t)
    ensures Separated(After(t, steps).grants) && ForeignKeysOk(After(t, steps))
  {
    hide Separated, ForeignKeysOk, Next;
    if steps != [] {
      SeparationHolds(t, steps[..|steps| - 1]);
      StepSeparates(After(t, steps[..|steps| - 1]), steps[|steps| - 1]);
    }
  }

  // ----- The last owner -----

  lemma StepKeepsOwner(t: Tables, s: Step, org: Org)
    requires OwnerGrants(t.grants, org) != {}
    ensures OwnerGrants(Next(t, s).grants, org) != {}
  {
    hide ActorError, BreaksSeparation, EmailTaken;
    var owners := OwnerGrants(t.grants, org);
    var after := Next(t, s);
    if s.Remove? && Outcome(t, s).Success? {
      var g := Grant(t.users[s.user].org, s.request.station, s.user, s.request.role);
      assert OwnerGrants(after.grants, org) == owners - {g};
      if g in owners {
        assert |owners - {g}| == |owners| - 1;
      }
    } else {
      var o :| o in owners;
      assert o in OwnerGrants(after.grants, org);
    }
  }

  /** An organization that has an owner always has one. */
  lemma {:induction false} OwnerStays(t: Tables, steps: seq<Step>, org: Org)
    requires OwnerGrants(t.grants, org) != {}
    ensures OwnerGrants(After(t, steps).grants, org) != {}
  {
    hide OwnerGrants, Next;
    if steps != [] {
      OwnerStays(t, steps[..|steps| - 1], org);
      StepKeepsOwner(After(t, steps[..|steps| - 1]), steps[|steps| - 1], org);
    }
  }

  // ----- The repository -----

  class IdentityRepository {
    var tables: Tables

    constructor (tables: Tables)
      ensures this.tables == tables
    {
      this.tables := tables;
    }

    method CheckChange(tx: Tables, a: Actor, user: User, q: RoleRequest) returns (error: Option<IdentityError>)
      ensures error == ChangeError(tx, a, user, q)
      ensures error.None? ==> user in tx.users
    {
      if user !in tx.users || (!IsSuperadmin(a) && tx.users[user].org != a.org) {
        return Some(UserNotFound);
      }
      var org := tx.users[user].org;
      var actor := ActorError(tx, a, org);
      if actor.Some? {
        return actor;
      }
      if IsOwner(a) && (user == a.user || q.role == Owner || q.role == Superadmin) {
        return Some(Forbidden);
      }
      if (org, q.station) !in tx.stations {
        return Some(WrongOrganization);
      }
      if org !in tx.orgs {
        return Some(UserNotFound);
      }
      return None;
    }

    /** Looks at every role the user holds at the station. */
    method RoleCombinationBreaksSeparation(grants: set<Grant>, org: Org, user: User, station: Station, added: Role) returns (breaks: bool)
      ensures breaks <==> BreaksSeparation(grants, org, user, station, added)
    {
      var hasRequester, hasApprover := added == Supervisor, IsApprover(added);
      var roles := RolesAt(grants, org, user, station);
      ghost var seen := {added};
      var rest := roles;
      while rest != {}
        invariant rest <= roles && seen + rest == roles + {added}
        invariant hasRequester <==> Supervisor in seen
        invariant hasApprover <==> exists r :: r in seen && IsApprover(r)
        decreases |rest|
      {
        var role :| role in rest;
        if role == Supervisor {
          hasRequester := true;
        }
        if IsApprover(role) {
          hasApprover := true;
        }
        rest := rest - {role};
        seen := seen + {role};
      }
      assert seen == roles + {added};
      return hasRequester && hasApprover;
    }

    /** Grants a role and appends its event. */
    method AssignRole(a: Actor, user: User, q: RoleRequest, event: Id) returns (r: Result<set<(Station, Role)>, IdentityError>)
      modifies this
      ensures match Assigned(old(tables), a, user, q, event)
              case Success(after) => tables == after && r == Success(RolesOf(after.grants, after.users[user].org, user))
              case Failure(e) => tables == old(tables) && r == Failure(e)
    {
      hide RolesAt;
      var tx := tables;
      var error := CheckChange(tx, a, user, q);
      if error.Some? {
        return Failure(error.value);
      }
      var org := tx.users[user].org;
      var grant := Grant(org, q.station, user, q.role);
      if grant in tx.grants {
        return Failure(RoleExists);
      }
      var breaks := RoleCombinationBreaksSeparation(tx.grants, org, user, q.station, q.role);
      if breaks {
        return Failure(RoleSeparation);
      }
      tx := tx.(grants := tx.grants + {grant});
      if event in tx.eventIds {
        return Failure(ConstraintViolation);
      }
      tx := tx.(eventIds := tx.eventIds + {event}, log := tx.log + [RoleAssigned(org, q.station, user, q.role)]);
      tables := tx;
      return Success(RolesOf(tx.grants, org, user));
    }

    /** Removes a role and appends its event; the last owner stays. */
    method RemoveRole(a: Actor, user: User, q: RoleRequest, event: Id) returns (r: Result<(), IdentityError>)
      modifies this
      ensures match Removed(old(tables), a, user, q, event)
              case Success(after) => tables == after && r.Success?
              case Failure(e) => tables == old(tables) && r == Failure(e)
    {
      var tx := tables;
      var error := CheckChange(tx, a, user, q);
      if error.Some? {
        return Failure(error.value);
      }
      var org := tx.users[user].org;
      var grant := Grant(org, q.station, user, q.role);
      if grant !in tx.grants {
        return Failure(RoleNotFound);
      }
      if q.role == Owner {
        var owners := |OwnerGrants(tx.grants, org)|;
        if owners <= 1 {
          return Failure(LastOwner);
        }
      }
      tx := tx.(grants := tx.grants - {grant});
      if event in tx.eventIds {
        return Failure(ConstraintViolation);
      }
      tx := tx.(eventIds := tx.eventIds + {event}, log := tx.log + [RoleRevoked(org, q.station, user, q.role)]);
      tables := tx;
      return Success(());
    }

    /** Creates a disabled user with one role. */
    method CreateInvitation(q: Invitation, event: Id) returns (r: Result<User, IdentityError>)
      modifies this
      ensures match Invited(old(tables), q, event)
              case Success(after) => tables == after && r == Success(old(tables).nextUser)
              case Failure(e) => tables == old(tables) && r == Failure(e)
    {
      var tx := tables;
      if q.org !in tx.orgs {
        return Failure(WrongOrganization);
      }
      var own := set s | s in tx.stations && s.0 == q.org;
      if |own| == 0 {
        assert forall s | s in tx.stations && s.0 == q.org :: s in own;
        return Failure(NoStation);
      }
      assert exists s :: s in tx.stations && s.0 == q.org by {
        var s :| s in own;
        assert s in tx.stations;
      }
      if (q.org, q.station) !in tx.stations {
        return Failure(WrongOrganization);
      }
      if EmailTaken(tx.users, q.email) {
        return Failure(EmailConflict);
      }
      var user := tx.nextUser;
      tx := tx.(nextUser := user + 1, users := tx.users[user := UserRow(q.org, q.email)]);
      tx := tx.(grants := tx.grants + {Grant(q.org, q.station, user, q.role)});
      if event in tx.eventIds {
        return Failure(ConstraintViolation);
      }
      tx := tx.(eventIds := tx.eventIds + {event}, log := tx.log + [UserCreated(q.org, q.station, user, q.role)]);
      tables := tx;
      return Success(user);
    }
  }
}
