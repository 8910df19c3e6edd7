/** Who may change which station role, and what an accepted change does. */
module RoleMeaning {
  import opened Wrappers
  import opened RoleGrants

  const APPROVERS: set<Role> := {StationAdmin, Owner, Superadmin}
  const PRIVILEGED: set<Role> := {Owner, Superadmin}

  /** The user holds the role at some station of the organization. */
  ghost predicate Holds(grants: set<Grant>, org: Org, user: User, role: Role) {
    exists station :: Grant(org, station, user, role) in grants
  }

  lemma HoldsIff(grants: set<Grant>, org: Org, user: User, role: Role)
    ensures HoldsSomewhere(grants, org, user, role) <==> Holds(grants, org, user, role)
  {
    if HoldsSomewhere(grants, org, user, role) {
      var g :| g in grants && g.org == org && g.user == user && g.role == role;
      assert g == Grant(org, g.station, user, role);
    }
    if station :| Grant(org, station, user, role) in grants {
      assert HoldsSomewhere(grants, org, user, role);
    }
  }

  /**
   A superadmin with a grant in the user's organization may change any role there;
   anybody else needs an owner's grant in it and, claiming to be its owner,
   changes neither own roles nor the two privileged ones.
   */
  ghost predicate MayChange(t: Tables, a: Actor, user: User, q: RoleRequest)
    requires user in t.users
  {
    var org := t.users[user].org;
    && a.user != 0 && a.org != 0
    && if Superadmin in a.roles then Holds(t.grants, org, a.user, Superadmin)
       else
         && a.org == org && Holds(t.grants, org, a.user, Owner)
         && (Owner in a.roles ==> user != a.user && q.role !in PRIVILEGED)
  }

  lemma ChangeIff(t: Tables, a: Actor, user: User, q: RoleRequest)
    ensures ChangeError(t, a, user, q).None? <==>
            && user in t.users && MayChange(t, a, user, q)
            && (t.users[user].org, q.station) in t.stations && t.users[user].org in t.orgs
  {
    hide Holds, HoldsSomewhere;
    if user in t.users {
      HoldsIff(t.grants, t.users[user].org, a.user, Superadmin);
      HoldsIff(t.grants, t.users[user].org, a.user, Owner);
    }
  }

  /** With the role added the user would have a requester's and an approver's role at the station. */
  predicate WouldMix(grants: set<Grant>, org: Org, user: User, station: Station, added: Role) {
    && (added == Supervisor || Grant(org, station, user, Supervisor) in grants)
    && (added in APPROVERS || exists r :: r in APPROVERS && Grant(org, station, user, r) in grants)
  }

  lemma RolesAtIs(grants: set<Grant>, org: Org, user: User, station: Station, role: Role)
    ensures role in RolesAt(grants, org, user, station) <==> Grant(org, station, user, role) in grants
  {
    if role in RolesAt(grants, org, user, station) {
      var g :| g in grants && g.org == org && g.user == user && g.station == station && g.role == role;
      assert g == Grant(org, station, user, role);
    }
  }

  lemma WouldMixIff(grants: set<Grant>, org: Org, user: User, station: Station, added: Role)
    ensures BreaksSeparation(grants, org, user, station, added) <==> WouldMix(grants, org, user, station, added)
  {
    hide RolesAt;
    forall r ensures r in RolesAt(grants, org, user, station) <==> Grant(org, station, user, r) in grants {
      RolesAtIs(grants, org, user, station, r);
    }
    var roles := RolesAt(grants, org, user, station) + {added};
    assert forall r :: r in roles <==> r == added || Grant(org, station, user, r) in grants;
    if WouldMix(grants, org, user, station, added) {
      var r :| r in APPROVERS && (r == added || Grant(org, station, user, r) in grants);
      assert r in roles && IsApprover(r);
    }
    if BreaksSeparation(grants, org, user, station, added) {
      var r :| r in roles && IsApprover(r);
      assert r in APPROVERS;
    }
  }

  /** A role is assigned exactly by somebody who may, at a station of the user's organization, when it is new and mixes nothing. */
  lemma AssignedIff(t: Tables, a: Actor, user: User, q: RoleRequest, event: Id)
    ensures Assigned(t, a, user, q, event).Success? <==>
            && user in t.users && MayChange(t, a, user, q)
            && var org := t.users[user].org;
            && (org, q.station) in t.stations && org in t.orgs && event !in t.eventIds
            && Grant(org, q.station, user, q.role) !in t.grants && !WouldMix(t.grants, org, user, q.station, q.role)
    ensures Assigned(t, a, user, q, event).Success? ==>
              var org := t.users[user].org;
              Assigned(t, a, user, q, event).value
              == t.(grants := t.grants + {Grant(org, q.station, user, q.role)}, eventIds := t.eventIds + {event},
                    log := t.log + [RoleAssigned(org, q.station, user, q.role)])
  {
    hide ChangeError, MayChange, BreaksSeparation, WouldMix;
    ChangeIff(t, a, user, q);
    if user in t.users {
      WouldMixIff(t.grants, t.users[user].org, user, q.station, q.role);
    }
  }

  /** Another owner's grant remains in the organization. */
  predicate OwnerRemains(grants: set<Grant>, gone: Grant) {
    exists g :: g in grants && g != gone && g.org == gone.org && g.role == Owner
  }

  lemma OwnerRemainsIff(grants: set<Grant>, gone: Grant)
    requires gone in grants && gone.role == Owner
    ensures |OwnerGrants(grants, gone.org)| > 1 <==> OwnerRemains(grants, gone)
  {
    var owners := OwnerGrants(grants, gone.org);
    assert |owners - {gone}| == |owners| - 1;
    if OwnerRemains(grants, gone) {
      var g :| g in grants && g != gone && g.org == gone.org && g.role == Owner;
      assert g in owners - {gone};
    } else {
      assert owners - {gone} == {};
    }
  }

  /** A role is removed exactly by somebody who may, when the user has it and an owner remains. */
  lemma RemovedIff(t: Tables, a: Actor, user: User, q: RoleRequest, event: Id)
    ensures Removed(t, a, user, q, event).Success? <==>
            && user in t.users && MayChange(t, a, user, q)
            && var org := t.users[user].org;
            && (org, q.station) in t.stations && org in t.orgs && event !in t.eventIds
            && Grant(org, q.station, user, q.role) in t.grants
            && (q.role == Owner ==> OwnerRemains(t.grants, Grant(org, q.station, user, q.role)))
    ensures Removed(t, a, user, q, event).Success? ==>
              var org := t.users[user].org;
              Removed(t, a, user, q, event).value
              == t.(grants := t.grants - {Grant(org, q.station, user, q.role)}, eventIds := t.eventIds + {event},
                    log := t.log + [RoleRevoked(org, q.station, user, q.role)])
  {
    hide ChangeError, MayChange, OwnerGrants, OwnerRemains;
    ChangeIff(t, a, user, q);
    if user in t.users {
      var grant := Grant(t.users[user].org, q.station, user, q.role);
      if grant in t.grants && q.role == Owner {
        OwnerRemainsIff(t.grants, grant);
      }
    }
  }

  /** An invitation is accepted exactly at a station of a known organization for an address nobody has. */
  lemma InvitedIff(t: Tables, q: Invitation, event: Id)
    ensures Invited(t, q, event).Success? <==>
            && q.org in t.orgs && (q.org, q.station) in t.stations && event !in t.eventIds
            && forall u | u in t.users :: t.users[u].email != q.email
    ensures Invited(t, q, event).Success? ==>
              Invited(t, q, event).value
              == t.(nextUser := t.nextUser + 1, users := t.users[t.nextUser := UserRow(q.org, q.email)],
                    grants := t.grants + {Grant(q.org, q.station, t.nextUser, q.role)}, eventIds := t.eventIds + {event},
                    log := t.log + [UserCreated(q.org, q.station, t.nextUser, q.role)])
  {
    if (q.org, q.station) in t.stations {
      assert exists s :: s in t.stations && s.0 == q.org;
    }
  }

  // ----- Owners do not make owners -----

  function PrivilegedGrants(grants: set<Grant>): set<Grant> {
    set g | g in grants && g.role in PRIVILEGED
  }

  /** A role change by somebody who claims to be an owner and no superadmin. */
  predicate IsByOwner(s: Step) {
    (s.Assign? || s.Remove?) && Owner in s.actor.roles && Superadmin !in s.actor.roles
  }

  /** An owner changes the roles of other people in the own organization, and no privileged ones. */
  lemma StepByOwner(t: Tables, s: Step)
    requires IsByOwner(s)
    ensures PrivilegedGrants(Next(t, s).grants) == PrivilegedGrants(t.grants)
    ensures forall g | g in Next(t, s).grants - t.grants :: g.user != s.actor.user && g.org == s.actor.org
    ensures forall g | g in t.grants - Next(t, s).grants :: g.user != s.actor.user && g.org == s.actor.org
  {
    hide Assigned, Removed;
    match s
    case Assign(a, user, q, event) => AssignedIff(t, a, user, q, event);
    case Remove(a, user, q, event) => RemovedIff(t, a, user, q, event);
  }

  /** Whatever owners do, the owners and superadmins stay who they are. */
  lemma {:induction false} OwnersRaiseNobody(t: Tables, steps: seq<Step>)
    requires forall i | 0 <= i < |steps| :: IsByOwner(steps[i])
    ensures PrivilegedGrants(After(t, steps).grants) == PrivilegedGrants(t.grants)
  {
    hide Next, PrivilegedGrants, IsByOwner;
    if steps != [] {
      OwnersRaiseNobody(t, steps[..|steps| - 1]);
      StepByOwner(After(t, steps[..|steps| - 1]), steps[|steps| - 1]);
    }
  }
}
