/** Share grants and the visibility rule that every search result must meet. */
module Sharing {
  import opened Registry

  datatype GranteeType = User | Tenant

  datatype ShareGrant = ShareGrant(id: string, skillId: string, granteeType: GranteeType, granteeId: string)

  datatype Caller = Caller(userId: Option<string>, tenantId: Option<string>)
  {
    predicate IsAuthenticated() { userId.Some? }
  }

  /** Grants are stored one file each, named by skill id and grant id. */
  class GrantStore {
    var files: map<(string, string), ShareGrant>

    constructor ()
      ensures Valid() && files == map[]
    {
      files := map[];
    }

    ghost predicate Valid()
      reads this
    {
      forall name :: name in files ==> name == (files[name].skillId, files[name].id)
    }

    function All(): set<ShareGrant>
      reads this
    {
      set name | name in files :: files[name]
    }

    method Create(grant: ShareGrant)
      requires Valid()
      modifies this
      ensures Valid()
      ensures files == old(files)[(grant.skillId, grant.id) := grant]
      ensures (grant.skillId, grant.id) !in old(files) ==> All() == old(All()) + {grant}
    {
      var before := files;
      files := files[(grant.skillId, grant.id) := grant];
      assert files[(grant.skillId, grant.id)] == grant;
      assert forall name :: name in before && name != (grant.skillId, grant.id) ==> files[name] == before[name];
    }

    method Revoke(skillId: string, grantId: string) returns (existed: bool)
      requires Valid()
      modifies this
      ensures Valid()
      ensures existed <==> (skillId, grantId) in old(files)
      ensures files == old(files) - {(skillId, grantId)}
      ensures All() == set g | g in old(All()) && !(g.skillId == skillId && g.id == grantId)
    {
      var before := files;
      existed := (skillId, grantId) in files;
      files := files - {(skillId, grantId)};
      forall g
        ensures g in All() <==> g in (set n | n in before :: before[n]) && !(g.skillId == skillId && g.id == grantId)
      {
        if g in (set n | n in before :: before[n]) && !(g.skillId == skillId && g.id == grantId) {
          var name :| name in before && before[name] == g;
          assert name in files && files[name] == g;
        }
      }
    }

    function ListForSkill(skillId: string): set<ShareGrant>
      reads this
    {
      set name | name in files && name.0 == skillId :: files[name]
    }

    /** Scans every grant file. */
    method ListForGrantee(granteeType: GranteeType, granteeId: string) returns (matches: seq<ShareGrant>)
      ensures forall g :: g in matches <==> g in All() && g.granteeType == granteeType && g.granteeId == granteeId
    {
      matches := [];
      var rest := files.Keys;
      while rest != {}
        invariant rest <= files.Keys
        invariant forall g :: g in matches <==>
                    g in Held(files, files.Keys - rest)
                    && g.granteeType == granteeType && g.granteeId == granteeId
        decreases rest
      {
        var name :| name in rest;
        var grant := files[name];
        HeldGrows(files, files.Keys - rest, name);
        assert files.Keys - (rest - {name}) == files.Keys - rest + {name};
        rest := rest - {name};
        if grant.granteeType == granteeType && grant.granteeId == granteeId {
          matches := matches + [grant];
        }
      }
      assert files.Keys - rest == files.Keys;
    }
  }

  /** The grants filed under some names. */
  function Held(files: map<(string, string), ShareGrant>, names: set<(string, string)>): set<ShareGrant> {
    set name | name in names && name in files :: files[name]
  }

  lemma HeldGrows(files: map<(string, string), ShareGrant>, names: set<(string, string)>, name: (string, string))
    requires name in files
    ensures Held(files, names + {name}) == Held(files, names) + {files[name]}
  {
  }

  predicate Addresses(g: ShareGrant, caller: Caller) {
    || (g.granteeType == User && caller.userId == Some(g.granteeId))
    || (g.granteeType == Tenant && caller.tenantId == Some(g.granteeId))
  }

  /** The rule: public, or an authenticated caller of the owning tenant, or one
      with a grant to the user or to the user's tenant. */
  ghost predicate MayView(record: Record, caller: Caller, grants: set<ShareGrant>) {
    || record.visibility == Public
    || (caller.userId.Some?
        && (|| caller.tenantId == Some(record.ownerTenant)
            || exists g :: g in grants && g.skillId == record.id && Addresses(g, caller)))
  }

  /** The rule as the documentation words it, which does not ask for authentication. */
  ghost predicate DocumentedRule(record: Record, caller: Caller, grants: set<ShareGrant>) {
    || record.visibility == Public
    || caller.tenantId == Some(record.ownerTenant)
    || exists g :: g in grants && g.skillId == record.id && Reaches(g, caller.userId, caller.tenantId)
  }

  /** A grant names the user, or the user's tenant. */
  predicate Reaches(g: ShareGrant, userId: Option<string>, tenantId: Option<string>) {
    match g.granteeType
    case User => userId == Some(g.granteeId)
    case Tenant => tenantId == Some(g.granteeId)
  }

  /** The code follows the documented rule for every record exactly for callers
      that are authenticated or name no tenant. */
  lemma DocumentedRuleIff(caller: Caller, some: Record, grants: set<ShareGrant>)
    ensures (forall record :: MayView(record, caller, grants) <==> DocumentedRule(record, caller, grants))
            <==> caller.userId.Some? || caller.tenantId.None?
  {
    if caller.userId.None? && caller.tenantId.Some? {
      var record := some.(visibility := Private, ownerTenant := caller.tenantId.value);
      assert DocumentedRule(record, caller, grants) && !MayView(record, caller, grants);
    } else {
      forall record
        ensures MayView(record, caller, grants) <==> DocumentedRule(record, caller, grants)
      {
      }
    }
  }

  /** What a decoded token says; `patId` names a personal access token. */
  datatype Claims = Claims(subject: string, tenant: Option<string>, patId: Option<string>)

  const ANONYMOUS := Caller(None, None)

  /** Every caller there is: without a token that decodes, or with a revoked
      personal access token, a request is anonymous. */
  function ResolveCallerContext(token: string, decode: string -> Option<Claims>, pats: set<string>): Caller {
    if token == "" || decode(token).None? then ANONYMOUS
    else
      var claims := decode(token).value;
      if claims.patId.Some? && claims.patId.value !in pats then ANONYMOUS
      else Caller(Some(claims.subject), claims.tenant)
  }

  /** A token counts when it decodes and does not name a revoked access token. */
  predicate Accepted(token: string, decode: string -> Option<Claims>, pats: set<string>) {
    token != "" && decode(token).Some? && (decode(token).value.patId.Some? ==> decode(token).value.patId.value in pats)
  }

  /** For every caller a request can have, the code decides the documented rule. */
  lemma CallersFollowDocumentedRule(token: string, decode: string -> Option<Claims>, pats: set<string>,
                                    record: Record, grants: GrantStore?, visible: Option<set<string>>)
    requires grants != null ==> grants.Valid()
    requires var caller := ResolveCallerContext(token, decode, pats);
             visible.Some? ==> GrantedIds(visible.value, caller, GrantsOf(grants))
    ensures var caller := ResolveCallerContext(token, decode, pats);
            CanView(record, caller, grants, visible) <==> DocumentedRule(record, caller, GrantsOf(grants))
    // On the token itself: who is let in.
    ensures var caller := ResolveCallerContext(token, decode, pats);
            CanView(record, caller, grants, visible) <==>
            || record.visibility == Public
            || (Accepted(token, decode, pats)
                && var claims := decode(token).value;
                   || claims.tenant == Some(record.ownerTenant)
                   || exists g :: g in GrantsOf(grants) && g.skillId == record.id && Reaches(g, Some(claims.subject), claims.tenant))
  {
    var caller := ResolveCallerContext(token, decode, pats);
    hide CanView;
    CanViewIsMayView(record, caller, grants, visible);
    DocumentedRuleIff(caller, record, GrantsOf(grants));
  }

  /** The ids a caller reaches through grants. */
  ghost predicate GrantedIds(ids: set<string>, caller: Caller, grants: set<ShareGrant>) {
    forall id :: id in ids <==> caller.userId.Some? && exists g :: g in grants && g.skillId == id && Addresses(g, caller)
  }

  method VisibleSkillIdsViaGrants(caller: Caller, grants: GrantStore) returns (ids: set<string>)
    ensures GrantedIds(ids, caller, grants.All())
  {
    if caller.userId.None? {
      return {};
    }
    var forUser := grants.ListForGrantee(User, caller.userId.value);
    ids := set g | g in forUser :: g.skillId;
    if caller.tenantId.Some? {
      var forTenant := grants.ListForGrantee(Tenant, caller.tenantId.value);
      ids := ids + set g | g in forTenant :: g.skillId;
    }
  }

  /** `visible` is the per-request cache; without it the grants of the one skill are scanned. */
  predicate CanView(record: Record, caller: Caller, grants: GrantStore?, visible: Option<set<string>>)
    reads grants
  {
    if record.visibility == Public then true
    else if !caller.IsAuthenticated() then false
    else if caller.tenantId.Some? && record.ownerTenant == caller.tenantId.value then true
    else if visible.Some? then record.id in visible.value
    else if grants == null then false
    else exists g :: g in grants.ListForSkill(record.id) && Addresses(g, caller)
  }

  ghost function GrantsOf(grants: GrantStore?): set<ShareGrant>
    reads grants
  {
    if grants == null then {} else grants.All()
  }

  /** Both ways of checking a grant decide the same rule. */
  lemma CanViewIsMayView(record: Record, caller: Caller, grants: GrantStore?, visible: Option<set<string>>)
    requires grants != null ==> grants.Valid()
    requires visible.Some? ==> GrantedIds(visible.value, caller, GrantsOf(grants))
    ensures CanView(record, caller, grants, visible) <==> MayView(record, caller, GrantsOf(grants))
  {
    if grants != null {
      forall g
        ensures g in grants.ListForSkill(record.id) <==> g in grants.All() && g.skillId == record.id
      {
        if g in grants.All() && g.skillId == record.id {
          var name :| name in grants.files && grants.files[name] == g;
          assert name.0 == record.id;
        }
      }
    }
  }
}
