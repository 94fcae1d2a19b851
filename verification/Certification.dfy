/** Guardrail policies, the checks one skill ends up running, and the level a
    scan certifies. */
module Certification {
  import opened Registry
  import opened Ordering

  datatype Definition = Definition(id: string, level: nat, mandatory: bool, defaultEnabled: bool)
  type Catalog = seq<Definition>

  /** Check ids of the findings of one scan. */
  datatype Scan = Scan(blocking: seq<string>, warnings: seq<string>) {
    function Findings(): set<string> {
      (set i | i in blocking) + (set i | i in warnings)
    }
  }

  const TOP_LEVEL := 4

  datatype LevelStatus = Certified | AttemptedWithFindings | NotAttempted

  datatype Certificate = Certificate(highest: nat, statuses: seq<(nat, LevelStatus)>, warnings: seq<string>)

  function Known(catalog: Catalog): set<string> {
    set d | d in catalog :: d.id
  }

  function Mandatory(catalog: Catalog): set<string> {
    set d | d in catalog && d.mandatory :: d.id
  }

  function OfLevel(catalog: Catalog, level: nat): set<string> {
    set d | d in catalog && d.level == level :: d.id
  }

  /** A level is certified when all its checks ran and none found anything. */
  ghost predicate IsCertified(catalog: Catalog, enabled: set<string>, findings: set<string>, level: nat) {
    forall d :: d in catalog && d.level == level ==>
      (d.id in enabled || exists e :: e in catalog && e.mandatory && e.id == d.id) && d.id !in findings
  }

  /** The greatest level with itself and every level below it certified. */
  ghost predicate IsHighest(catalog: Catalog, enabled: set<string>, findings: set<string>, highest: nat) {
    && highest <= 4
    && (forall level :: 1 <= level <= highest ==> IsCertified(catalog, enabled, findings, level))
    && (highest < 4 ==> !IsCertified(catalog, enabled, findings, highest + 1))
  }

  function StatusAt(catalog: Catalog, attempted: set<string>, findings: set<string>, level: nat): LevelStatus {
    if !(OfLevel(catalog, level) <= attempted) then NotAttempted
    else if OfLevel(catalog, level) * findings != {} then AttemptedWithFindings
    else Certified
  }

  lemma CertifiedStatus(catalog: Catalog, enabled: set<string>, findings: set<string>, level: nat)
    ensures StatusAt(catalog, enabled + Mandatory(catalog), findings, level) == Certified <==> IsCertified(catalog, enabled, findings, level)
    ensures StatusAt(catalog, enabled + Mandatory(catalog), findings, level) == NotAttempted
            <==> exists d :: d in catalog && d.level == level && d.id !in enabled && forall e :: e in catalog && e.mandatory ==> e.id != d.id
  {
    StatusIsAttempted(catalog, enabled, findings, level);
    var ids := OfLevel(catalog, level);
    if IsCertified(catalog, enabled, findings, level) {
      forall i | i in ids
        ensures i in enabled + Mandatory(catalog) && i !in findings
      {
        var d :| d in catalog && d.level == level && d.id == i;
      }
    } else {
      var d :| d in catalog && d.level == level &&
        !((d.id in enabled || exists e :: e in catalog && e.mandatory && e.id == d.id) && d.id !in findings);
      assert d.id in ids;
      assert d.id in findings ==> d.id in ids * findings;
    }
  }

  lemma StatusIsAttempted(catalog: Catalog, enabled: set<string>, findings: set<string>, level: nat)
    ensures StatusAt(catalog, enabled + Mandatory(catalog), findings, level) == NotAttempted
            <==> exists d :: d in catalog && d.level == level && d.id !in enabled && forall e :: e in catalog && e.mandatory ==> e.id != d.id
  {
    if d :| d in catalog && d.level == level && d.id !in enabled && forall e :: e in catalog && e.mandatory ==> e.id != d.id {
      assert d.id in OfLevel(catalog, level) && d.id !in enabled + Mandatory(catalog);
    }
  }

  method ComputeCertification(scan: Option<Scan>, enabled: set<string>, catalog: Catalog) returns (r: Option<Certificate>)
    ensures r.None? <==> scan.None?
    ensures r.Some? ==>
              && IsHighest(catalog, enabled, (set i | i in scan.value.blocking + scan.value.warnings), r.value.highest)
              && |r.value.statuses| == 4
              && (forall i :: 0 <= i < 4 ==>
                    r.value.statuses[i] == (i + 1, StatusAt(catalog, enabled + Mandatory(catalog), scan.value.Findings(), i + 1)))
              && (forall i :: 0 <= i < 4 ==>
                    (r.value.statuses[i].1 == Certified
                     <==> IsCertified(catalog, enabled, (set f | f in scan.value.blocking + scan.value.warnings), i + 1)))
              && (forall i :: 0 <= i < 4 ==>
                    (r.value.statuses[i].1 == NotAttempted
                     <==> exists d :: d in catalog && d.level == i + 1 && d.id !in enabled
                                      && forall e :: e in catalog && e.mandatory ==> e.id != d.id))
              && ListsStrings(r.value.warnings, set i | i in scan.value.warnings)
  {
    if scan.None? {
      return None;
    }
    hide ListsStrings, StatusAt, IsCertified;
    var attempted := enabled + Mandatory(catalog);
    var findings := scan.value.Findings();
    var warnings := SortStrings(set i | i in scan.value.warnings);
    var statuses: seq<(nat, LevelStatus)> := [];
    for level := 1 to TOP_LEVEL + 1
      invariant |statuses| == level - 1
      invariant forall i :: 0 <= i < |statuses| ==> statuses[i] == (i + 1, StatusAt(catalog, attempted, findings, i + 1))
    {
      statuses := statuses + [(level, StatusAt(catalog, attempted, findings, level))];
    }
    var highest := 0;
    var i := 0;
    while i < |statuses|
      invariant 0 <= i <= |statuses| && highest == i
      invariant forall level :: 1 <= level <= i ==> IsCertified(catalog, enabled, findings, level)
      decreases |statuses| - i
    {
      CertifiedStatus(catalog, enabled, findings, i + 1);
      if statuses[i].1 != Certified {
        break;
      }
      highest := statuses[i].0;
      i := i + 1;
    }
    r := Some(Certificate(highest, statuses, warnings));
    assert findings == set f | f in scan.value.blocking + scan.value.warnings;
    forall level: nat
      ensures StatusAt(catalog, attempted, findings, level) == Certified <==> IsCertified(catalog, enabled, findings, level)
      ensures StatusAt(catalog, attempted, findings, level) == NotAttempted
              <==> exists d :: d in catalog && d.level == level && d.id !in enabled && forall e :: e in catalog && e.mandatory ==> e.id != d.id
    {
      CertifiedStatus(catalog, enabled, findings, level);
    }
  }

  /** More enabled checks and fewer findings never lower the level. */
  lemma LevelIsMonotone(catalog: Catalog, e1: set<string>, f1: set<string>, n1: nat, e2: set<string>, f2: set<string>, n2: nat)
    requires e1 <= e2 && f2 <= f1
    requires IsHighest(catalog, e1, f1, n1) && IsHighest(catalog, e2, f2, n2)
    ensures n1 <= n2
  {
    if n2 < n1 {
      assert IsCertified(catalog, e1, f1, n2 + 1);
      assert IsCertified(catalog, e2, f2, n2 + 1);
    }
  }

  // Policies.

  class GuardrailPolicyStore {
    var stored: map<string, set<string>>

    constructor ()
      ensures stored == map[]
    {
      stored := map[];
    }

    function Get(tenant: string, catalog: Catalog): (enabled: set<string>)
      reads this
      ensures tenant in stored ==> enabled == stored[tenant]
      ensures tenant !in stored ==>
                forall id :: id in enabled <==> exists d :: d in catalog && d.id == id && (d.mandatory || d.defaultEnabled)
    {
      if tenant in stored then stored[tenant] else set d | d in catalog && (d.mandatory || d.defaultEnabled) :: d.id
    }

    /** Refuses unknown checks; drops mandatory ones, which run regardless. */
    method Put(tenant: string, enabled: set<string>, catalog: Catalog) returns (ok: bool)
      modifies this
      ensures ok <==> forall id :: id in enabled ==> exists d :: d in catalog && d.id == id
      ensures ok ==> tenant in stored && forall id ::
                id in stored[tenant] <==> id in enabled && forall d :: d in catalog && d.mandatory ==> d.id != id
      ensures ok ==> stored == old(stored)[tenant := enabled - Mandatory(catalog)]
      ensures !ok ==> stored == old(stored)
      ensures ok ==> forall findings, n ::
                IsHighest(catalog, enabled, findings, n) <==> IsHighest(catalog, Get(tenant, catalog), findings, n)
    {
      ok := enabled <= Known(catalog);
      if ok {
        stored := stored[tenant := enabled - Mandatory(catalog)];
        forall findings, n
          ensures IsHighest(catalog, enabled, findings, n) <==> IsHighest(catalog, Get(tenant, catalog), findings, n)
        {
          DroppingMandatoryChangesNothing(catalog, enabled, findings, n);
        }
      }
    }
  }

  /** Dropping mandatory checks from a policy never changes the level. */
  lemma DroppingMandatoryChangesNothing(catalog: Catalog, enabled: set<string>, findings: set<string>, n: nat)
    ensures IsHighest(catalog, enabled, findings, n) <==> IsHighest(catalog, enabled - Mandatory(catalog), findings, n)
  {
    forall level: nat
      ensures IsCertified(catalog, enabled, findings, level) <==> IsCertified(catalog, enabled - Mandatory(catalog), findings, level)
    {
      forall d | d in catalog
        ensures d.id in enabled && d.id !in enabled - Mandatory(catalog) ==> exists e :: e in catalog && e.mandatory && e.id == d.id
      {
      }
    }
  }

  // A skill's own configuration.

  datatype Rule = Rule(id: string, slug: string)
  datatype Applied = Applied(enabled: set<string>, rules: seq<Rule>)

  /** `inlineRules` are the slugs a skill defines for itself. */
  datatype SkillConfig = SkillConfig(applied: seq<string>, inlineRules: seq<string>)

  function Prefix(tenant: string): string {
    "custom:" + tenant + ":"
  }

  /** The tenant's stored rule an id names, if any. */
  function TenantRule(tenant: string, rules: map<(string, string), Rule>, id: string): Option<Rule> {
    var prefix := Prefix(tenant);
    if |id| >= |prefix| && id[..|prefix|] == prefix && (tenant, id[|prefix|..]) in rules
    then Some(rules[(tenant, id[|prefix|..])])
    else None
  }

  predicate IsKnownRule(tenant: string, catalogIds: set<string>, rules: map<(string, string), Rule>, id: string) {
    id in catalogIds || TenantRule(tenant, rules, id).Some?
  }

  function TenantRules(tenant: string, catalogIds: set<string>, rules: map<(string, string), Rule>, ids: seq<string>): seq<Rule> {
    if ids == [] then []
    else
      var front, last := ids[..|ids| - 1], ids[|ids| - 1];
      TenantRules(tenant, catalogIds, rules, front) +
      if last !in catalogIds && TenantRule(tenant, rules, last).Some? then [TenantRule(tenant, rules, last).value] else []
  }

  /** A tenant's rule is named by the tenant and its slug, and by nothing else. */
  lemma TenantRuleIff(tenant: string, rules: map<(string, string), Rule>, id: string)
    ensures forall slug :: id == "custom:" + tenant + ":" + slug ==>
              TenantRule(tenant, rules, id) == if (tenant, slug) in rules then Some(rules[(tenant, slug)]) else None
    ensures TenantRule(tenant, rules, id).Some? ==> exists slug :: id == "custom:" + tenant + ":" + slug && (tenant, slug) in rules
  {
    var prefix := Prefix(tenant);
    forall slug | id == "custom:" + tenant + ":" + slug
      ensures |id| >= |prefix| && id[..|prefix|] == prefix && id[|prefix|..] == slug
    {
    }
    if TenantRule(tenant, rules, id).Some? {
      assert id == prefix + id[|prefix|..];
    }
  }

  /** The rules a skill defines for itself, in order, under its tenant's and its own name. */
  function Inline(tenant: string, skill: string, slugs: seq<string>): (rules: seq<Rule>)
    ensures |rules| == |slugs|
    ensures forall i :: 0 <= i < |slugs| ==> rules[i] == Rule("custom:" + tenant + ":" + skill + ":" + slugs[i], slugs[i])
  {
    seq(|slugs|, i requires 0 <= i < |slugs| => Rule("custom:" + tenant + ":" + skill + ":" + slugs[i], slugs[i]))
  }

  /** Every id is a catalog check or names a stored rule of the tenant. */
  ghost predicate AllNamed(tenant: string, catalogIds: set<string>, rules: map<(string, string), Rule>, ids: seq<string>) {
    forall id :: id in ids ==>
      id in catalogIds || exists slug :: id == "custom:" + tenant + ":" + slug && (tenant, slug) in rules
  }

  /** The rules come in the order in which they are named, and an id names at most one. */
  lemma RulesInOrder(tenant: string, catalogIds: set<string>, rules: map<(string, string), Rule>, ids: seq<string>, slug: string)
    ensures TenantRules(tenant, catalogIds, rules, []) == []
    ensures forall id :: id in catalogIds ==> TenantRules(tenant, catalogIds, rules, ids + [id]) == TenantRules(tenant, catalogIds, rules, ids)
    ensures var id := "custom:" + tenant + ":" + slug;
            id !in catalogIds && (tenant, slug) in rules ==>
              TenantRules(tenant, catalogIds, rules, ids + [id]) == TenantRules(tenant, catalogIds, rules, ids) + [rules[(tenant, slug)]]
  {
    var id := "custom:" + tenant + ":" + slug;
    TenantRuleIff(tenant, rules, id);
    hide TenantRule;
    forall last
      ensures (ids + [last])[..|ids|] == ids && (ids + [last])[|ids|] == last
    {
    }
  }

  lemma KnownRulesIff(tenant: string, catalogIds: set<string>, rules: map<(string, string), Rule>, ids: seq<string>)
    ensures (forall id :: id in ids ==> IsKnownRule(tenant, catalogIds, rules, id)) <==> AllNamed(tenant, catalogIds, rules, ids)
  {
    forall id | id in ids
      ensures IsKnownRule(tenant, catalogIds, rules, id) <==>
                id in catalogIds || exists slug :: id == "custom:" + tenant + ":" + slug && (tenant, slug) in rules
    {
      TenantRuleIff(tenant, rules, id);
    }
  }

  /** A skill's configuration only adds to its tenant's policy, and an id that is
      neither a catalog check nor a rule of this tenant refuses the whole of it. */
  method ResolveGuardrailsForSkill(
    tenant: string, skill: string, policy: set<string>, catalogIds: set<string>, config: SkillConfig, rules: map<(string, string), Rule>)
    returns (r: Option<Applied>)
    ensures r.Some? <==> forall id :: id in config.applied ==> IsKnownRule(tenant, catalogIds, rules, id)
    ensures r.Some? ==>
              && r.value.enabled == policy + (set id | id in config.applied && id in catalogIds)
              && r.value.rules == TenantRules(tenant, catalogIds, rules, config.applied)
                                  + Inline(tenant, skill, config.inlineRules)
    ensures r.Some? <==> AllNamed(tenant, catalogIds, rules, config.applied)
  {
    KnownRulesIff(tenant, catalogIds, rules, config.applied);
    hide TenantRule, AllNamed;
    var enabled := policy;
    var custom: seq<Rule> := [];
    var ids := config.applied;
    for i := 0 to |ids|
      invariant forall id :: id in ids[..i] ==> IsKnownRule(tenant, catalogIds, rules, id)
      invariant enabled == policy + (set id | id in ids[..i] && id in catalogIds)
      invariant custom == TenantRules(tenant, catalogIds, rules, ids[..i])
    {
      assert ids[..i + 1] == ids[..i] + [ids[i]];
      if ids[i] in catalogIds {
        enabled := enabled + {ids[i]};
      } else {
        var rule := TenantRule(tenant, rules, ids[i]);
        if rule.None? {
          assert ids[i] in config.applied;
          return None;
        }
        custom := custom + [rule.value];
      }
    }
    assert ids[..|ids|] == config.applied;
    assert enabled == policy + (set id | id in config.applied && id in catalogIds);
    hide IsKnownRule, TenantRules;
    var tenants := custom;
    for i := 0 to |config.inlineRules|
      invariant custom == tenants + Inline(tenant, skill, config.inlineRules[..i])
    {
      custom := custom + [Rule(Prefix(tenant) + skill + ":" + config.inlineRules[i], config.inlineRules[i])];
      assert config.inlineRules[..i + 1] == config.inlineRules[..i] + [config.inlineRules[i]];
    }
    assert config.inlineRules[..|config.inlineRules|] == config.inlineRules;
    r := Some(Applied(enabled, custom));
  }

  /** For one scan, a skill's own configuration never lowers its level. */
  lemma OwnConfigNeverLowers(catalog: Catalog, policy: set<string>, applied: seq<string>, findings: set<string>, before: nat, after: nat)
    requires IsHighest(catalog, policy, findings, before)
    requires IsHighest(catalog, policy + (set id | id in applied && id in Known(catalog)), findings, after)
    ensures before <= after
  {
    LevelIsMonotone(catalog, policy, findings, before, policy + (set id | id in applied && id in Known(catalog)), findings, after);
  }
}
