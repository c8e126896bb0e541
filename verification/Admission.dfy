/** Capacity admission (internal/daemon/server.go): the plan that was meant, the plan that is built, and the gap. */
module Admission {
  import opened Projects
  import opened Capacity
  import opened Store

  function PlanOf(row: SiteRow): SitePlan {
    SitePlan(row.id, row.brokerKind, row.throughput, row.direction)
  }

  function PlansOf(rows: seq<SiteRow>, tenantId: string): seq<SitePlan> {
    if rows == [] then []
    else PlansOf(rows[..|rows| - 1], tenantId) +
         (if rows[|rows| - 1].tenantId == tenantId then [PlanOf(rows[|rows| - 1])] else [])
  }

  // Every tenant with all its sites.
  function RegistryPlan(t: Tables): seq<TenantPlan> {
    seq(|t.tenants|, i requires 0 <= i < |t.tenants| => TenantPlan(t.tenants[i].id, PlansOf(t.sites, t.tenants[i].id)))
  }

  // Every tenant without its sites: the copies that admissionCheck takes before it fills the originals in.
  function BarePlan(t: Tables): seq<TenantPlan> {
    seq(|t.tenants|, i requires 0 <= i < |t.tenants| => TenantPlan(t.tenants[i].id, []))
  }

  // The proposed addition: a site of the first plan with that tenant id, or a new tenant.
  function AddProposal(plan: seq<TenantPlan>, tenantId: string, site: Option<SitePlan>): seq<TenantPlan> {
    if plan == [] then [TenantPlan(tenantId, if site.Some? then [site.value] else [])]
    else if plan[0].tenantId == tenantId then
      (if site.Some? then [plan[0].(sites := plan[0].sites + [site.value])] else [plan[0]]) + plan[1..]
    else [plan[0]] + AddProposal(plan[1..], tenantId, site)
  }

  function IntendedPlan(t: Tables, tenantId: string, site: Option<SitePlan>): seq<TenantPlan> {
    AddProposal(RegistryPlan(t), tenantId, site)
  }

  function WrittenPlan(t: Tables, tenantId: string, site: Option<SitePlan>): seq<TenantPlan> {
    AddProposal(BarePlan(t), tenantId, site)
  }

  // Predict without error, within the limit.
  predicate Admits(plan: seq<TenantPlan>, memTotalKB: int) {
    AllKnown(plan) && ProjectedMB(plan) <= MaxAllowedMB(memTotalKB)
  }

  // ---- What a plan adds up to ----

  function RowsMB(rows: seq<SiteRow>): nat {
    if rows == [] then 0 else RowsMB(rows[..|rows| - 1]) + SiteMB(PlanOf(rows[|rows| - 1]))
  }

  // The part of RowsMB whose tenant is among `ids`.
  function RowsOfMB(rows: seq<SiteRow>, ids: set<string>): nat {
    if rows == [] then 0
    else
      var last := rows[|rows| - 1];
      RowsOfMB(rows[..|rows| - 1], ids) + (if last.tenantId in ids then SiteMB(PlanOf(last)) else 0)
  }

  lemma {:induction false} PlansOfMB(rows: seq<SiteRow>, id: string)
    ensures SitesMB(PlansOf(rows, id)) == RowsOfMB(rows, {id})
  {
    if rows != [] {
      var last := rows[|rows| - 1];
      var before := PlansOf(rows[..|rows| - 1], id);
      PlansOfMB(rows[..|rows| - 1], id);
      SitesAppend(before, [PlanOf(last)]);
      OneSiteMB(PlanOf(last));
      assert before + [] == before;
    }
  }

  lemma {:induction false} RowsOfSplit(rows: seq<SiteRow>, ids: set<string>, id: string)
    requires id !in ids
    ensures RowsOfMB(rows, ids + {id}) == RowsOfMB(rows, ids) + RowsOfMB(rows, {id})
  {
    if rows != [] {
      RowsOfSplit(rows[..|rows| - 1], ids, id);
    }
  }

  lemma {:induction false} RowsOfAll(rows: seq<SiteRow>, ids: set<string>)
    requires forall i :: 0 <= i < |rows| ==> rows[i].tenantId in ids
    ensures RowsOfMB(rows, ids) == RowsMB(rows)
  {
    if rows != [] {
      RowsOfAll(rows[..|rows| - 1], ids);
    }
  }

  lemma {:induction false} RowsOfNone(rows: seq<SiteRow>)
    ensures RowsOfMB(rows, {}) == 0
  {
    if rows != [] {
      RowsOfNone(rows[..|rows| - 1]);
    }
  }

  // The ids of the first `n` tenants.
  function Ids(t: Tables, n: nat): set<string>
    requires n <= |t.tenants|
  {
    set i | 0 <= i < n :: t.tenants[i].id
  }

  lemma OneMoreId(t: Tables, n: nat)
    requires Integrity(t) && 0 < n <= |t.tenants|
    ensures Ids(t, n) == Ids(t, n - 1) + {t.tenants[n - 1].id} && t.tenants[n - 1].id !in Ids(t, n - 1)
  {
  }

  lemma {:induction false} PlanPrefixMB(t: Tables, n: nat)
    requires Integrity(t) && n <= |t.tenants|
    ensures ProjectedMB(RegistryPlan(t)[..n]) == n * PER_TENANT_TSDB_MB + RowsOfMB(t.sites, Ids(t, n))
  {
    if n == 0 {
      assert Ids(t, n) == {};
      RowsOfNone(t.sites);
    } else {
      var id := t.tenants[n - 1].id;
      PlanPrefixMB(t, n - 1);
      OneMoreId(t, n);
      RowsOfSplit(t.sites, Ids(t, n - 1), id);
      PlansOfMB(t.sites, id);
      ProjectedPrefix(RegistryPlan(t), n - 1);
    }
  }

  // The registry's projection: 350 MB a tenant and the profile of every site, each counted once.
  lemma RegistryMB(t: Tables)
    requires Integrity(t)
    ensures ProjectedMB(RegistryPlan(t)) == |t.tenants| * PER_TENANT_TSDB_MB + RowsMB(t.sites)
  {
    var n := |t.tenants|;
    PlanPrefixMB(t, n);
    assert RegistryPlan(t)[..n] == RegistryPlan(t);
    forall i | 0 <= i < |t.sites| ensures t.sites[i].tenantId in Ids(t, n) {
      assert HasTenant(t, t.sites[i].tenantId);
    }
    RowsOfAll(t.sites, Ids(t, n));
  }

  lemma {:induction false} BareMB(t: Tables, n: nat)
    requires n <= |t.tenants|
    ensures ProjectedMB(BarePlan(t)[..n]) == n * PER_TENANT_TSDB_MB
  {
    if n > 0 {
      BareMB(t, n - 1);
      ProjectedPrefix(BarePlan(t), n - 1);
    }
  }

  function ProposalMB(site: Option<SitePlan>): nat {
    if site.Some? then SiteMB(site.value) else 0
  }

  predicate Names(plan: seq<TenantPlan>, tenantId: string) {
    exists i :: 0 <= i < |plan| && plan[i].tenantId == tenantId
  }

  lemma OneTenantMB(p: TenantPlan)
    ensures ProjectedMB([p]) == PER_TENANT_TSDB_MB + SitesMB(p.sites)
  {
    assert [p][..0] == [];
  }

  lemma OneSiteMB(s: SitePlan)
    ensures SitesMB([s]) == SiteMB(s)
  {
    assert [s][..0] == [];
  }

  lemma {:induction false} ProposalAdds(plan: seq<TenantPlan>, tenantId: string, site: Option<SitePlan>)
    ensures ProjectedMB(AddProposal(plan, tenantId, site)) ==
            ProjectedMB(plan) + ProposalMB(site) + (if Names(plan, tenantId) then 0 else PER_TENANT_TSDB_MB)
  {
    if site.Some? { OneSiteMB(site.value); }
    if plan == [] {
      OneTenantMB(AddProposal(plan, tenantId, site)[0]);
    } else {
      var rest := plan[1..];
      assert plan == [plan[0]] + rest;
      ProjectedAppend([plan[0]], rest);
      OneTenantMB(plan[0]);
      if plan[0].tenantId == tenantId {
        var first := AddProposal(plan, tenantId, site)[0];
        assert AddProposal(plan, tenantId, site) == [first] + rest;
        ProjectedAppend([first], rest);
        OneTenantMB(first);
        if site.Some? { SitesAppend(plan[0].sites, [site.value]); }
      } else {
        ProposalAdds(rest, tenantId, site);
        ProjectedAppend([plan[0]], AddProposal(rest, tenantId, site));
        assert Names(plan, tenantId) <==> Names(rest, tenantId) by {
          if i :| 0 <= i < |plan| && plan[i].tenantId == tenantId {
            assert rest[i - 1].tenantId == tenantId;
          }
        }
      }
    }
  }

  lemma PlansNameTenants(t: Tables, id: string)
    ensures Names(RegistryPlan(t), id) <==> HasTenant(t, id)
    ensures Names(BarePlan(t), id) <==> HasTenant(t, id)
  {
    var full, bare := RegistryPlan(t), BarePlan(t);
    assert forall i :: 0 <= i < |t.tenants| ==> full[i].tenantId == bare[i].tenantId == t.tenants[i].id;
  }

  // The gap, exactly: the plan that is built falls short of the intended one by the RSS of all existing sites.
  lemma WrittenPlanOmitsExistingSites(t: Tables, tenantId: string, site: Option<SitePlan>)
    requires Integrity(t)
    ensures ProjectedMB(IntendedPlan(t, tenantId, site)) ==
      ProjectedMB(WrittenPlan(t, tenantId, site)) + RowsMB(t.sites)
    ensures ProjectedMB(IntendedPlan(t, tenantId, site)) ==
            (|t.tenants| + if HasTenant(t, tenantId) then 0 else 1) * PER_TENANT_TSDB_MB
            + RowsMB(t.sites) + ProposalMB(site)
  {
    RegistryMB(t);
    BareMB(t, |t.tenants|);
    assert BarePlan(t)[..|t.tenants|] == BarePlan(t);
    ProposalAdds(RegistryPlan(t), tenantId, site);
    ProposalAdds(BarePlan(t), tenantId, site);
    PlansNameTenants(t, tenantId);
  }

  // With a predictable registry the two checks differ exactly when the existing sites make the difference.
  lemma WrittenCheckIsRightIff(t: Tables, tenantId: string, site: Option<SitePlan>, memTotalKB: int)
    requires Integrity(t) && AllKnown(IntendedPlan(t, tenantId, site)) && AllKnown(WrittenPlan(t, tenantId, site))
    ensures var shown := ProjectedMB(WrittenPlan(t, tenantId, site));
            (Admits(WrittenPlan(t, tenantId, site), memTotalKB) <==>
              Admits(IntendedPlan(t, tenantId, site), memTotalKB))
            <==> !(shown <= MaxAllowedMB(memTotalKB) < shown + RowsMB(t.sites))
  {
    WrittenPlanOmitsExistingSites(t, tenantId, site);
  }

  // Admission in numbers, for a plan of either builder: every site has a profile, and the projection is within 85 % of
  // what 530 MB for the host leave of the memory.
  lemma AdmitsIff(plan: seq<TenantPlan>, memTotalKB: int)
    ensures Admits(plan, memTotalKB) <==>
            && (forall i, j :: 0 <= i < |plan| && 0 <= j < |plan[i].sites| ==> Known(plan[i].sites[j]))
            && 20 * ProjectedMB(plan) <= 17 * (if memTotalKB / 1024 < 530 then 0 else memTotalKB / 1024 - 530)
  {
    LimitInNumbers(memTotalKB);
  }

  lemma {:induction false} PlansOfKnown(rows: seq<SiteRow>, id: string)
    requires forall i :: 0 <= i < |rows| ==> Known(PlanOf(rows[i]))
    ensures forall j :: 0 <= j < |PlansOf(rows, id)| ==> Known(PlansOf(rows, id)[j])
  {
    if rows != [] {
      PlansOfKnown(rows[..|rows| - 1], id);
    }
  }

  lemma {:induction false} ProposalKnown(plan: seq<TenantPlan>, tenantId: string, site: Option<SitePlan>)
    requires AllKnown(plan)
    ensures AllKnown(AddProposal(plan, tenantId, site)) <==> (site.Some? ==> Known(site.value))
  {
    var added := AddProposal(plan, tenantId, site);
    if plan == [] {
      if site.Some? { assert added[0].sites[0] == site.value; }
    } else {
      var rest := plan[1..];
      forall i, j | 0 <= i < |rest| && 0 <= j < |rest[i].sites| ensures Known(rest[i].sites[j]) {
        assert rest[i] == plan[i + 1];
      }
      if plan[0].tenantId == tenantId {
        if site.Some? { assert added[0].sites[|plan[0].sites|] == site.value; }
      } else {
        ProposalKnown(rest, tenantId, site);
        var more := AddProposal(rest, tenantId, site);
        if AllKnown(more) {
          forall i, j | 0 <= i < |added| && 0 <= j < |added[i].sites| ensures Known(added[i].sites[j]) {
            if i > 0 { assert added[i] == more[i - 1]; }
          }
        } else {
          var i, j :| 0 <= i < |more| && 0 <= j < |more[i].sites| && !Known(more[i].sites[j]);
          assert added[i + 1] == more[i];
        }
      }
    }
  }

  // ---- The builders as the source writes them ----

  class PlanCell {
    var plan: TenantPlan

    constructor (tenantId: string)
      ensures plan == TenantPlan(tenantId, [])
    {
      plan := TenantPlan(tenantId, []);
    }
  }

  // handleCapacity: one query of sites a tenant, the plan value is appended when it is complete.
  method BuildRegistryPlan(t: Tables) returns (plan: seq<TenantPlan>)
    ensures plan == RegistryPlan(t)
  {
    plan := [];
    for i := 0 to |t.tenants|
      invariant plan == RegistryPlan(t)[..i]
    {
      var tp := TenantPlan(t.tenants[i].id, []);
      for j := 0 to |t.sites|
        invariant tp == TenantPlan(t.tenants[i].id, PlansOf(t.sites[..j], t.tenants[i].id))
      {
        assert t.sites[..j + 1][..j] == t.sites[..j];
        if t.sites[j].tenantId == t.tenants[i].id {
          tp := tp.(sites := tp.sites + [PlanOf(t.sites[j])]);
        }
      }
      assert t.sites[..|t.sites|] == t.sites;
      plan := plan + [tp];
    }
  }

  // admissionCheck: `plan` receives copies of the cells while they are still empty; the sites are then appended
  // through the pointers kept in `seen`, which the copies do not follow.
  method BuildAdmissionPlan(t: Tables, newTenantId: string, newSite: Option<SitePlan>) returns (plan: seq<TenantPlan>)
    requires forall i, j :: 0 <= i < j < |t.tenants| ==> t.tenants[i].id != t.tenants[j].id
    ensures plan == WrittenPlan(t, newTenantId, newSite)
  {
    plan := [];
    var seen: map<string, PlanCell> := map[];
    for i := 0 to |t.tenants|
      invariant plan == BarePlan(t)[..i]
      invariant forall k :: k in seen ==> fresh(seen[k])
      invariant forall k :: k in seen <==> exists j :: 0 <= j < i && t.tenants[j].id == k
    {
      var tp := new PlanCell(t.tenants[i].id);
      seen := seen[t.tenants[i].id := tp];
      plan := plan + [tp.plan];
    }
    assert BarePlan(t)[..|t.tenants|] == BarePlan(t);
    for i := 0 to |t.sites|
      invariant plan == BarePlan(t)
      invariant forall k :: k in seen ==> fresh(seen[k])
      invariant forall k :: k in seen <==> exists j :: 0 <= j < |t.tenants| && t.tenants[j].id == k
    {
      if t.sites[i].tenantId in seen {
        var tp := seen[t.sites[i].tenantId];
        tp.plan := tp.plan.(sites := tp.plan.sites + [PlanOf(t.sites[i])]);
      }
    }
    if newTenantId !in seen {
      NewTenantIsAppended(plan, newTenantId, newSite);
      plan := plan + [TenantPlan(newTenantId, if newSite.Some? then [newSite.value] else [])];
    } else {
      ghost var j :| 0 <= j < |t.tenants| && t.tenants[j].id == newTenantId;
      assert plan[j].tenantId == newTenantId;
      if newSite.Some? {
        for i := 0 to |plan|
          invariant plan == BarePlan(t) && i <= j
          invariant forall k :: 0 <= k < i ==> plan[k].tenantId != newTenantId
        {
          if plan[i].tenantId == newTenantId {
            FirstMatchIsExtended(plan, newTenantId, newSite, i);
            plan := plan[i := plan[i].(sites := plan[i].sites + [newSite.value])];
            return;
          }
        }
      } else {
        NoSiteChangesNothing(plan, newTenantId);
      }
    }
  }

  lemma {:induction false} NewTenantIsAppended(plan: seq<TenantPlan>, tenantId: string, site: Option<SitePlan>)
    requires !Names(plan, tenantId)
    ensures AddProposal(plan, tenantId, site) == plan + [TenantPlan(tenantId, if site.Some? then [site.value] else [])]
  {
    if plan != [] {
      assert plan[0].tenantId != tenantId;
      NewTenantIsAppended(plan[1..], tenantId, site);
    }
  }

  lemma {:induction false} FirstMatchIsExtended(plan: seq<TenantPlan>, tenantId: string, site: Option<SitePlan>, i: nat)
    requires i < |plan| && plan[i].tenantId == tenantId && site.Some?
    requires forall k :: 0 <= k < i ==> plan[k].tenantId != tenantId
    ensures AddProposal(plan, tenantId, site) == plan[i := plan[i].(sites := plan[i].sites + [site.value])]
  {
    if i > 0 {
      FirstMatchIsExtended(plan[1..], tenantId, site, i - 1);
    }
  }

  lemma {:induction false} NoSiteChangesNothing(plan: seq<TenantPlan>, tenantId: string)
    requires Names(plan, tenantId)
    ensures AddProposal(plan, tenantId, None) == plan
  {
    if plan[0].tenantId != tenantId {
      NoSiteChangesNothing(plan[1..], tenantId);
    }
  }
}
