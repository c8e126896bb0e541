/** The static RSS table and capacity prediction (internal/capacity/profile.go). Sizes are in MB. */
module Capacity {
  import opened Projects

  datatype Key = Key(brokerKind: string, tier: string, direction: string)
  datatype Profile = Profile(brokerMB: nat, ingestMB: nat)
  {
    function TotalMB(): nat { brokerMB + ingestMB }
  }

  const HOST_OVERHEAD_MB := 530
  const PER_TENANT_TSDB_MB: nat := 350

  const PROFILES: map<Key, Profile> := map[
    Key("mosquitto", "low", "uni") := Profile(20, 60),
    Key("mosquitto", "low", "bi") := Profile(20, 80),
    Key("emqx", "low", "uni") := Profile(400, 60),
    Key("emqx", "low", "bi") := Profile(400, 80),
    Key("emqx", "mid", "uni") := Profile(450, 120),
    Key("emqx", "mid", "bi") := Profile(450, 140)]

  function SiteProfile(brokerKind: string, tier: string, direction: string): Option<Profile> {
    var k := Key(brokerKind, tier, direction);
    if k in PROFILES then Some(PROFILES[k]) else None
  }

  datatype SitePlan = SitePlan(siteId: string, brokerKind: string, tier: string, direction: string)
  datatype TenantPlan = TenantPlan(tenantId: string, sites: seq<SitePlan>)

  datatype SiteBreakdown = SiteBreakdown(siteId: string, brokerMB: nat, ingestMB: nat, totalMB: nat)
  datatype TenantBreakdown = TenantBreakdown(tenantId: string, tsdbMB: nat, sitesMB: nat, totalMB: nat,
    sites: seq<SiteBreakdown>)
  datatype Prediction = Prediction(totalUsableMB: nat, maxAllowedMB: nat, projectedMB: nat, admissible: bool,
                                   headroomMB: int, breakdown: seq<TenantBreakdown>)

  predicate Known(s: SitePlan) {
    SiteProfile(s.brokerKind, s.tier, s.direction).Some?
  }

  predicate AllKnown(plan: seq<TenantPlan>) {
    forall i, j :: 0 <= i < |plan| && 0 <= j < |plan[i].sites| ==> Known(plan[i].sites[j])
  }

  // RSS of one site; unknown sites count nothing (Predict refuses them).
  function SiteMB(s: SitePlan): nat {
    match SiteProfile(s.brokerKind, s.tier, s.direction)
    case Some(p) => p.TotalMB()
    case None => 0
  }

  function SitesMB(sites: seq<SitePlan>): nat {
    if sites == [] then 0 else SitesMB(sites[..|sites| - 1]) + SiteMB(sites[|sites| - 1])
  }

  function ProjectedMB(plan: seq<TenantPlan>): nat {
    if plan == [] then 0
    else ProjectedMB(plan[..|plan| - 1]) + PER_TENANT_TSDB_MB + SitesMB(plan[|plan| - 1].sites)
  }

  // Go's int64 division truncates toward zero.
  function TruncDiv(a: int, b: int): int
    requires b > 0
  {
    if a >= 0 then a / b else -((-a) / b)
  }

  function UsableMB(memTotalKB: int): nat {
    var u := TruncDiv(memTotalKB, 1024) - HOST_OVERHEAD_MB;
    if u < 0 then 0 else u
  }

  // int(float64(usable) * 0.85), in exact arithmetic.
  function MaxAllowedMB(memTotalKB: int): nat {
    UsableMB(memTotalKB) * 17 / 20
  }

  // The limit in numbers: 85 % of what 530 MB for the host leave of the memory, rounded down.
  lemma LimitInNumbers(memTotalKB: int)
    ensures UsableMB(memTotalKB) == if memTotalKB / 1024 < 530 then 0 else memTotalKB / 1024 - 530
    ensures 20 * MaxAllowedMB(memTotalKB) <= 17 * UsableMB(memTotalKB) < 20 * MaxAllowedMB(memTotalKB) + 20
    ensures forall mb: int :: mb <= MaxAllowedMB(memTotalKB) <==> 20 * mb <= 17 * UsableMB(memTotalKB)
  {
  }

  // The table in numbers: a site has a profile if and only if it is one of these six.
  lemma ProfileTable(kind: string, tier: string, direction: string)
    ensures SiteProfile(kind, tier, direction) ==
            if kind == "mosquitto" && tier == "low" && direction == "uni" then Some(Profile(20, 60))
            else if kind == "mosquitto" && tier == "low" && direction == "bi" then Some(Profile(20, 80))
            else if kind == "emqx" && tier == "low" && direction == "uni" then Some(Profile(400, 60))
            else if kind == "emqx" && tier == "low" && direction == "bi" then Some(Profile(400, 80))
            else if kind == "emqx" && tier == "mid" && direction == "uni" then Some(Profile(450, 120))
            else if kind == "emqx" && tier == "mid" && direction == "bi" then Some(Profile(450, 140))
            else None
  {
  }

  function BreakdownTotal(b: seq<TenantBreakdown>): nat {
    if b == [] then 0 else BreakdownTotal(b[..|b| - 1]) + b[|b| - 1].totalMB
  }

  // The breakdown line of one tenant adds up and names its sites in order.
  predicate BreakdownOf(tb: TenantBreakdown, t: TenantPlan) {
    && tb.tenantId == t.tenantId && tb.tsdbMB == PER_TENANT_TSDB_MB
    && tb.sitesMB == SitesMB(t.sites) && tb.totalMB == tb.tsdbMB + tb.sitesMB
    && |tb.sites| == |t.sites|
    && forall j :: 0 <= j < |t.sites| ==> SiteLine(tb.sites[j], t.sites[j])
  }

  predicate SiteLine(sb: SiteBreakdown, s: SitePlan) {
    Known(s) && sb.siteId == s.siteId && sb.totalMB == SiteMB(s) == sb.brokerMB + sb.ingestMB
  }

  // The inner loop of Predict: the breakdown line of one tenant, None for a site without a profile row.
  method PredictTenant(t: TenantPlan) returns (tb: Option<TenantBreakdown>)
    ensures tb.Some? <==> forall j :: 0 <= j < |t.sites| ==> Known(t.sites[j])
    ensures tb.Some? ==> BreakdownOf(tb.value, t)
  {
    var sitesMB: nat := 0;
    var sites: seq<SiteBreakdown> := [];
    for j := 0 to |t.sites|
      invariant sitesMB == SitesMB(t.sites[..j]) && |sites| == j
      invariant forall k :: 0 <= k < j ==> SiteLine(sites[k], t.sites[k])
    {
      var p := SiteProfile(t.sites[j].brokerKind, t.sites[j].tier, t.sites[j].direction);
      if p.None? {
        return None;
      }
      sites := sites + [SiteBreakdown(t.sites[j].siteId, p.value.brokerMB, p.value.ingestMB, p.value.TotalMB())];
      assert t.sites[..j + 1][..j] == t.sites[..j];
      sitesMB := sitesMB + p.value.TotalMB();
    }
    assert t.sites[..|t.sites|] == t.sites;
    tb := Some(TenantBreakdown(t.tenantId, PER_TENANT_TSDB_MB, sitesMB, PER_TENANT_TSDB_MB + sitesMB, sites));
  }

  lemma ProjectedPrefix(plan: seq<TenantPlan>, i: nat)
    requires i < |plan|
    ensures ProjectedMB(plan[..i + 1]) == ProjectedMB(plan[..i]) + PER_TENANT_TSDB_MB + SitesMB(plan[i].sites)
  {
    assert plan[..i + 1][..i] == plan[..i];
  }

  lemma KnownPrefix(tenants: seq<TenantPlan>, i: nat)
    requires i < |tenants| && AllKnown(tenants[..i])
    ensures AllKnown(tenants[..i + 1]) <==> forall j :: 0 <= j < |tenants[i].sites| ==> Known(tenants[i].sites[j])
    ensures AllKnown(tenants) ==> AllKnown(tenants[..i + 1])
  {
    assert tenants[..i + 1] == tenants[..i] + [tenants[i]];
    assert tenants[..i + 1][i] == tenants[i];
  }

  // The loop of Predict has dealt with the first `i` tenants.
  predicate PredictedSoFar(tenants: seq<TenantPlan>, i: nat, projected: nat, breakdown: seq<TenantBreakdown>) {
    && i <= |tenants| && AllKnown(tenants[..i])
    && projected == ProjectedMB(tenants[..i]) == BreakdownTotal(breakdown)
    && |breakdown| == i && forall k :: 0 <= k < i ==> BreakdownOf(breakdown[k], tenants[k])
  }

  lemma OneMoreTenant(
    tenants: seq<TenantPlan>, i: nat, projected: nat, breakdown: seq<TenantBreakdown>, tb: TenantBreakdown)
    requires PredictedSoFar(tenants, i, projected, breakdown) && i < |tenants| && BreakdownOf(tb, tenants[i])
    ensures PredictedSoFar(tenants, i + 1, projected + tb.totalMB, breakdown + [tb])
  {
    KnownPrefix(tenants, i);
    ProjectedPrefix(tenants, i);
    assert (breakdown + [tb])[..i] == breakdown;
  }

  // Predict: None is the error for a site without a profile row.
  method Predict(tenants: seq<TenantPlan>, memTotalKB: int) returns (pred: Option<Prediction>)
    ensures pred.Some? <==> AllKnown(tenants)
    ensures pred.Some? ==>
      var p := pred.value;
      && p.totalUsableMB == UsableMB(memTotalKB) && p.maxAllowedMB == MaxAllowedMB(memTotalKB)
      && p.projectedMB == ProjectedMB(tenants) == BreakdownTotal(p.breakdown)
      && (p.admissible <==> ProjectedMB(tenants) <= MaxAllowedMB(memTotalKB))
      && p.headroomMB == p.maxAllowedMB - p.projectedMB
      && |p.breakdown| == |tenants| && forall i :: 0 <= i < |tenants| ==> BreakdownOf(p.breakdown[i], tenants[i])
    ensures pred.Some? ==>
      var p := pred.value;
      && p.totalUsableMB == (if memTotalKB / 1024 < 530 then 0 else memTotalKB / 1024 - 530)
      && 20 * p.maxAllowedMB <= 17 * p.totalUsableMB < 20 * p.maxAllowedMB + 20
      && forall i :: 0 <= i < |tenants| ==> p.breakdown[i].tsdbMB == 350
  {
    var usableMB := TruncDiv(memTotalKB, 1024) - HOST_OVERHEAD_MB;
    if usableMB < 0 {
      usableMB := 0;
    }
    var maxAllowed := usableMB * 17 / 20;
    var projected: nat := 0;
    var breakdown: seq<TenantBreakdown> := [];
    for i := 0 to |tenants|
      invariant PredictedSoFar(tenants, i, projected, breakdown)
    {
      KnownPrefix(tenants, i);
      var tb := PredictTenant(tenants[i]);
      if tb.None? {
        return None;
      }
      OneMoreTenant(tenants, i, projected, breakdown, tb.value);
      projected := projected + tb.value.totalMB;
      breakdown := breakdown + [tb.value];
    }
    assert tenants[..|tenants|] == tenants;
    pred := Some(
      Prediction(usableMB, maxAllowed, projected, projected <= maxAllowed, maxAllowed - projected, breakdown));
  }

  // ---- Order does not matter ----

  lemma {:induction false} ProjectedAppend(a: seq<TenantPlan>, b: seq<TenantPlan>)
    ensures ProjectedMB(a + b) == ProjectedMB(a) + ProjectedMB(b)
  {
    if b == [] {
      assert a + b == a;
    } else {
      assert (a + b)[..|a + b| - 1] == a + b[..|b| - 1];
      ProjectedAppend(a, b[..|b| - 1]);
    }
  }

  lemma {:induction false} SitesAppend(a: seq<SitePlan>, b: seq<SitePlan>)
    ensures SitesMB(a + b) == SitesMB(a) + SitesMB(b)
  {
    if b == [] {
      assert a + b == a;
    } else {
      assert (a + b)[..|a + b| - 1] == a + b[..|b| - 1];
      SitesAppend(a, b[..|b| - 1]);
    }
  }

  // The projection depends on the multiset of tenant plans only.
  lemma {:induction false} TenantOrderIsIrrelevant(a: seq<TenantPlan>, b: seq<TenantPlan>)
    requires multiset(a) == multiset(b)
    ensures ProjectedMB(a) == ProjectedMB(b)
  {
    if a == [] {
      assert |multiset(b)| == 0;
    } else {
      var n := |a| - 1;
      var last := a[n];
      assert last in multiset(b);
      var k :| 0 <= k < |b| && b[k] == last;
      var rest := b[..k] + b[k + 1..];
      assert a == a[..n] + [last];
      assert b == b[..k] + [last] + b[k + 1..];
      assert multiset(a[..n]) == multiset(a) - multiset{last};
      assert multiset(rest) == multiset(b) - multiset{last};
      TenantOrderIsIrrelevant(a[..n], rest);
      ProjectedAppend(b[..k], b[k + 1..]);
      ProjectedAppend(b[..k], [last]);
      ProjectedAppend(b[..k] + [last], b[k + 1..]);
      assert [last][..0] == [] && ProjectedMB([last]) == PER_TENANT_TSDB_MB + SitesMB(last.sites);
    }
  }
}
