/** The request handlers that change the registry (internal/daemon/server.go), as transitions of the tables.

    Requests are served one after the other and the host's memory does not change. */
module Server {
  import opened Projects
  import opened Capacity
  import opened Store
  import opened Admission
  import opened Naming
  import R = Reconciling

  // Which plan admissionCheck looks at: the one that was meant or the one that is built.
  datatype Builder = Intended | Written

  datatype Request =
    | CreateTenantReq(slug: string)
    | PatchRetention(tid: string)
    | DeleteTenantReq(tid: string, purge: bool)
    | StartTenant(tid: string)
    | StopTenant(tid: string)
    | CreateSiteReq(tid: string, slug: string, brokerKind: string, throughput: string, direction: string, codec: string)
    | PatchSiteReq(sid: string, codec: string, direction: string)
    | DeleteSiteReq(tid: string, sid: string, purge: bool)
    | StartSite(tid: string, sid: string)
    | StopSite(tid: string, sid: string)
    | Apply(selector: string)

  // `rendered` is the combined hash when the handler's render succeeds, None when it fails.
  datatype Input = Input(req: Request, rendered: Option<string>)

  function AdmissionPlan(b: Builder, t: Tables, tid: string, site: Option<SitePlan>): seq<TenantPlan> {
    if b == Intended then IntendedPlan(t, tid, site) else WrittenPlan(t, tid, site)
  }

  function OrDefault(s: string, default: string): string {
    if s == "" then default else s
  }

  function FindSite(rows: seq<SiteRow>, id: string): Option<SiteRow> {
    if rows == [] then None else if rows[0].id == id then Some(rows[0]) else FindSite(rows[1..], id)
  }

  function TsdbRow(tid: string, state: string, hash: string): DesiredRow {
    DesiredRow(TsdbProject(tid), tid, "", state, hash)
  }

  function SiteDesired(tid: string, sid: string, state: string, hash: string): DesiredRow {
    DesiredRow(SiteProject(tid, sid), tid, sid, state, hash)
  }

  // renderAndWriteTSDB and renderAndWriteSite: a re-rendered project is wanted running, whatever it was before.
  function RenderTsdb(t: Tables, tid: string, rendered: Option<string>): Tables {
    if rendered.Some? then UpsertDesired(t, TsdbRow(tid, "running", rendered.value)) else t
  }

  function RenderSite(t: Tables, sid: string, rendered: Option<string>): Tables {
    var row := FindSite(t.sites, sid);
    if rendered.Some? && row.Some?
      then UpsertDesired(t, SiteDesired(row.value.tenantId, sid, "running", rendered.value)) else t
  }

  function UpsertSites(t: Tables, rows: seq<SiteRow>, tid: string, state: string): Tables {
    if rows == [] then t
    else
      var t1 := UpsertSites(t, rows[..|rows| - 1], tid, state);
      var last := rows[|rows| - 1];
      if last.tenantId == tid then UpsertDesired(t1, SiteDesired(tid, last.id, state, "")) else t1
  }

  function SiteRowOf(req: Request): SiteRow
    requires req.CreateSiteReq?
  {
    SiteRow(SiteId(req.slug), req.tid, OrDefault(req.brokerKind, "mosquitto"), OrDefault(req.throughput, "low"),
            OrDefault(req.direction, "uni"), OrDefault(req.codec, "cbor"), "active")
  }

  function HandleCreateTenant(b: Builder, memKB: int, t: Tables, slug: string, rendered: Option<string>): Tables {
    var tid := TenantId(slug);
    if !ValidSlug(slug) || !Admits(AdmissionPlan(b, t, tid, None), memKB) then t
    else match CreateTenant(t, tid)
      case Err(_) => t
      case Ok(t1) => RenderTsdb(t1, tid, rendered)
  }

  // All checks of handleCreateSite before the insert.
  predicate AcceptsSite(b: Builder, memKB: int, t: Tables, req: Request)
    requires req.CreateSiteReq?
  {
    var row := SiteRowOf(req);
    && HasTenant(t, req.tid) && ValidSlug(req.slug)
    && row.throughput != "high" && !(row.brokerKind == "mosquitto" && row.throughput == "mid")
    && Admits(AdmissionPlan(b, t, req.tid, Some(ProposedPlan(row))), memKB)
  }

  function ProposedPlan(row: SiteRow): SitePlan {
    PlanOf(row).(siteId := "proposed")
  }

  function HandleCreateSite(b: Builder, memKB: int, t: Tables, req: Request, rendered: Option<string>): Tables
    requires req.CreateSiteReq?
  {
    if !AcceptsSite(b, memKB, t, req) then t
    else match CreateSite(t, SiteRowOf(req))
      case Err(_) => t
      case Ok(t1) => RenderSite(t1, SiteRowOf(req).id, rendered)
  }

  predicate ValidDirection(d: string) { d == "" || d == "uni" || d == "bi" }
  predicate ValidCodec(c: string) { c == "" || c == "cbor" || c == "json" || c == "raw_passthrough" }

  predicate ValidPatch(codec: string, direction: string) {
    ValidDirection(direction) && ValidCodec(codec) && !(direction == "" && codec == "")
  }

  function HandlePatchSite(t: Tables, sid: string, codec: string, direction: string, rendered: Option<string>): Tables {
    if !ValidPatch(codec, direction) then t
    else match UpdateSite(t, sid, codec, direction)
      case Err(_) => t
      case Ok(t1) => RenderSite(t1, sid, rendered)
  }

  function HandleDeleteTenant(t: Tables, tid: string, purge: bool): Tables {
    var state := if purge then "removed" else "stopped";
    DeleteTenant(UpsertSites(UpsertDesired(t, TsdbRow(tid, state, "")), t.sites, tid, state), tid, purge)
  }

  function HandleDeleteSite(t: Tables, tid: string, sid: string, purge: bool): Tables {
    DeleteSite(UpsertDesired(t, SiteDesired(tid, sid, if purge then "removed" else "stopped", "")), sid, purge)
  }

  function Handle(b: Builder, memKB: int, t: Tables, input: Input): Tables {
    match input.req
    case CreateTenantReq(slug) => HandleCreateTenant(b, memKB, t, slug, input.rendered)
    case PatchRetention(tid) => if HasTenant(t, tid) then RenderTsdb(t, tid, input.rendered) else t
    case DeleteTenantReq(tid, purge) => HandleDeleteTenant(t, tid, purge)
    case StartTenant(tid) =>
      if HasTenant(t, tid) then SetTenantStatus(UpsertDesired(t, TsdbRow(tid, "running", "")), tid, "active") else t
    case StopTenant(tid) =>
      if HasTenant(t, tid) then UpsertSites(UpsertDesired(t, TsdbRow(tid, "stopped", "")), t.sites, tid, "stopped")
        else t
    case CreateSiteReq(_, _, _, _, _, _) => HandleCreateSite(b, memKB, t, input.req, input.rendered)
    case PatchSiteReq(sid, codec, direction) => HandlePatchSite(t, sid, codec, direction, input.rendered)
    case DeleteSiteReq(tid, sid, purge) => HandleDeleteSite(t, tid, sid, purge)
    case StartSite(tid, sid) => if HasSite(t, sid) then UpsertDesired(t, SiteDesired(tid, sid, "running", "")) else t
    case StopSite(tid, sid) => if HasSite(t, sid) then UpsertDesired(t, SiteDesired(tid, sid, "stopped", "")) else t
    case Apply(selector) => UpsertDesired(t, DesiredRow(selector, "", "", "running", ""))
  }

  function Serve(b: Builder, memKB: int, t: Tables, inputs: seq<Input>): Tables
    decreases |inputs|
  {
    if inputs == [] then t else Serve(b, memKB, Handle(b, memKB, t, inputs[0]), inputs[1..])
  }

  // ---- Sums over site rows ----

  // The row as it would be without downlink.
  function UniMB(row: SiteRow): nat {
    SiteMB(PlanOf(row).(direction := "uni"))
  }

  function UniRowsMB(rows: seq<SiteRow>): nat {
    if rows == [] then 0 else UniRowsMB(rows[..|rows| - 1]) + UniMB(rows[|rows| - 1])
  }

  function BiSites(rows: seq<SiteRow>): nat {
    if rows == [] then 0 else BiSites(rows[..|rows| - 1]) + (if rows[|rows| - 1].direction == "bi" then 1 else 0)
  }

  predicate KnownSites(rows: seq<SiteRow>) {
    forall i :: 0 <= i < |rows| ==> Known(PlanOf(rows[i]))
  }

  // Downlink costs 20 MB a site, for every profile in the table; the table is closed under direction flips.
  lemma ProfileRows(s: SitePlan)
    requires Known(s)
    ensures SiteMB(s) == SiteMB(s.(direction := "uni")) + (if s.direction == "bi" then 20 else 0)
    ensures Known(s.(direction := "uni")) && Known(s.(direction := "bi"))
  {
  }

  lemma {:induction false} RowsMBByDirection(rows: seq<SiteRow>)
    requires KnownSites(rows)
    ensures RowsMB(rows) == UniRowsMB(rows) + 20 * BiSites(rows)
    ensures BiSites(rows) <= |rows|
  {
    if rows != [] {
      RowsMBByDirection(rows[..|rows| - 1]);
      ProfileRows(PlanOf(rows[|rows| - 1]));
    }
  }

  lemma {:induction false} SameUniRows(a: seq<SiteRow>, b: seq<SiteRow>)
    requires |a| == |b| && forall i :: 0 <= i < |a| ==> UniMB(a[i]) == UniMB(b[i])
    ensures UniRowsMB(a) == UniRowsMB(b)
  {
    if a != [] {
      SameUniRows(a[..|a| - 1], b[..|b| - 1]);
    }
  }

  lemma {:induction false} KeptIsLess(rows: seq<SiteRow>, keep: SiteRow -> bool)
    ensures UniRowsMB(Keep(rows, keep)) <= UniRowsMB(rows)
  {
    if rows != [] {
      var init, last := rows[..|rows| - 1], rows[|rows| - 1];
      KeptIsLess(init, keep);
      var kept := Keep(rows, keep);
      if keep(last) {
        assert kept[..|kept| - 1] == Keep(init, keep);
      } else {
        assert kept == Keep(init, keep);
      }
    }
  }

  lemma {:induction false} KeptIsShorter<T>(rows: seq<T>, keep: T -> bool)
    ensures |Keep(rows, keep)| <= |rows|
  {
    if rows != [] {
      KeptIsShorter(rows[..|rows| - 1], keep);
    }
  }

  // ---- The registry invariant ----

  predicate Sane(t: Tables) {
    Integrity(t) && KnownSites(t.sites)
  }

  predicate Fits(t: Tables, memKB: int) {
    |t.tenants| * PER_TENANT_TSDB_MB + UniRowsMB(t.sites) <= MaxAllowedMB(memKB)
  }

  predicate SameRegistry(t: Tables, t': Tables) {
    t'.tenants == t.tenants && t'.sites == t.sites
  }

  lemma {:induction false} UpsertSitesKeepsRegistry(t: Tables, rows: seq<SiteRow>, tid: string, state: string)
    ensures SameRegistry(t, UpsertSites(t, rows, tid, state))
  {
    if rows != [] {
      UpsertSitesKeepsRegistry(t, rows[..|rows| - 1], tid, state);
    }
  }

  // desired_state does not matter.
  lemma SameRegistryIsSafe(t: Tables, t': Tables, memKB: int)
    requires SameRegistry(t, t') && Sane(t)
    ensures Sane(t') && (Fits(t, memKB) <==> Fits(t', memKB))
  {
    forall i | 0 <= i < |t'.sites| ensures HasTenant(t', t'.sites[i].tenantId) {
      assert HasTenant(t, t.sites[i].tenantId);
    }
  }

  lemma AcceptedTenant(b: Builder, memKB: int, t: Tables, tid: string)
    requires Sane(t) && !HasTenant(t, tid) && Admits(AdmissionPlan(b, t, tid, None), memKB)
    ensures b == Intended ==> (|t.tenants| + 1) * PER_TENANT_TSDB_MB + UniRowsMB(t.sites) <= MaxAllowedMB(memKB)
  {
    WrittenPlanOmitsExistingSites(t, tid, None);
    RowsMBByDirection(t.sites);
  }

  lemma CreateTenantIsSafe(b: Builder, memKB: int, t: Tables, slug: string, rendered: Option<string>)
    requires Sane(t)
    ensures var t' := HandleCreateTenant(b, memKB, t, slug, rendered);
            Sane(t') && (b == Intended && Fits(t, memKB) ==> Fits(t', memKB))
  {
    var tid, t' := TenantId(slug), HandleCreateTenant(b, memKB, t, slug, rendered);
    if ValidSlug(slug) && Admits(AdmissionPlan(b, t, tid, None), memKB) && CreateTenant(t, tid).Ok? {
      var t1 := CreateTenant(t, tid).tables;
      AcceptedTenant(b, memKB, t, tid);
      CreateKeepsIntegrity(t, t1);
      SameRegistryIsSafe(t1, t', memKB);
    }
  }

  lemma {:induction false} RegistryPlanKnown(t: Tables)
    requires KnownSites(t.sites)
    ensures AllKnown(RegistryPlan(t)) && AllKnown(BarePlan(t))
  {
    forall i | 0 <= i < |t.tenants|
      ensures forall j :: 0 <= j < |RegistryPlan(t)[i].sites| ==> Known(RegistryPlan(t)[i].sites[j])
    {
      PlansOfKnown(t.sites, t.tenants[i].id);
    }
  }

  // A site that passes the checks has a profile row, and with the intended plan it fits.
  lemma AcceptedSite(b: Builder, memKB: int, t: Tables, req: Request)
    requires Sane(t) && req.CreateSiteReq? && AcceptsSite(b, memKB, t, req)
    ensures var row := SiteRowOf(req);
            && Known(PlanOf(row))
            && (b == Intended ==>
              |t.tenants| * PER_TENANT_TSDB_MB + UniRowsMB(t.sites) + UniMB(row) <= MaxAllowedMB(memKB))
  {
    var row := SiteRowOf(req);
    var plan := ProposedPlan(row);
    RegistryPlanKnown(t);
    ProposalKnown(RegistryPlan(t), req.tid, Some(plan));
    ProposalKnown(BarePlan(t), req.tid, Some(plan));
    WrittenPlanOmitsExistingSites(t, req.tid, Some(plan));
    RowsMBByDirection(t.sites);
    ProfileRows(plan);
    assert UniMB(row) == SiteMB(plan.(direction := "uni"));
  }

  lemma InsertedSite(t: Tables, row: SiteRow, memKB: int)
    requires Sane(t) && CreateSite(t, row).Ok? && Known(PlanOf(row))
    ensures var t1 := CreateSite(t, row).tables;
            && Sane(t1) && t1.tenants == t.tenants && UniRowsMB(t1.sites) == UniRowsMB(t.sites) + UniMB(row)
  {
    var t1 := CreateSite(t, row).tables;
    CreateKeepsIntegrity(t, t1);
    var last := row.(status := "active");
    assert t1.sites == t.sites + [last] && t1.sites[..|t.sites|] == t.sites;
    assert PlanOf(last) == PlanOf(row);
  }

  lemma CreateSiteIsSafe(b: Builder, memKB: int, t: Tables, req: Request, rendered: Option<string>)
    requires Sane(t) && req.CreateSiteReq?
    ensures var t' := HandleCreateSite(b, memKB, t, req, rendered);
            Sane(t') && (b == Intended && Fits(t, memKB) ==> Fits(t', memKB))
  {
    var t' := HandleCreateSite(b, memKB, t, req, rendered);
    if t' != t {
      SiteHandled(b, memKB, t, req, rendered);
      AcceptedSite(b, memKB, t, req);
      InsertedSite(t, SiteRowOf(req), memKB);
      SameRegistryIsSafe(CreateSite(t, SiteRowOf(req)).tables, t', memKB);
    }
  }

  lemma SiteHandled(b: Builder, memKB: int, t: Tables, req: Request, rendered: Option<string>)
    requires req.CreateSiteReq?
    ensures var t', r := HandleCreateSite(b, memKB, t, req, rendered), CreateSite(t, SiteRowOf(req));
            t' != t ==> AcceptsSite(b, memKB, t, req) && r.Ok? && SameRegistry(r.tables, t')
  {
  }

  lemma PatchedSites(t: Tables, sid: string, codec: string, direction: string)
    requires Sane(t) && UpdateSite(t, sid, codec, direction).Ok? && ValidDirection(direction)
    ensures var t1 := UpdateSite(t, sid, codec, direction).tables;
            Sane(t1) && t1.tenants == t.tenants && UniRowsMB(t1.sites) == UniRowsMB(t.sites)
  {
    var t1 := UpdateSite(t, sid, codec, direction).tables;
    forall i | 0 <= i < |t.sites| ensures Known(PlanOf(t1.sites[i])) && UniMB(t1.sites[i]) == UniMB(t.sites[i]) {
      ProfileRows(PlanOf(t.sites[i]));
    }
    SameKeysKeepIntegrity(t, t1);
    SameUniRows(t.sites, t1.sites);
  }

  lemma PatchSiteIsSafe(memKB: int, t: Tables, sid: string, codec: string, direction: string, rendered: Option<string>)
    requires Sane(t)
    ensures var t' := HandlePatchSite(t, sid, codec, direction, rendered);
            Sane(t') && (Fits(t, memKB) ==> Fits(t', memKB))
  {
    if ValidPatch(codec, direction) && UpdateSite(t, sid, codec, direction).Ok? {
      PatchedSites(t, sid, codec, direction);
      SameRegistryIsSafe(UpdateSite(t, sid, codec, direction).tables,
        HandlePatchSite(t, sid, codec, direction, rendered), memKB);
    }
  }

  lemma RemovedTenantIsSafe(memKB: int, t: Tables, tid: string, purge: bool)
    requires Sane(t)
    ensures Sane(DeleteTenant(t, tid, purge)) && (Fits(t, memKB) ==> Fits(DeleteTenant(t, tid, purge), memKB))
  {
    if purge {
      PurgeTenantKeepsIntegrity(t, tid);
      KeptRows(t.sites, (r: SiteRow) => r.tenantId != tid);
      KeptIsLess(t.sites, (r: SiteRow) => r.tenantId != tid);
      KeptIsShorter(t.tenants, (r: TenantRow) => r.id != tid);
    } else {
      StatusIsSafe(memKB, t, tid, "orphaned");
    }
  }

  lemma DeleteTenantIsSafe(memKB: int, t: Tables, tid: string, purge: bool)
    requires Sane(t)
    ensures var t' := HandleDeleteTenant(t, tid, purge);
            Sane(t') && (Fits(t, memKB) ==> Fits(t', memKB))
  {
    var state := if purge then "removed" else "stopped";
    var t1 := UpsertDesired(t, TsdbRow(tid, state, ""));
    var t2 := UpsertSites(t1, t.sites, tid, state);
    UpsertSitesKeepsRegistry(t1, t.sites, tid, state);
    SameRegistryIsSafe(t, t2, memKB);
    RemovedTenantIsSafe(memKB, t2, tid, purge);
  }

  lemma PurgedSiteIsSafe(memKB: int, t: Tables, sid: string)
    requires Sane(t)
    ensures Sane(DeleteSite(t, sid, true)) && (Fits(t, memKB) ==> Fits(DeleteSite(t, sid, true), memKB))
  {
    PurgeSiteKeepsIntegrity(t, sid);
    KeptRows(t.sites, (r: SiteRow) => r.id != sid);
    KeptIsLess(t.sites, (r: SiteRow) => r.id != sid);
  }

  lemma OrphanedSiteIsSafe(memKB: int, t: Tables, sid: string)
    requires Sane(t)
    ensures Sane(DeleteSite(t, sid, false)) && (Fits(t, memKB) ==> Fits(DeleteSite(t, sid, false), memKB))
  {
    var t' := DeleteSite(t, sid, false);
    SameKeysKeepIntegrity(t, t');
    SameUniRows(t.sites, t'.sites);
  }

  lemma DeleteSiteIsSafe(memKB: int, t: Tables, tid: string, sid: string, purge: bool)
    requires Sane(t)
    ensures var t' := HandleDeleteSite(t, tid, sid, purge);
            Sane(t') && (Fits(t, memKB) ==> Fits(t', memKB))
  {
    var t1 := UpsertDesired(t, SiteDesired(tid, sid, if purge then "removed" else "stopped", ""));
    SameRegistryIsSafe(t, t1, memKB);
    if purge {
      PurgedSiteIsSafe(memKB, t1, sid);
    } else {
      OrphanedSiteIsSafe(memKB, t1, sid);
    }
  }

  lemma StatusIsSafe(memKB: int, t: Tables, tid: string, status: string)
    requires Sane(t)
    ensures Sane(SetTenantStatus(t, tid, status)) && (Fits(t, memKB) ==> Fits(SetTenantStatus(t, tid, status), memKB))
  {
    SameKeysKeepIntegrity(t, SetTenantStatus(t, tid, status));
  }

  lemma OtherRequestsKeepRegistry(b: Builder, memKB: int, t: Tables, input: Input)
    requires var r := input.req;
             r.PatchRetention? || r.StopTenant? || r.StartSite? || r.StopSite? || r.Apply?
    ensures SameRegistry(t, Handle(b, memKB, t, input))
  {
    if input.req.StopTenant? {
      var tid := input.req.tid;
      UpsertSitesKeepsRegistry(UpsertDesired(t, TsdbRow(tid, "stopped", "")), t.sites, tid, "stopped");
    }
  }

  lemma HandleIsSafe(b: Builder, memKB: int, t: Tables, input: Input)
    requires Sane(t)
    ensures Sane(Handle(b, memKB, t, input))
    ensures b == Intended && Fits(t, memKB) ==> Fits(Handle(b, memKB, t, input), memKB)
  {
    match input.req
    case CreateTenantReq(slug) => CreateTenantIsSafe(b, memKB, t, slug, input.rendered);
    case CreateSiteReq(_, _, _, _, _, _) => CreateSiteIsSafe(b, memKB, t, input.req, input.rendered);
    case PatchSiteReq(sid, codec, direction) => PatchSiteIsSafe(memKB, t, sid, codec, direction, input.rendered);
    case DeleteTenantReq(tid, purge) => DeleteTenantIsSafe(memKB, t, tid, purge);
    case DeleteSiteReq(tid, sid, purge) => DeleteSiteIsSafe(memKB, t, tid, sid, purge);
    case StartTenant(tid) =>
      var t1 := UpsertDesired(t, TsdbRow(tid, "running", ""));
      SameRegistryIsSafe(t, t1, memKB);
      StatusIsSafe(memKB, t1, tid, "active");
    case _ => OtherRequestsKeepRegistry(b, memKB, t, input);
              SameRegistryIsSafe(t, Handle(b, memKB, t, input), memKB);
  }

  lemma {:induction false} ServeIsSafe(b: Builder, memKB: int, t: Tables, inputs: seq<Input>)
    requires Sane(t)
    ensures Sane(Serve(b, memKB, t, inputs))
    ensures b == Intended && Fits(t, memKB) ==> Fits(Serve(b, memKB, t, inputs), memKB)
    decreases |inputs|
  {
    if inputs != [] {
      HandleIsSafe(b, memKB, t, inputs[0]);
      ServeIsSafe(b, memKB, Handle(b, memKB, t, inputs[0]), inputs[1..]);
    }
  }

  // Every registry that the handlers can build, with either plan builder, has a profile row for each stored site,
  // keeps its keys, and adds up to 350 MB a tenant, the `uni` profile of every site and 20 MB a `bi` site.
  lemma ReachableRegistryIsPredictable(b: Builder, memKB: int, inputs: seq<Input>)
    ensures var t := Serve(b, memKB, EMPTY, inputs);
            && Integrity(t) && AllKnown(RegistryPlan(t))
            && ProjectedMB(RegistryPlan(t)) ==
               |t.tenants| * PER_TENANT_TSDB_MB + UniRowsMB(t.sites) + 20 * BiSites(t.sites)
  {
    ServeIsSafe(b, memKB, EMPTY, inputs);
    var t := Serve(b, memKB, EMPTY, inputs);
    RegistryPlanKnown(t);
    RegistryMB(t);
    RowsMBByDirection(t.sites);
  }

  // Admission over whole runs, with the intended builder: no sequence of requests brings the registry over the
  // limit by more than the 20 MB a site that a direction patch, which skips admission, can add.
  lemma AdmittedRunsFit(memKB: int, inputs: seq<Input>)
    ensures var t := Serve(Intended, memKB, EMPTY, inputs);
            && |t.tenants| * PER_TENANT_TSDB_MB + UniRowsMB(t.sites) <= MaxAllowedMB(memKB)
            && ProjectedMB(RegistryPlan(t)) <= MaxAllowedMB(memKB) + 20 * BiSites(t.sites)
            && BiSites(t.sites) <= |t.sites|
    ensures var t := Serve(Intended, memKB, EMPTY, inputs);
            var usable := if memKB / 1024 < 530 then 0 else memKB / 1024 - 530;
            && 20 * (350 * |t.tenants| + UniRowsMB(t.sites)) <= 17 * usable
            && 20 * ProjectedMB(RegistryPlan(t)) <= 17 * usable + 400 * BiSites(t.sites)
  {
    ServeIsSafe(Intended, memKB, EMPTY, inputs);
    ReachableRegistryIsPredictable(Intended, memKB, inputs);
    RowsMBByDirection(Serve(Intended, memKB, EMPTY, inputs).sites);
    LimitInNumbers(memKB);
  }

  // ---- Patches and the limit ----

  lemma {:induction false} SameBi(a: seq<SiteRow>, b: seq<SiteRow>)
    requires |a| == |b| && forall i :: 0 <= i < |a| ==> a[i].direction == b[i].direction
    ensures BiSites(a) == BiSites(b)
  {
    if a != [] {
      SameBi(a[..|a| - 1], b[..|b| - 1]);
    }
  }

  function Bi(row: SiteRow): int { if row.direction == "bi" then 1 else 0 }

  lemma {:induction false} BiChange(a: seq<SiteRow>, b: seq<SiteRow>, k: nat)
    requires k < |a| == |b| && forall i :: 0 <= i < |a| && i != k ==> a[i].direction == b[i].direction
    ensures BiSites(b) == BiSites(a) - Bi(a[k]) + Bi(b[k])
  {
    var n := |a| - 1;
    if k < n {
      BiChange(a[..n], b[..n], k);
    } else {
      SameBi(a[..n], b[..n]);
    }
  }

  // What a patch adds to the projection, by its arguments and the row that it finds.
  function PatchMB(found: Option<SiteRow>, codec: string, direction: string): int {
    if found.None? || !ValidPatch(codec, direction) then 0
    else if direction == "bi" && found.value.direction == "uni" then 20
    else if direction == "uni" && found.value.direction == "bi" then -20
    else 0
  }

  lemma {:induction false} FoundSite(rows: seq<SiteRow>, id: string) returns (k: nat)
    requires exists i :: 0 <= i < |rows| && rows[i].id == id
    ensures k < |rows| && rows[k].id == id && FindSite(rows, id) == Some(rows[k])
  {
    if rows[0].id == id {
      k := 0;
    } else {
      var i :| 0 <= i < |rows| && rows[i].id == id;
      assert rows[1..][i - 1].id == id;
      k := FoundSite(rows[1..], id);
      k := k + 1;
    }
  }

  lemma {:induction false} NoSiteFound(rows: seq<SiteRow>, id: string)
    requires forall i :: 0 <= i < |rows| ==> rows[i].id != id
    ensures FindSite(rows, id).None?
  {
    if rows != [] {
      NoSiteFound(rows[1..], id);
    }
  }

  lemma OnlyRowPatched(t: Tables, k: nat, codec: string, direction: string)
    requires Integrity(t) && k < |t.sites| && ValidPatch(codec, direction)
    ensures var r := UpdateSite(t, t.sites[k].id, codec, direction);
            && r.Ok? && |r.tables.sites| == |t.sites| && r.tables.sites[k] == Patched(t.sites[k], codec, direction)
            && forall i :: 0 <= i < |t.sites| && i != k ==> r.tables.sites[i] == t.sites[i]
  {
  }

  lemma KnownDirection(row: SiteRow)
    requires Known(PlanOf(row))
    ensures row.direction == "uni" || row.direction == "bi"
  {
  }

  lemma PatchedBi(t: Tables, k: nat, codec: string, direction: string)
    requires Sane(t) && k < |t.sites| && ValidPatch(codec, direction)
    ensures var r := UpdateSite(t, t.sites[k].id, codec, direction);
            r.Ok? && 20 * BiSites(r.tables.sites) == 20 * BiSites(t.sites) + PatchMB(Some(t.sites[k]), codec, direction)
  {
    OnlyRowPatched(t, k, codec, direction);
    BiChange(t.sites, UpdateSite(t, t.sites[k].id, codec, direction).tables.sites, k);
    KnownDirection(t.sites[k]);
  }

  lemma PatchedRowsMB(t: Tables, k: nat, codec: string, direction: string)
    requires Sane(t) && k < |t.sites| && ValidPatch(codec, direction)
    ensures var r := UpdateSite(t, t.sites[k].id, codec, direction);
            && r.Ok? && Sane(r.tables) && r.tables.tenants == t.tenants
            && RowsMB(r.tables.sites) == RowsMB(t.sites) + PatchMB(Some(t.sites[k]), codec, direction)
  {
    var t1 := UpdateSite(t, t.sites[k].id, codec, direction).tables;
    PatchedSites(t, t.sites[k].id, codec, direction);
    PatchedBi(t, k, codec, direction);
    RowsMBByDirection(t.sites);
    RowsMBByDirection(t1.sites);
  }

  // A patch moves the projection by 20 MB or not at all, and no limit is asked.
  lemma PatchMovesProjection(t: Tables, sid: string, codec: string, direction: string, rendered: Option<string>)
    requires Sane(t)
    ensures ProjectedMB(RegistryPlan(HandlePatchSite(t, sid, codec, direction, rendered))) ==
            ProjectedMB(RegistryPlan(t)) + PatchMB(FindSite(t.sites, sid), codec, direction)
  {
    if ValidPatch(codec, direction) && HasSite(t, sid) {
      var k := FoundSite(t.sites, sid);
      PatchedRowsMB(t, k, codec, direction);
      var t1, t' := UpdateSite(t, sid, codec, direction).tables, HandlePatchSite(t, sid, codec, direction, rendered);
      SameRegistryIsSafe(t1, t', 0);
      RegistryMB(t);
      RegistryMB(t');
    } else if !HasSite(t, sid) {
      NoSiteFound(t.sites, sid);
    }
  }

  // So a patch takes a registry that fits over the limit if and only if it switches a site from `uni` to `bi` and the
  // 20 MB are not there.
  lemma PatchFitsIff(
    memKB: int, t: Tables, sid: string, codec: string, direction: string, rendered: Option<string>)
    requires Sane(t) && ProjectedMB(RegistryPlan(t)) <= MaxAllowedMB(memKB)
    ensures ProjectedMB(RegistryPlan(HandlePatchSite(t, sid, codec, direction, rendered))) > MaxAllowedMB(memKB) <==>
            && FindSite(t.sites, sid).Some? && FindSite(t.sites, sid).value.direction == "uni"
            && direction == "bi" && ValidCodec(codec)
            && ProjectedMB(RegistryPlan(t)) + 20 > MaxAllowedMB(memKB)
  {
    PatchMovesProjection(t, sid, codec, direction, rendered);
  }

  const SMALL_SITE := SiteRow("ste_a", "tnt_a", "mosquitto", "low", "uni", "cbor", "active")
  const ONE_TENANT := Tables([TenantRow("tnt_a", "active")], [], map[])
  const ONE_SITE := Tables([TenantRow("tnt_a", "active")], [SMALL_SITE], map[])
  const FIRST := Input(CreateTenantReq("a"), None)
  const SECOND := Input(CreateSiteReq("tnt_a", "a", "mosquitto", "low", "uni", "cbor"), None)
  const THIRD := Input(PatchSiteReq("ste_a", "", "bi"), None)

  lemma FirstIsAdmitted(b: Builder, memKB: int)
    requires 350 <= MaxAllowedMB(memKB)
    ensures Handle(b, memKB, EMPTY, FIRST) == ONE_TENANT
  {
    assert TenantId("a") == "tnt_a" && ValidSlug("a");
    WrittenPlanOmitsExistingSites(EMPTY, "tnt_a", None);
    ProposalKnown(RegistryPlan(EMPTY), "tnt_a", None);
    ProposalKnown(BarePlan(EMPTY), "tnt_a", None);
  }

  lemma OneSiteAdmits(b: Builder, memKB: int)
    requires 430 <= MaxAllowedMB(memKB)
    ensures Admits(AdmissionPlan(b, ONE_TENANT, "tnt_a", Some(ProposedPlan(SMALL_SITE))), memKB)
  {
    var plan := ProposedPlan(SMALL_SITE);
    assert ONE_TENANT.tenants[0].id == "tnt_a";
    WrittenPlanOmitsExistingSites(ONE_TENANT, "tnt_a", Some(plan));
    RegistryPlanKnown(ONE_TENANT);
    ProposalKnown(RegistryPlan(ONE_TENANT), "tnt_a", Some(plan));
    ProposalKnown(BarePlan(ONE_TENANT), "tnt_a", Some(plan));
  }

  lemma SecondInserts()
    ensures SECOND.req.CreateSiteReq? && SiteRowOf(SECOND.req) == SMALL_SITE
    ensures HasTenant(ONE_TENANT, "tnt_a") && CreateSite(ONE_TENANT, SMALL_SITE) == Ok(ONE_SITE)
  {
    assert ONE_TENANT.tenants[0].id == "tnt_a";
    assert [] + [SMALL_SITE] == [SMALL_SITE];
  }

  lemma SecondIsAdmitted(b: Builder, memKB: int)
    requires 430 <= MaxAllowedMB(memKB)
    ensures Handle(b, memKB, ONE_TENANT, SECOND) == ONE_SITE
  {
    OneSiteAdmits(b, memKB);
    SecondInserts();
    assert ValidSlug("a");
    assert AcceptsSite(b, memKB, ONE_TENANT, SECOND.req);
  }

  lemma OneSiteMB()
    ensures Sane(ONE_SITE) && ProjectedMB(RegistryPlan(ONE_SITE)) == 430
  {
    assert ONE_SITE.tenants[0].id == "tnt_a";
    RegistryMB(ONE_SITE);
    assert ONE_SITE.sites[..0] == [];
  }

  lemma ThirdAddsTwenty(b: Builder, memKB: int)
    ensures ProjectedMB(RegistryPlan(Handle(b, memKB, ONE_SITE, THIRD))) == 450
  {
    OneSiteMB();
    PatchMovesProjection(ONE_SITE, "ste_a", "", "bi", None);
    assert FindSite(ONE_SITE.sites, "ste_a") == Some(SMALL_SITE);
  }

  lemma ServeThree(b: Builder, memKB: int, t: Tables, r1: Input, r2: Input, r3: Input)
    ensures Serve(b, memKB, t, [r1, r2, r3]) == Handle(b, memKB, Handle(b, memKB, Handle(b, memKB, t, r1), r2), r3)
  {
    assert Serve(b, memKB, t, []) == t;
    ServeOneMore(b, memKB, t, [], r1);
    ServeOneMore(b, memKB, t, [r1], r2);
    ServeOneMore(b, memKB, t, [r1, r2], r3);
    assert [] + [r1] == [r1] && [r1] + [r2] == [r1, r2] && [r1, r2] + [r3] == [r1, r2, r3];
  }

  // A run into that: on a host whose limit is at least 430 and below 450 MB three accepted requests, with either
  // builder, end at 450 MB.
  lemma PatchRunOverflows(b: Builder, memKB: int)
    requires 430 <= MaxAllowedMB(memKB) < 450
    ensures ProjectedMB(RegistryPlan(Serve(b, memKB, EMPTY, [FIRST, SECOND, THIRD]))) == 450 > MaxAllowedMB(memKB)
  {
    ServeThree(b, memKB, EMPTY, FIRST, SECOND, THIRD);
    FirstIsAdmitted(b, memKB);
    SecondIsAdmitted(b, memKB);
    ThirdAddsTwenty(b, memKB);
  }

  // ---- A stopped site and a patch ----

  lemma {:induction false} FindSiteByKeys(a: seq<SiteRow>, b: seq<SiteRow>, id: string)
    requires |a| == |b| && forall i :: 0 <= i < |a| ==> a[i].id == b[i].id && a[i].tenantId == b[i].tenantId
    ensures FindSite(a, id).Some? == FindSite(b, id).Some? == exists i :: 0 <= i < |a| && a[i].id == id
    ensures FindSite(a, id).Some? ==> FindSite(a, id).value.tenantId == FindSite(b, id).value.tenantId
  {
    if a != [] && a[0].id != id {
      FindSiteByKeys(a[1..], b[1..], id);
      assert (exists i :: 0 <= i < |a| && a[i].id == id) ==> exists i :: 0 <= i < |a[1..]| && a[1..][i].id == id by {
        if i :| 0 <= i < |a| && a[i].id == id {
          assert a[1..][i - 1].id == id;
        }
      }
    }
  }

  // A stopped site stays stopped through a patch exactly if the patch is refused or its render fails: an accepted
  // patch starts it again.
  lemma StoppedSurvivesPatchIff(t: Tables, sid: string, codec: string, direction: string, rendered: Option<string>)
    requires FindSite(t.sites, sid).Some?
    requires var p := SiteProject(FindSite(t.sites, sid).value.tenantId, sid);
             p in t.desired && t.desired[p].state == "stopped"
    ensures var t' := HandlePatchSite(t, sid, codec, direction, rendered);
            var p := SiteProject(FindSite(t.sites, sid).value.tenantId, sid);
            p in t'.desired && (t'.desired[p].state == "stopped" <==> !ValidPatch(codec, direction) || rendered.None?)
  {
    FindSiteByKeys(t.sites, t.sites, sid);
    if ValidPatch(codec, direction) {
      FindSiteByKeys(t.sites, UpdateSite(t, sid, codec, direction).tables.sites, sid);
    }
  }

  // ---- Runs under the written builder ----

  // One tenant, and one EMQX site (460 MB) a slug.
  const CROWD := "tnt_a"

  function CrowdRow(slug: string): SiteRow {
    SiteRow(SiteId(slug), CROWD, "emqx", "low", "uni", "cbor", "active")
  }

  function CrowdRows(slugs: seq<string>): seq<SiteRow> {
    seq(|slugs|, i requires 0 <= i < |slugs| => CrowdRow(slugs[i]))
  }

  function CrowdTables(slugs: seq<string>): Tables {
    Tables([TenantRow(CROWD, "active")], CrowdRows(slugs), map[])
  }

  function CrowdRequest(slug: string): Input {
    Input(CreateSiteReq(CROWD, slug, "emqx", "low", "uni", "cbor"), None)
  }

  function CrowdRun(slugs: seq<string>): seq<Input> {
    if slugs == [] then [Input(CreateTenantReq("a"), None)]
    else CrowdRun(slugs[..|slugs| - 1]) + [CrowdRequest(slugs[|slugs| - 1])]
  }

  predicate DistinctSlugs(slugs: seq<string>) {
    && (forall i :: 0 <= i < |slugs| ==> ValidSlug(slugs[i]))
    && (forall i, j :: 0 <= i < j < |slugs| ==> slugs[i] != slugs[j])
  }

  lemma CrowdIsSane(slugs: seq<string>)
    requires DistinctSlugs(slugs)
    ensures Sane(CrowdTables(slugs))
  {
    var t := CrowdTables(slugs);
    forall i, j | 0 <= i < j < |slugs| ensures t.sites[i].id != t.sites[j].id {
      assert t.sites[i].id[4..] == slugs[i] && t.sites[j].id[4..] == slugs[j];
    }
    assert t.tenants[0].id == CROWD;
  }

  lemma {:induction false} CrowdMB(slugs: seq<string>)
    ensures RowsMB(CrowdRows(slugs)) == 460 * |slugs|
  {
    if slugs != [] {
      CrowdMB(slugs[..|slugs| - 1]);
      assert CrowdRows(slugs)[..|slugs| - 1] == CrowdRows(slugs[..|slugs| - 1]);
    }
  }

  // The written check of one more site sees the tenant and the new site only.
  lemma CrowdIsAdmitted(memKB: int, slugs: seq<string>, slug: string)
    requires DistinctSlugs(slugs) && 810 <= MaxAllowedMB(memKB)
    ensures Admits(WrittenPlan(CrowdTables(slugs), CROWD, Some(ProposedPlan(CrowdRow(slug)))), memKB)
  {
    var t, plan := CrowdTables(slugs), ProposedPlan(CrowdRow(slug));
    CrowdIsSane(slugs);
    assert t.tenants[0].id == CROWD;
    RegistryPlanKnown(t);
    ProposalKnown(BarePlan(t), CROWD, Some(plan));
    WrittenPlanOmitsExistingSites(t, CROWD, Some(plan));
  }

  lemma CrowdInserted(slugs: seq<string>, slug: string)
    requires DistinctSlugs(slugs + [slug])
    ensures CreateSite(CrowdTables(slugs), CrowdRow(slug)) == Ok(CrowdTables(slugs + [slug]))
  {
    var t, more := CrowdTables(slugs), slugs + [slug];
    assert forall i :: 0 <= i < |slugs| ==> more[i] == slugs[i];
    assert more[|slugs|] == slug;
    assert t.tenants[0].id == CROWD;
    forall i | 0 <= i < |slugs| ensures t.sites[i].id != SiteId(slug) {
      assert t.sites[i].id[4..] == slugs[i] && SiteId(slug)[4..] == slug;
    }
    assert CrowdRows(more) == t.sites + [CrowdRow(slug)];
  }

  lemma FewerSlugs(slugs: seq<string>, slug: string)
    requires DistinctSlugs(slugs + [slug])
    ensures DistinctSlugs(slugs) && ValidSlug(slug)
  {
    var more := slugs + [slug];
    assert forall i :: 0 <= i < |slugs| ==> more[i] == slugs[i];
    assert more[|slugs|] == slug;
  }

  lemma CrowdGrows(memKB: int, slugs: seq<string>, slug: string)
    requires DistinctSlugs(slugs + [slug]) && 810 <= MaxAllowedMB(memKB)
    ensures Handle(Written, memKB, CrowdTables(slugs), CrowdRequest(slug)) == CrowdTables(slugs + [slug])
  {
    FewerSlugs(slugs, slug);
    CrowdIsAdmitted(memKB, slugs, slug);
    CrowdInserted(slugs, slug);
    assert CrowdTables(slugs).tenants[0].id == CROWD;
    assert SiteRowOf(CrowdRequest(slug).req) == CrowdRow(slug);
  }

  lemma {:induction false} ServeOneMore(b: Builder, memKB: int, t: Tables, inputs: seq<Input>, last: Input)
    ensures Serve(b, memKB, t, inputs + [last]) == Handle(b, memKB, Serve(b, memKB, t, inputs), last)
    decreases |inputs|
  {
    if inputs == [] {
      assert [last][1..] == [] && inputs + [last] == [last];
      assert Serve(b, memKB, Handle(b, memKB, t, last), []) == Handle(b, memKB, t, last);
    } else {
      assert (inputs + [last])[1..] == inputs[1..] + [last];
      ServeOneMore(b, memKB, Handle(b, memKB, t, inputs[0]), inputs[1..], last);
    }
  }

  lemma CrowdStarts(memKB: int)
    requires 810 <= MaxAllowedMB(memKB)
    ensures Handle(Written, memKB, EMPTY, Input(CreateTenantReq("a"), None)) == CrowdTables([])
  {
    assert TenantId("a") == CROWD;
    WrittenPlanOmitsExistingSites(EMPTY, CROWD, None);
    ProposalKnown(BarePlan(EMPTY), CROWD, None);
  }

  lemma {:induction false} CrowdServed(memKB: int, slugs: seq<string>)
    requires DistinctSlugs(slugs) && 810 <= MaxAllowedMB(memKB)
    ensures Serve(Written, memKB, EMPTY, CrowdRun(slugs)) == CrowdTables(slugs)
  {
    if slugs == [] {
      CrowdStarts(memKB);
      var first := Input(CreateTenantReq("a"), None);
      assert [first][1..] == [];
      assert Serve(Written, memKB, CrowdTables([]), []) == CrowdTables([]);
    } else {
      var init, last := slugs[..|slugs| - 1], slugs[|slugs| - 1];
      CrowdServed(memKB, init);
      ServeOneMore(Written, memKB, EMPTY, CrowdRun(init), CrowdRequest(last));
      assert init + [last] == slugs;
      CrowdGrows(memKB, init, last);
    }
  }

  // What AdmittedRunsFit says of the intended builder fails of the written one without bound: a host with room for
  // a single EMQX site admits as many of them as there are slugs, each adding its full 460 MB.
  lemma WrittenRunsOverflow(memKB: int, slugs: seq<string>)
    requires DistinctSlugs(slugs) && 810 <= MaxAllowedMB(memKB)
    ensures var t := Serve(Written, memKB, EMPTY, CrowdRun(slugs));
            |t.sites| == |slugs| && BiSites(t.sites) == 0 && ProjectedMB(RegistryPlan(t)) == 350 + 460 * |slugs|
  {
    CrowdServed(memKB, slugs);
    CrowdIsSane(slugs);
    CrowdMB(slugs);
    RegistryMB(CrowdTables(slugs));
    NoBi(CrowdRows(slugs));
  }

  lemma {:induction false} NoBi(rows: seq<SiteRow>)
    requires forall i :: 0 <= i < |rows| ==> rows[i].direction == "uni"
    ensures BiSites(rows) == 0
  {
    if rows != [] {
      NoBi(rows[..|rows| - 1]);
    }
  }

  // ---- Compose paths over whole runs ----

  // A row's project id is the one its ids spell; rows without ids come from handleApply.
  predicate Shaped(row: DesiredRow) {
    || row.projectId == SiteProject(row.tenantId, row.siteId)
    || (row.siteId == "" && row.projectId == TsdbProject(row.tenantId))
    || (row.tenantId == "" && row.siteId == "")
  }

  predicate RowsShaped(t: Tables) {
    forall p :: p in t.desired ==> t.desired[p].projectId == p && Shaped(t.desired[p])
  }

  // Nothing in `t'` moves a row of `t` to another compose file.
  predicate PathsPinned(t: Tables, t': Tables) {
    forall p :: p in t.desired ==>
      p in t'.desired && t'.desired[p].tenantId == t.desired[p].tenantId && t'.desired[p].siteId == t.desired[p].siteId
  }

  predicate Purges(req: Request) {
    (req.DeleteTenantReq? || req.DeleteSiteReq?) && req.purge
  }

  lemma {:induction false} UpsertSitesPins(t: Tables, rows: seq<SiteRow>, tid: string, state: string)
    requires RowsShaped(t)
    ensures RowsShaped(UpsertSites(t, rows, tid, state)) && PathsPinned(t, UpsertSites(t, rows, tid, state))
  {
    if rows != [] {
      UpsertSitesPins(t, rows[..|rows| - 1], tid, state);
    }
  }

  lemma DeleteTenantPins(t: Tables, tid: string, purge: bool)
    requires RowsShaped(t)
    ensures RowsShaped(HandleDeleteTenant(t, tid, purge))
    ensures !purge ==> PathsPinned(t, HandleDeleteTenant(t, tid, purge))
  {
    var state := if purge then "removed" else "stopped";
    UpsertSitesPins(UpsertDesired(t, TsdbRow(tid, state, "")), t.sites, tid, state);
  }

  lemma UpsertPins(t: Tables, row: DesiredRow)
    requires RowsShaped(t) && Shaped(row)
    ensures RowsShaped(UpsertDesired(t, row)) && PathsPinned(t, UpsertDesired(t, row))
  {
  }

  lemma DeleteSitePins(t: Tables, tid: string, sid: string, purge: bool)
    requires RowsShaped(t)
    ensures RowsShaped(HandleDeleteSite(t, tid, sid, purge))
    ensures !purge ==> PathsPinned(t, HandleDeleteSite(t, tid, sid, purge))
  {
    UpsertPins(t, SiteDesired(tid, sid, if purge then "removed" else "stopped", ""));
  }

  // Creating and patching touch desired_state through one render at most.
  lemma RenderPins(t: Tables, t1: Tables, tid: string, sid: string, rendered: Option<string>)
    requires RowsShaped(t) && t1.desired == t.desired
    ensures RowsShaped(RenderTsdb(t1, tid, rendered)) && PathsPinned(t, RenderTsdb(t1, tid, rendered))
    ensures RowsShaped(RenderSite(t1, sid, rendered)) && PathsPinned(t, RenderSite(t1, sid, rendered))
  {
    if rendered.Some? {
      UpsertPins(t1, TsdbRow(tid, "running", rendered.value));
      var row := FindSite(t1.sites, sid);
      if row.Some? {
        UpsertPins(t1, SiteDesired(row.value.tenantId, sid, "running", rendered.value));
      }
    }
  }

  lemma CreateAndPatchPin(b: Builder, memKB: int, t: Tables, input: Input)
    requires RowsShaped(t) && (input.req.CreateTenantReq? || input.req.CreateSiteReq? || input.req.PatchSiteReq?)
    ensures RowsShaped(Handle(b, memKB, t, input)) && PathsPinned(t, Handle(b, memKB, t, input))
  {
    var req, rendered := input.req, input.rendered;
    if req.CreateTenantReq? {
      if CreateTenant(t, TenantId(req.slug)).Ok? {
        RenderPins(t, CreateTenant(t, TenantId(req.slug)).tables, TenantId(req.slug), "", rendered);
      }
    } else if req.CreateSiteReq? {
      if CreateSite(t, SiteRowOf(req)).Ok? {
        RenderPins(t, CreateSite(t, SiteRowOf(req)).tables, "", SiteRowOf(req).id, rendered);
      }
    } else {
      if UpdateSite(t, req.sid, req.codec, req.direction).Ok? {
        RenderPins(t, UpdateSite(t, req.sid, req.codec, req.direction).tables, "", req.sid, rendered);
      }
    }
  }

  lemma LifecyclePins(b: Builder, memKB: int, t: Tables, input: Input)
    requires RowsShaped(t)
    requires var r := input.req; r.PatchRetention? || r.StartTenant? || r.StartSite? || r.StopSite? || r.Apply?
    ensures RowsShaped(Handle(b, memKB, t, input)) && PathsPinned(t, Handle(b, memKB, t, input))
  {
    match input.req
    case PatchRetention(tid) => RenderPins(t, t, tid, "", input.rendered);
    case StartTenant(tid) => UpsertPins(t, TsdbRow(tid, "running", ""));
    case StartSite(tid, sid) => UpsertPins(t, SiteDesired(tid, sid, "running", ""));
    case StopSite(tid, sid) => UpsertPins(t, SiteDesired(tid, sid, "stopped", ""));
    case Apply(selector) => UpsertPins(t, DesiredRow(selector, "", "", "running", ""));
  }

  lemma DeletesPin(b: Builder, memKB: int, t: Tables, input: Input)
    requires RowsShaped(t) && (input.req.DeleteTenantReq? || input.req.DeleteSiteReq?)
    ensures RowsShaped(Handle(b, memKB, t, input))
    ensures !Purges(input.req) ==> PathsPinned(t, Handle(b, memKB, t, input))
  {
    match input.req
    case DeleteTenantReq(tid, purge) => DeleteTenantPins(t, tid, purge);
    case DeleteSiteReq(tid, sid, purge) => DeleteSitePins(t, tid, sid, purge);
  }

  lemma StopPins(b: Builder, memKB: int, t: Tables, input: Input)
    requires RowsShaped(t) && input.req.StopTenant?
    ensures RowsShaped(Handle(b, memKB, t, input)) && PathsPinned(t, Handle(b, memKB, t, input))
  {
    var tid := input.req.tid;
    UpsertPins(t, TsdbRow(tid, "stopped", ""));
    UpsertSitesPins(UpsertDesired(t, TsdbRow(tid, "stopped", "")), t.sites, tid, "stopped");
  }

  lemma HandlePins(b: Builder, memKB: int, t: Tables, input: Input)
    requires RowsShaped(t)
    ensures RowsShaped(Handle(b, memKB, t, input))
    ensures !Purges(input.req) ==> PathsPinned(t, Handle(b, memKB, t, input))
  {
    var r := input.req;
    if r.DeleteTenantReq? || r.DeleteSiteReq? {
      DeletesPin(b, memKB, t, input);
    } else if r.StopTenant? {
      StopPins(b, memKB, t, input);
    } else if r.CreateTenantReq? || r.CreateSiteReq? || r.PatchSiteReq? {
      CreateAndPatchPin(b, memKB, t, input);
    } else {
      LifecyclePins(b, memKB, t, input);
    }
  }

  // In every run without purges each project stays on the compose file of its first row, whatever handleApply and
  // the other handlers upsert later; and in every run at all the ids of a row spell its project id.
  lemma {:induction false} RunsPinPaths(
    b: Builder, memKB: int, t: Tables, inputs: seq<Input>, p: string, dataDir: string)
    requires RowsShaped(t)
    ensures RowsShaped(Serve(b, memKB, t, inputs))
    ensures p in t.desired && (forall i :: 0 <= i < |inputs| ==> !Purges(inputs[i].req)) ==>
            var t' := Serve(b, memKB, t, inputs);
            p in t'.desired && R.ComposeFile(dataDir, t'.desired[p]) == R.ComposeFile(dataDir, t.desired[p])
    decreases |inputs|
  {
    if inputs != [] {
      HandlePins(b, memKB, t, inputs[0]);
      RunsPinPaths(b, memKB, Handle(b, memKB, t, inputs[0]), inputs[1..], p, dataDir);
    }
  }

  // ---- How long a row without ids lives ----

  predicate BlankRow(t: Tables, p: string) {
    p in t.desired && Blank(t.desired[p])
  }

  // The purges that delete a row without ids: they match on ids, except for a tenant's TSDB project.
  predicate Sweeps(req: Request, p: string) {
    match req
    case DeleteTenantReq(tid, purge) => purge && (tid == "" || p == TsdbProject(tid))
    case DeleteSiteReq(_, sid, purge) => purge && sid == ""
    case _ => false
  }

  lemma BlankRowUnderPurge(t: Tables, req: Request, p: string)
    requires RowsShaped(t) && BlankRow(t, p) && Purges(req)
    ensures var t' := if req.DeleteTenantReq? then HandleDeleteTenant(t, req.tid, true)
                      else HandleDeleteSite(t, req.tid, req.sid, true);
            if Sweeps(req, p) then p !in t'.desired else BlankRow(t', p)
  {
    if req.DeleteTenantReq? {
      UpsertSitesPins(UpsertDesired(t, TsdbRow(req.tid, "removed", "")), t.sites, req.tid, "removed");
    }
  }

  // One request leaves a row without ids in place, still without ids, if and only if it does not sweep it.
  lemma BlankRowStaysIff(b: Builder, memKB: int, t: Tables, input: Input, p: string)
    requires RowsShaped(t) && BlankRow(t, p)
    ensures BlankRow(Handle(b, memKB, t, input), p) <==> !Sweeps(input.req, p)
  {
    if Purges(input.req) {
      BlankRowUnderPurge(t, input.req, p);
    } else {
      HandlePins(b, memKB, t, input);
    }
  }

  // The purge names a tenant or site id of the registry's form.
  ghost predicate NamesRegistry(req: Request) {
    match req
    case DeleteTenantReq(tid, purge) => purge ==> exists slug :: ValidSlug(slug) && tid == TenantId(slug)
    case DeleteSiteReq(_, sid, purge) => purge ==> exists slug :: ValidSlug(slug) && sid == SiteId(slug)
    case _ => true
  }

  lemma SiteRowsAreNotSwept(req: Request, ts: string, ss: string)
    requires ValidSlug(ts) && ValidSlug(ss) && NamesRegistry(req)
    ensures !Sweeps(req, SiteProject(TenantId(ts), SiteId(ss)))
  {
    if req.DeleteTenantReq? && req.purge {
      var slug :| ValidSlug(slug) && req.tid == TenantId(slug);
      TsdbProjectsAreApart(slug, ts, ss);
    }
  }

  // A site project that handleApply named first is on the shared compose file for good: in every run of requests,
  // purges of its tenant and its site included, its row stays without ids.
  lemma {:induction false} AppliedSiteIsLost(
    b: Builder, memKB: int, t: Tables, inputs: seq<Input>, ts: string, ss: string, dataDir: string)
    requires ValidSlug(ts) && ValidSlug(ss) && RowsShaped(t) && BlankRow(t, SiteProject(TenantId(ts), SiteId(ss)))
    requires forall i :: 0 <= i < |inputs| ==> NamesRegistry(inputs[i].req)
    ensures var t', p := Serve(b, memKB, t, inputs), SiteProject(TenantId(ts), SiteId(ss));
            BlankRow(t', p) && R.ComposeFile(dataDir, t'.desired[p]) == dataDir + "/shared/docker-compose.yml"
    decreases |inputs|
  {
    if inputs != [] {
      var p := SiteProject(TenantId(ts), SiteId(ss));
      SiteRowsAreNotSwept(inputs[0].req, ts, ss);
      BlankRowStaysIff(b, memKB, t, inputs[0], p);
      HandlePins(b, memKB, t, inputs[0]);
      AppliedSiteIsLost(b, memKB, Handle(b, memKB, t, inputs[0]), inputs[1..], ts, ss, dataDir);
    }
  }

  // A TSDB project is luckier: its row goes with a purge of its own tenant, and with no other.
  lemma AppliedTsdbIsSweptIff(b: Builder, memKB: int, t: Tables, input: Input, ts: string)
    requires ValidSlug(ts) && RowsShaped(t) && BlankRow(t, TsdbProject(TenantId(ts))) && NamesRegistry(input.req)
    ensures BlankRow(Handle(b, memKB, t, input), TsdbProject(TenantId(ts))) <==>
            !(input.req.DeleteTenantReq? && input.req.purge && input.req.tid == TenantId(ts))
  {
    BlankRowStaysIff(b, memKB, t, input, TsdbProject(TenantId(ts)));
    if input.req.DeleteTenantReq? && input.req.purge {
      var slug :| ValidSlug(slug) && input.req.tid == TenantId(slug);
      TsdbProjectsAreApart(slug, ts, "a");
      TsdbProjectsAreApart(ts, slug, "a");
    }
  }

  // ---- The handlers as the source writes them ----

  class Daemon {
    const db: Database
    const builder: Builder
    const memKB: int

    constructor (db: Database, builder: Builder, memKB: int)
      ensures this.db == db && this.builder == builder && this.memKB == memKB
    {
      this.db, this.builder, this.memKB := db, builder, memKB;
    }

    method AdmissionCheck(tid: string, site: Option<SitePlan>) returns (ok: bool)
      requires Integrity(db.Contents())
      ensures ok == Admits(AdmissionPlan(builder, db.Contents(), tid, site), memKB)
    {
      var plan;
      if builder == Written {
        plan := BuildAdmissionPlan(db.Contents(), tid, site);
      } else {
        plan := BuildRegistryPlan(db.Contents());
        plan := AddProposal(plan, tid, site);
      }
      var pred := Predict(plan, memKB);
      ok := pred.Some? && pred.value.admissible;
    }

    method CreateTenant(slug: string, rendered: Option<string>)
      requires Integrity(db.Contents())
      modifies db
      ensures db.Contents() == HandleCreateTenant(builder, memKB, old(db.Contents()), slug, rendered)
    {
      var valid := ValidateSlug(slug);
      if !valid {
        return;
      }
      var tid := TenantId(slug);
      var admitted := AdmissionCheck(tid, None);
      if !admitted {
        return;
      }
      var err := db.InsertTenant(tid);
      if err.Some? {
        return;
      }
      if rendered.Some? {
        db.UpsertDesiredState(TsdbRow(tid, "running", rendered.value));
      }
    }

    // GetSite, then the upsert at the end of renderAndWriteSite.
    method RenderSiteProject(sid: string, rendered: Option<string>)
      modifies db`desired
      ensures db.Contents() == RenderSite(old(db.Contents()), sid, rendered)
    {
      var row := FindSite(db.sites, sid);
      if rendered.Some? && row.Some? {
        db.UpsertDesiredState(SiteDesired(row.value.tenantId, sid, "running", rendered.value));
      }
    }

    method CreateSite(req: Request, rendered: Option<string>)
      requires req.CreateSiteReq? && Integrity(db.Contents())
      modifies db
      ensures db.Contents() == HandleCreateSite(builder, memKB, old(db.Contents()), req, rendered)
    {
      var row := SiteRowOf(req);
      var valid := ValidateSlug(req.slug);
      if !HasTenant(db.Contents(), req.tid) || !valid || row.throughput == "high"
         || (row.brokerKind == "mosquitto" && row.throughput == "mid") {
        return;
      }
      var admitted := AdmissionCheck(req.tid, Some(ProposedPlan(row)));
      if !admitted {
        return;
      }
      var err := db.InsertSite(row);
      if err.Some? {
        return;
      }
      RenderSiteProject(row.id, rendered);
    }

    method PatchSite(sid: string, codec: string, direction: string, rendered: Option<string>)
      modifies db
      ensures db.Contents() == HandlePatchSite(old(db.Contents()), sid, codec, direction, rendered)
    {
      if !ValidPatch(codec, direction) {
        return;
      }
      var err := db.PatchSite(sid, codec, direction);
      if err.Some? {
        return;
      }
      RenderSiteProject(sid, rendered);
    }

    // The loop over a tenant's sites in the delete and stop handlers.
    method UpsertTenantSites(tid: string, state: string)
      modifies db`desired
      ensures db.Contents() == UpsertSites(old(db.Contents()), old(db.sites), tid, state)
    {
      var sites := db.sites;
      ghost var start := db.Contents();
      for i := 0 to |sites|
        invariant db.sites == sites && db.Contents() == UpsertSites(start, sites[..i], tid, state)
      {
        assert sites[..i + 1][..i] == sites[..i];
        if sites[i].tenantId == tid {
          db.UpsertDesiredState(SiteDesired(tid, sites[i].id, state, ""));
        }
      }
      assert sites[..|sites|] == sites;
    }

    method DeleteTenant(tid: string, purge: bool)
      modifies db
      ensures db.Contents() == HandleDeleteTenant(old(db.Contents()), tid, purge)
    {
      var state := if purge then "removed" else "stopped";
      db.UpsertDesiredState(TsdbRow(tid, state, ""));
      UpsertTenantSites(tid, state);
      db.RemoveTenant(tid, purge);
    }

    method DeleteSite(tid: string, sid: string, purge: bool)
      modifies db
      ensures db.Contents() == HandleDeleteSite(old(db.Contents()), tid, sid, purge)
    {
      db.UpsertDesiredState(SiteDesired(tid, sid, if purge then "removed" else "stopped", ""));
      db.RemoveSite(sid, purge);
    }

    // handleUpdateTenant with a retention, and the start, stop and apply handlers.
    method ChangeState(req: Request, rendered: Option<string>)
      requires || req.PatchRetention? || req.StartTenant? || req.StopTenant?
               || req.StartSite? || req.StopSite? || req.Apply?
      modifies db
      ensures db.Contents() == Handle(builder, memKB, old(db.Contents()), Input(req, rendered))
    {
      match req
      case PatchRetention(tid) =>
        if HasTenant(db.Contents(), tid) && rendered.Some? {
          db.UpsertDesiredState(TsdbRow(tid, "running", rendered.value));
        }
      case StartTenant(tid) =>
        if HasTenant(db.Contents(), tid) {
          db.UpsertDesiredState(TsdbRow(tid, "running", ""));
          db.UpdateTenantStatus(tid, "active");
        }
      case StopTenant(tid) =>
        if HasTenant(db.Contents(), tid) {
          db.UpsertDesiredState(TsdbRow(tid, "stopped", ""));
          UpsertTenantSites(tid, "stopped");
        }
      case StartSite(tid, sid) =>
        if HasSite(db.Contents(), sid) {
          db.UpsertDesiredState(SiteDesired(tid, sid, "running", ""));
        }
      case StopSite(tid, sid) =>
        if HasSite(db.Contents(), sid) {
          db.UpsertDesiredState(SiteDesired(tid, sid, "stopped", ""));
        }
      case Apply(selector) =>
        db.UpsertDesiredState(DesiredRow(selector, "", "", "running", ""));
    }

    // The router: one request.
    method HandleRequest(input: Input)
      requires Integrity(db.Contents())
      modifies db
      ensures db.Contents() == Handle(builder, memKB, old(db.Contents()), input)
    {
      match input.req
      case CreateTenantReq(slug) => CreateTenant(slug, input.rendered);
      case DeleteTenantReq(tid, purge) => DeleteTenant(tid, purge);
      case CreateSiteReq(_, _, _, _, _, _) => CreateSite(input.req, input.rendered);
      case PatchSiteReq(sid, codec, direction) => PatchSite(sid, codec, direction, input.rendered);
      case DeleteSiteReq(tid, sid, purge) => DeleteSite(tid, sid, purge);
      case _ => ChangeState(input.req, input.rendered);
    }

    // A whole run of requests from the empty database is a run of the transition function, so what is proved about
    // Serve holds of the database.
    method ServeAll(inputs: seq<Input>)
      requires db.Contents() == EMPTY
      modifies db
      ensures db.Contents() == Serve(builder, memKB, EMPTY, inputs)
    {
      for i := 0 to |inputs|
        invariant Sane(db.Contents())
        invariant Serve(builder, memKB, db.Contents(), inputs[i..]) == Serve(builder, memKB, EMPTY, inputs)
      {
        assert inputs[i..][0] == inputs[i] && inputs[i..][1..] == inputs[i + 1..];
        HandleIsSafe(builder, memKB, db.Contents(), inputs[i]);
        HandleRequest(inputs[i]);
      }
    }
  }
}
