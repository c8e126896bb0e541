/** What each request does to the tables (internal/daemon/server.go, internal/store/sqlite/store.go), spelled out row by
    row and with the words that the handlers write; and what it leaves alone. */
module Requests {
  import opened Projects
  import opened Capacity
  import opened Store
  import opened Admission
  import opened Naming
  import opened Server
  import R = Reconciling

  // ---- Ways to change a table ----

  // `kept` is a part of `rows`, in order and unchanged: `at` says where each row comes from.
  ghost predicate Picks<T>(rows: seq<T>, kept: seq<T>, at: seq<nat>) {
    && |at| == |kept|
    && (forall i :: 0 <= i < |at| ==> at[i] < |rows| && kept[i] == rows[at[i]])
    && (forall i, j :: 0 <= i < j < |at| ==> at[i] < at[j])
  }

  // All tenants but `id`, all sites but those of tenant `tid`, all sites but `sid`.
  ghost predicate TenantsBut(a: seq<TenantRow>, b: seq<TenantRow>, id: string) {
    exists at :: Picks(a, b, at) && forall k :: 0 <= k < |a| ==> (k in at <==> a[k].id != id)
  }

  ghost predicate SitesButOf(a: seq<SiteRow>, b: seq<SiteRow>, tid: string) {
    exists at :: Picks(a, b, at) && forall k :: 0 <= k < |a| ==> (k in at <==> a[k].tenantId != tid)
  }

  ghost predicate SitesBut(a: seq<SiteRow>, b: seq<SiteRow>, sid: string) {
    exists at :: Picks(a, b, at) && forall k :: 0 <= k < |a| ==> (k in at <==> a[k].id != sid)
  }

  // The table after one upsert of `row`: state and hash are the new ones, and an existing row keeps its ids.
  ghost predicate Shows(d: map<string, DesiredRow>, e: map<string, DesiredRow>, row: DesiredRow) {
    var p := row.projectId;
    p in e && e[p] ==
      if p in d then DesiredRow(d[p].projectId, d[p].tenantId, d[p].siteId, row.state, row.configHash) else row
  }

  ghost predicate SameElsewhere(d: map<string, DesiredRow>, e: map<string, DesiredRow>, ps: set<string>) {
    forall p :: p !in ps ==> (p in e <==> p in d) && (p in d ==> e[p] == d[p])
  }

  ghost predicate OneRow(d: map<string, DesiredRow>, e: map<string, DesiredRow>, row: DesiredRow) {
    Shows(d, e, row) && SameElsewhere(d, e, {row.projectId})
  }

  // All rows named `id`, and no others, have the status.
  ghost predicate TenantStatusSet(a: seq<TenantRow>, b: seq<TenantRow>, id: string, status: string) {
    |b| == |a| && forall i :: 0 <= i < |a| ==> b[i] == if a[i].id == id then TenantRow(id, status) else a[i]
  }

  ghost predicate SiteStatusSet(a: seq<SiteRow>, b: seq<SiteRow>, id: string, status: string) {
    |b| == |a| && forall i :: 0 <= i < |a| ==> b[i] == if a[i].id == id then a[i].(status := status) else a[i]
  }

  lemma PicksMore<T>(rows: seq<T>, kept: seq<T>, at: seq<nat>, last: T)
    requires Picks(rows, kept, at)
    ensures Picks(rows + [last], kept, at) && Picks(rows + [last], kept + [last], at + [|rows|])
  {
  }

  lemma {:induction false} KeepPicks<T>(rows: seq<T>, keep: T -> bool) returns (at: seq<nat>)
    ensures Picks(rows, Keep(rows, keep), at)
    ensures forall k :: 0 <= k < |rows| ==> (k in at <==> keep(rows[k]))
  {
    at := [];
    if rows != [] {
      var n := |rows| - 1;
      var init := rows[..n];
      var before := KeepPicks(init, keep);
      PicksMore(init, Keep(init, keep), before, rows[n]);
      assert rows == init + [rows[n]];
      assert n !in before;
      if keep(rows[n]) {
        at := before + [n];
      } else {
        at := before;
        assert Keep(rows, keep) == Keep(init, keep);
      }
    }
  }

  // ---- Lifecycle requests ----

  lemma UpsertIsOneRow(d: map<string, DesiredRow>, row: DesiredRow)
    requires row.projectId in d ==> d[row.projectId].projectId == row.projectId
    ensures OneRow(d, Upsert(d, row), row)
  {
  }

  // Retention patch, start, apply and the stop of a site touch one row of desired_state, which then says `running` or
  // `stopped`: with the hash of the render after a retention patch, without hash otherwise. The start of a tenant also
  // makes it active; nothing else changes, and nothing at all for an unknown tenant or site or a failed render.
  lemma LifecycleEffect(b: Builder, memKB: int, t: Tables, input: Input)
    requires RowsShaped(t)
    ensures var t' := Handle(b, memKB, t, input);
            match input.req
            case PatchRetention(tid) =>
              t'.tenants == t.tenants && t'.sites == t.sites &&
              if HasTenant(t, tid) && input.rendered.Some?
                then OneRow(t.desired, t'.desired, DesiredRow(tid + "-tsdb", tid, "", "running", input.rendered.value))
                else t' == t
            case StartTenant(tid) =>
              t'.sites == t.sites &&
              if HasTenant(t, tid)
                then OneRow(t.desired, t'.desired, DesiredRow(tid + "-tsdb", tid, "", "running", ""))
                     && TenantStatusSet(t.tenants, t'.tenants, tid, "active")
                else t' == t
            case StartSite(tid, sid) =>
              t'.tenants == t.tenants && t'.sites == t.sites &&
              if HasSite(t, sid)
                then OneRow(t.desired, t'.desired, DesiredRow(tid + "-" + sid, tid, sid, "running", ""))
                else t' == t
            case StopSite(tid, sid) =>
              t'.tenants == t.tenants && t'.sites == t.sites &&
              if HasSite(t, sid)
                then OneRow(t.desired, t'.desired, DesiredRow(tid + "-" + sid, tid, sid, "stopped", ""))
                else t' == t
            case Apply(selector) =>
              t'.tenants == t.tenants && t'.sites == t.sites
              && OneRow(t.desired, t'.desired, DesiredRow(selector, "", "", "running", ""))
            case _ => true
  {
    match input.req
    case PatchRetention(tid) =>
      if input.rendered.Some? {
        UpsertIsOneRow(t.desired, TsdbRow(tid, "running", input.rendered.value));
      }
    case StartTenant(tid) => UpsertIsOneRow(t.desired, TsdbRow(tid, "running", ""));
    case StartSite(tid, sid) => UpsertIsOneRow(t.desired, SiteDesired(tid, sid, "running", ""));
    case StopSite(tid, sid) => UpsertIsOneRow(t.desired, SiteDesired(tid, sid, "stopped", ""));
    case Apply(selector) => UpsertIsOneRow(t.desired, DesiredRow(selector, "", "", "running", ""));
    case _ =>
  }

  // ---- A tenant with all its sites ----

  // The projects of the sites of `tid` among `rows`.
  function SiteProjects(rows: seq<SiteRow>, tid: string): set<string> {
    set i | 0 <= i < |rows| && rows[i].tenantId == tid :: tid + "-" + rows[i].id
  }

  function TenantProjects(t: Tables, tid: string): set<string> {
    {tid + "-tsdb"} + SiteProjects(t.sites, tid)
  }

  // Every project of `ps` has a row with the state and no hash; a row that was there keeps its ids, a new one has the
  // ids of the tenant.
  ghost predicate AllShow(
    d: map<string, DesiredRow>, e: map<string, DesiredRow>, ps: set<string>, tid: string, state: string) {
    forall p :: p in ps ==>
      && p in e && e[p].state == state && e[p].configHash == ""
      && (p in d ==> e[p] == DesiredRow(d[p].projectId, d[p].tenantId, d[p].siteId, state, ""))
      && (p !in d ==> e[p].projectId == p && e[p].tenantId == tid
                      && (p == tid + "-" + e[p].siteId || (p == tid + "-tsdb" && e[p].siteId == "")))
  }

  ghost predicate Swept(
    d: map<string, DesiredRow>, e: map<string, DesiredRow>, ps: set<string>, tid: string, state: string) {
    AllShow(d, e, ps, tid, state) && SameElsewhere(d, e, ps)
  }

  lemma MoreSiteProjects(rows: seq<SiteRow>, tid: string)
    requires rows != []
    ensures var last := rows[|rows| - 1];
            SiteProjects(rows, tid) ==
            SiteProjects(rows[..|rows| - 1], tid) + (if last.tenantId == tid then {tid + "-" + last.id} else {})
  {
    var n := |rows| - 1;
    assert forall i :: 0 <= i < n ==> rows[..n][i] == rows[i];
    forall p | p in SiteProjects(rows, tid)
      ensures p in SiteProjects(rows[..n], tid) || (rows[n].tenantId == tid && p == tid + "-" + rows[n].id)
    {
      var i :| 0 <= i < |rows| && rows[i].tenantId == tid && p == tid + "-" + rows[i].id;
      if i < n { assert rows[..n][i].tenantId == tid; }
    }
    forall p | p in SiteProjects(rows[..n], tid) ensures p in SiteProjects(rows, tid) {
      var i :| 0 <= i < n && rows[..n][i].tenantId == tid && p == tid + "-" + rows[..n][i].id;
      assert rows[i].tenantId == tid;
    }
  }

  lemma OneMoreSwept(
    d: map<string, DesiredRow>, e: map<string, DesiredRow>, ps: set<string>, tid: string, sid: string, state: string)
    requires Swept(d, e, ps, tid, state)
    ensures Swept(d, Upsert(e, SiteDesired(tid, sid, state, "")), ps + {tid + "-" + sid}, tid, state)
  {
  }

  lemma {:induction false} SitesAreSwept(
    t: Tables, rows: seq<SiteRow>, tid: string, state: string, d: map<string, DesiredRow>, ps: set<string>)
    requires Swept(d, t.desired, ps, tid, state)
    ensures Swept(d, UpsertSites(t, rows, tid, state).desired, ps + SiteProjects(rows, tid), tid, state)
  {
    if rows == [] {
      assert ps + SiteProjects(rows, tid) == ps;
    } else {
      var init, last := rows[..|rows| - 1], rows[|rows| - 1];
      SitesAreSwept(t, init, tid, state, d, ps);
      MoreSiteProjects(rows, tid);
      var qs := ps + SiteProjects(init, tid);
      if last.tenantId == tid {
        OneMoreSwept(d, UpsertSites(t, init, tid, state).desired, qs, tid, last.id, state);
        assert ps + SiteProjects(rows, tid) == qs + {tid + "-" + last.id};
      } else {
        assert ps + SiteProjects(rows, tid) == qs;
      }
    }
  }

  lemma TenantIsSwept(t: Tables, tid: string, state: string)
    ensures var t1 := UpsertSites(UpsertDesired(t, TsdbRow(tid, state, "")), t.sites, tid, state);
            && t1.tenants == t.tenants && t1.sites == t.sites
            && Swept(t.desired, t1.desired, TenantProjects(t, tid), tid, state)
  {
    var t0 := UpsertDesired(t, TsdbRow(tid, state, ""));
    assert Swept(t.desired, t0.desired, {tid + "-tsdb"}, tid, state);
    SitesAreSwept(t0, t.sites, tid, state, t.desired, {tid + "-tsdb"});
    UpsertSitesKeepsRegistry(t0, t.sites, tid, state);
  }

  // The stop of a tenant: its TSDB and all its sites are wanted stopped, nothing else changes.
  lemma StopTenantEffect(b: Builder, memKB: int, t: Tables, tid: string, rendered: Option<string>)
    ensures var t' := Handle(b, memKB, t, Input(StopTenant(tid), rendered));
            && t'.tenants == t.tenants && t'.sites == t.sites
            && if HasTenant(t, tid) then Swept(t.desired, t'.desired, TenantProjects(t, tid), tid, "stopped")
               else t' == t
  {
    TenantIsSwept(t, tid, "stopped");
  }

  // The delete of a tenant without purge: the same, and the tenant is orphaned.
  lemma DeleteTenantEffect(b: Builder, memKB: int, t: Tables, tid: string, rendered: Option<string>)
    ensures var t' := Handle(b, memKB, t, Input(DeleteTenantReq(tid, false), rendered));
            && TenantStatusSet(t.tenants, t'.tenants, tid, "orphaned") && t'.sites == t.sites
            && Swept(t.desired, t'.desired, TenantProjects(t, tid), tid, "stopped")
  {
    TenantIsSwept(t, tid, "stopped");
  }

  // A desired row that outlives a purge is as it was, unless it stands for one of the projects brought down: then it
  // is wanted removed.
  ghost predicate Outlives(d: map<string, DesiredRow>, e: map<string, DesiredRow>, p: string, ps: set<string>) {
    p in d && p in e &&
    e[p] == if p in ps then DesiredRow(d[p].projectId, d[p].tenantId, d[p].siteId, "removed", "") else d[p]
  }

  lemma PurgedRegistry(t: Tables, tid: string)
    ensures TenantsBut(t.tenants, DeleteTenant(t, tid, true).tenants, tid)
    ensures SitesButOf(t.sites, DeleteTenant(t, tid, true).sites, tid)
  {
    var at := KeepPicks(t.tenants, (r: TenantRow) => r.id != tid);
    var sat := KeepPicks(t.sites, (r: SiteRow) => r.tenantId != tid);
  }

  // The purge of a tenant: exactly its rows leave the three tables. All other tenants and sites are there as before,
  // in order; a desired row stays if and only if it neither carries the tenant's id nor is its TSDB project.
  lemma PurgeTenantEffect(b: Builder, memKB: int, t: Tables, tid: string, rendered: Option<string>)
    ensures var t' := Handle(b, memKB, t, Input(DeleteTenantReq(tid, true), rendered));
            && TenantsBut(t.tenants, t'.tenants, tid) && SitesButOf(t.sites, t'.sites, tid)
            && (forall p :: p in t'.desired <==>
                 p in t.desired && t.desired[p].tenantId != tid && p != tid + "-tsdb")
            && (forall p :: p in t'.desired ==> Outlives(t.desired, t'.desired, p, TenantProjects(t, tid)))
  {
    TenantIsSwept(t, tid, "removed");
    PurgedRegistry(UpsertSites(UpsertDesired(t, TsdbRow(tid, "removed", "")), t.sites, tid, "removed"), tid);
  }

  // ---- One site ----

  lemma DeleteSiteEffect(b: Builder, memKB: int, t: Tables, tid: string, sid: string, rendered: Option<string>)
    requires RowsShaped(t)
    ensures var t' := Handle(b, memKB, t, Input(DeleteSiteReq(tid, sid, false), rendered));
            && t'.tenants == t.tenants && SiteStatusSet(t.sites, t'.sites, sid, "orphaned")
            && OneRow(t.desired, t'.desired, DesiredRow(tid + "-" + sid, tid, sid, "stopped", ""))
  {
    UpsertIsOneRow(t.desired, SiteDesired(tid, sid, "stopped", ""));
  }

  // The purge of a site: exactly its rows leave; a desired row stays if and only if it does not carry the site's id.
  lemma PurgeSiteEffect(b: Builder, memKB: int, t: Tables, tid: string, sid: string, rendered: Option<string>)
    ensures var t' := Handle(b, memKB, t, Input(DeleteSiteReq(tid, sid, true), rendered));
            && t'.tenants == t.tenants
            && SitesBut(t.sites, t'.sites, sid)
            && (forall p :: p in t'.desired <==> p in t.desired && t.desired[p].siteId != sid)
            && (forall p :: p in t'.desired ==> Outlives(t.desired, t'.desired, p, {tid + "-" + sid}))
  {
    var at := KeepPicks(t.sites, (r: SiteRow) => r.id != sid);
  }

  // ---- Creating and patching ----

  // The outcome of the render at the end of a handler: the project is wanted running under the new hash, or nothing.
  ghost predicate Rendered(d: map<string, DesiredRow>, e: map<string, DesiredRow>, p: string, tid: string, sid: string,
                     rendered: Option<string>) {
    if rendered.Some? then OneRow(d, e, DesiredRow(p, tid, sid, "running", rendered.value)) else e == d
  }

  // A tenant is created if and only if its slug is valid, the limit allows one more TSDB and the id is free; it is
  // then the last row, active. Otherwise nothing changes.
  lemma CreateTenantEffect(b: Builder, memKB: int, t: Tables, slug: string, rendered: Option<string>)
    requires RowsShaped(t)
    ensures var t', tid := Handle(b, memKB, t, Input(CreateTenantReq(slug), rendered)), "tnt_" + slug;
            if ValidSlug(slug) && !HasTenant(t, tid) && Admits(AdmissionPlan(b, t, tid, None), memKB)
              then t'.tenants == t.tenants + [TenantRow(tid, "active")] && t'.sites == t.sites
                   && Rendered(t.desired, t'.desired, tid + "-tsdb", tid, "", rendered)
              else t' == t
  {
    if rendered.Some? {
      UpsertIsOneRow(t.desired, TsdbRow("tnt_" + slug, "running", rendered.value));
    }
  }

  // The row of a new site, with the defaults of the handler.
  ghost predicate NewSite(row: SiteRow, req: Request)
    requires req.CreateSiteReq?
  {
    && row.id == "ste_" + req.slug && row.tenantId == req.tid && row.status == "active"
    && row.brokerKind == (if req.brokerKind == "" then "mosquitto" else req.brokerKind)
    && row.throughput == (if req.throughput == "" then "low" else req.throughput)
    && row.direction == (if req.direction == "" then "uni" else req.direction)
    && row.payloadCodec == (if req.codec == "" then "cbor" else req.codec)
  }

  // A site is created if and only if its tenant exists, its slug is valid, its id is free, it is none of the two
  // combinations turned down by name, and the plan with it is admitted; it is then the last row.
  lemma CreateSiteEffect(
    b: Builder, memKB: int, t: Tables, req: Request, rendered: Option<string>) returns (row: SiteRow)
    requires RowsShaped(t) && req.CreateSiteReq?
    ensures NewSite(row, req)
    ensures var t' := Handle(b, memKB, t, Input(req, rendered));
            if && HasTenant(t, req.tid) && ValidSlug(req.slug) && !HasSite(t, row.id)
               && row.throughput != "high" && !(row.brokerKind == "mosquitto" && row.throughput == "mid")
               && Admits(AdmissionPlan(b, t, req.tid,
                    Some(SitePlan("proposed", row.brokerKind, row.throughput, row.direction))), memKB)
              then t'.sites == t.sites + [row] && t'.tenants == t.tenants
                   && Rendered(t.desired, t'.desired, req.tid + "-" + row.id, req.tid, row.id, rendered)
              else t' == t
  {
    row := SiteRowOf(req);
    assert ProposedPlan(row) == SitePlan("proposed", row.brokerKind, row.throughput, row.direction);
    if !HasSite(t, row.id) {
      FindAppended(t.sites, row);
    }
    if rendered.Some? {
      UpsertIsOneRow(t.desired, SiteDesired(req.tid, row.id, "running", rendered.value));
    }
  }

  lemma {:induction false} FindAppended(rows: seq<SiteRow>, row: SiteRow)
    requires forall i :: 0 <= i < |rows| ==> rows[i].id != row.id
    ensures FindSite(rows + [row], row.id) == Some(row)
  {
    if rows != [] {
      assert (rows + [row])[1..] == rows[1..] + [row];
      FindAppended(rows[1..], row);
    }
  }

  // The direction is absent, `uni` or `bi`, the codec is absent or one of three, and not both are absent.
  ghost predicate WellFormedPatch(codec: string, direction: string) {
    && (direction == "" || direction == "uni" || direction == "bi")
    && (codec == "" || codec == "cbor" || codec == "json" || codec == "raw_passthrough")
    && (codec != "" || direction != "")
  }

  lemma AcceptedPatch(
    t: Tables, k: nat, codec: string, direction: string, rendered: Option<string>)
    requires RowsShaped(t) && Integrity(t) && k < |t.sites| && FindSite(t.sites, t.sites[k].id) == Some(t.sites[k])
    requires ValidPatch(codec, direction)
    ensures var sid, tid := t.sites[k].id, t.sites[k].tenantId;
            var t' := HandlePatchSite(t, sid, codec, direction, rendered);
            && PatchedOnly(t, t', k, codec, direction)
            && Rendered(t.desired, t'.desired, tid + "-" + sid, tid, sid, rendered)
  {
    PatchedRow(t, k, codec, direction);
    var t1 := UpdateSite(t, t.sites[k].id, codec, direction).tables;
    FindSiteByKeys(t.sites, t1.sites, t.sites[k].id);
    PatchRendered(t, t1, k, rendered);
  }

  // A patch is accepted if and only if the site exists and the patch is well formed. Then exactly the named fields of
  // exactly that row change, and the site is rendered; otherwise nothing changes.
  lemma PatchSiteEffect(
    b: Builder, memKB: int, t: Tables, sid: string, codec: string, direction: string, rendered: Option<string>)
    returns (k: nat)
    requires RowsShaped(t) && Integrity(t)
    ensures var t' := Handle(b, memKB, t, Input(PatchSiteReq(sid, codec, direction), rendered));
            if HasSite(t, sid) && WellFormedPatch(codec, direction)
              then k < |t.sites| && t.sites[k].id == sid && PatchedOnly(t, t', k, codec, direction)
                   && var tid := t.sites[k].tenantId;
                      Rendered(t.desired, t'.desired, tid + "-" + sid, tid, sid, rendered)
              else t' == t
  {
    k := 0;
    assert WellFormedPatch(codec, direction) <==> ValidPatch(codec, direction);
    if ValidPatch(codec, direction) && HasSite(t, sid) {
      k := FoundSite(t.sites, sid);
      AcceptedPatch(t, k, codec, direction, rendered);
    }
  }

  lemma PatchedRow(t: Tables, k: nat, codec: string, direction: string)
    requires Integrity(t) && k < |t.sites| && ValidPatch(codec, direction)
    ensures var r := UpdateSite(t, t.sites[k].id, codec, direction);
            r.Ok? && PatchedOnly(t, r.tables, k, codec, direction) && r.tables.desired == t.desired
  {
    OnlyRowPatched(t, k, codec, direction);
  }

  lemma PatchRendered(t: Tables, t1: Tables, k: nat, rendered: Option<string>)
    requires RowsShaped(t) && k < |t.sites| && t1.desired == t.desired
    requires var found := FindSite(t1.sites, t.sites[k].id);
             found.Some? && found.value.tenantId == t.sites[k].tenantId
    ensures var t', s := RenderSite(t1, t.sites[k].id, rendered), t.sites[k];
            && t'.tenants == t1.tenants && t'.sites == t1.sites
            && Rendered(t.desired, t'.desired, s.tenantId + "-" + s.id, s.tenantId, s.id, rendered)
  {
    if rendered.Some? {
      UpsertIsOneRow(t.desired, SiteDesired(t.sites[k].tenantId, t.sites[k].id, "running", rendered.value));
    }
  }

  ghost predicate PatchedOnly(t: Tables, t': Tables, k: nat, codec: string, direction: string)
    requires k < |t.sites|
  {
    && t'.tenants == t.tenants && |t'.sites| == |t.sites|
    && (forall i :: 0 <= i < |t.sites| && i != k ==> t'.sites[i] == t.sites[i])
    && var s := t.sites[k];
       t'.sites[k] == SiteRow(s.id, s.tenantId, s.brokerKind, s.throughput,
                              if direction == "" then s.direction else direction,
                              if codec == "" then s.payloadCodec else codec, s.status)
  }

  // ---- Names over whole runs ----

  ghost predicate TenantNamed(id: string) {
    exists slug :: ValidSlug(slug) && id == "tnt_" + slug
  }

  ghost predicate SiteNamed(id: string) {
    exists slug :: ValidSlug(slug) && id == "ste_" + slug
  }

  ghost predicate WellNamed(t: Tables) {
    && (forall i :: 0 <= i < |t.tenants| ==> TenantNamed(t.tenants[i].id))
    && (forall i :: 0 <= i < |t.sites| ==> SiteNamed(t.sites[i].id) && TenantNamed(t.sites[i].tenantId))
  }

  lemma PickedIsWellNamed(t: Tables, t': Tables, at: seq<nat>, sat: seq<nat>)
    requires WellNamed(t) && Picks(t.tenants, t'.tenants, at) && Picks(t.sites, t'.sites, sat)
    ensures WellNamed(t')
  {
  }

  lemma {:induction false} AllPicked<T>(rows: seq<T>) returns (at: seq<nat>)
    ensures Picks(rows, rows, at)
  {
    at := seq(|rows|, i => i);
  }

  lemma CreatedIsWellNamed(b: Builder, memKB: int, t: Tables, input: Input)
    requires Sane(t) && RowsShaped(t) && WellNamed(t) && (input.req.CreateTenantReq? || input.req.CreateSiteReq?)
    ensures WellNamed(Handle(b, memKB, t, input))
  {
    if input.req.CreateTenantReq? {
      CreateTenantEffect(b, memKB, t, input.req.slug, input.rendered);
    } else {
      var row := CreateSiteEffect(b, memKB, t, input.req, input.rendered);
      if HasTenant(t, input.req.tid) {
        var k :| 0 <= k < |t.tenants| && t.tenants[k].id == input.req.tid;
      }
    }
  }

  lemma DeletedIsWellNamed(b: Builder, memKB: int, t: Tables, input: Input)
    requires RowsShaped(t) && WellNamed(t) && (input.req.DeleteTenantReq? || input.req.DeleteSiteReq?)
    ensures WellNamed(Handle(b, memKB, t, input))
  {
    var t' := Handle(b, memKB, t, input);
    match input.req
    case DeleteTenantReq(tid, purge) =>
      if purge {
        PurgeTenantEffect(b, memKB, t, tid, input.rendered);
        var at :| Picks(t.tenants, t'.tenants, at);
        var sat :| Picks(t.sites, t'.sites, sat);
        PickedIsWellNamed(t, t', at, sat);
      } else {
        DeleteTenantEffect(b, memKB, t, tid, input.rendered);
      }
    case DeleteSiteReq(tid, sid, purge) =>
      if purge {
        PurgeSiteEffect(b, memKB, t, tid, sid, input.rendered);
        var at := AllPicked(t.tenants);
        var sat :| Picks(t.sites, t'.sites, sat);
        PickedIsWellNamed(t, t', at, sat);
      } else {
        DeleteSiteEffect(b, memKB, t, tid, sid, input.rendered);
      }
  }

  lemma HandledIsWellNamed(b: Builder, memKB: int, t: Tables, input: Input)
    requires Sane(t) && RowsShaped(t) && WellNamed(t)
    ensures WellNamed(Handle(b, memKB, t, input))
  {
    match input.req
    case CreateTenantReq(_) => CreatedIsWellNamed(b, memKB, t, input);
    case CreateSiteReq(_, _, _, _, _, _) => CreatedIsWellNamed(b, memKB, t, input);
    case DeleteTenantReq(_, _) => DeletedIsWellNamed(b, memKB, t, input);
    case DeleteSiteReq(_, _, _) => DeletedIsWellNamed(b, memKB, t, input);
    case PatchSiteReq(sid, codec, direction) =>
      var k := PatchSiteEffect(b, memKB, t, sid, codec, direction, input.rendered);
    case StopTenant(tid) => StopTenantEffect(b, memKB, t, tid, input.rendered);
    case _ => LifecycleEffect(b, memKB, t, input);
  }

  lemma {:induction false} ServedIsWellNamed(b: Builder, memKB: int, t: Tables, inputs: seq<Input>)
    requires Sane(t) && RowsShaped(t) && WellNamed(t)
    ensures WellNamed(Serve(b, memKB, t, inputs))
    decreases |inputs|
  {
    if inputs != [] {
      HandledIsWellNamed(b, memKB, t, inputs[0]);
      HandleIsSafe(b, memKB, t, inputs[0]);
      HandlePins(b, memKB, t, inputs[0]);
      ServedIsWellNamed(b, memKB, Handle(b, memKB, t, inputs[0]), inputs[1..]);
    }
  }

  // The names of two sites, and of a tenant and a site, do not meet.
  ghost predicate SitesApart(r: SiteRow, s: SiteRow, d1: string, d2: string) {
    && SiteProject(r.tenantId, r.id) != SiteProject(s.tenantId, s.id)
    && SniHostname(r.id, r.tenantId, d1) != SniHostname(s.id, s.tenantId, d2)
  }

  lemma NamedSitesApart(r: SiteRow, s: SiteRow, d1: string, d2: string)
    requires r.id != s.id && SiteNamed(r.id) && SiteNamed(s.id) && TenantNamed(r.tenantId) && TenantNamed(s.tenantId)
    ensures SitesApart(r, s, d1, d2)
  {
    var x :| ValidSlug(x) && r.id == "ste_" + x;
    var y :| ValidSlug(y) && s.id == "ste_" + y;
    var t :| ValidSlug(t) && r.tenantId == "tnt_" + t;
    var u :| ValidSlug(u) && s.tenantId == "tnt_" + u;
    SiteProjectsAreInjective(t, x, u, y);
    SniHostnamesAreInjective(x, t, d1, y, u, d2);
  }

  lemma NamedTsdbApart(id: string, other: string, s: SiteRow)
    requires TenantNamed(id) && TenantNamed(other) && SiteNamed(s.id) && TenantNamed(s.tenantId)
    ensures TsdbProject(id) != SiteProject(s.tenantId, s.id)
    ensures id != other ==> TsdbProject(id) != TsdbProject(other)
  {
    var a :| ValidSlug(a) && id == "tnt_" + a;
    var b :| ValidSlug(b) && other == "tnt_" + b;
    var y :| ValidSlug(y) && s.id == "ste_" + y;
    var u :| ValidSlug(u) && s.tenantId == "tnt_" + u;
    TsdbProjectsAreApart(a, u, y);
    TsdbProjectsAreApart(a, b, y);
  }

  // Naming isolation over whole runs: in every registry that the handlers can build, with either plan builder, any two
  // sites have different compose projects and different SNI hostnames under any domains, and so have a TSDB and a site.
  lemma ReachableNamesAreApart(b: Builder, memKB: int, inputs: seq<Input>, d1: string, d2: string)
    ensures var t := Serve(b, memKB, EMPTY, inputs);
            && (forall i, j :: 0 <= i < j < |t.sites| ==> SitesApart(t.sites[i], t.sites[j], d1, d2))
            && (forall i, k :: 0 <= i < |t.sites| && 0 <= k < |t.tenants| ==>
                 TsdbProject(t.tenants[k].id) != SiteProject(t.sites[i].tenantId, t.sites[i].id))
  {
    ServedIsWellNamed(b, memKB, EMPTY, inputs);
    ServeIsSafe(b, memKB, EMPTY, inputs);
    var t := Serve(b, memKB, EMPTY, inputs);
    forall i, j | 0 <= i < j < |t.sites| ensures SitesApart(t.sites[i], t.sites[j], d1, d2) {
      NamedSitesApart(t.sites[i], t.sites[j], d1, d2);
    }
    forall i, k | 0 <= i < |t.sites| && 0 <= k < |t.tenants|
      ensures TsdbProject(t.tenants[k].id) != SiteProject(t.sites[i].tenantId, t.sites[i].id)
    {
      NamedTsdbApart(t.tenants[k].id, t.tenants[k].id, t.sites[i]);
    }
  }
}
