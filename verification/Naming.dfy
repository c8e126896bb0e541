/** Slugs and the names built from them: registry ids, compose project ids, SNI hostnames and compose paths
    (internal/daemon/server.go, internal/daemon/provision.go, internal/recon/reconciler.go). */
module Naming {
  import opened Projects
  import opened Texts
  import R = Reconciling

  predicate SlugChar(c: char, first: bool) {
    'a' <= c <= 'z' || (!first && ('0' <= c <= '9' || c == '-'))
  }

  // ^[a-z][a-z0-9-]{0,40}$
  predicate ValidSlug(slug: string) {
    1 <= |slug| <= 41 && forall i :: 0 <= i < |slug| ==> SlugChar(slug[i], i == 0)
  }

  method ValidateSlug(slug: string) returns (ok: bool)
    ensures ok <==> ValidSlug(slug)
    ensures ok <==> && 1 <= |slug| <= 41 && 'a' <= slug[0] <= 'z'
                    && forall i :: 1 <= i < |slug| ==>
                         'a' <= slug[i] <= 'z' || '0' <= slug[i] <= '9' || slug[i] == '-'
  {
    if slug == "" {
      return false;
    }
    if |slug| < 1 || |slug| > 41 {
      return false;
    }
    for i := 0 to |slug|
      invariant forall k :: 0 <= k < i ==> SlugChar(slug[k], k == 0)
    {
      var c := slug[i];
      var valid := ('a' <= c <= 'z') || ('0' <= c <= '9' && i > 0) || (c == '-' && i > 0);
      if !valid {
        return false;
      }
    }
    ok := true;
  }

  function TenantId(slug: string): string { "tnt_" + slug }
  function SiteId(slug: string): string { "ste_" + slug }
  function SiteProject(tenantId: string, siteId: string): string { tenantId + "-" + siteId }
  function TsdbProject(tenantId: string): string { tenantId + "-tsdb" }
  function SniHostname(
    siteId: string, tenantId: string, domain: string): string { siteId + "." + tenantId + "." + domain }

  lemma SlugExcludes(slug: string)
    requires ValidSlug(slug)
    ensures '_' !in slug && '.' !in slug && '/' !in slug
  {
  }

  // The spelling of the names, on one tenant and one site.
  lemma NamesAreSpelled()
    ensures TenantId("acme") == "tnt_acme" && SiteId("north") == "ste_north"
    ensures SiteProject("tnt_acme", "ste_north") == "tnt_acme-ste_north" && TsdbProject("tnt_acme") == "tnt_acme-tsdb"
    ensures SniHostname("ste_north", "tnt_acme", "example.com") == "ste_north.tnt_acme.example.com"
  {
  }

  // Project ids of sites name tenant and site uniquely, although both slugs may contain hyphens.
  lemma SiteProjectsAreInjective(t1: string, s1: string, t2: string, s2: string)
    requires ValidSlug(t1) && ValidSlug(s1) && ValidSlug(t2) && ValidSlug(s2)
    ensures SiteProject(TenantId(t1), SiteId(s1)) == SiteProject(TenantId(t2), SiteId(s2)) <==> t1 == t2 && s1 == s2
  {
    var l, r := SiteProject(TenantId(t1), SiteId(s1)), SiteProject(TenantId(t2), SiteId(s2));
    if l == r {
      assert l == "tnt" + ['_'] + (t1 + "-ste" + ['_'] + s1);
      assert r == "tnt" + ['_'] + (t2 + "-ste" + ['_'] + s2);
      SplitUnique("tnt", t1 + "-ste" + ['_'] + s1, "tnt", t2 + "-ste" + ['_'] + s2, '_');
      SlugExcludes(t1);
      SlugExcludes(t2);
      SplitUnique(t1 + "-ste", s1, t2 + "-ste", s2, '_');
      SuffixCancels(t1, t2, "-ste");
    }
  }

  // A TSDB project never has the id of a site project, and its own id names the tenant uniquely.
  lemma TsdbProjectsAreApart(t1: string, t2: string, s2: string)
    requires ValidSlug(t1) && ValidSlug(t2) && ValidSlug(s2)
    ensures TsdbProject(TenantId(t1)) != SiteProject(TenantId(t2), SiteId(s2))
    ensures TsdbProject(TenantId(t1)) == TsdbProject(TenantId(t2)) <==> t1 == t2
  {
    var l, r := TsdbProject(TenantId(t1)), SiteProject(TenantId(t2), SiteId(s2));
    SlugExcludes(t1);
    assert l[4..] == t1 + "-tsdb" && '_' !in l[4..];
    assert r[4..][|t2| + 4] == '_';
    if TsdbProject(TenantId(t1)) == TsdbProject(TenantId(t2)) {
      SuffixCancels(TenantId(t1), TenantId(t2), "-tsdb");
      assert t1 == TenantId(t1)[4..] && t2 == TenantId(t2)[4..];
    }
  }

  // SNI routing cannot confuse two sites.
  lemma SniHostnamesAreInjective(s1: string, t1: string, d1: string, s2: string, t2: string, d2: string)
    requires ValidSlug(t1) && ValidSlug(s1) && ValidSlug(t2) && ValidSlug(s2)
    ensures SniHostname(SiteId(s1), TenantId(t1), d1) == SniHostname(SiteId(s2), TenantId(t2), d2)
            <==> s1 == s2 && t1 == t2 && d1 == d2
  {
    var l, r := SniHostname(SiteId(s1), TenantId(t1), d1), SniHostname(SiteId(s2), TenantId(t2), d2);
    if l == r {
      SlugExcludes(s1);
      SlugExcludes(s2);
      SlugExcludes(t1);
      SlugExcludes(t2);
      assert l == SiteId(s1) + ['.'] + (TenantId(t1) + ['.'] + d1);
      assert r == SiteId(s2) + ['.'] + (TenantId(t2) + ['.'] + d2);
      SplitUnique(SiteId(s1), TenantId(t1) + ['.'] + d1, SiteId(s2), TenantId(t2) + ['.'] + d2, '.');
      SplitUnique(TenantId(t1), d1, TenantId(t2), d2, '.');
      assert s1 == SiteId(s1)[4..] && s2 == SiteId(s2)[4..] && t1 == TenantId(t1)[4..] && t2 == TenantId(t2)[4..];
    }
  }

  // ---- Rows and compose paths ----

  // An id that filepath.Join keeps as one path element.
  predicate PathElement(id: string) {
    '/' !in id && id != "." && id != ".."
  }

  predicate PlainIds(row: DesiredRow) {
    PathElement(row.tenantId) && PathElement(row.siteId) && (row.siteId != "" ==> row.tenantId != "")
  }

  predicate SameIds(r1: DesiredRow, r2: DesiredRow) {
    r1.tenantId == r2.tenantId && r1.siteId == r2.siteId
  }

  predicate Blank(row: DesiredRow) {
    row.tenantId == "" && row.siteId == ""
  }

  function IdsTail(row: DesiredRow): string {
    if row.siteId != "" then "sites/" + (row.siteId + "/docker-compose.yml") else "tsdb/docker-compose.yml"
  }

  lemma PathOfIds(dataDir: string, row: DesiredRow)
    requires !Blank(row)
    ensures R.ComposeFile(dataDir, row) == (dataDir + "/tenants/") + (row.tenantId + ['/'] + IdsTail(row))
  {
    if row.siteId != "" {
      assert R.ComposeFile(dataDir, row) ==
             (dataDir + "/tenants/") + (row.tenantId + ['/'] + ("sites/" + (row.siteId + "/docker-compose.yml")));
    } else {
      assert R.ComposeFile(dataDir, row) == (dataDir + "/tenants/") +
        (row.tenantId + ['/'] + "tsdb/docker-compose.yml");
    }
  }

  lemma IdsTailCancels(r1: DesiredRow, r2: DesiredRow)
    requires IdsTail(r1) == IdsTail(r2)
    ensures r1.siteId == r2.siteId
  {
    var l, r := IdsTail(r1), IdsTail(r2);
    assert l[0] == (if r1.siteId != "" then 's' else 't') && r[0] == (if r2.siteId != "" then 's' else 't');
    if r1.siteId != "" {
      var end := "/docker-compose.yml";
      assert l[6..] == r1.siteId + end && r[6..] == r2.siteId + end;
      SuffixCancels(r1.siteId, r2.siteId, end);
    }
  }

  lemma SharedPathIsApart(dataDir: string, row: DesiredRow)
    requires !Blank(row)
    ensures R.ComposeFile(dataDir, row) != dataDir + "/shared/docker-compose.yml"
  {
    PathOfIds(dataDir, row);
    var l, r := R.ComposeFile(dataDir, row), dataDir + "/shared/docker-compose.yml";
    assert l[|dataDir| + 1] == 't' && r[|dataDir| + 1] == 's';
  }

  // The compose path names the ids of a row, whatever they are, as long as they are plain path
  // elements.
  lemma ComposePathsFollowIds(dataDir: string, r1: DesiredRow, r2: DesiredRow)
    requires PlainIds(r1) && PlainIds(r2)
    ensures R.ComposeFile(dataDir, r1) == R.ComposeFile(dataDir, r2) <==> SameIds(r1, r2)
  {
    if Blank(r1) || Blank(r2) {
      if !Blank(r1) { SharedPathIsApart(dataDir, r1); }
      if !Blank(r2) { SharedPathIsApart(dataDir, r2); }
    } else if R.ComposeFile(dataDir, r1) == R.ComposeFile(dataDir, r2) {
      PathOfIds(dataDir, r1);
      PathOfIds(dataDir, r2);
      var p := dataDir + "/tenants/";
      var l, r := r1.tenantId + ['/'] + IdsTail(r1), r2.tenantId + ['/'] + IdsTail(r2);
      assert l == (p + l)[|p|..] && r == (p + r)[|p|..];
      SplitUnique(r1.tenantId, IdsTail(r1), r2.tenantId, IdsTail(r2), '/');
      IdsTailCancels(r1, r2);
    }
  }

  // The directories that renderAndWriteTSDB and renderAndWriteSite write to.
  function TsdbDirectory(dataDir: string, tid: string): string {
    dataDir + "/tenants/" + tid + "/tsdb"
  }

  function SiteDirectory(dataDir: string, tid: string, sid: string): string {
    dataDir + "/tenants/" + tid + "/sites/" + sid
  }

  lemma Associative(a: string, b: string, c: string)
    ensures (a + b) + c == a + (b + c)
  {
  }

  // The reconciler looks for the compose file of a row where the render that publishes the row has written it.
  lemma ComposeFileIsWhereRendered(dataDir: string, tid: string, sid: string, state: string, hash: string)
    requires tid != "" && sid != ""
    ensures R.ComposeFile(dataDir, DesiredRow(TsdbProject(tid), tid, "", state, hash)) ==
            TsdbDirectory(dataDir, tid) + "/docker-compose.yml"
    ensures R.ComposeFile(dataDir, DesiredRow(SiteProject(tid, sid), tid, sid, state, hash)) ==
            SiteDirectory(dataDir, tid, sid) + "/docker-compose.yml"
  {
    Associative(dataDir + "/tenants/" + tid, "/tsdb", "/docker-compose.yml");
    assert "/tsdb" + "/docker-compose.yml" == "/tsdb/docker-compose.yml";
  }

  // What a row of a desired_state table is about; Anonymous rows carry no ids.
  datatype Subject = SiteOf(tenant: string, site: string) | TsdbOf(tenant: string) | Anonymous

  predicate ValidSubject(s: Subject) {
    match s
    case SiteOf(t, x) => ValidSlug(t) && ValidSlug(x)
    case TsdbOf(t) => ValidSlug(t)
    case Anonymous => true
  }

  // The row that the provisioning code writes for a subject (Anonymous: handleApply writes the selector).
  predicate RowOf(row: DesiredRow, s: Subject) {
    match s
    case SiteOf(t, x) =>
      row.tenantId == TenantId(t) && row.siteId == SiteId(x) && row.projectId == SiteProject(TenantId(t), SiteId(x))
    case TsdbOf(t) => row.tenantId == TenantId(t) && row.siteId == "" && row.projectId == TsdbProject(TenantId(t))
    case Anonymous => row.tenantId == "" && row.siteId == ""
  }

  lemma ProvisionedIds(row: DesiredRow, s: Subject)
    requires RowOf(row, s) && ValidSubject(s) && !s.Anonymous?
    ensures PlainIds(row) && !Blank(row)
    ensures s.SiteOf? <==> row.siteId != ""
    ensures s.SiteOf? ==> s.site == row.siteId[4..]
  {
    SlugExcludes(s.tenant);
    if s.SiteOf? {
      SlugExcludes(s.site);
    }
  }

  // Two provisioned rows share a compose file exactly when they are rows of one project.
  lemma ComposePathsFollowProjects(dataDir: string, r1: DesiredRow, s1: Subject, r2: DesiredRow, s2: Subject)
    requires RowOf(r1, s1) && ValidSubject(s1) && !s1.Anonymous? && RowOf(r2, s2) && ValidSubject(s2) && !s2.Anonymous?
    ensures R.ComposeFile(dataDir, r1) == R.ComposeFile(dataDir, r2) <==> r1.projectId == r2.projectId
    ensures r1.projectId == r2.projectId <==> s1 == s2
  {
    if r1.projectId == r2.projectId {
      match (s1, s2)
      case (SiteOf(t, x), SiteOf(u, y)) => SiteProjectsAreInjective(t, x, u, y);
      case (SiteOf(t, x), TsdbOf(u)) => TsdbProjectsAreApart(u, t, x);
      case (TsdbOf(t), SiteOf(u, y)) => TsdbProjectsAreApart(t, u, y);
      case (TsdbOf(t), TsdbOf(u)) => TsdbProjectsAreApart(t, u, t);
    }
    ProvisionedIds(r1, s1);
    ProvisionedIds(r2, s2);
    ComposePathsFollowIds(dataDir, r1, r2);
    if SameIds(r1, r2) {
      assert s1.tenant == r1.tenantId[4..] && s2.tenant == r2.tenantId[4..];
    }
  }

  // ---- Upserts ----

  function UpsertAll(table: map<string, DesiredRow>, rows: seq<DesiredRow>): map<string, DesiredRow>
    decreases |rows|
  {
    if rows == [] then table else UpsertAll(Upsert(table, rows[0]), rows[1..])
  }

  // A row that exists keeps its ids, hence its compose path, through every sequence of upserts, whatever ids
  // the later writers pass (handleApply passes none).
  lemma {:induction false} UpsertsPinThePath(
    table: map<string, DesiredRow>, rows: seq<DesiredRow>, p: string, dataDir: string)
    requires p in table
    ensures var after := UpsertAll(table, rows);
            p in after && R.ComposeFile(dataDir, after[p]) == R.ComposeFile(dataDir, table[p])
            && after[p].tenantId == table[p].tenantId && after[p].siteId == table[p].siteId
    decreases |rows|
  {
    if rows != [] {
      UpsertsPinThePath(Upsert(table, rows[0]), rows[1..], p, dataDir);
    }
  }

  // ---- Rows that handleApply creates first ----

  // Exactly when a render's upsert leaves the project on the compose file that the render has written: when there
  // was no row, or one with the same ids.
  lemma RenderLandsIff(dataDir: string, table: map<string, DesiredRow>, row: DesiredRow)
    requires PlainIds(row) && (row.projectId in table ==> PlainIds(table[row.projectId]))
    ensures var p := row.projectId;
            R.ComposeFile(dataDir, Upsert(table, row)[p]) == R.ComposeFile(dataDir, row) <==>
            p !in table || SameIds(table[p], row)
  {
    ComposePathsFollowIds(dataDir, Upsert(table, row)[row.projectId], row);
  }

  // In a table of provisioned and applied rows the only obstacle is a row without ids, which is one that
  // handleApply created: `was` is what the existing row is about.
  lemma ProvisioningLandsIff(dataDir: string, table: map<string, DesiredRow>, row: DesiredRow, s: Subject, was: Subject)
    requires RowOf(row, s) && ValidSubject(s) && !s.Anonymous? && ValidSubject(was)
    requires row.projectId in table ==>
      RowOf(table[row.projectId], was) && table[row.projectId].projectId == row.projectId
    ensures var p := row.projectId;
            R.ComposeFile(dataDir, Upsert(table, row)[p]) == R.ComposeFile(dataDir, row) <==>
            p !in table || table[p].tenantId != ""
  {
    var p := row.projectId;
    if p in table {
      if was.Anonymous? {
        SharedPathIsApart(dataDir, row);
      } else {
        ComposePathsFollowProjects(dataDir, table[p], was, row, s);
      }
    }
  }

  // So for a site and a TSDB alike: if handleApply names a project before it is provisioned, the later render fills
  // its hash in, but the row stays on the shared compose file through all further upserts.
  lemma ApplyFirstPinsTheSharedFile(
    dataDir: string, table: map<string, DesiredRow>, row: DesiredRow, s: Subject, rows: seq<DesiredRow>)
    requires RowOf(row, s) && ValidSubject(s) && !s.Anonymous? && row.projectId !in table
    ensures var p := row.projectId;
            var rendered := Upsert(Upsert(table, DesiredRow(p, "", "", "running", "")), row);
            && rendered[p].configHash == row.configHash
            && p in UpsertAll(rendered, rows)
            && R.ComposeFile(dataDir, UpsertAll(rendered, rows)[p]) == dataDir + "/shared/docker-compose.yml"
            && R.ComposeFile(dataDir, row) != dataDir + "/shared/docker-compose.yml"
  {
    var p := row.projectId;
    UpsertsPinThePath(Upsert(Upsert(table, DesiredRow(p, "", "", "running", "")), row), rows, p, dataDir);
    SharedPathIsApart(dataDir, row);
  }
}
