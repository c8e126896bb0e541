/** The registry tables (internal/store/sqlite/store.go). A table is the list of its rows; the ORDER BY of the list
    queries is not modelled, Capacity.TenantOrderIsIrrelevant says why it may be left open. */
module Store {
  import opened Projects

  datatype TenantRow = TenantRow(id: string, status: string)
  datatype SiteRow = SiteRow(id: string, tenantId: string, brokerKind: string, throughput: string, direction: string,
                             payloadCodec: string, status: string)

  datatype Tables = Tables(tenants: seq<TenantRow>, sites: seq<SiteRow>, desired: map<string, DesiredRow>)

  const EMPTY := Tables([], [], map[])

  datatype Error = Duplicate | NotFound | ForeignKey
  datatype Result = Ok(tables: Tables) | Err(error: Error)

  predicate HasTenant(t: Tables, id: string) {
    exists i :: 0 <= i < |t.tenants| && t.tenants[i].id == id
  }

  predicate HasSite(t: Tables, id: string) {
    exists i :: 0 <= i < |t.sites| && t.sites[i].id == id
  }

  function CreateTenant(t: Tables, id: string): Result {
    if HasTenant(t, id) then Err(Duplicate) else Ok(t.(tenants := t.tenants + [TenantRow(id, "active")]))
  }

  function CreateSite(t: Tables, row: SiteRow): Result {
    if HasSite(t, row.id) then Err(Duplicate)
    else if !HasTenant(t, row.tenantId) then Err(ForeignKey)
    else Ok(t.(sites := t.sites + [row.(status := "active")]))
  }

  function Patched(row: SiteRow, codec: string, direction: string): SiteRow {
    row.(payloadCodec := if codec != "" then codec else row.payloadCodec,
         direction := if direction != "" then direction else row.direction)
  }

  // Empty arguments leave a field unchanged; with nothing to change the row is not even looked up.
  function UpdateSite(t: Tables, id: string, codec: string, direction: string): Result {
    if codec == "" && direction == "" then Ok(t)
    else if !HasSite(t, id) then Err(NotFound)
    else Ok(t.(sites := seq(|t.sites|, i requires 0 <= i < |t.sites| =>
                 if t.sites[i].id == id then Patched(t.sites[i], codec, direction) else t.sites[i])))
  }

  // DELETE FROM ... WHERE NOT keep
  function Keep<T>(rows: seq<T>, keep: T -> bool): seq<T> {
    if rows == [] then []
    else Keep(rows[..|rows| - 1], keep) + (if keep(rows[|rows| - 1]) then [rows[|rows| - 1]] else [])
  }

  // UPDATE tenants SET status = ? WHERE id = ?
  function SetTenantStatus(t: Tables, id: string, status: string): Tables {
    t.(tenants := seq(|t.tenants|, i requires 0 <= i < |t.tenants| =>
         if t.tenants[i].id == id then t.tenants[i].(status := status) else t.tenants[i]))
  }

  // Purge deletes in dependency order; otherwise the row is marked orphaned and stays.
  function DeleteTenant(t: Tables, id: string, purge: bool): Tables {
    if purge then
      Tables(Keep(t.tenants, (r: TenantRow) => r.id != id), Keep(t.sites, (r: SiteRow) => r.tenantId != id),
             map p | p in t.desired && t.desired[p].tenantId != id && p != id + "-tsdb" :: t.desired[p])
    else SetTenantStatus(t, id, "orphaned")
  }

  function DeleteSite(t: Tables, id: string, purge: bool): Tables {
    if purge then
      t.(sites := Keep(t.sites, (r: SiteRow) => r.id != id),
         desired := map p | p in t.desired && t.desired[p].siteId != id :: t.desired[p])
    else t.(sites := seq(|t.sites|, i requires 0 <= i < |t.sites| =>
              if t.sites[i].id == id then t.sites[i].(status := "orphaned") else t.sites[i]))
  }

  function UpsertDesired(t: Tables, row: DesiredRow): Tables {
    t.(desired := Upsert(t.desired, row))
  }

  // ---- Integrity ----

  // Primary keys are unique and every site has its tenant.
  predicate Integrity(t: Tables) {
    && (forall i, j :: 0 <= i < j < |t.tenants| ==> t.tenants[i].id != t.tenants[j].id)
    && (forall i, j :: 0 <= i < j < |t.sites| ==> t.sites[i].id != t.sites[j].id)
    && (forall i :: 0 <= i < |t.sites| ==> HasTenant(t, t.sites[i].tenantId))
  }

  lemma {:induction false} KeptRows<T>(rows: seq<T>, keep: T -> bool)
    ensures forall k :: 0 <= k < |Keep(rows, keep)| ==> Keep(rows, keep)[k] in rows && keep(Keep(rows, keep)[k])
    ensures forall x :: x in rows && keep(x) ==> x in Keep(rows, keep)
  {
    if rows != [] {
      KeptRows(rows[..|rows| - 1], keep);
      assert rows == rows[..|rows| - 1] + [rows[|rows| - 1]];
    }
  }

  // Kept rows keep their order, so two of them are two rows of the old table.
  lemma {:induction false} KeptPair<T>(rows: seq<T>, keep: T -> bool, i: nat, j: nat) returns (a: nat, b: nat)
    requires i < j < |Keep(rows, keep)|
    ensures a < b < |rows| && rows[a] == Keep(rows, keep)[i] && rows[b] == Keep(rows, keep)[j]
  {
    var init := rows[..|rows| - 1];
    if j < |Keep(init, keep)| {
      a, b := KeptPair(init, keep, i, j);
    } else {
      KeptRows(init, keep);
      a :| 0 <= a < |init| && init[a] == Keep(init, keep)[i];
      b := |rows| - 1;
    }
  }

  lemma PurgeTenantKeepsIntegrity(t: Tables, id: string)
    requires Integrity(t)
    ensures Integrity(DeleteTenant(t, id, true))
  {
    var t' := DeleteTenant(t, id, true);
    var keepTenant, keepSite := (r: TenantRow) => r.id != id, (r: SiteRow) => r.tenantId != id;
    KeptRows(t.tenants, keepTenant);
    KeptRows(t.sites, keepSite);
    forall i, j | 0 <= i < j < |t'.tenants| ensures t'.tenants[i].id != t'.tenants[j].id {
      var a, b := KeptPair(t.tenants, keepTenant, i, j);
    }
    forall i, j | 0 <= i < j < |t'.sites| ensures t'.sites[i].id != t'.sites[j].id {
      var a, b := KeptPair(t.sites, keepSite, i, j);
    }
    forall i | 0 <= i < |t'.sites| ensures HasTenant(t', t'.sites[i].tenantId) {
      assert t'.sites[i] in t'.sites;
      var k :| 0 <= k < |t.sites| && t.sites[k] == t'.sites[i];
      var j :| 0 <= j < |t.tenants| && t.tenants[j].id == t.sites[k].tenantId;
      assert t.tenants[j] in t'.tenants;
    }
  }

  lemma PurgeSiteKeepsIntegrity(t: Tables, id: string)
    requires Integrity(t)
    ensures Integrity(DeleteSite(t, id, true))
  {
    var t' := DeleteSite(t, id, true);
    var keep := (r: SiteRow) => r.id != id;
    KeptRows(t.sites, keep);
    forall i, j | 0 <= i < j < |t'.sites| ensures t'.sites[i].id != t'.sites[j].id {
      var a, b := KeptPair(t.sites, keep, i, j);
    }
    forall i | 0 <= i < |t'.sites| ensures HasTenant(t', t'.sites[i].tenantId) {
      assert t'.sites[i] in t'.sites;
      var k :| 0 <= k < |t.sites| && t.sites[k] == t'.sites[i];
      assert HasTenant(t, t.sites[k].tenantId);
    }
  }

  // Soft deletes and patches change no key.
  lemma SameKeysKeepIntegrity(t: Tables, t': Tables)
    requires Integrity(t) && |t'.tenants| == |t.tenants| && |t'.sites| == |t.sites|
    requires forall i :: 0 <= i < |t.tenants| ==> t'.tenants[i].id == t.tenants[i].id
    requires forall i :: 0 <= i < |t.sites| ==>
      t'.sites[i].id == t.sites[i].id && t'.sites[i].tenantId == t.sites[i].tenantId
    ensures Integrity(t')
  {
    forall i | 0 <= i < |t'.sites| ensures HasTenant(t', t'.sites[i].tenantId) {
      var j :| 0 <= j < |t.tenants| && t.tenants[j].id == t.sites[i].tenantId;
      assert t'.tenants[j].id == t'.sites[i].tenantId;
    }
  }

  lemma CreateKeepsIntegrity(t: Tables, t': Tables)
    requires Integrity(t) && t'.desired == t.desired
    requires || (exists id :: CreateTenant(t, id) == Ok(t'))
             || (exists row :: CreateSite(t, row) == Ok(t'))
    ensures Integrity(t')
  {
    forall i | 0 <= i < |t'.sites| ensures HasTenant(t', t'.sites[i].tenantId) {
      assert HasTenant(t, t'.sites[i].tenantId);
      var j :| 0 <= j < |t.tenants| && t.tenants[j].id == t'.sites[i].tenantId;
      assert t'.tenants[j].id == t'.sites[i].tenantId;
    }
  }

  // ---- The store as an object ----

  class Database {
    var tenants: seq<TenantRow>
    var sites: seq<SiteRow>
    var desired: map<string, DesiredRow>

    constructor ()
      ensures Contents() == EMPTY
    {
      tenants, sites, desired := [], [], map[];
    }

    function Contents(): Tables
      reads this
    {
      Tables(tenants, sites, desired)
    }

    method InsertTenant(id: string) returns (r: Option<Error>)
      modifies this
      ensures match CreateTenant(old(Contents()), id)
              case Ok(t) => r.None? && Contents() == t
              case Err(e) => r == Some(e) && Contents() == old(Contents())
    {
      if HasTenant(Contents(), id) {
        return Some(Duplicate);
      }
      tenants := tenants + [TenantRow(id, "active")];
      r := None;
    }

    method InsertSite(row: SiteRow) returns (r: Option<Error>)
      modifies this
      ensures match CreateSite(old(Contents()), row)
              case Ok(t) => r.None? && Contents() == t
              case Err(e) => r == Some(e) && Contents() == old(Contents())
    {
      if HasSite(Contents(), row.id) {
        return Some(Duplicate);
      }
      if !HasTenant(Contents(), row.tenantId) {
        return Some(ForeignKey);
      }
      sites := sites + [row.(status := "active")];
      r := None;
    }

    // UPDATE sites SET ... WHERE id = ?
    method PatchSite(id: string, codec: string, direction: string) returns (r: Option<Error>)
      modifies this
      ensures match UpdateSite(old(Contents()), id, codec, direction)
              case Ok(t) => r.None? && Contents() == t
              case Err(e) => r == Some(e) && Contents() == old(Contents())
    {
      if codec == "" && direction == "" {
        return None;
      }
      var affected := 0;
      ghost var before := sites;
      for i := 0 to |sites|
        invariant |sites| == |before|
        invariant forall k :: 0 <= k < i ==>
          sites[k] == if before[k].id == id then Patched(before[k], codec, direction) else before[k]
        invariant forall k :: i <= k < |sites| ==> sites[k] == before[k]
        invariant affected > 0 <==> exists k :: 0 <= k < i && before[k].id == id
        invariant affected >= 0 && tenants == old(tenants) && desired == old(desired)
      {
        if sites[i].id == id {
          sites := sites[i := Patched(sites[i], codec, direction)];
          affected := affected + 1;
        }
      }
      if affected == 0 {
        assert sites == before;
        return Some(NotFound);
      }
      r := None;
    }

    method UpdateTenantStatus(id: string, status: string)
      modifies this`tenants
      ensures Contents() == SetTenantStatus(old(Contents()), id, status)
    {
      tenants := seq(|tenants|, i requires 0 <= i < |tenants| reads this =>
        if tenants[i].id == id then tenants[i].(status := status) else tenants[i]);
    }

    method RemoveTenant(id: string, purge: bool)
      modifies this
      ensures Contents() == DeleteTenant(old(Contents()), id, purge)
    {
      if purge {
        desired := map p | p in desired && desired[p].tenantId != id :: desired[p];
        desired := desired - {id + "-tsdb"};
        sites := Keep(sites, (r: SiteRow) => r.tenantId != id);
        tenants := Keep(tenants, (r: TenantRow) => r.id != id);
      } else {
        UpdateTenantStatus(id, "orphaned");
      }
    }

    method RemoveSite(id: string, purge: bool)
      modifies this
      ensures Contents() == DeleteSite(old(Contents()), id, purge)
    {
      if purge {
        desired := map p | p in desired && desired[p].siteId != id :: desired[p];
        sites := Keep(sites, (r: SiteRow) => r.id != id);
      } else {
        sites := seq(|sites|, i requires 0 <= i < |sites| reads this =>
          if sites[i].id == id then sites[i].(status := "orphaned") else sites[i]);
      }
    }

    // INSERT ... ON CONFLICT(project_id) DO UPDATE SET state, config_hash
    method UpsertDesiredState(row: DesiredRow)
      modifies this`desired
      ensures Contents() == UpsertDesired(old(Contents()), row)
    {
      if row.projectId in desired {
        var was := desired[row.projectId];
        desired := desired[row.projectId := was.(state := row.state, configHash := row.configHash)];
      } else {
        desired := desired[row.projectId := row];
      }
    }
  }
}
