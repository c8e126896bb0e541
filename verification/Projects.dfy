/** Values shared by the models of the store, the reconciler and the hash ledger. */
module Projects {
  datatype Option<+T> = None | Some(value: T)

  // The rendered files of one compose project: path to content.
  type Files = map<string, string>

  // A container remembers the files it was started from; `running` is Docker's State == "running".
  datatype Container = Container(config: Files, running: bool)

  // internal/store/sqlite/store.go, DesiredStateRow
  datatype DesiredRow = DesiredRow(projectId: string, tenantId: string, siteId: string, state: string,
    configHash: string)

  predicate AllRunning(cs: seq<Container>) {
    forall i :: 0 <= i < |cs| ==> cs[i].running
  }

  predicate AllCarry(cs: seq<Container>, files: Files) {
    forall i :: 0 <= i < |cs| ==> cs[i].config == files
  }

  // INSERT ... ON CONFLICT(project_id) DO UPDATE SET state, config_hash: the ids of an existing row stay.
  function Upsert(table: map<string, DesiredRow>, row: DesiredRow): map<string, DesiredRow> {
    if row.projectId in table
    then table[row.projectId := table[row.projectId].(state := row.state, configHash := row.configHash)]
    else table[row.projectId := row]
  }
}
