/** The activity recorded after a project update: one history field for
    each of the job settings the request changes. */
module ProjectActivity {
  import opened Common
  import opened Activities

  // Project configuration keys (`ProjectAttributeEnum` attributes).
  const KeepLogsKey: string := "job.keepLogs"
  const KeepScreenshotsKey: string := "job.keepScreenshots"
  const InterruptJobTimeKey: string := "job.interruptJobTime"

  /** The history name of the inactivity timeout (`LAUNCH_INACTIVITY`),
      used instead of its attribute key. */
  const LaunchInactivity: string := "launchInactivity"

  /** A project as the event sees it: its configuration parameters are the
      attribute map the project stores. */
  datatype Project = Project(id: int, name: string, config: map<string, string>)

  /** The job settings of an update request; absent means not requested. */
  datatype ProjectConfiguration = ProjectConfiguration(
    keepLogs: Option<string>,
    keepScreenshots: Option<string>,
    interruptJobTime: Option<string>)

  function Stored(config: map<string, string>, key: string): Option<string> {
    if key in config then Some(config[key]) else None
  }

  /** A setting counts as changed when a new value is requested, an old value
      is stored and non-empty, and the two differ. */
  predicate Changed(oldValue: Option<string>, newValue: Option<string>) {
    newValue.Some? && oldValue.Some? && oldValue.value != "" && newValue.value != oldValue.value
  }

  /** One `process*` step: the history field for one setting, if changed. */
  function FieldChange(field: string, oldValue: Option<string>, newValue: Option<string>): (r: seq<HistoryField>)
    ensures |r| <= 1
    ensures |r| == 1 <==> Changed(oldValue, newValue)
    ensures |r| == 1 ==> r[0] == HistoryField(field, oldValue.value, newValue.value)
  {
    if Changed(oldValue, newValue) then [HistoryField(field, oldValue.value, newValue.value)] else []
  }

  /** The three history names, in the order the fields are examined. */
  const FieldOrder: seq<string> := [KeepLogsKey, KeepScreenshotsKey, LaunchInactivity]

  /** The history of a request against the stored configuration: keep-logs,
      then keep-screenshots, then launch inactivity. */
  function ConfigHistory(existed: map<string, string>, rq: ProjectConfiguration): (r: seq<HistoryField>)
    ensures |r| <= 3
    ensures forall h :: h in r ==> h.oldValue != "" && h.oldValue != h.newValue
    ensures forall i, j :: 0 <= i < j < |r| ==> Position(r[i].field) < Position(r[j].field)
  {
    FieldChange(KeepLogsKey, Stored(existed, KeepLogsKey), rq.keepLogs)
    + FieldChange(KeepScreenshotsKey, Stored(existed, KeepScreenshotsKey), rq.keepScreenshots)
    + FieldChange(LaunchInactivity, Stored(existed, InterruptJobTimeKey), rq.interruptJobTime)
  }

  /** Where a history name stands in the examination order. */
  function Position(field: string): nat {
    if field == KeepLogsKey then 0 else if field == KeepScreenshotsKey then 1 else 2
  }

  /** The old value the history records for a setting, and the request value
      it records as new: a field appears exactly when its setting changed. */
  lemma ConfigHistoryEntries(existed: map<string, string>, rq: ProjectConfiguration)
    ensures (exists h :: h in ConfigHistory(existed, rq) && h.field == KeepLogsKey)
            <==> Changed(Stored(existed, KeepLogsKey), rq.keepLogs)
    ensures (exists h :: h in ConfigHistory(existed, rq) && h.field == KeepScreenshotsKey)
            <==> Changed(Stored(existed, KeepScreenshotsKey), rq.keepScreenshots)
    ensures (exists h :: h in ConfigHistory(existed, rq) && h.field == LaunchInactivity)
            <==> Changed(Stored(existed, InterruptJobTimeKey), rq.interruptJobTime)
    ensures forall h :: h in ConfigHistory(existed, rq) && h.field == LaunchInactivity ==>
              h == HistoryField(LaunchInactivity, existed[InterruptJobTimeKey], rq.interruptJobTime.value)
    ensures forall h :: h in ConfigHistory(existed, rq) && h.field == KeepLogsKey ==>
              h == HistoryField(KeepLogsKey, existed[KeepLogsKey], rq.keepLogs.value)
    ensures forall h :: h in ConfigHistory(existed, rq) && h.field == KeepScreenshotsKey ==>
              h == HistoryField(KeepScreenshotsKey, existed[KeepScreenshotsKey], rq.keepScreenshots.value)
  {
  }

  /** The stored configuration once the request's settings are written into
      it. The code that performs this update is not part of this model; this
      definition is the assumption that each requested setting overwrites
      the stored one. */
  function Apply(existed: map<string, string>, rq: ProjectConfiguration): (r: map<string, string>)
    ensures rq.keepLogs.Some? ==> Stored(r, KeepLogsKey) == rq.keepLogs
    ensures rq.keepScreenshots.Some? ==> Stored(r, KeepScreenshotsKey) == rq.keepScreenshots
    ensures rq.interruptJobTime.Some? ==> Stored(r, InterruptJobTimeKey) == rq.interruptJobTime
  {
    var withLogs := if rq.keepLogs.Some? then existed[KeepLogsKey := rq.keepLogs.value] else existed;
    var withScreenshots := if rq.keepScreenshots.Some? then withLogs[KeepScreenshotsKey := rq.keepScreenshots.value] else withLogs;
    if rq.interruptJobTime.Some? then withScreenshots[InterruptJobTimeKey := rq.interruptJobTime.value] else withScreenshots
  }

  /** Diffing a request against a configuration that already holds it
      records nothing. The event reads the stored values from the project
      AFTER the update, so an update that has been applied leaves no history. */
  lemma AppliedRequestRecordsNothing(existed: map<string, string>, rq: ProjectConfiguration)
    ensures ConfigHistory(Apply(existed, rq), rq) == []
  {
  }

  /** `toActivity`: an UPDATE_PROJECT activity of the updated project, with
      details only when the history is non-empty. */
  function ToActivity(after: Project, updatedBy: int, rq: Option<ProjectConfiguration>): (r: Activity)
    ensures r.action == UpdateProjectAction && r.entityType == Activities.Project
    ensures r.projectId == after.id && r.userId == updatedBy && r.objectId.None?
    ensures rq.None? ==> r.details.None?
    ensures r.details.Some? <==> rq.Some? && ConfigHistory(after.config, rq.value) != []
    ensures r.details.Some? ==>
              r.details.value.objectName == after.name && 0 < |r.details.value.history| <= 3
              && r.details.value.history == ConfigHistory(after.config, rq.value)
  {
    var history := if rq.Some? then ConfigHistory(after.config, rq.value) else [];
    var details := if history != [] then Some(ActivityDetails(after.name, history)) else None;
    Activity(UpdateProjectAction, Activities.Project, after.id, updatedBy, None, details)
  }
}
