/** The audit records the activity events produce: an activity with an
    optional details block holding an ordered list of history fields, each
    recording one setting's old and new value. */
module Activities {
  import opened Common

  /** `ActivityAction.UPDATE_PROJECT`. */
  const UpdateProjectAction: string := "update_project"

  /** `Activity.ActivityEntityType`, as far as the modelled events use it. */
  datatype EntityType = Project | EmailConfig

  datatype HistoryField = HistoryField(field: string, oldValue: string, newValue: string)

  datatype ActivityDetails = ActivityDetails(objectName: string, history: seq<HistoryField>)

  /** An activity record; its creation time is not modelled. */
  datatype Activity = Activity(
    action: string,
    entityType: EntityType,
    projectId: int,
    userId: int,
    objectId: Option<int>,
    details: Option<ActivityDetails>)
}
