/** The activity recorded when a project's email notification settings are
    updated: a single history field about the sender cases. */
module EmailConfigActivity {
  import opened Common
  import opened JavaText
  import opened Activities

  /** History name of the sender cases (`EMAIL_CASES`). */
  const EmailCases: string := "emailCases"
  /** Placeholder value (`EMPTY_FIELD`). */
  const EmptyField: string := ""
  const CaseSeparator: string := ", "

  /** The stored notification configuration; its sender-case list may be
      `null`. */
  datatype NotificationConfig<C> = NotificationConfig(senderCases: Option<seq<C>>)

  /** The project as stored before the update; its notification
      configuration may be absent. */
  datatype ProjectResource<C> = ProjectResource(
    projectId: int,
    projectName: string,
    notificationConfig: Option<NotificationConfig<C>>)

  /** The `toString` of every case, in order. */
  function Shown<C>(cases: seq<C>, show: C -> string): (r: seq<string>)
    ensures |r| == |cases| && forall i :: 0 <= i < |cases| ==> r[i] == show(cases[i])
  {
    seq(|cases|, i requires 0 <= i < |cases| => show(cases[i]))
  }

  /** `processEmailConfiguration`: with a stored configuration, one EMAIL_CASES
      field. A `null` stored list counts as empty; a `null` requested list
      never equals it. When the lists differ the field holds placeholders;
      when they agree it holds the joined case strings, old and new. */
  function ProcessEmailConfiguration<C(==)>(project: ProjectResource<C>, requested: Option<seq<C>>, show: C -> string): (r: seq<HistoryField>)
    ensures project.notificationConfig.None? ==> r == []
    ensures project.notificationConfig.Some? ==> |r| == 1 && r[0].field == EmailCases
    ensures project.notificationConfig.Some? ==>
              var before := project.notificationConfig.value.senderCases.GetOr([]);
              && (requested != Some(before) ==> r[0] == HistoryField(EmailCases, EmptyField, EmptyField))
              && (requested == Some(before) ==>
                    r[0] == HistoryField(EmailCases, Join(Shown(before, show), CaseSeparator), Join(Shown(before, show), CaseSeparator)))
  {
    match project.notificationConfig
    case None => []
    case Some(cfg) =>
      var before := cfg.senderCases.GetOr([]);
      if requested != Some(before) then
        [HistoryField(EmailCases, EmptyField, EmptyField)]
      else
        [HistoryField(EmailCases, Join(Shown(before, show), CaseSeparator), Join(Shown(requested.value, show), CaseSeparator))]
  }

  /** As written, the email-config history never shows a difference: a
      change is recorded as placeholders, and no change as equal values. */
  lemma HistoryNeverShowsDifference<C>(project: ProjectResource<C>, requested: Option<seq<C>>, show: C -> string)
    ensures forall h :: h in ProcessEmailConfiguration(project, requested, show) ==> h.oldValue == h.newValue
  {
  }

  /** `toActivity`: an UPDATE_PROJECT activity on the EMAIL_CONFIG entity of
      the project, whose details are attached even when empty. */
  function ToActivity<C(==)>(before: ProjectResource<C>, requested: Option<seq<C>>, updatedBy: int, show: C -> string): (r: Activity)
    ensures r.action == UpdateProjectAction && r.entityType == EmailConfig
    ensures r.projectId == before.projectId && r.objectId == Some(before.projectId) && r.userId == updatedBy
    ensures r.details.Some? && r.details.value.objectName == before.projectName
    ensures |r.details.value.history| == (if before.notificationConfig.Some? then 1 else 0)
    ensures r.details.value.history == ProcessEmailConfiguration(before, requested, show)
  {
    var details := ActivityDetails(before.projectName, ProcessEmailConfiguration(before, requested, show));
    Activity(UpdateProjectAction, EmailConfig, before.projectId, updatedBy, Some(before.projectId), Some(details))
  }
}
