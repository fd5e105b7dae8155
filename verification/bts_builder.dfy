/** The builder that assembles a bug-tracking-system integration from a
    request: its URL, type, external project, owning project and defect
    form fields. */
module BtsBuilder {
  import opened Common

  // Parameter keys (`BtsConstants`).
  const UrlKey: string := "url"
  const ProjectKey: string := "project"
  const DefectFormFieldsKey: string := "defectFormFields"

  /** A field of the defect form the bug tracker asks for. */
  datatype DefectFormField = DefectFormField(fieldId: string, fieldType: string, required: bool, values: seq<string>)

  /** A parameter value: text (possibly `null`) or a set of form fields. */
  datatype Param = Text(text: Option<string>) | FormFields(fields: set<DefectFormField>)

  type BtsParams = map<string, Param>

  /** A bug-tracking-system integration: id, type name, owning project and
      parameters, each absent until set. */
  datatype BugTrackingSystem = BugTrackingSystem(
    id: Option<int>,
    integrationType: Option<string>,
    projectId: Option<int>,
    params: Option<BtsParams>)

  /** The builder's state: the integration under construction and the
      parameter object it will receive. */
  datatype Builder = Builder(system: BugTrackingSystem, parameters: Option<BtsParams>)

  /** The default constructor: a fresh integration and empty parameters. */
  function NewBuilder(): (b: Builder)
    ensures b.parameters == Some(map[])
    ensures b.system == BugTrackingSystem(None, None, None, None)
  {
    Builder(BugTrackingSystem(None, None, None, None), Some(map[]))
  }

  /** The copy constructor: wraps an existing integration but leaves the
      parameter object unset, so any parameter write fails. */
  function BuilderOf(system: BugTrackingSystem): (b: Builder)
    ensures b.system == system && b.parameters.None?
  {
    Builder(system, None)
  }

  /** `after` is `b` with `value` stored under `key` and nothing else changed. */
  ghost predicate Writes(b: Builder, after: Builder, key: string, value: Param) {
    && after.system == b.system
    && b.parameters.Some? && after.parameters.Some?
    && key in after.parameters.value && after.parameters.value[key] == value
    && (forall k :: k != key ==>
          (k in after.parameters.value <==> k in b.parameters.value)
          && (k in b.parameters.value ==> after.parameters.value[k] == b.parameters.value[k]))
  }

  /** `BtsConstants.setParam`: store a value under a key of the parameter
      object; a missing parameter object is a `NullPointerException`. */
  function SetParam(b: Builder, key: string, value: Param): (r: Result<Builder>)
    ensures r.Failure? <==> b.parameters.None?
    ensures r.Failure? ==> r.error == NullPointerException
    ensures r.Success? ==> Writes(b, r.value, key, value)
  {
    match b.parameters
    case None => Failure(NullPointerException)
    case Some(p) => Success(b.(parameters := Some(p[key := value])))
  }

  predicate EndsWithSlash(s: string) {
    |s| > 0 && s[|s| - 1] == '/'
  }

  /** One trailing '/' removed from a non-empty URL; `null` and "" are kept. */
  function StripTrailingSlash(url: Option<string>): (r: Option<string>)
    ensures r.None? <==> url.None?
    ensures url.Some? && !EndsWithSlash(url.value) ==> r == url
    ensures url.Some? && EndsWithSlash(url.value) ==> r.value + "/" == url.value
  {
    match url
    case None => None
    case Some(u) => if EndsWithSlash(u) then Some(u[..|u| - 1]) else url
  }

  /** Adding a slash and stripping it gives the URL back. */
  lemma StripUndoesSlash(u: string)
    ensures StripTrailingSlash(Some(u + "/")) == Some(u)
  {
  }

  /** `addUrl`: the URL, less one trailing slash, becomes the URL parameter. */
  function AddUrl(b: Builder, url: Option<string>): (r: Result<Builder>)
    ensures r.Failure? <==> b.parameters.None?
    ensures r.Failure? ==> r.error == NullPointerException
    ensures r.Success? ==> Writes(b, r.value, UrlKey, Text(StripTrailingSlash(url)))
  {
    SetParam(b, UrlKey, Text(StripTrailingSlash(url)))
  }

  function AddIntegrationType(b: Builder, integrationType: Option<string>): (r: Builder)
    ensures r.system.integrationType == integrationType
    ensures r.parameters == b.parameters && r.system.(integrationType := b.system.integrationType) == b.system
  {
    b.(system := b.system.(integrationType := integrationType))
  }

  /** `addBugTrackingProject`: a `null` or empty name is ignored, before the
      parameter object is touched. */
  function AddBugTrackingProject(b: Builder, project: Option<string>): (r: Result<Builder>)
    ensures project.None? || project.value == "" ==> r == Success(b)
    ensures project.Some? && project.value != "" ==>
              if b.parameters.None? then r == Failure(NullPointerException) else r.Success? && Writes(b, r.value, ProjectKey, Text(project))
  {
    if project.None? || project.value == "" then Success(b) else SetParam(b, ProjectKey, Text(project))
  }

  /** `addProject`: the integration belongs to the project with this id. */
  function AddProject(b: Builder, projectId: Option<int>): (r: Builder)
    ensures r.system.projectId == projectId
    ensures r.parameters == b.parameters && r.system.(projectId := b.system.projectId) == b.system
  {
    b.(system := b.system.(projectId := projectId))
  }

  /** `addFields`: a `null` or empty set is ignored. */
  function AddFields(b: Builder, fields: Option<set<DefectFormField>>): (r: Result<Builder>)
    ensures fields.None? || fields.value == {} ==> r == Success(b)
    ensures fields.Some? && fields.value != {} ==>
              if b.parameters.None? then r == Failure(NullPointerException) else r.Success? && Writes(b, r.value, DefectFormFieldsKey, FormFields(fields.value))
  {
    if fields.None? || fields.value == {} then Success(b) else SetParam(b, DefectFormFieldsKey, FormFields(fields.value))
  }

  /** `get`: the integration, given the builder's parameter object. */
  function Get(b: Builder): (r: BugTrackingSystem)
    ensures r.params == b.parameters
    ensures r.(params := b.system.params) == b.system
  {
    b.system.(params := b.parameters)
  }

  /** The copy constructor followed by `get` drops the integration's
      parameters: the builder never received a parameter object. */
  lemma CopyBuilderDropsParams(system: BugTrackingSystem)
    ensures Get(BuilderOf(system)) == system.(params := None)
    ensures system.params.Some? ==> Get(BuilderOf(system)) != system
  {
  }

  /** A fresh builder given a URL with a trailing slash yields the URL
      without it, and no other parameter. */
  lemma FreshUrlRoundTrip(u: string)
    ensures AddUrl(NewBuilder(), Some(u + "/")).Success?
    ensures Get(AddUrl(NewBuilder(), Some(u + "/")).value).params == Some(map[UrlKey := Text(Some(u))])
  {
  }

  /** On a copy builder every parameter write that is not ignored fails. */
  lemma CopyBuilderRejectsParams(system: BugTrackingSystem, url: Option<string>, project: Option<string>, fields: Option<set<DefectFormField>>)
    ensures AddUrl(BuilderOf(system), url) == Failure(NullPointerException)
    ensures project.Some? && project.value != "" ==> AddBugTrackingProject(BuilderOf(system), project) == Failure(NullPointerException)
    ensures fields.Some? && fields.value != {} ==> AddFields(BuilderOf(system), fields) == Failure(NullPointerException)
  {
  }
}
