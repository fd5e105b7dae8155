# ReportPortal service API: analyzer dispatch, email integration and activity history

This project is a Dafny model of a handful of components of the ReportPortal service API (Java). It also proves properties of that model.

- **Analyzer client** (`AnalyzerClient`). The client fans requests out to the analyzer exchanges over a message broker. `index` sends the launches to every exchange that supports indexing and adds up the indexed-item counts. `analyze` asks the exchanges one after another, in directory order. Each non-empty reply is stored under the exchange's analyzer key, or under its name when it has no key. The items a reply classifies are removed from the request before the next exchange is asked. `cleanIndex` and `deleteIndex` send to every exchange without filtering.
- **Email server integration** (`EmailIntegration`). Before storing integration parameters, the service:
  - validates the FROM address and the port;
  - defaults the port to 25 and the protocol to "smtp";
  - encrypts the password, or drops the credentials when authentication is off;
  - attaches the parameters to the first stored integration, or to a fresh one;
  - tests the connection.
- **Mail service factory** (`MailServiceFactory`). Builds a configured email service from the server settings, with an optional project-level sender override, and checks its connection.
- **Activity history** (`Activities`, `ProjectActivity`, `EmailConfigActivity`). Builds the audit records written after a project update and after an email-configuration update.
- **Bug-tracking-system builder** (`BtsBuilder`), the **statistics converter** (`StatisticsConverter`) and the **special-characters predicate** (`Predicates`).
- Shared pieces: `Common` holds results, error kinds, the integration entity and a subsequence relation. `JavaText` gives definitions for the Java library routines the code relies on: `BooleanUtils.toBoolean`, `Integer.parseInt`, `String.valueOf(int)` and `Collectors.joining`.

Everything is modelled as immutable data and pure functions.

- A Java method that mutates its argument (the analyzer request, the integration parameter map) returns the new value instead.
- A thrown exception becomes a `Failure` carrying the exception kind.
- The message broker is a `Broker` value. It holds the exchange snapshot and the reply each exchange gives to each request.
- Every collaborator the modelled code calls but that is not part of this model is a parameter:
  - the encryptor and decryptor;
  - the e-mail validator;
  - the SMTP connection test;
  - the exchange capability filter;
  - the repositories' query results.

The key strings of the settings enumerations (`EmailSettingsEnum`, `ServerSettingsEnum`, `ProjectAttributeEnum`, `BtsConstants`, `ActivityDetailsUtil`) are not part of this model. They are given plausible values. The proofs rely only on these strings being distinct, and on the SSL setting's name not being one of the words `toBoolean` accepts.

`ProjectUpdatedEvent.toActivity` reads the "old" values from the project AFTER the update (`getAfter()`, line 66). The model follows the code. The code that writes a request into the stored configuration is not part of this model. `ProjectActivity.Apply` is an assumption about it: each requested setting overwrites the stored one. Under that assumption, `ProjectActivity.AppliedRequestRecordsNothing` shows the consequence: an update already applied to that configuration records no history. Whether `after` really holds the updated configuration depends on the caller, so this is recorded here rather than as a finding.

## Model

| member | source | states |
|---|---|---|
| AnalyzerClient.HasClients | src/main/java/com/epam/ta/reportportal/core/analyzer/client/AnalyzerServiceClientImpl.java:59-62 | there are clients exactly when the exchange list is non-empty |
| AnalyzerClient.Broadcast | src/main/java/com/epam/ta/reportportal/core/analyzer/client/AnalyzerServiceClientImpl.java:88-97 | one message per exchange, in directory order, each addressed to that exchange with the given route and body |
| AnalyzerClient.BroadcastOnePerExchange | src/main/java/com/epam/ta/reportportal/core/analyzer/client/AnalyzerServiceClientImpl.java:88-97 | with distinct exchange names, each exchange receives exactly one message and an unknown name none |
| AnalyzerClient.CleanIndex | src/main/java/com/epam/ta/reportportal/core/analyzer/client/AnalyzerServiceClientImpl.java:87-92 | every exchange, unfiltered and in order, gets a "clean" message carrying the index and the id list |
| AnalyzerClient.DeleteIndex | src/main/java/com/epam/ta/reportportal/core/analyzer/client/AnalyzerServiceClientImpl.java:94-98 | every exchange, unfiltered and in order, gets a "delete" message carrying the bare index |
| AnalyzerClient.Indexers | src/main/java/com/epam/ta/reportportal/core/analyzer/client/AnalyzerServiceClientImpl.java:66-68 | the exchanges kept are exactly those that support indexing, in their original relative order |
| AnalyzerClient.Index | src/main/java/com/epam/ta/reportportal/core/analyzer/client/AnalyzerServiceClientImpl.java:64-77 | only exchanges that support indexing are contacted; with none, the total is 0 and nothing is sent |
| AnalyzerClient.SumIndexedIndexers | src/main/java/com/epam/ta/reportportal/core/analyzer/client/AnalyzerServiceClientImpl.java:68-76 | summing over the filtered exchanges equals summing, over all exchanges, the count of those that support indexing and 0 for the rest |
| AnalyzerClient.IndexTotalIsSumOfShares | src/main/java/com/epam/ta/reportportal/core/analyzer/client/AnalyzerServiceClientImpl.java:65-76 | the index total is the sum of the item counts reported by the supporting exchanges |
| AnalyzerClient.IndexContactsExactlySupporters | src/main/java/com/epam/ta/reportportal/core/analyzer/client/AnalyzerServiceClientImpl.java:66-74 | with distinct names, a supporting exchange receives exactly one index request and a non-supporting one none |
| AnalyzerClient.IndexersDistinct | src/main/java/com/epam/ta/reportportal/core/analyzer/client/AnalyzerServiceClientImpl.java:66-68 | filtering keeps exchange names distinct |
| AnalyzerClient.ResultKey | src/main/java/com/epam/ta/reportportal/core/analyzer/client/AnalyzerServiceClientImpl.java:107 | results are keyed by the declared analyzer key when present, otherwise by the exchange name, never both |
| AnalyzerClient.KeepUnclaimed | src/main/java/com/epam/ta/reportportal/core/analyzer/client/AnalyzerServiceClientImpl.java:120 | an item remains exactly when its id is not claimed, in the original relative order |
| AnalyzerClient.KeepUnclaimedKeepsEveryCopy | src/main/java/com/epam/ta/reportportal/core/analyzer/client/AnalyzerServiceClientImpl.java:120 | each unclaimed item remains as many times as it occurred, and no copy of a claimed one does |
| AnalyzerClient.RemoveAnalyzedFromRq | src/main/java/com/epam/ta/reportportal/core/analyzer/client/AnalyzerServiceClientImpl.java:118-121 | the launch keeps its id and name; its item ids become the old ids minus the ids of the reply; order is kept |
| AnalyzerClient.RemoveAnalyzedKeepsEveryCopy | src/main/java/com/epam/ta/reportportal/core/analyzer/client/AnalyzerServiceClientImpl.java:118-121 | the request keeps every copy of each unclaimed item and none of a claimed one |
| AnalyzerClient.KeptIds | src/main/java/com/epam/ta/reportportal/core/analyzer/client/AnalyzerServiceClientImpl.java:119-120 | removing the claimed items removes exactly the claimed ids from the id set |
| AnalyzerClient.AnalyzeExchange | src/main/java/com/epam/ta/reportportal/core/analyzer/client/AnalyzerServiceClientImpl.java:100-110 | one analyze message carrying the current request is sent to the exchange; a non-empty reply is stored under the exchange's result key and its items are removed from the request; otherwise the results and the request are unchanged |
| AnalyzerClient.AnalyzeFirst | src/main/java/com/epam/ta/reportportal/core/analyzer/client/AnalyzerServiceClientImpl.java:81-84 | after k exchanges, k requests were sent and the result map has at most k keys |
| AnalyzerClient.AnalyzeKeepsOrder | src/main/java/com/epam/ta/reportportal/core/analyzer/client/AnalyzerServiceClientImpl.java:100-110 | the request only shrinks: the remaining items are a subsequence of the original and the launch identity is kept |
| AnalyzerClient.Analyze | src/main/java/com/epam/ta/reportportal/core/analyzer/client/AnalyzerServiceClientImpl.java:79-85 | no exchanges give an empty map, an untouched request and no sends; at most one key per exchange; the request only shrinks |
| AnalyzerClient.AnalyzeSendsInOrder | src/main/java/com/epam/ta/reportportal/core/analyzer/client/AnalyzerServiceClientImpl.java:81-105 | the j-th message goes to the j-th exchange on the analyze route and carries the request as shrunk by the exchanges before it |
| AnalyzerClient.RequestStep | src/main/java/com/epam/ta/reportportal/core/analyzer/client/AnalyzerServiceClientImpl.java:106-109 | asking one exchange removes from the request exactly the items its non-empty reply classifies |
| AnalyzerClient.SilentExchangeChangesNothing | src/main/java/com/epam/ta/reportportal/core/analyzer/client/AnalyzerServiceClientImpl.java:100-110 | an empty or missing reply adds no result entry and leaves the request unchanged |
| AnalyzerClient.RequestSeenIsOriginalMinusClaimed | src/main/java/com/epam/ta/reportportal/core/analyzer/client/AnalyzerServiceClientImpl.java:100-121 | an item is in the request exchange k sees exactly when it is in the original and no exchange before k claimed its id |
| AnalyzerClient.ClaimedBeforeGrows | src/main/java/com/epam/ta/reportportal/core/analyzer/client/AnalyzerServiceClientImpl.java:106-109 | the ids claimed by an exchange stay claimed for every later exchange |
| AnalyzerClient.NoItemOfferedAfterClaim | src/main/java/com/epam/ta/reportportal/core/analyzer/client/AnalyzerServiceClientImpl.java:100-121 | once an exchange classifies an item, no later exchange is offered it |
| AnalyzerClient.HonestRepliesAreDisjoint | src/main/java/com/epam/ta/reportportal/core/analyzer/client/AnalyzerServiceClientImpl.java:100-121 | if analyzers classify only offered items, no item is claimed by two exchanges |
| AnalyzerClient.LastWriter | src/main/java/com/epam/ta/reportportal/core/analyzer/client/AnalyzerServiceClientImpl.java:107 | the position of the last contributing exchange for a key lies among the exchanges asked so far |
| AnalyzerClient.LastWriterIsLast | src/main/java/com/epam/ta/reportportal/core/analyzer/client/AnalyzerServiceClientImpl.java:83-107 | the last writer contributed under the key and no later exchange did |
| AnalyzerClient.LastWriterFound | src/main/java/com/epam/ta/reportportal/core/analyzer/client/AnalyzerServiceClientImpl.java:83-107 | any contributing exchange with the key has a last writer at or after it |
| AnalyzerClient.AnalyzeResultsLastWriterWins | src/main/java/com/epam/ta/reportportal/core/analyzer/client/AnalyzerServiceClientImpl.java:80-110 | a key is in the result map exactly when some exchange contributed under it, and it holds the reply of the last such exchange |
| AnalyzerClient.ReplyStoredUnderResultKey | src/main/java/com/epam/ta/reportportal/core/analyzer/client/AnalyzerServiceClientImpl.java:106-107 | a non-empty reply not overwritten later is found under the analyzer key, or under the exchange name when no key is declared |
| AnalyzerClient.AnalyzeInPlace | src/main/java/com/epam/ta/reportportal/core/analyzer/client/AnalyzerServiceClientImpl.java:80-85 | the loop that mutates one map and one request computes the same result map and remaining request as the fold |
| AnalyzerClient.AnalyzeScenario | src/main/java/com/epam/ta/reportportal/core/analyzer/client/AnalyzerServiceClientImpl.java:79-121 | with exchanges [A, B] and items {1, 2, 3}, where A classifies 1 and 2 and B classifies 3: A is asked about all three items, B only about item 3, and the result is {A: reply of A, B: reply of B} with nothing left |
| AnalyzerClient.IndexScenario | src/main/java/com/epam/ta/reportportal/core/analyzer/client/AnalyzerServiceClientImpl.java:64-77 | with exchanges [A (indexing), B (not)], where A reports 7 items: only A is sent the launches and the total is 7 |
| EmailIntegration.UpdateIntegrationParams | src/main/java/com/epam/ta/reportportal/core/integration/util/EmailServerIntegrationService.java:125-160 | empty parameters or an invalid FROM give BAD_REQUEST; otherwise a port outside 1..65535 gives INCORRECT_REQUEST; on success the port is stored as the parsed integer (25 when absent, null or unparsable), the protocol defaults to "smtp", the password is encrypted when authentication is on, both credentials are nulled when it is off, and no other key changes |
| EmailIntegration.NormalisationIdempotentWithoutAuth | src/main/java/com/epam/ta/reportportal/core/integration/util/EmailServerIntegrationService.java:135-159 | with authentication off, normalising already normalised parameters changes nothing (the stored port parses back to itself) |
| EmailIntegration.KeepWithId | src/main/java/com/epam/ta/reportportal/core/integration/util/EmailServerIntegrationService.java:169 | exactly the integrations with the chosen id are kept, each as many times as it occurred, in order |
| EmailIntegration.RetrieveIntegration | src/main/java/com/epam/ta/reportportal/core/integration/util/EmailServerIntegrationService.java:162-172 | the first stored integration, or a fresh one without id or parameters when none is stored; the list shrinks to the integrations sharing its id, duplicates included, the chosen one first |
| EmailIntegration.TestConnection | src/main/java/com/epam/ta/reportportal/core/integration/util/EmailServerIntegrationService.java:174-186 | passes when no email service exists or its connection test succeeds; otherwise FORBIDDEN_OPERATION |
| EmailIntegration.TestAndCheckAgreeOnServices | src/main/java/com/epam/ta/reportportal/core/integration/util/EmailServerIntegrationService.java:174-186 | on an existing service the integration test and the factory's check agree; a missing service passes the former and fails the latter |
| EmailIntegration.CreateIntegration | src/main/java/com/epam/ta/reportportal/core/integration/util/EmailServerIntegrationService.java:79-123 | parameter errors come first, then an unknown type (UNABLE_INTERACT_WITH_INTEGRATION), then a failed connection test (FORBIDDEN_OPERATION); on success the first stored integration (or a fresh one) carries the normalised parameters and the type |
| MailServiceFactory.SettingsMap | src/main/java/com/epam/ta/reportportal/util/email/MailServiceFactory.java:98-99 | a null setting value anywhere is a NullPointerException; otherwise the map's keys are exactly the settings' keys |
| MailServiceFactory.SettingsFirstWins | src/main/java/com/epam/ta/reportportal/util/email/MailServiceFactory.java:98-99 | of several settings with one key, the first one's value is used |
| MailServiceFactory.SslSettingIgnoredAsWritten | src/main/java/com/epam/ta/reportportal/util/email/MailServiceFactory.java:112 | for every settings map the as-written SSL test is false, while the value-based test holds when the setting is "true" |
| MailServiceFactory.BuildService | src/main/java/com/epam/ta/reportportal/util/email/MailServiceFactory.java:101-128 | building fails with NumberFormatException exactly when the port setting is missing or not a 32-bit integer; otherwise the port is the parsed value and the SSL socket factory follows the SSL decision passed in |
| MailServiceFactory.GetEmailService | src/main/java/com/epam/ta/reportportal/util/email/MailServiceFactory.java:96-132 | the corrected definition, used by the rest of the model: no service unless the settings are non-empty and enabled; a null setting is a NullPointerException and a bad port a NumberFormatException; otherwise timeout 5000, SMTP auth from the auth setting, STARTTLS only with auth, the SSL socket factory from the SSL setting, host, port, protocol and FROM from the settings, and credentials (password decrypted) only with auth |
| MailServiceFactory.GetEmailServiceAsWritten | src/main/java/com/epam/ta/reportportal/util/email/MailServiceFactory.java:96-132 | the code as written: it fails and is absent exactly where the corrected definition is; a service it builds equals the corrected one except that the SSL socket factory is always off |
| MailServiceFactory.AsWrittenDiffersExactlyOnSsl | src/main/java/com/epam/ta/reportportal/util/email/MailServiceFactory.java:96-132 | the written and the corrected definitions differ exactly on a built service whose SSL setting is enabled |
| MailServiceFactory.SslEnabledSettingsIgnored | src/main/java/com/epam/ta/reportportal/util/email/MailServiceFactory.java:101-117 | with email enabled, port 25 and the SSL setting "true", the corrected service installs the SSL socket factory and the written one does not |
| MailServiceFactory.StartTlsNeedsAuth | src/main/java/com/epam/ta/reportportal/util/email/MailServiceFactory.java:107-110 | in any service built from the settings, STARTTLS is never on without SMTP authentication |
| MailServiceFactory.GetProjectEmailService | src/main/java/com/epam/ta/reportportal/util/email/MailServiceFactory.java:72-88 | fails or is absent exactly as the corrected server-level service does; otherwise it equals it except for FROM, which is the project's sender when the project enables email and names one |
| MailServiceFactory.EmptyProjectConfigKeepsServerService | src/main/java/com/epam/ta/reportportal/util/email/MailServiceFactory.java:76-87 | a project without notification settings gets the server-level service unchanged |
| MailServiceFactory.CheckConnection | src/main/java/com/epam/ta/reportportal/util/email/MailServiceFactory.java:186-196 | passes exactly when a service exists and connects; any failure is EMAIL_CONFIGURATION_IS_INCORRECT |
| MailServiceFactory.RequireService | src/main/java/com/epam/ta/reportportal/util/email/MailServiceFactory.java:160-169 | a build failure propagates; a missing service, or a failed check when one is asked for, is EMAIL_CONFIGURATION_IS_INCORRECT; success returns the built service |
| MailServiceFactory.GetDefaultEmailService | src/main/java/com/epam/ta/reportportal/util/email/MailServiceFactory.java:176-184 | succeeds exactly when the corrected server-level service exists and, when checking is asked for, connects; it returns that service |
| MailServiceFactory.GetDefaultProjectEmailService | src/main/java/com/epam/ta/reportportal/util/email/MailServiceFactory.java:159-169 | the same for the project-level service built on the corrected server-level service |
| MailServiceFactory.UncheckedAcceptsMore | src/main/java/com/epam/ta/reportportal/util/email/MailServiceFactory.java:176-184 | whenever the checked call succeeds, the unchecked call returns the same service |
| ProjectActivity.FieldChange | src/main/java/com/epam/ta/reportportal/core/events/activity/ProjectUpdatedEvent.java:96-101 | at most one entry, present exactly when the new value is given, the old one is stored and non-empty, and they differ; it records (field, old, new) |
| ProjectActivity.ConfigHistory | src/main/java/com/epam/ta/reportportal/core/events/activity/ProjectUpdatedEvent.java:66-72 | at most three entries, in the order keep-logs, keep-screenshots, launch inactivity; each has a non-empty old value different from the new one |
| ProjectActivity.ConfigHistoryEntries | src/main/java/com/epam/ta/reportportal/core/events/activity/ProjectUpdatedEvent.java:79-101 | each setting has an entry exactly when it changed; the entry records the stored and the requested value, and the inactivity entry uses the LAUNCH_INACTIVITY name |
| ProjectActivity.AppliedRequestRecordsNothing | src/main/java/com/epam/ta/reportportal/core/events/activity/ProjectUpdatedEvent.java:66-72 | diffing a request against a configuration that already holds it records nothing |
| ProjectActivity.ToActivity | src/main/java/com/epam/ta/reportportal/core/events/activity/ProjectUpdatedEvent.java:56-77 | an UPDATE_PROJECT activity of the updated project; a null request configuration gives no details; details are attached exactly when the history is non-empty |
| EmailConfigActivity.ProcessEmailConfiguration | src/main/java/com/epam/ta/reportportal/core/events/activity/EmailConfigUpdatedEvent.java:55-81 | no stored configuration gives no entry; otherwise exactly one EMAIL_CASES entry; a null stored list counts as empty; changed cases give placeholder values, unchanged cases give the ", "-joined cases as both old and new |
| EmailConfigActivity.HistoryNeverShowsDifference | src/main/java/com/epam/ta/reportportal/core/events/activity/EmailConfigUpdatedEvent.java:65-78 | as written, no entry ever records differing old and new values |
| EmailConfigActivity.ToActivity | src/main/java/com/epam/ta/reportportal/core/events/activity/EmailConfigUpdatedEvent.java:38-53 | an UPDATE_PROJECT activity on the email configuration of the project, whose details are always attached, even when empty |
| BtsBuilder.NewBuilder | src/main/java/com/epam/ta/reportportal/ws/converter/builders/BugTrackingSystemBuilder.java:39-42 | a fresh integration and an empty parameter object |
| BtsBuilder.BuilderOf | src/main/java/com/epam/ta/reportportal/ws/converter/builders/BugTrackingSystemBuilder.java:44-46 | wraps the given integration and leaves the parameter object unset |
| BtsBuilder.SetParam | src/main/java/com/epam/ta/reportportal/ws/converter/builders/BugTrackingSystemBuilder.java:54 | a missing parameter object is a NullPointerException; otherwise the value is stored under its key and nothing else changes |
| BtsBuilder.StripTrailingSlash | src/main/java/com/epam/ta/reportportal/ws/converter/builders/BugTrackingSystemBuilder.java:49-53 | null stays null; a URL not ending in '/' is unchanged; otherwise the result plus '/' is the URL |
| BtsBuilder.StripUndoesSlash | src/main/java/com/epam/ta/reportportal/ws/converter/builders/BugTrackingSystemBuilder.java:49-53 | appending a slash and stripping it gives the URL back |
| BtsBuilder.AddUrl | src/main/java/com/epam/ta/reportportal/ws/converter/builders/BugTrackingSystemBuilder.java:48-56 | the URL less one trailing slash is stored as the URL parameter and nothing else changes; without a parameter object, NullPointerException |
| BtsBuilder.AddIntegrationType | src/main/java/com/epam/ta/reportportal/ws/converter/builders/BugTrackingSystemBuilder.java:58-61 | sets the type and changes nothing else |
| BtsBuilder.AddBugTrackingProject | src/main/java/com/epam/ta/reportportal/ws/converter/builders/BugTrackingSystemBuilder.java:63-69 | a null or empty name changes nothing; otherwise it is stored under the project key (NullPointerException without a parameter object) |
| BtsBuilder.AddProject | src/main/java/com/epam/ta/reportportal/ws/converter/builders/BugTrackingSystemBuilder.java:71-76 | sets the owning project's id and changes nothing else |
| BtsBuilder.AddFields | src/main/java/com/epam/ta/reportportal/ws/converter/builders/BugTrackingSystemBuilder.java:78-83 | a null or empty set changes nothing; otherwise the set is stored under the defect-form-fields key (NullPointerException without a parameter object) |
| BtsBuilder.Get | src/main/java/com/epam/ta/reportportal/ws/converter/builders/BugTrackingSystemBuilder.java:85-89 | the integration with the builder's parameter object and nothing else changed |
| BtsBuilder.CopyBuilderDropsParams | src/main/java/com/epam/ta/reportportal/ws/converter/builders/BugTrackingSystemBuilder.java:44-89 | building from an existing integration and calling get erases its parameters |
| BtsBuilder.FreshUrlRoundTrip | src/main/java/com/epam/ta/reportportal/ws/converter/builders/BugTrackingSystemBuilder.java:39-56 | a fresh builder given "u/" yields exactly the parameter url = "u" |
| BtsBuilder.CopyBuilderRejectsParams | src/main/java/com/epam/ta/reportportal/ws/converter/builders/BugTrackingSystemBuilder.java:44-83 | on a builder made from an existing integration, every parameter write that is not ignored is a NullPointerException |
| StatisticsConverter.ToMap | src/main/java/com/epam/ta/reportportal/ws/converter/converters/StatisticsConverter.java:50-51 | on success the map has one key per element, each mapped to that element's value |
| StatisticsConverter.ToMapSucceeds | src/main/java/com/epam/ta/reportportal/ws/converter/converters/StatisticsConverter.java:50-51 | collection succeeds exactly when no value is null and no key repeats |
| StatisticsConverter.ToMapKeysFromInput | src/main/java/com/epam/ta/reportportal/ws/converter/converters/StatisticsConverter.java:50-51 | every key of the map is the key of some element |
| StatisticsConverter.ToMapFailure | src/main/java/com/epam/ta/reportportal/ws/converter/converters/StatisticsConverter.java:50-51 | a failure is a NullPointerException caused by a null value, or a duplicate-key error naming some element's key |
| StatisticsConverter.ToIssue | src/main/java/com/epam/ta/reportportal/ws/converter/converters/StatisticsConverter.java:55-59 | a one-entry map from the locator to the counter |
| StatisticsConverter.ToResource | src/main/java/com/epam/ta/reportportal/ws/converter/converters/StatisticsConverter.java:44-53 | succeeds exactly when issue groups and statuses are distinct and no execution counter is null; a repeated issue group is a duplicate-key error on a group; on success one defect entry per issue and one execution entry per status, with their counters |
| StatisticsConverter.EmptyStatistics | src/main/java/com/epam/ta/reportportal/ws/converter/converters/StatisticsConverter.java:44-53 | no statistics give two empty maps |
| Predicates.SpecialCharsOnly | src/main/java/com/epam/ta/reportportal/util/Predicates.java:39 | true exactly when every character is one of "-/@#$%^&_+=()"; the empty string qualifies |
| Predicates.SpecialCharsOnlyConcat | src/main/java/com/epam/ta/reportportal/util/Predicates.java:39 | a concatenation qualifies exactly when both parts do |
| Predicates.OrdinaryCharacterDisqualifies | src/main/java/com/epam/ta/reportportal/util/Predicates.java:30-39 | a string containing a letter, digit or space does not consist of special characters only |
| Predicates.SpecialNamesQualify | src/main/java/com/epam/ta/reportportal/util/Predicates.java:30-39 | "", "--" and "(@#)" consist of special characters only |
| Predicates.OrdinaryNamesDoNotQualify | src/main/java/com/epam/ta/reportportal/util/Predicates.java:30-39 | "a-" and "my project" do not |

## Left out

- Messaging, repositories, logging, the template engine and the clock are not modelled.
  - The broker's replies and the repositories' query results are parameters.
  - Creation dates and activity timestamps are omitted.
- A transport failure while talking to an exchange is not modelled. The broker always answers. The Java code would abort the whole operation.
- `ClientUtils.DOES_SUPPORT_INDEX` and `ClientUtils.ANALYZER_KEY` are not part of this model. They are the parameters `supportsIndex` and `analyzerKey`.
- `ProjectUtils.getConfigParameters` is not part of this model. A project's configuration is given directly as a string map.
- The connection test calls `getEmailService(Integration)` of the mail factory. That method is not part of this model, so it is the parameter `serviceFor`.
- `EmailService.testConnection` is the parameter `connects`. A connection failure is its `false` result.
- `getDefaultEmailService()` and `getDefaultEmailService(projectAttributes)` only read the settings repository and call `getEmailService`. With the settings as a parameter, they are the server-level service and `MailServiceFactory.GetProjectEmailService`. Both are built on the corrected `MailServiceFactory.GetEmailService`, not on the code as written (see the next three lines).
- MailServiceFactory.GetProjectEmailService: builds on the corrected server-level service, so with email enabled and the SSL setting true its service has the SSL socket factory installed. The code as written, at line 76, calls `getEmailService(serverSettings)`, which never installs it. In every other respect the two agree, as `MailServiceFactory.GetEmailServiceAsWritten` states.
- MailServiceFactory.GetDefaultEmailService: succeeds on, and returns, the corrected server-level service. Line 178 as written returns the same service with the SSL socket factory off. When a connection check is requested, `connects` judges the corrected service.
- MailServiceFactory.GetDefaultProjectEmailService: inherits the same difference through `MailServiceFactory.GetProjectEmailService`. As written, lines 159-169 never install the SSL socket factory.
- The encryptor and decryptor are uninterpreted functions. A missing stored password stays absent instead of being decrypted.
- The statistics sets are sequences in iteration order. That order decides which of several errors is reported. Defect form fields are a Dafny `set`, because the builder only stores them.
- EmailIntegration.Attribute: `EmailSettingsEnum.getAttribute` is not part of this model. It is assumed to render the value as `String.valueOf` does. If it casts instead, a number or boolean under FROM, PROTOCOL or PASSWORD would be a ClassCastException, which the model does not raise.
- BtsBuilder.SetParam: `BtsConstants.setParam` is not part of this model. It is assumed to put the value into the parameter map, and to throw a NullPointerException when the map is null.
- AnalyzerClient.ResultKey: exchange arguments are modelled as a map of strings. The source's arguments map values to `Object`, so two behaviours of the `(String)` cast at AnalyzerServiceClientImpl.java line 107 are not modelled: a ClassCastException for a non-string analyzer key, and a null result key for a null one.
- Predicates.SpecialCharsOnly: a `null` name is not modelled. Guava's `matchesAllOf` throws a NullPointerException for it.
- JavaText.ParseInt accepts ASCII digits only. `Integer.parseInt` also accepts the other Unicode decimal digits.
- Email integration parameter values hold text, booleans and integers. Floating-point numbers, which would render as "25.0" and fall back to port 25, are not modelled.
- AnalyzerClient.Index: the `long` total is an unbounded natural number, not wrapped at 64 bits.
- Null intermediate objects are not modelled: an issue statistic without an issue type, a project resource without a configuration, an index reply without an item list.
- The Java `Integration` entity's type, project and creation date are not modelled. `EmailIntegration.CreateIntegration` returns the type beside the integration.

## Findings

| source | as written | input that shows it | evidently intended | confidence | as-written member | corrected member |
|---|---|---|---|---|---|---|
| src/main/java/com/epam/ta/reportportal/util/email/MailServiceFactory.java:112 | `BooleanUtils.toBoolean` is applied to the SSL setting's attribute name, which is never a truthy word, so the SSL socket factory is never installed | server settings with email enabled and the SSL setting "true" | install the SSL socket factory when the SSL setting's value is true | not executed | MailServiceFactory.GetEmailServiceAsWritten | MailServiceFactory.GetEmailService |
