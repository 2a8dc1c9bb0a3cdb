# Verified models of the STOA migration, seeding and configuration tools

A Dafny model of the parts of the STOA platform whose behaviour is hard to read off the code,
with proofs of what those parts promise. `dafny verify dfyconfig.toml` checks everything.

**The FLOW to Camel translator and its checker** (`scripts/migration_*.py`). A strict reader
flattens a FLOW document into ordered assignments, a generator prints them as a Camel route, an
independent reader reads the route back, and a differential checker compares what the two
assignment lists mean. `ElementText`, `ElementTree` and `ElementRoundTrip` model the printing and parsing of
XML 1.0 that this relies on: the escape tables of Python's ElementTree, the carriage return
replacement, `ET.indent`, end-of-line handling (section 2.11), character data (section 2.4) and
references (section 4.1). `Json`, `JsonOrder` and `JsonText` model `json.dumps` with sorted keys
over values of RFC 8259, and prove that the text determines the value. `MigrationCamel`,
`MigrationCampaign` and `MigrationDifferential` hold the scripts; `FlowProfile`, `CamelRoutes`,
`CampaignLaws`, `CheckerLaws`, `DifferentialLaws`, `HeaderSelection` and `CaptureLaws` hold the
theorems: which documents are accepted and what a refusal says, what a generated route says,
translation is faithful, the checker decides equality of effects, and a campaign never reports FAIL.

**The Kong to STOA migrator** (`scripts/migrate-kong.py`). `KongMigrator` has the two classes with
their loops and lists, proved against the functions of `KongModel`. `KongConservation` proves that
every source object is reported exactly as often as it should be, `KongPolicies` how policies and
APIs refer to each other, `KongResources` which requests the resources cover, `KongLimits` which
rate limits are kept, `KongContents` what resources and report contain, `KongLaws` what becomes of
consumers and upstreams, and `Slug` the laws of the slug function. What a Kong route serves is assumed to be Kong's prefix rule: every request that
starts with one of its paths, with one of its methods, or with any method if it names none. The
migrator does not say how its resources are matched, and the repository has two readings, so each is
treated by itself: a star at the end stands for any text, as in the resource lists that have a path
and the path with `/*` as two entries (`deploy/platform-bootstrap/apis/control-plane-api.yaml:220-225`),
or the gateway's matcher, which drops `/*` and takes the rest as a prefix
(`stoa-gateway/src/auth/mtls.rs:352-371`).

**The demo tenant seeder** (`control-plane-api/scripts/seed_demo_tenant.py`). `DemoStore` is a small
relational store with the keys, unique indexes and cascading foreign keys of the migrations;
`DemoSession` is the script over a session with commit and rollback. The laws cover integrity after
every statement and over every sequence of runs, idempotence, what is added, what deletion leaves
in whatever order its statements run, the reported totals, and exactly when a seeding succeeds.

**The OAuth client id backfill** (`control-plane-api/scripts/backfill_oauth_subscriptions.py`):
`Backfill` updates subscription objects in place.

**Log masking and component levels** (`control-plane-api/src/logging_config.py`): `Masking`,
`MaskingLaws`, `LogLevels`.

**Settings** (`control-plane-api/src/config.py`): `Settings`, `SettingsLaws`, `ProductionLaws`.

**Licence headers** (`scripts/add-license-headers.py`): `LicenseHeader`, `LicenseFiles`.

Where the code does not do what its text promises, the model follows the code and the exact
condition is proved:

- The level filter says that it finds the most specific component
  (`control-plane-api/src/logging_config.py:67`). It takes the first dotted ancestor in the order of
  the configuration, or else the last plain prefix. `SpecificIffLongerFirst` says exactly when that
  is the longest match of its kind for every logger, and `SpecificIffOrphansFirst` the same for
  configurations of ordinary size: each component is listed before its ancestors and, unless it has
  an ancestor, before its prefixes. `AncestorListedFirst` and `PrefixListedLast` are configurations
  for which the two halves fail.
- Masking does not look into a list directly inside a list, nor into a tuple.
  `HidesAllIffNestedListsDo` says exactly when everything sensitive is hidden; `NestedListExample` is
  an event whose password stays.
- A path of a Kong route becomes a resource. If a star stands for any text, the resource misses the
  path itself and all that does not go on with a slash: `PathIsCoveredIff`, with "/payments" in
  `PathItselfIsMissed` and the default path "/" in `DefaultPathIsMissed`. `AllCoveredIff` says exactly
  when the resources of a whole API cover all that its routes serve. By the gateway's rule a path is
  served exactly if and only if it does not end in a star (`GateServesIff`); `GateServesTheApiIff` says
  when a whole API is.
- A rate limit keeps at most one of Kong's limits. `LimitsAreKept` shows that nothing is lost exactly
  when there is no limit, or just one that is set by the minute, the hour or the second with no null
  before it. `LongPeriodIsLost`, `HourIsLost`, `NullHidesTheHour` and `PairIsLost` are the ways to lose
  one.
- A policy is looked up by its name, and two may have the same: `NamesIdentifyIff` says exactly when
  names are unique, and `BothLimitersClash` is a service for which they are not.
- Seeding is to be repeatable, and fails on some stores and definitions: `SeedingSucceedsIff` says
  exactly on which. `DeletedRowIsFound`: the lookup of a catalog entry, unlike the unique indexes,
  also finds deleted rows.
- A reset is not atomic: the deletion is committed before the seeding. `ResetCreatesIff` says
  exactly when the seeding then succeeds, and `ResetReportsWhatItLeaves` that nothing is left
  otherwise; `ResetLosesTheTenant` is such a run.
- Deletion promises all demo data. It also takes other tenants' subscriptions to demo servers, by
  cascade, and does not count them: `OthersKeptIffNoneSubscribes` and `TotalIsRowsRemoved`, with a
  store in `ForeignSubscriptionGoes`.
- A file is to have a header once one was added. `AddedHeaderIsFoundIff` says exactly when it counts
  as having one, and `ProcessingIsIdempotentIff` when a second run changes nothing.
- A licensed file can be restored except for the line end after a lone shebang line:
  `SameResultIff`, with the two contents "#!" in `LoneShebangLosesItsEnd`.

## Model

| member | source | states |
|---|---|---|
| `ElementText.TextTable` | scripts/migration_camel.py:83-86 | the sequence of global replacements that escapes character data, with the carriage return replacement after it, is one table applied per character, so no replacement spoils an earlier one |
| `ElementText.AttributeTable` | scripts/migration_camel.py:74-81 | the same for the six replacements of attribute values |
| `ElementText.ProtectAttribute` | scripts/migration_camel.py:86 | the final carriage return replacement changes no escaped attribute value |
| `ElementText.TextRoundTrip` | scripts/migration_camel.py:77-86 | encoded character data, in front of any markup, is parsed back as exactly the text and the markup is left over |
| `ElementText.AttributeRoundTrip` | scripts/migration_camel.py:74-81 | an encoded attribute value in front of its closing quote is parsed back exactly |
| `ElementText.PrintedTextReadsBack` | scripts/migration_camel.py:83-86 | escaping, carriage return replacement, end-of-line handling and reference expansion give a string back if and only if all its characters are legal in XML |
| `ElementText.UnprotectedTextReadsBack` | scripts/migration_camel.py:85-86 | without the replacement a legal text survives if and only if it has no carriage return, which is why the replacement is there |
| `ElementTree.IndentKeepsContent` | scripts/migration_camel.py:84 | indentation keeps every tag, every attribute and the text of every leaf |
| `ElementTree.IndentStaysPrintable` | scripts/migration_camel.py:84 | an indented tree can still be printed and read back |
| `ElementTree.FromStringIsLegal` | scripts/migration_camel.py:39-42 | whatever is parsed has only legal characters in its texts and attribute values |
| `ElementRoundTrip.PrintedTreeReadsBack` | scripts/migration_camel.py:84-86 | every printable element tree is parsed back from its printed text as exactly the same tree |
| `MigrationCamel.ReadFlow` | scripts/migration_camel.py:43-69 | the nested loops return the flow, or the first error in document order, of the recursive specification |
| `MigrationCamel.AcceptsExactlyTheProfile` | scripts/migration_camel.py:22-69 | a tree is accepted if and only if it is FLOW with a name, one SEQUENCE, one or more MAPs and in each one or more leaf MAPSETs with a supported field and value |
| `FlowProfile.AcceptedIffDocumented` | scripts/migration_camel.py:16-69 | the same with the profile spelled out: tags, attribute names, white space, the characters of names, the forms of fields, and values without placeholders and resources |
| `FlowProfile.RefusalIsJustified` | scripts/migration_camel.py:24-69 | every refusal is about an element of the document that is wrong in just the way the error says |
| `MigrationCamel.NothingDroppedOrInvented` | scripts/migration_camel.py:51-69 | the assignments are exactly the MAPSETs of the whole tree at any depth, in document order |
| `MigrationCamel.AcceptedFlowIsValid` | scripts/migration_camel.py:44-69 | every accepted flow has a valid name, some assignment, and only supported fields and values |
| `MigrationCamel.ValidFlowsAreReadable` | scripts/migration_camel.py:16-69 | exactly the valid flows are read from some document, so the reader rejects none that it promises to support |
| `MigrationCamel.Generate` | scripts/migration_camel.py:72-86 | the loop that grows the route element by element prints the route of the specification |
| `CamelRoutes.GeneratedRoute` | scripts/migration_camel.py:72-86 | the parsed text has one route in Camel's namespace, with the name of the flow as its id, the endpoint `direct:` and that name, and for each assignment in order one step that sets that body or header to that untrimmed constant |
| `CamelRoutes.TextDeterminesFlow` | scripts/migration_camel.py:72-86 | two flows have the same text if and only if they have the same name and assignments |
| `CamelRoutes.GeneratedLayout` | scripts/migration_camel.py:84 | the parsed text is laid out with one element a line and two spaces a level |
| `MigrationCampaign.Capture` | scripts/migration_campaign.py:23-31 | the loop that overwrites body and headers returns the capture of the specification |
| `MigrationCampaign.CandidateAssignments` | scripts/migration_campaign.py:34-46 | the generator yields the assignments of the route, or ends with the first error |
| `MigrationCampaign.GeneratedTextParses` | scripts/migration_camel.py:72-86 | the generated text is well-formed XML and parses to the indented route tree in the Camel namespace |
| `MigrationCampaign.TranslationIsFaithful` | scripts/migration_camel.py:72-86 | for every flow over `body` and `header.` fields with legal text, reading the generated route back gives exactly the original assignments: order, duplicates, empty values and white space included |
| `MigrationCampaign.Run` | scripts/migration_campaign.py:49-88 | an empty campaign is an error, otherwise there is one row per flow, in order, with the verdict of that flow |
| `CampaignLaws.BodyIsLastWrite` | scripts/migration_campaign.py:25-28 | the captured body is the last value assigned to `body`, or empty |
| `CampaignLaws.HeaderIsLastWrite` | scripts/migration_campaign.py:29-30 | the captured value of every header is the last value assigned to it |
| `CampaignLaws.CapturesEqualIffSameWrites` | scripts/migration_campaign.py:23-31 | two assignment lists have the same capture if and only if every field has the same last value |
| `CampaignLaws.OverwrittenCanBeDeleted` | scripts/migration_campaign.py:23-31 | deleting an assignment that a later one overwrites changes no capture |
| `CampaignLaws.DifferentSlotsCommute` | scripts/migration_campaign.py:23-31 | swapping neighbouring assignments to different fields changes no capture |
| `CampaignLaws.CaptureAccepted` | scripts/migration_differential.py:26-34 | a capture is accepted by the checker if and only if no two assigned header names coincide after lower-casing |
| `CampaignLaws.CampaignNeverFails` | scripts/migration_campaign.py:49-88 | a fixture ends ERROR if and only if it cannot be read or two of its header names coincide after lower-casing, and PASS otherwise, never FAIL; its row has its path, that reason, and the generated route, which reads back as its flow |
| `CheckerLaws.NoDiffIffSameEffect` | scripts/migration_campaign.py:71-77 | the campaign's comparison of any two assignment lists without clashing names is empty if and only if they leave the same body and, up to the case of names, the same headers: a wrong translation is always reported |
| `MigrationDifferential.Project` | scripts/migration_differential.py:12-46 | the validating loop returns the projection, or the first error, of the specification |
| `MigrationDifferential.Compare` | scripts/migration_differential.py:49-60 | a selection that is no list of names is an error; otherwise the result is that of the specification on the selected names |
| `CaptureLaws.AcceptedIff` | scripts/migration_differential.py:12-46 | a capture is accepted, under whatever selection, if and only if it has input, response, messages and files, the response has a body, a status from 100 to 599 and headers of texts whose lower-case names differ, messages are a list, files an object, and all of it is finite |
| `CaptureLaws.NoDiffIffSameFields` | scripts/migration_differential.py:12-60 | the diff is empty if and only if both captures are accepted and equal in input, body, status, messages, files and every selected header, whatever its capitals |
| `CaptureLaws.DiffShowsBoth` | scripts/migration_differential.py:49-60 | a diff is of the lines that make up the whole texts of the two projections, the reference first |
| `CaptureLaws.FirstErrorIsReported` | scripts/migration_differential.py:49-60 | an error is that of the first capture that is not accepted |
| `DifferentialLaws.NoDiffIffSameValue` | scripts/migration_differential.py:49-60 | the diff is empty if and only if both captures are accepted and their projections are the same JSON value, key order ignored, array order and types kept |
| `DifferentialLaws.NoDiffIsAnEquivalence` | scripts/migration_differential.py:49-60 | for a fixed selection an empty diff is reflexive exactly on the accepted captures, symmetric and transitive |
| `HeaderSelection.OnlyLowerCasedNamesMatter` | scripts/migration_differential.py:53-57 | the verdict depends only on the lower-cased set of selected names |
| `HeaderSelection.CapturedCaseIsIgnored` | scripts/migration_differential.py:26-42 | respelling the captured header names in another case changes no verdict |
| `HeaderSelection.SmallerSelectionStillAgrees` | scripts/migration_differential.py:37-43 | no difference under a selection implies none under a smaller one |
| `HeaderSelection.AcceptedUnderAnySelection` | scripts/migration_differential.py:12-46 | whether a capture is accepted does not depend on the selection |
| `JsonText.SameTextIffEqual` | scripts/migration_differential.py:55-57 | two well-formed finite values have the same sorted-key text if and only if they are the same JSON value |
| `JsonText.EqualIsAnEquivalence` | scripts/migration_differential.py:49-60 | the equality of JSON values that the checker decides is an equivalence relation on well-formed values |
| `JsonText.EscapePrefix` | scripts/migration_differential.py:55 | an escaped string in front of its closing quote determines the string, surrogate pairs included |
| `JsonOrder.SortIgnoresOrder` | scripts/migration_differential.py:55 | sorting the members of an object forgets their original order and nothing else |
| `Slug.SlugIsItsWords` | scripts/migrate-kong.py:255-258 | a slug is the lower-case alphanumeric runs of the name, joined by single hyphens |
| `Slug.SlugsAreTheFixedPoints` | scripts/migrate-kong.py:255-258 | slugs are exactly the strings that the function leaves alone, so it is idempotent |
| `Slug.SlugShape` | scripts/migrate-kong.py:255-258 | every result is empty, or lower-case alphanumerics with single hyphens and none at the ends |
| `Slug.SlugKeepsThePlain` | scripts/migrate-kong.py:255-258 | a slug keeps the letters, in lower case, and the digits of the name in their order, and has nothing else but hyphens |
| `Slug.SlugOfJoinedNames` | scripts/migrate-kong.py:255-258 | the slug of two names joined by a hyphen is the two slugs joined by a hyphen, an empty one being left out |
| `KongMigrator.MigrationReport.AddMigrated` | scripts/migrate-kong.py:325-326 | appends to one list, and only to that |
| `KongMigrator.KongToStoaMigrator.Migrate` | scripts/migrate-kong.py:410-415 | the four phases extend the resource lists and the report by exactly the entries of every service, consumer and global plugin, in order |
| `KongMigrator.KongToStoaMigrator.MigrateOneService` | scripts/migrate-kong.py:469-522 | one API, its policies, and the entries of its upstream, plugins, itself and its routes |
| `KongMigrator.KongToStoaMigrator.MapPlugins` | scripts/migrate-kong.py:540-603 | the policies and the entries of the plugins in order, and whether one of them authenticates |
| `KongMigrator.KongToStoaMigrator.ResolveUpstream` | scripts/migrate-kong.py:605-643 | the upstream of the service's host, or else the first related by name, reported when found |
| `KongMigrator.KongToStoaMigrator.MigrateOneConsumer` | scripts/migrate-kong.py:649-699 | one application or one tenant with its last rate limit, and the entries for it |
| `KongConservation.ListsHoldTheTrail` | scripts/migrate-kong.py:316-335 | the four lists together hold exactly the entries that were added, each in its own list |
| `KongConservation.NothingLostNothingInvented` | scripts/migrate-kong.py:465-720 | as a multiset, the reported subjects are exactly the services, routes, service plugins, resolved upstreams, consumers, tenant rate limits, tenants with keys and global plugins of the configuration |
| `KongConservation.ExactConservation` | scripts/migrate-kong.py:417-428 | the lengths of the four lists add up to that count, for every configuration |
| `KongPolicies.PoliciesMatchTheirApis` | scripts/migrate-kong.py:507-515 | the names listed on the APIs, in order, are the names of the collected policies |
| `KongPolicies.PoliciesAreReferenced` | scripts/migrate-kong.py:507-515 | a policy name is in the policy list if and only if some API lists it |
| `KongPolicies.PolicyIsNamedAfterItsApi` | scripts/migrate-kong.py:564-573 | a policy name is the API id, a hyphen and the policy type, or the type alone for a name without letters or digits |
| `KongPolicies.PoliciesAreNamedAfterTheirApi` | scripts/migrate-kong.py:507-508 | every name that an API lists has that form for its own id |
| `KongPolicies.NamesIdentifyIff` | scripts/migrate-kong.py:550-575 | no two policies of the list have the same name if and only if no service has two plugins of one policy type and no two services with the same id have plugins of the same type |
| `KongPolicies.BothLimitersClash` | scripts/migrate-kong.py:287-291 | `rate-limiting` and `rate-limiting-advanced` on one service make two policies of one name |
| `KongContents.PoliciesTranslate` | scripts/migrate-kong.py:261-291 | the policies are the translations of the plugins that map, one each and in order: a rate limiter becomes a limit by token that keeps what can be kept, and CORS settings become CORS settings with the plugin's origins, methods, headers and age, or the defaults |
| `KongContents.PluginInReport` | scripts/migrate-kong.py:552-601 | what the report says of a plugin of a service, name by name: that it authenticates, which policy it became, that it is left to the operator with its configuration, or why it was passed over |
| `KongContents.GlobalPluginInReport` | scripts/migrate-kong.py:701-720 | the same for a global plugin |
| `KongContents.KeyRequiredIff` | scripts/migrate-kong.py:294-295 | an API requires a key if and only if one of its plugins is one of the five that authenticate |
| `KongContents.ApiIs` | scripts/migrate-kong.py:469-515 | an API has the slug of its service as id, its tags, the given address or the one made of protocol, host, port and path with their defaults, and the algorithm, targets, weights and health check of its upstream |
| `KongContents.UpstreamIff` | scripts/migrate-kong.py:605-617 | the upstream of a service is the one that its host names, unless it is missing or empty, or else the first of a related name, unless that is empty |
| `KongContents.ResourceIs` | scripts/migrate-kong.py:524-538 | a resource has the methods of its route, or the four usual ones, and the route's name in its description if there is one |
| `KongContents.ConsumersBecome` | scripts/migrate-kong.py:645-699 | applications come in order from the consumers with the tag of a service account or a custom id that begins with `svc-`, tenants from the others, each with the slug of its name and its tags |
| `KongContents.ReportNamesResources` | scripts/migrate-kong.py:469-699 | every API, policy, tenant and application that the report names is among the migrated resources |
| `KongPolicies.KeyRequiredInAnyOrder` | scripts/migrate-kong.py:556-562 | an API requires a key if and only if the report of its service has an authenticating plugin, and the order of the plugins does not matter |
| `KongResources.ResourcesArePaths` | scripts/migrate-kong.py:524-538 | an API has as many resources as its routes have paths |
| `KongResources.ResourcesServeThePaths` | scripts/migrate-kong.py:524-538 | the resources serve the paths of all routes one by one and in order, each with methods: by the gateway's rule a resource is for exactly the requests that start with its path, and a path with a star is kept |
| `KongResources.PathIsCoveredIff` | scripts/migrate-kong.py:532-533 | with a star for any text, a resource covers every request that starts with the path if and only if the path ends in a star, and no other request if and only if it does not |
| `KongResources.CoveredIff` | scripts/migrate-kong.py:532-533 | request by request: one that starts with the path is covered if and only if it goes on with a slash or the path ends in a star |
| `KongResources.GateServesIff` | scripts/migrate-kong.py:532-533 | by the gateway's rule the resource is for exactly the requests that start with the path, if and only if the path does not end in a star |
| `KongResources.AllCoveredIff` | scripts/migrate-kong.py:524-538 | with a star for any text, the resources of an API together cover every method and request of its routes if and only if every route with a path names its methods and, for each of them, every path is below some path with a star |
| `KongResources.GateServesTheApiIff` | scripts/migrate-kong.py:524-538 | by the gateway's rule, and if no path ends in a star without a slash before it, the resources of an API together are for exactly the methods and requests of its routes if and only if every route with a path names its methods and, for each of them, the routes serve the path without its `/*` |
| `KongResources.PathItselfIsMissed` | scripts/migrate-kong.py:532-533 | the resource for "/payments" does not cover "/payments" if a star stands for any text, and does by the gateway's rule |
| `KongResources.DefaultPathIsMissed` | scripts/migrate-kong.py:527-533 | the same for the default path "/" and the request "/users" |
| `KongLimits.LimitsAreKept` | scripts/migrate-kong.py:261-273 | of all limits that Kong's six periods and the pairs of its advanced plugin can set, null setting none, the STOA limit imposes no other, and it imposes all if and only if there is none, or just one and it is set by minute, hour or second with no earlier key of these present |
| `KongLimits.LongPeriodIsLost` | scripts/migrate-kong.py:261-273 | a limit by the day, month or year imposes nothing |
| `KongLimits.HourIsLost` | scripts/migrate-kong.py:261-273 | of a limit by the minute and one by the hour only the first is left |
| `KongLimits.NullHidesTheHour` | scripts/migrate-kong.py:264-269 | a null for the minute hides the limit by the hour |
| `KongLimits.PairIsLost` | scripts/migrate-kong.py:261-291 | a limit of the advanced plugin imposes nothing |
| `KongLimits.LastLimitWins` | scripts/migrate-kong.py:682-689 | a tenant gets the limit of its last rate-limit plugin, and none without one |
| `KongConservation.ListOfPlugin` | scripts/migrate-kong.py:552-601 | the classes of plugins do not overlap: a plugin is migrated, left to the operator or skipped if and only if it is in the class for it, whatever the order of the tests |
| `KongLaws.OneResourcePerConsumer` | scripts/migrate-kong.py:645-699 | the i-th tenant comes from the i-th consumer that is a user and the i-th application from the i-th service account, and every consumer is exactly one of the two |
| `KongLaws.IndexHoldsTheLast` | scripts/migrate-kong.py:460-463 | the index holds, for every name, the last upstream of that name |
| `KongLaws.RelatedIsIndexed` | scripts/migrate-kong.py:610-614 | the fallback finds the first indexed upstream whose name contains, or is contained in, the service name, and finds one whenever there is one |
| `KongLaws.RunMigration` | scripts/migrate-kong.py:410-428 | the reported statistics of a migration from the start add up as the conservation law says, and the subjects of the four lists are those of the configuration |
| `SeedLaws.ServerStepKeepsIntegrity` | control-plane-api/scripts/seed_demo_tenant.py:371-432 | a server with its tools keeps ids, foreign keys and unique indexes |
| `SeedLaws.SubscriptionStepKeepsIntegrity` | control-plane-api/scripts/seed_demo_tenant.py:471-517 | the same for a subscription |
| `SeedLaws.ApiStepKeepsIntegrity` | control-plane-api/scripts/seed_demo_tenant.py:519-551 | the same for a catalog entry, whose indexes leave out deleted rows |
| `SeedLaws.SeedCompletes` | control-plane-api/scripts/seed_demo_tenant.py:345-553 | after a seeding that succeeds, every tenant, server, consumer, subscription and catalog entry asked for is found exactly once |
| `SeedLaws.CompleteStoreIsLeftAlone` | control-plane-api/scripts/seed_demo_tenant.py:345-553 | where everything is found, seeding succeeds, changes nothing and counts nothing |
| `SeedLaws.SeedingIsIdempotent` | control-plane-api/scripts/seed_demo_tenant.py:345-553 | for every integral store and all definition lists, a second seeding reports zero everywhere and leaves the store unchanged |
| `SeedEffects.SeedOnlyAddsDemoRows` | control-plane-api/scripts/seed_demo_tenant.py:345-553 | no existing row is changed or removed, every new row is the demo tenant's, and the summary is the growth of each table |
| `SeedEffects.SeedingBreaksNoForeignKey` | control-plane-api/scripts/seed_demo_tenant.py:409-517 | no seeding ever stops at a row that refers to a missing one |
| `DemoDelete.DeletesKeepIntegrity` | control-plane-api/scripts/seed_demo_tenant.py:320-342 | after any number of the seven statements, in any order, no row refers to a missing one |
| `DemoDelete.OrderDoesNotMatter` | control-plane-api/scripts/seed_demo_tenant.py:324-332 | what is left depends only on which statements ran, not on their order or repetition |
| `DemoDelete.NothingLeftToCount` | control-plane-api/scripts/seed_demo_tenant.py:301-317 | after five of the statements, in any order, all six counts of the state check are zero |
| `DemoDelete.OthersKeptIffNoneSubscribes` | control-plane-api/scripts/seed_demo_tenant.py:320-342 | every row of other tenants in the seven tables is untouched if and only if none of them subscribes to a demo server |
| `DemoDelete.RowsAreConserved` | control-plane-api/scripts/seed_demo_tenant.py:333-342 | for any order of statements, every row is left, counted or gone by a cascade |
| `DemoDelete.TotalIsRowsRemoved` | control-plane-api/scripts/seed_demo_tenant.py:333-342 | the reported total is the number of rows removed from the seven tables if and only if no other tenant subscribes to a demo server; otherwise it is short by exactly those subscriptions and their accesses |
| `DemoDelete.ForeignSubscriptionGoes` | control-plane-api/scripts/seed_demo_tenant.py:324-332 | a store whose deletion takes the subscription of another tenant and reports fewer rows than are gone |
| `DemoSession.Session.DeleteDemoData` | control-plane-api/scripts/seed_demo_tenant.py:320-342 | the loop executes the seven statements in order and returns the sum of their row counts |
| `DemoSession.Session.CheckDemoState` | control-plane-api/scripts/seed_demo_tenant.py:301-317 | the six counts of the demo tenant's rows |
| `DemoSession.Session.SeedServers` | control-plane-api/scripts/seed_demo_tenant.py:371-432 | the loop over servers and their tools reaches the state, ids and counts of the specification, or its error |
| `DemoSession.Session.SeedSubscriptions` | control-plane-api/scripts/seed_demo_tenant.py:471-517 | the same for the subscriptions, passing over unknown servers and consumers |
| `DemoSession.Session.SeedDemoTenant` | control-plane-api/scripts/seed_demo_tenant.py:345-553 | the five phases together succeed exactly when the specification does, with its store and summary |
| `DemoSession.Session.Run` | control-plane-api/scripts/seed_demo_tenant.py:561-620 | what a run reports and commits, for every combination of its options; a check commits nothing and returns the six counts of the store, whatever else is asked for; nothing is pending afterwards |
| `DemoRunLaws.RunsKeepIntegrity` | control-plane-api/scripts/seed_demo_tenant.py:561-620 | over every sequence of runs with any options and definitions the committed store stays integral |
| `DemoRunLaws.CheckChangesNothing` | control-plane-api/scripts/seed_demo_tenant.py:568-576 | a check reports the counts and leaves the store as it is, even with a reset |
| `DemoRunLaws.ChecksCanBeLeftOut` | control-plane-api/scripts/seed_demo_tenant.py:561-620 | leaving out every check of a sequence of runs leaves the same store in the end |
| `DemoRunLaws.LaterRunsFindTheTenant` | control-plane-api/scripts/seed_demo_tenant.py:583-592 | once a run has seeded, every run without a reset reports the tenant and changes nothing |
| `DemoRunLaws.ResetReportsWhatItLeaves` | control-plane-api/scripts/seed_demo_tenant.py:577-597 | after a reset the state check counts exactly what the summary says, or zero everywhere if the seeding failed |
| `DemoRunLaws.OtherTenantsAreLeftAlone` | control-plane-api/scripts/seed_demo_tenant.py:583-597 | a run without a reset touches no row of another tenant |
| `SeedOutcome.SeedingSucceedsIff` | control-plane-api/scripts/seed_demo_tenant.py:345-553 | every integral store is seeded if and only if every server that has to be created has tools of different names, no lookup of a subscription or catalog entry finds two rows, and the new APIs differ in name or version from each other and from what is published |
| `SeedOutcome.ResetCreatesIff` | control-plane-api/scripts/seed_demo_tenant.py:577-620 | a run with a reset ends with the tenant created if and only if, in the store before the run, every server that no other tenant has is given tools of different names, and the APIs asked for differ in name or version |
| `SeedOutcome.RunCreatesIff` | control-plane-api/scripts/seed_demo_tenant.py:583-620 | a run without a reset creates the tenant if and only if its row is missing and the store can be seeded, whatever other demo rows there are |
| `SeedOutcome.DeletedRowIsFound` | control-plane-api/scripts/seed_demo_tenant.py:520-525 | in an integral store with a deleted and a published entry of one API the lookup finds two rows and the seeding stops |
| `SeedOutcome.ResetLosesTheTenant` | control-plane-api/scripts/seed_demo_tenant.py:577-620 | definitions with a repeated tool whose reset stops on a store with demo rows and leaves none |
| `Backfill.Backfill` | control-plane-api/scripts/backfill_oauth_subscriptions.py:74-149 | every row becomes what it should, or none changes in a dry run; updated is the number that can be filled in, in either mode, and updated and skipped add up to the rows selected |
| `Backfill.WhatIsFilledIn` | control-plane-api/scripts/backfill_oauth_subscriptions.py:80-135 | a row gets the Keycloak client id of the application that it names if it is active, has a key and no client id, and the application exists and has one; nothing else of it changes, and no other row |
| `Backfill.WhatIsCounted` | control-plane-api/scripts/backfill_oauth_subscriptions.py:46-71 | the counts of the state check are those of the active rows, of them with a client id, and of them with a key and no client id; the rows that can be filled in are those that a run would change |
| `Backfill.ApplyMovesTheCounts` | control-plane-api/scripts/backfill_oauth_subscriptions.py:46-149 | applying moves exactly the updated rows from the one count of the state check to the other, and a further run updates none |
| `Backfill.NoneUpdatedIffUnchanged` | control-plane-api/scripts/backfill_oauth_subscriptions.py:74-149 | a run reports no update if and only if applying changes no row |
| `Backfill.ApplyIsIdempotent` | control-plane-api/scripts/backfill_oauth_subscriptions.py:74-149 | applying twice is applying once |
| `Backfill.CountsCover` | control-plane-api/scripts/backfill_oauth_subscriptions.py:46-71 | the two counts never exceed the active subscriptions and add up to them if and only if each has a client id or an API key |
| `Masking.MaskDict` | control-plane-api/src/logging_config.py:37-51 | the recursive loop returns the dictionary of the specification, keys in order |
| `MaskingLaws.LeafByLeaf` | control-plane-api/src/logging_config.py:37-51 | every leaf is where it was or hidden, and it is hidden if and only if one of the patterns finds a key on the way to it before a list item that is no dictionary |
| `MaskingLaws.MaskedAlikeIffLowEqual` | control-plane-api/src/logging_config.py:37-51 | two events mask to the same result if and only if they agree outside what stands below a sensitive key |
| `MaskingLaws.MaskingComposes` | control-plane-api/src/logging_config.py:25-51 | masking with one list of patterns and then another is masking with both |
| `MaskingLaws.MaskersCommute` | control-plane-api/src/logging_config.py:25-51 | the order of two maskers does not matter |
| `MaskingLaws.MaskingIsIdempotent` | control-plane-api/src/logging_config.py:37-51 | masking twice is masking once |
| `MaskingLaws.OnlySensitiveIsChanged` | control-plane-api/src/logging_config.py:37-51 | keys, order and every value that is not below a sensitive key are kept |
| `MaskingLaws.HidesAllIffNestedListsDo` | control-plane-api/src/logging_config.py:42-50 | every sensitive value at any depth is masked if and only if lists inside lists, and containers that are neither list nor dictionary, held none |
| `MaskingLaws.NestedListExample` | control-plane-api/src/logging_config.py:45-48 | an event with a password in a list of lists comes out unchanged |
| `LogLevels.Filter` | control-plane-api/src/logging_config.py:65-85 | a record passes if and only if its level is at least the level that applies |
| `LogLevels.EntryDecides` | control-plane-api/src/logging_config.py:71-83 | the entry of that name decides, else the first dotted ancestor in order, else the last plain prefix |
| `LogLevels.DefaultDecides` | control-plane-api/src/logging_config.py:69-85 | the default applies to a logger whose name starts with no component |
| `LogLevels.SpecificIffLongerFirst` | control-plane-api/src/logging_config.py:67-83 | the match that decides is the longest of its kind for every logger without an entry if and only if every component is listed before its ancestors and, unless only ancestors decide below it, before its plain prefixes |
| `LogLevels.SpecificIffOrphansFirst` | control-plane-api/src/logging_config.py:67-83 | the same with fewer entries than there are characters: only a component with an ancestor may come before its prefix |
| `LogLevels.AncestorListedFirst` | control-plane-api/src/logging_config.py:75-79 | a configuration in which an ancestor's level hides the one set for a component |
| `LogLevels.PrefixListedLast` | control-plane-api/src/logging_config.py:80-83 | a configuration, with every component before its ancestors, in which a shorter prefix hides the level set for a longer one |
| `LicenseHeader.FirstLinesAreUpTo` | scripts/add-license-headers.py:121-122 | splitting into lines, taking the first and joining them is cutting the text before its n-th line end |
| `LicenseHeader.HeaderLines` | scripts/add-license-headers.py:104-115 | a header is two comment lines, copyright with year and holder and the SPDX key with Apache-2.0, in the signs of its style |
| `LicenseHeader.HeaderIsRecognisedIff` | scripts/add-license-headers.py:118-125 | a text counts as having a header if and only if its first twenty lines name the SPDX key or the licence, in capitals or not |
| `LicenseHeader.AddedHeaderIsFoundIff` | scripts/add-license-headers.py:118-143 | after adding, for every content, style, year and holder, the text counts as having a header if and only if the SPDX line is among the first twenty, a shebang line included, or what stands before it counts already |
| `LicenseHeader.UsualHeadersFit` | scripts/add-license-headers.py:104-115 | year, holder and comment sign without a line end give a header that fits |
| `LicenseHeader.ShebangStaysFirst` | scripts/add-license-headers.py:132-141 | a shebang line stays the first line, unchanged |
| `LicenseHeader.HeaderCanBeRemoved` | scripts/add-license-headers.py:132-143 | the original content can be recovered, up to the line end after a lone shebang line |
| `LicenseHeader.SameResultIff` | scripts/add-license-headers.py:132-143 | two contents become the same text if and only if they are equal up to that line end |
| `LicenseHeader.GeneratedHeadersCanBeRemoved` | scripts/add-license-headers.py:104-143 | both hold of every header that the tool generates in a comment style that is no shebang |
| `LicenseHeader.LoneShebangLosesItsEnd` | scripts/add-license-headers.py:134-141 | a lone shebang line with and without its line end become the same text |
| `LicenseFiles.ProcessFile` | scripts/add-license-headers.py:146-206 | the verdict for a file and its new content, which changes only when a header is added |
| `LicenseFiles.VerdictIff` | scripts/add-license-headers.py:163-189 | a file is passed over if and only if its name or suffix has no style, it is listed to be skipped or it cannot be read; otherwise its header is missing if and only if the first twenty lines lack those words |
| `LicenseFiles.ProcessedIff` | scripts/add-license-headers.py:184-206 | the content changes if and only if the header is missing and the run is neither a check nor a preview, and then gets the header of its style |
| `LicenseFiles.ProcessingIsIdempotentIff` | scripts/add-license-headers.py:184-206 | a second run changes nothing if and only if the first adds no header or one that is found |
| `LicenseFiles.NoHeaderIsMissingAfterwards` | scripts/add-license-headers.py:184-206 | with year, holder and comment signs free of line ends every file that is processed has its header, and a second run changes nothing |
| `Settings.DeriveUrls` | control-plane-api/src/config.py:734-758 | the loop sets exactly the absent derived fields |
| `Settings.SettingsObject.HydrateAndValidateGit` | control-plane-api/src/config.py:805-886 | the Git configuration becomes the stripped fields, and production is refused with exactly the missing items |
| `Settings.SettingsObject.GateSensitiveFlags` | control-plane-api/src/config.py:889-913 | production is refused with exactly the sensitive flags that are on |
| `Settings.Create` | control-plane-api/src/config.py:172-930 | the validators in order accept exactly the inputs that the specification accepts, with its fields and Git configuration |
| `SettingsLaws.NormalisationIsIdempotent` | control-plane-api/src/config.py:328-366 | the canonical environment is normalised to itself |
| `SettingsLaws.GivenValuesAreKept` | control-plane-api/src/config.py:755-756 | an explicit value is kept, even an empty one, and only derived fields are added |
| `SettingsLaws.AbsentValuesAreDerived` | control-plane-api/src/config.py:734-756 | an absent field gets the value that follows from the base domain |
| `SettingsLaws.DerivingIsIdempotent` | control-plane-api/src/config.py:734-758 | a second derivation, from whatever base domain, changes nothing |
| `SettingsLaws.AcceptedIff` | control-plane-api/src/config.py:296-366 | on the raw texts: settings are accepted if and only if environment and provider are absent or among their spellings, the base domain is not blank and, unless another environment than production is named, no sensitive flag and no bypass is on and the Git identity is not blank |
| `SettingsLaws.LoadedEnvironmentIff` | control-plane-api/src/config.py:49-56 | an accepted input loads as production if and only if its environment is absent or, trimmed and in lower case, `prod` or `production`, and as each other environment if and only if that has one of its own spellings |
| `SettingsLaws.LoadedValues` | control-plane-api/src/config.py:805-858 | base domain and flags are loaded as they came, and every Git field stripped from its own name or default |
| `SettingsLaws.DefaultAddresses` | control-plane-api/src/config.py:734-756 | every service whose address is not given gets its own address under the base domain |
| `SettingsLaws.RefusalSaysWhy` | control-plane-api/src/config.py:296-930 | a refusal names the first thing that is wrong, and all of it: the single fields, then in production what the chosen provider lacks, the sensitive flags that are on, and the bypass |
| `ProductionLaws.OnlyAllowedKeepsTheRest` | control-plane-api/src/config.py:677-678 | the production list has every allowed origin as often as before and no other |
| `ProductionLaws.OnlyAllowedKeepsOrder` | control-plane-api/src/config.py:677-678 | the origins of two lists in a row are filtered part by part, so those that stay keep their order |
| `ProductionLaws.OriginsRoundTrip` | control-plane-api/src/config.py:672-676 | a list of plain origins written with commas is read back as the same list |
| `ProductionLaws.CorsTextIsLoaded` | control-plane-api/src/config.py:734-756 | the loaded text of origins is the given one, or else the twelve origins that follow from the base domain |
| `ProductionLaws.ProductionInvariant` | control-plane-api/src/config.py:661-930 | every accepted production settings object has no flag on, nothing missing for its provider, a catalog project id, and as its origins exactly those parsed from that text, in order, without development hosts; each is non-empty and trimmed |
| `ProductionLaws.DerivedProductionList` | control-plane-api/src/config.py:661-756 | without configured origins the production list is the six public origins of the base domain if and only if the base domain has no comma, no white space at its end and no development host |
| `ProductionLaws.OtherOrigins` | control-plane-api/src/config.py:661-679 | outside production all listed origins stay |
| `ProductionLaws.DerivedOtherList` | control-plane-api/src/config.py:661-756 | outside production an unconfigured list is the six public origins and six for development |
| `ProductionLaws.GitHubProjectId` | control-plane-api/src/config.py:805-886 | with GitHub in production both halves of the project id are there and trimmed |
| `ProductionLaws.GitLabProjectId` | control-plane-api/src/config.py:805-886 | with GitLab in production the project id is the given one, trimmed and not empty |
| `ProductionLaws.ProjectIdsDiffer` | control-plane-api/src/config.py:87-90 | as long as organisations have no slash, two GitHub configurations have the same project id if and only if they name the same organisation and repository |

## Left out

- Reading files: bytes, UTF-8 decoding, the size limit and the DTD scan of the flow reader (`scripts/migration_camel.py:31-38`), newline translation, and permission errors; a file is its text or element tree, or unreadable.
- Comments, CDATA sections, processing instructions, prefixed namespaces and names beyond ASCII in the XML reader of `ElementTree`: generated routes have none, and source flows enter as element trees.
- Element objects of ElementTree are values, so aliasing of elements is not modelled.
- `CampaignLaws.CampaignNeverFails`: fixtures enter as element trees whose texts and attribute values are legal in XML, which `ElementTree.FromStringIsLegal` shows of every parsed document.
- Lone surrogates in Python strings, and case mapping beyond ASCII: `lower` and `casefold` are the ASCII mapping.
- The text of `difflib.unified_diff`: a diff is empty exactly when the two lists of lines are equal, and is otherwise just those two lists.
- JSON floats are known by their shortest text; parsing of JSON is not modelled.
- The suite driver of the differential checker (`scripts/migration_differential.py:67-108`), argument parsing, timings, and Markdown and YAML output.
- Error messages of the readers and of the migration report are constructors with their data, not texts; the `displayName` title casing of migrated resources is left out.
- `KongResources.AllCoveredIff`: routes are known by their paths and methods; hosts, headers, path stripping, and paths that Kong reads as regular expressions (those that begin with `~`) are left out, so such a path is taken as text.
- `KongResources.GateServesTheApiIff`: nothing is stated for a whole API with a path that ends in a star without a slash before it, which the gateway takes as text; `GateServesIff` says of each such path that it is not served exactly.
- `KongLimits.LimitsAreKept`: whose requests are counted (`limit_by` and the like) and how windows move are left out; a limit is a window in seconds and a number of requests, with Kong's thirty days for a month.
- Kong values of unexpected type (a null list, a number for a name) and Kong Admin API loading.
- `DemoStore`: row ids come from a counter instead of random UUIDs; timestamps, display texts, API keys and the columns that no condition reads are left out, as are the warnings for missing tables (`control-plane-api/scripts/seed_demo_tenant.py:315-341`).
- `DemoDelete.OthersKeptIffNoneSubscribes`: speaks of the seven tables of the statements. Rows of other tables that refer to them also go by cascade and are not modelled: gateway deployments, policy bindings and gateway assignments of catalog entries (`control-plane-api/alembic/versions/014_create_gateway_deployments.py:34`, `016_create_gateway_policies.py:65`, `077_create_api_gateway_assignments.py:27`), the certificate authorities and certificates of tenants (`064_create_tenant_cas_table.py:24`, `078_create_signed_certificates.py:22`), and the quota usage of consumers (`021_create_quota_usage.py:29`), whose certificates stay without a consumer (`078_create_signed_certificates.py:29`).
- `DemoDelete.TotalIsRowsRemoved`: the same; rows of those tables are removed and not counted.
- `DemoStore`: every subscriber id of a subscription has been handed out by the counter before, as a new random UUID equals no old one.
- A negative consumer index in the subscription list, which Python would count from the end, is not an input: indices are natural numbers.
- `Backfill.Backfill`: the commit and the conversion of application ids to UUIDs are not modelled.
- Regular expressions of the masker: a pattern is the set of keys that it is found in; the switch that turns masking off; non-string keys.
- Level names of the level filter: levels are numbers.
- `LicenseFiles.ProcessFile`: walking directories and the totals of the command are left out; a file is one object with its text.
- `Settings.Create`: `urlparse` is a parameter that says which URLs are valid; the other settings fields, the OpenSearch sub-model, log output, and the reading of environment variables and booleans by Pydantic are not modelled, and field names are constructors.
- Fields given with a value of a wrong type are not modelled.
- `main.py`, `database.py`, `tracing_config.py`, the web front ends, network seeders and benchmarks: wiring, presentation or input and output with no hard claim.
