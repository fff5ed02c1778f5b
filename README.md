# Decision logic of five AWS Lambda handlers

The repository is a set of AWS Lambda handlers for an AWS account's
governance. Most of each handler is SDK plumbing. This project models the
decision logic inside each one. Every SDK answer becomes an input value.

- **ManualBackup** (`manual_backup.dfy`) models the scheduled AWS Config
  rule that reports every RDS DB instance with no manual snapshot. It
  covers the trigger test, the mapping from DB objects to identifiers, and
  the order-preserving difference "instances minus snapshotted instances".
  It also builds the `putEvaluations` request. As written, the handler
  reports only `NON_COMPLIANT` records. An instance that has a snapshot is
  left out of the request rather than reported `COMPLIANT`, and the model
  does the same.
- **TerminationRule** (`termination.dfy`) models the change-triggered
  AWS Config rule for EC2 termination protection and RDS deletion
  protection. It covers:
  - `checkDefined`, with JavaScript truthiness over a small `Js` value type;
  - the message-type and applicability tests and `getConfigurationItem`;
  - the in-place adapter `convertApiConfiguration`, as a class whose fields
    are updated;
  - the compliance dispatch;
  - the evaluation request and the three ways the `putEvaluations` callback
    ends.
- **RotateIamKeys** (`rotate_keys.dfy`) models the IAM key lifecycle. It
  covers:
  - the comparator and the in-place `keys.sort` on an array, proved newest
    first and a permutation;
  - the age thresholds (60, 61 and 90 days, in integer milliseconds, with
    `today` as an input);
  - the per-key plan (delete, create and notify, or nothing);
  - the contact-email tag search, and the notice e-mail.
- **StacksetCompare** (`stackset_compare.dfy`) models the CloudFormation
  pipeline step that finds which stacksets drifted from the templates and
  parameter files in S3. It covers:
  - stackset records derived from the S3 keys;
  - the per-stackset decision: not in CloudFormation, template differs,
    parameter count differs, key missing, value differs, or `****` skipped;
  - the two lists that grow together;
  - the final CodePipeline signal and return value.

  Each loop of `lambda_handler` is a method proved equal to a function. The
  flagged stacksets are then proved to be exactly the ones whose comparison
  found a difference, in processing order, each flagged as often as it is
  listed.
- **JiraIssue** (`jira_issue.dfy`) models the Lambda that opens a Jira
  issue for a resource. It covers:
  - converting AWS Config resource types to the tagging API's notation;
  - the paging loop of `lookup`, and its description of every tagged
  resource whose ARN contains the resource id;
  - the issue's `fields` dictionary, as a class updated by
  `add_priority`, `add_assignee` and `add_due_date`, with the
  `FieldName` values as its keys;
  - the success/failure split on Jira's answer.

Two modules support the five models:

- `Strings` (`strings.dfy`) models the Python and JavaScript string
  operations for ASCII: `find`, `split` on one character, `join`, `strip`,
  `lower`, `replace` and `str(int)`.
- `Sequences` (`sequences.dfy`) defines order-preserving subsequences.

Errors the source raises or rejects with are `Failure` values. Each
carries a label that names the error. The labels are not the exact text
the runtime prints:

- a listing page without `Contents` (`KeyError: 'Contents'`);
- an S3 key without `/` (`IndexError: list index out of range`);
- a missing S3 object (`NoSuchKey: <key>`, standing for boto3's
  `ClientError` with code `NoSuchKey`);
- an event without `CodePipeline.job` (`KeyError: 'CodePipeline.job'`);
- an `Error: … is not defined` from `checkDefined` (the message of the
  thrown `Error`);
- an RDS answer without DB instances (the `TypeError` of reading
  `DeletionProtection` of `undefined`).

## Model

| member | source | states |
|---|---|---|
| ManualBackup.IsScheduledNotification | ised-config-manual-backup/index.js:7-9 | the trigger test: the message type is exactly ScheduledNotification |
| ManualBackup.ExtractDBInstanceIdentifiers | ised-config-manual-backup/index.js:37-41 | same length; element i is the identifier of object i |
| ManualBackup.FindDBInstanceIdentifiersWithNoManualSnapshots | ised-config-manual-backup/index.js:27-31 | x is in the result iff it is an instance id and not a snapshot id; the result is a subsequence of the instance ids and no longer |
| ManualBackup.NoManualSnapshotsKeepsMultiplicity | ised-config-manual-backup/index.js:27-31 | duplicates kept: each id without a snapshot occurs as often as among the instances, the others zero times |
| ManualBackup.NoSnapshotsKeepsAll | ised-config-manual-backup/index.js:27-31 | with no snapshots the result is the instance list itself |
| ManualBackup.BuildEvaluations | ised-config-manual-backup/index.js:57-64 | one evaluation per id, in order, of type AWS::RDS::DBInstance, NON_COMPLIANT, stamped with the run time |
| ManualBackup.Handler | ised-config-manual-backup/index.js:43-73 | ignored with the fixed message iff the message type is not ScheduledNotification; otherwise the result token is unchanged and the evaluated ids are exactly the filtered instance list, in order and with duplicates kept as often as among the instances |
| TerminationRule.CheckDefined | ised-config-termination/index.js:11-16 | throws `Error: name is not defined` iff the reference is falsy (undefined, null, false, 0, ""); otherwise returns it unchanged |
| TerminationRule.IsOverSizedChangeNotification | ised-config-termination/index.js:19-22 | throws iff the message type is falsy; otherwise true iff it is OversizedConfigurationItemChangeNotification |
| TerminationRule.GetConfigurationItem | ised-config-termination/index.js:52-67 | oversized notification with a summary: fetch from history; an oversized one without a summary throws `configurationItemSummary is not defined`; otherwise the event's own item, and a throw of `configurationItem is not defined` iff that item is absent |
| TerminationRule.RenameRelationships | ised-config-termination/index.js:43-47 | renaming keeps the count and sets `name` to `relationshipName` at every position, all other fields unchanged |
| TerminationRule.ApiConfigurationItem.constructor | ised-config-termination/index.js:37-41 | an item of the history API before conversion: the invocation-model fields are undefined |
| TerminationRule.ApiConfigurationItem.ConvertApiConfiguration | ised-config-termination/index.js:37-49 | copies accountId, arn, configurationItemMD5Hash and version to their new names, renames every relationship, changes nothing else |
| TerminationRule.IsApplicable | ised-config-termination/index.js:70-76 | status exactly OK or ResourceDiscovered, and eventLeftScope exactly false |
| TerminationRule.EvaluateChangeNotificationCompliance | ised-config-termination/index.js:82-123 | throws before any promise iff the configuration is falsy; EC2 COMPLIANT iff DisableApiTermination is exactly true; RDS COMPLIANT iff the first instance's DeletionProtection is exactly true, a rejected promise (TypeError) iff there is none; NON_COMPLIANT otherwise for those two types; NOT_APPLICABLE for every other type |
| TerminationRule.SubmissionOutcome | ised-config-termination/index.js:153-162 | an error is passed on; a failure carrying the data iff some evaluation failed; success iff none did |
| TerminationRule.Handler | ised-config-termination/index.js:125-166 | any error of `getConfigurationItem` is thrown by the handler; nothing evaluated iff the item is not applicable (status OK or ResourceDiscovered and eventLeftScope exactly false); an applicable item is submitted iff its compliance promise resolves, the handler throws iff the compliance call throws and ends rejected iff the promise rejects, with that error; a submission holds exactly one evaluation of the item's type, id and capture time, with the decided compliance and the event's result token, and happens only for an inline, applicable item; it ends as the putEvaluations callback decides |
| RotateIamKeys.SortKeysByAscendingCreationDate | rotate-iam-keys/index.js:9-22 | -1 iff A is newer, 1 iff B is newer, 0 iff equally old |
| RotateIamKeys.ComparatorIsConsistent | rotate-iam-keys/index.js:9-22 | the sign flips with the arguments and the order is transitive |
| RotateIamKeys.SwapNeighbours | rotate-iam-keys/index.js:194 | exchanges two neighbouring keys, a permutation |
| RotateIamKeys.InsertKey | rotate-iam-keys/index.js:194 | one insertion step: the first i+1 keys newest first, a permutation |
| RotateIamKeys.SortKeys | rotate-iam-keys/index.js:192-194 | the array is sorted newest first and is a permutation of the original keys |
| RotateIamKeys.Classify | rotate-iam-keys/index.js:169-225 | expired iff age >= 90 days; due iff 60 days <= age < 61 days; current exactly in the remaining cases |
| RotateIamKeys.ActionFor | rotate-iam-keys/index.js:200-225 | delete the key iff it is at least 90 days old, create a new one for its user iff it is 60 days old and not yet 61, otherwise leave it |
| RotateIamKeys.PlanKeyActions | rotate-iam-keys/index.js:196-226 | one action per key, in order: delete iff age >= 90 days, create and notify iff 60 <= age < 61 days, otherwise none |
| RotateIamKeys.ProcessUser | rotate-iam-keys/index.js:160-227 | a listing error is reported with "Failed to list keys" and the keys untouched; no keys, no action; otherwise the keys are sorted newest first (a permutation) and planned key by key |
| RotateIamKeys.ContactEmail | rotate-iam-keys/index.js:34-47 | the value of the first `ised-contact-email` tag, or "" when there is none |
| RotateIamKeys.FindContactEmail | rotate-iam-keys/index.js:40-47 | the loop with `break` finds that first tag's value |
| RotateIamKeys.ExpiryNotice | rotate-iam-keys/index.js:49-53 | the notice text: the old key id and its 30-day expiry, then the new id and secret |
| RotateIamKeys.ExpiryNoticeMentionsKeys | rotate-iam-keys/index.js:49-53 | the notice contains the old key id, the new key id and the new secret |
| RotateIamKeys.NotifyUser | rotate-iam-keys/index.js:24-62 | a getUser error is reported with the user name; an e-mail with the fixed subject, the notice and the sender address goes to the contact address iff one is found |
| StacksetCompare.StacksetFromKey | cfn-pipeline--02-compare/index.py:19-37 | raises IndexError iff the key has no `/` |
| StacksetCompare.StacksetFromTemplateKey | cfn-pipeline--02-compare/index.py:21-37 | for any key `cf-stacks/F`: the filename is F up to its next `/` (all of F without one), the base is the filename up to its first `.`, the name is `ised-` + base, the parameter file base + `.json` |
| StacksetCompare.TemplateKeyWithExtension | cfn-pipeline--02-compare/index.py:21-37 | `cf-stacks/backup.yaml` and the like give `ised-backup`, `backup.yaml`, `backup.json` |
| StacksetCompare.RecordsFromKeys | cfn-pipeline--02-compare/index.py:19-37 | the records of one page's keys, in order, or the error of the first key without `/` |
| StacksetCompare.RecordsFromPages | cfn-pipeline--02-compare/index.py:17-37 | the records of all pages, in order, or the first KeyError or IndexError |
| StacksetCompare.RecordsFromKeysOnePerKey | cfn-pipeline--02-compare/index.py:17-37 | all keys have a `/` iff no error, and then one record per key, in listing order |
| StacksetCompare.RecordsFromPagesOnePerKey | cfn-pipeline--02-compare/index.py:17-37 | the listing succeeds iff every page has `Contents` and every key a `/`, and then gives one record per listed key |
| StacksetCompare.RecordsFromKeysAppend | cfn-pipeline--02-compare/index.py:18-37 | the records of two key lists in turn: the first list's error, else the second's, else both lists of records joined |
| StacksetCompare.RecordsFromPagesAreRecordsFromListedKeys | cfn-pipeline--02-compare/index.py:17-37 | when every page has `Contents`, listing page by page gives the same records, or the same first error, as listing all the keys of the pages in turn |
| StacksetCompare.RecordsFromKeysFailurePersists | cfn-pipeline--02-compare/index.py:18-23 | an error on a key ends the listing with that error |
| StacksetCompare.RecordsFromPagesFailurePersists | cfn-pipeline--02-compare/index.py:17-18 | an error on a page ends the listing with that error |
| StacksetCompare.ParamDict | cfn-pipeline--02-compare/index.py:76-81 | the dictionary's keys are exactly the keys of the S3 parameters |
| StacksetCompare.ParamDictLastWins | cfn-pipeline--02-compare/index.py:78-81 | a key's value is that of its last entry |
| StacksetCompare.BuildParamDict | cfn-pipeline--02-compare/index.py:78-81 | the in-place loop builds that dictionary |
| StacksetCompare.ParameterMessage | cfn-pipeline--02-compare/index.py:92-102 | both messages start `name: different because `; `diff keys` iff the key is missing from the S3 file, otherwise the message ends with `(key: value)` of the CFN parameter |
| StacksetCompare.FirstParameterDifference | cfn-pipeline--02-compare/index.py:83-102 | no message iff every CFN parameter is masked `****` or has the same S3 value; otherwise the message of the first one that is not |
| StacksetCompare.CompareStackset | cfn-pipeline--02-compare/index.py:39-102 | skipped iff CFN lacks the stackset; contents message when the templates differ, with no parameter compared; count message when the counts differ; otherwise the same iff no parameter difference; a missing S3 object raises |
| StacksetCompare.Differences | cfn-pipeline--02-compare/index.py:39-102 | the flags of the stacksets in processing order, at most one per stackset, or the first exception |
| StacksetCompare.DifferencesAreTheFlaggedStacksets | cfn-pipeline--02-compare/index.py:39-102 | the flags are a subsequence of the stacksets, at most one each; a stackset is flagged with message m iff its comparison found difference m; a stackset CFN lacks is never flagged |
| StacksetCompare.DifferencesStep | cfn-pipeline--02-compare/index.py:39-102 | the last stackset extends the flagged list by itself iff its comparison finds a difference |
| StacksetCompare.DifferencesFlagFacts | cfn-pipeline--02-compare/index.py:39-102 | every flag is a listed stackset known to CFN with the message its comparison found; every listed stackset compares without error; every difference found is flagged |
| StacksetCompare.DifferencesKeepMultiplicity | cfn-pipeline--02-compare/index.py:39-102 | a stackset whose comparison finds a difference is flagged as often as it is listed (`cf-stacks/F` and `cf-stacks/F/G` give two flags); any other never |
| StacksetCompare.DifferencesFailurePersists | cfn-pipeline--02-compare/index.py:39-68 | an exception on one stackset ends the run with it |
| StacksetCompare.Conclude | cfn-pipeline--02-compare/index.py:104-134 | nothing flagged: job failure and the "Nothing to deploy." message (KeyError without a job); otherwise the flagged stacksets, in order, and on a job the prefix plus the messages joined by ", " |
| StacksetCompare.Handler | cfn-pipeline--02-compare/index.py:10-134 | listing, then comparison, then conclusion; the first exception of either loop is raised |
| StacksetCompare.ListPageStacksets | cfn-pipeline--02-compare/index.py:18-37 | the key loop computes the records of one page |
| StacksetCompare.ListStacksets | cfn-pipeline--02-compare/index.py:17-37 | the page loop computes the records of all pages |
| StacksetCompare.CompareParameters | cfn-pipeline--02-compare/index.py:83-102 | the loop with `continue`/`break` finds the first parameter difference |
| StacksetCompare.CompareOne | cfn-pipeline--02-compare/index.py:39-102 | the loop body with its `continue`s computes the decision for one stackset |
| StacksetCompare.CompareStacksets | cfn-pipeline--02-compare/index.py:39-102 | `different_stacksets` and `different_message` are the flags' stacksets and messages, index-aligned |
| StacksetCompare.LambdaHandler | cfn-pipeline--02-compare/index.py:10-134 | the whole handler equals listing, comparison and conclusion in turn |
| JiraIssue.DropPrefix | ised-create-jira-issue/index.py:78 | `t[5:]`: empty for short strings, otherwise what follows the first five characters |
| JiraIssue.ConvertType | ised-create-jira-issue/index.py:78-80 | the tagging API's notation of a Config type: drop `AWS::`, `::` to `:`, lower case |
| JiraIssue.ConvertServiceResource | ised-create-jira-issue/index.py:69-81 | `AWS::Service::Resource` becomes `service:resource` in lower case, as `AWS::EC2::Volume` to `ec2:volume` |
| JiraIssue.ReplaceOneDoubleColon | ised-create-jira-issue/index.py:79 | when neither part holds a colon, the one `::` between them becomes `:` |
| JiraIssue.LowerAroundColon | ised-create-jira-issue/index.py:80 | lowering `service:resource` lowers each part and keeps the colon |
| JiraIssue.SupportedTypes | ised-create-jira-issue/index.py:61-75 | a type is kept iff it is not one of the three unsupported ones; the kept types keep their order |
| JiraIssue.SupportedTypesKeepsMultiplicity | ised-create-jira-issue/index.py:72-77 | each supported type is kept as often as it occurs in the rule's scope, each unsupported one is dropped every time |
| JiraIssue.ConvertResourceTypes | ised-create-jira-issue/index.py:72-81 | one converted type per supported type, in order |
| JiraIssue.FinalPageIndex | ised-create-jira-issue/index.py:35-40 | the first page whose token is "" |
| JiraIssue.AllMappingsMembers | ised-create-jira-issue/index.py:31-40 | a resource is collected iff some page lists it; the count is the sum of the page counts |
| JiraIssue.CollectResults | ised-create-jira-issue/index.py:31-40 | `total_results` is the concatenation of the pages up to and including the first with token "" |
| JiraIssue.TagLines | ised-create-jira-issue/index.py:47-48 | no text iff there are no tags, and otherwise the text ends with a line break |
| JiraIssue.ResourceBlock | ised-create-jira-issue/index.py:45-48 | the block of a matching resource starts with its ARN line, so it is never empty |
| JiraIssue.Matching | ised-create-jira-issue/index.py:42-44 | a resource matches iff `rid` occurs in its ARN; matches keep their order |
| JiraIssue.MatchingKeepsMultiplicity | ised-create-jira-issue/index.py:42-48 | a matching resource is described as often as it was collected, any other never |
| JiraIssue.BlocksEmpty | ised-create-jira-issue/index.py:42-49 | the text is empty iff there is no resource to describe |
| JiraIssue.DescriptionEmptyIffNoMatch | ised-create-jira-issue/index.py:34-49 | the description is "" iff no collected ARN contains the resource id |
| JiraIssue.MatchingStep | ised-create-jira-issue/index.py:42-48 | a matching resource adds its block at the end |
| JiraIssue.AppendTagLines | ised-create-jira-issue/index.py:47-48 | the tag loop appends one `Key:k Value:v` line per tag |
| JiraIssue.AppendResourceBlock | ised-create-jira-issue/index.py:45-48 | the ARN line, the tag header and the tag lines are appended |
| JiraIssue.DescribeMatches | ised-create-jira-issue/index.py:42-49 | one block per matching resource, in order |
| JiraIssue.Lookup | ised-create-jira-issue/index.py:22-49 | the description of the collected resources whose ARN contains `rid` |
| JiraIssue.Issue.constructor | ised-create-jira-issue/index.py:93-104 | the four fixed fields of the issue literal |
| JiraIssue.Issue.AddPriority | ised-create-jira-issue/index.py:10-12 | sets `priority` to `{"name": v}`, no other field changes |
| JiraIssue.Issue.AddAssignee | ised-create-jira-issue/index.py:14-16 | sets `assignee` to `{"name": v}`, no other field changes |
| JiraIssue.Issue.AddDueDate | ised-create-jira-issue/index.py:18-20 | sets `duedate` to `v`, no other field changes |
| JiraIssue.BuildIssue | ised-create-jira-issue/index.py:93-116 | the new issue's fields are the four fixed ones plus each optional one whose stripped value is not empty |
| JiraIssue.InputOf | ised-create-jira-issue/index.py:89-114 | the summary starts with the stripped issue summary and `-`; the other values have no whitespace at either end; priority, assignee and due date are empty iff the event value is whitespace only |
| JiraIssue.IssueFields | ised-create-jira-issue/index.py:93-116 | summary, project key, description and issue type always; priority, assignee and due date iff not empty |
| JiraIssue.OptionalFieldsUnlessBlank | ised-create-jira-issue/index.py:106-116 | an optional field is set iff its event value is not whitespace only |
| JiraIssue.Ok | ised-create-jira-issue/index.py:127 | `response.ok`: false exactly for a 4xx or 5xx status code |
| JiraIssue.JiraOutcome | ised-create-jira-issue/index.py:127-131 | raises the status-code message iff the answer is not ok, that is iff its status code is a 4xx or 5xx error, else returns the issue key |
| JiraIssue.Handler | ised-create-jira-issue/index.py:51-131 | the converted types, the issue fields built from the stripped event values and the lookup, and the outcome |
| Strings.Find | ised-create-jira-issue/index.py:43 | -1 iff there is no occurrence, else the lowest occurrence |
| Strings.Split | cfn-pipeline--02-compare/index.py:23-26 | at least one piece, none containing the separator |
| Strings.Join | cfn-pipeline--02-compare/index.py:120 | no parts give ""; otherwise the first part starts the result |
| Strings.JoinAppend | cfn-pipeline--02-compare/index.py:120 | one more message adds `, ` and that message at the end |
| Strings.JoinSplit | cfn-pipeline--02-compare/index.py:23 | joining the pieces with the separator gives back the key |
| Strings.SplitWithout | cfn-pipeline--02-compare/index.py:23-26 | without the separator there is one piece, the whole string |
| Strings.SplitAfterFirst | cfn-pipeline--02-compare/index.py:23-26 | the first piece ends at the first separator |
| Strings.SplitFirstPiece | cfn-pipeline--02-compare/index.py:26 | the first piece is a prefix followed by the separator or the end |
| Strings.SpaceRunEnd | ised-create-jira-issue/index.py:87-89 | the run of whitespace from i ends at a non-space or at the end |
| Strings.SpaceRunStart | ised-create-jira-issue/index.py:87-89 | the run of whitespace up to j starts at the bound or just after a non-space |
| Strings.Strip | ised-create-jira-issue/index.py:87-89 | the string with only whitespace removed on both sides, and none left at either end |
| Strings.StripEmpty | ised-create-jira-issue/index.py:106-116 | the stripped string is empty iff the string is whitespace only |
| Strings.Lower | ised-create-jira-issue/index.py:80 | each character lowered in place |
| Strings.LowerConcat | ised-create-jira-issue/index.py:80 | lowering a concatenation lowers each part |
| Strings.Replace | ised-create-jira-issue/index.py:79 | replacing with a text no longer than the pattern, as `::` by `:`, never lengthens the string; an equally long one keeps its length |
| Strings.ReplaceAbsent | ised-create-jira-issue/index.py:79 | without an occurrence nothing changes |
| Strings.ReplaceAfterPlain | ised-create-jira-issue/index.py:79 | text before an occurrence is copied unchanged |
| Strings.ReplaceAtStart | ised-create-jira-issue/index.py:79 | an occurrence at the start is replaced |
| Strings.NatToString | ised-create-jira-issue/index.py:128 | `str` of a status code is a non-empty string of digits |
| Strings.NatToStringValue | ised-create-jira-issue/index.py:128 | the digits spell the status code in decimal, with no leading zero |

## Left out

- All AWS SDK and boto3 calls are inputs. This covers IAM, SES, EC2, RDS,
  Config, S3, CloudFormation, CodePipeline, SSM and the tagging API. The
  CodePipeline calls are the returned `PipelineSignal`. The e-mail is the
  returned `EmailRequest`.
- JSON parsing and serialisation are left out. The parsed structures are
  given. `json.dumps(different_stacksets)` and the `JSON.stringify` of the
  failure data are the values before serialising.
- Concurrency and callback order are left out. This covers `Promise.all`,
  the `listUsers` fan-out over users, and the `username` captured by the
  callbacks. Each user is processed with their own name. The `listUsers`
  error path and the results of `deleteAccessKey`, `createAccessKey` and
  `sendEmail` are not modelled.
- The missing `return` after `callback(err)` in the termination rule is
  not modelled.
- Wall-clock reads (`new Date()`) are inputs: `today` and the timestamps
  are integers in milliseconds.
- The history fetch of an oversized notification ends as `HistoryNeeded`.
  The adapter it uses, `convertApiConfiguration`, is modelled except for
  its `JSON.parse` of `configuration`. When `relationships` is present but
  not an array, the source's behaviour is not modelled.
- `strip` and `lower` are modelled for ASCII only. `strip` removes
  Python's ASCII whitespace.
- NaN is not a value of `Js`.
- The rest of the repository is not part of this model. These are thin
  wrappers with no decision of their own: cfn-pipeline--01-clean,
  cfn-pipeline--03-deploy and ised-config-enable-termination.
- The Jira POST, its authentication and the SSM secret are not modelled.
  The Config rule lookup is not modelled either. The rule's resource types
  and Jira's answer are inputs.
- JiraIssue.Lookup requires that some tagging page carries the empty
  token. On answers that never end, the source keeps calling the API.
- JiraIssue.CollectResults: `pages[i]` stands for the answer to the token
  of `pages[i - 1]`. The model does not check that the pages chain.
- JiraIssue.Handler: the event keys are all present. A missing key's
  KeyError is not modelled.
- TerminationRule.Handler builds the request in one expression. The source
  assigns the request's two fields one after the other, and those two
  assignments do not interact.
- RotateIamKeys.SortKeys sorts by insertion. Any order that is newest
  first and a permutation meets its contract. The model does not claim to
  reproduce the order `Array.prototype.sort` gives equal dates.
- Failures of SDK calls are modelled only where the model has an input for
  them: the S3 `NoSuchKey`, the `putEvaluations` error, the `listAccessKeys`
  and `getUser` errors. The other SDK failures the source passes on have no
  input and are not modelled. These are the rejection of `Promise.all` in
  the manual-backup rule, the rejections of `describeInstanceAttribute` and
  `describeDBInstances` in the termination rule, and the
  `describe_stack_set` errors other than `StackSetNotFoundException`.
- `os.environ['BucketName']` is not read: the bucket's contents are the
  input pages and objects, and a missing variable's KeyError is not
  modelled.
- ManualBackup.BuildEvaluations stamps every evaluation with one `now`. The
  source calls `new Date()` once per evaluation inside the `map`, so its
  timestamps can differ by the time the `map` takes.
