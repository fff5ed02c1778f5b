/** The Lambda that opens a Jira issue for a non-compliant resource
    (ised-create-jira-issue/index.py): the AWS Config resource types are
    translated into the notation of the Resource Groups Tagging API, the
    tagged resources whose ARN contains the resource id are described, and
    the issue fields are assembled. The rule's resource types, the tagging
    pages and Jira's answer are inputs. */
module JiraIssue {
  import opened Wrappers
  import opened Sequences
  import Strings

  const UNSUPPORTED_RESOURCE_TYPES: seq<string> := [
    "AWS::AutoScaling::AutoScalingGroup",
    "AWS::ElasticLoadBalancingV2::LoadBalancer",
    "AWS::S3::Bucket"
  ]
  const ARN_HEADER := "The resource ARN "
  const TAGS_HEADER := "\nTags already applied to the resource: \n"

  // ---------------------------------------------------------------------
  // Resource type notation

  /** `t[5:]` of Python: everything after the first five characters. */
  function DropPrefix(t: string): (r: string)
    ensures |t| <= 5 ==> r == ""
    ensures |t| > 5 ==> t == t[..5] + r
  {
    if |t| <= 5 then "" else t[5..]
  }

  /** `config_rule_resource_type[5:].replace("::", ":").lower()`. */
  function ConvertType(t: string): string
  {
    Strings.Lower(Strings.Replace(DropPrefix(t), "::", ":"))
  }

  /** A type `AWS::Service::Resource` becomes `service:resource`, as in
      `AWS::EC2::Volume` to `ec2:volume`. */
  lemma {:induction false} ConvertServiceResource(service: string, resource: string)
    requires ':' !in service && ':' !in resource
    ensures ConvertType("AWS::" + service + "::" + resource)
      == Strings.Lower(service) + ":" + Strings.Lower(resource)
  {
    var t := "AWS::" + service + "::" + resource;
    var rest := service + ("::" + resource);
    assert t == "AWS::" + rest;
    assert DropPrefix(t) == rest;
    ReplaceOneDoubleColon(service, resource);
    LowerAroundColon(service, resource);
  }

  lemma {:induction false} ReplaceOneDoubleColon(service: string, resource: string)
    requires ':' !in service && ':' !in resource
    ensures Strings.Replace(service + ("::" + resource), "::", ":") == service + ":" + resource
  {
    Strings.ReplaceAfterPlain(service, "::" + resource, "::", ":");
    Strings.ReplaceAtStart(resource, "::", ":");
    assert !Strings.Contains(resource, "::") by {
      forall i | 0 <= i <= |resource| - 2 ensures !Strings.OccursAt(resource, "::", i) {
        assert resource[i..i + 2][0] == resource[i];
      }
    }
    Strings.ReplaceAbsent(resource, "::", ":");
  }

  lemma {:induction false} LowerAroundColon(service: string, resource: string)
    ensures Strings.Lower(service + ":" + resource) == Strings.Lower(service) + ":" + Strings.Lower(resource)
  {
    Strings.LowerConcat(service + ":", resource);
    Strings.LowerConcat(service, ":");
    assert Strings.Lower(":") == ":";
  }

  /** The rule's types the tagging API supports, in their original order. */
  function SupportedTypes(types: seq<string>): (r: seq<string>)
    ensures forall t :: t in r <==> t in types && t !in UNSUPPORTED_RESOURCE_TYPES
    ensures IsSubsequence(r, types)
  {
    if |types| == 0 then []
    else
      var init := types[..|types| - 1];
      var last := types[|types| - 1];
      var rest := SupportedTypes(init);
      assert types == init + [last];
      SubsequenceExtend(rest, init, last);
      if last in UNSUPPORTED_RESOURCE_TYPES then rest else rest + [last]
  }

  /** Duplicates are kept: a supported type occurs as often as in the rule's
      scope, an unsupported one not at all. */
  lemma {:induction false} SupportedTypesKeepsMultiplicity(types: seq<string>)
    ensures forall t :: (multiset(SupportedTypes(types))[t]
      == if t in UNSUPPORTED_RESOURCE_TYPES then 0 else multiset(types)[t])
    decreases |types|
  {
    if |types| > 0 {
      var init := types[..|types| - 1];
      var last := types[|types| - 1];
      SupportedTypesKeepsMultiplicity(init);
      assert types == init + [last];
      assert multiset(types) == multiset(init) + multiset{last};
    }
  }

  /** The conversion loop of the handler: every supported type converted,
      one for one and in order. */
  method ConvertResourceTypes(configRuleResourceTypes: seq<string>) returns (resourceTypes: seq<string>)
    ensures |resourceTypes| == |SupportedTypes(configRuleResourceTypes)|
    ensures forall i :: 0 <= i < |resourceTypes| ==>
      resourceTypes[i] == ConvertType(SupportedTypes(configRuleResourceTypes)[i])
  {
    resourceTypes := [];
    for i := 0 to |configRuleResourceTypes|
      invariant |resourceTypes| == |SupportedTypes(configRuleResourceTypes[..i])|
      invariant forall k :: 0 <= k < |resourceTypes| ==>
        resourceTypes[k] == ConvertType(SupportedTypes(configRuleResourceTypes[..i])[k])
    {
      assert configRuleResourceTypes[..i + 1][..i] == configRuleResourceTypes[..i];
      var configRuleResourceType := configRuleResourceTypes[i];
      if configRuleResourceType in UNSUPPORTED_RESOURCE_TYPES {
        continue;
      }
      resourceTypes := resourceTypes + [ConvertType(configRuleResourceType)];
    }
    assert configRuleResourceTypes[..|configRuleResourceTypes|] == configRuleResourceTypes;
  }

  // ---------------------------------------------------------------------
  // Tag lookup

  datatype Tag = Tag(key: string, value: string)

  datatype ResourceTagMapping = ResourceTagMapping(resourceArn: string, tags: seq<Tag>)

  /** One answer of `get_resources`. */
  datatype TaggingPage = TaggingPage(resourceTagMappingList: seq<ResourceTagMapping>, paginationToken: string)

  /** The answers end: some page carries the empty token. */
  predicate HasFinalPage(pages: seq<TaggingPage>)
  {
    exists i :: 0 <= i < |pages| && pages[i].paginationToken == ""
  }

  /** The position of the first page with the empty token. */
  function FinalPageIndex(pages: seq<TaggingPage>): (n: nat)
    requires HasFinalPage(pages)
    ensures n < |pages| && pages[n].paginationToken == ""
    ensures forall j :: 0 <= j < n ==> pages[j].paginationToken != ""
  {
    if pages[0].paginationToken == "" then 0
    else
      var i :| 0 <= i < |pages| && pages[i].paginationToken == "";
      assert pages[1..][i - 1].paginationToken == "";
      var n := 1 + FinalPageIndex(pages[1..]);
      assert forall j :: 1 <= j < n ==> pages[j] == pages[1..][j - 1];
      n
  }

  /** The resources of the given pages, concatenated in order. */
  function AllMappings(pages: seq<TaggingPage>): seq<ResourceTagMapping>
  {
    if |pages| == 0 then []
    else AllMappings(pages[..|pages| - 1]) + pages[|pages| - 1].resourceTagMappingList
  }

  /** A resource is collected exactly when it is listed on one of the pages. */
  lemma {:induction false} AllMappingsMembers(pages: seq<TaggingPage>)
    ensures forall m :: m in AllMappings(pages) <==> exists i :: 0 <= i < |pages| && m in pages[i].resourceTagMappingList
    ensures |AllMappings(pages)| == SumOfLengths(pages)
  {
    if |pages| > 0 {
      var init := pages[..|pages| - 1];
      AllMappingsMembers(init);
      assert forall i :: 0 <= i < |init| ==> init[i] == pages[i];
    }
  }

  function SumOfLengths(pages: seq<TaggingPage>): nat
  {
    if |pages| == 0 then 0
    else SumOfLengths(pages[..|pages| - 1]) + |pages[|pages| - 1].resourceTagMappingList|
  }

  /** The paging loop of `lookup`: `total_results` gathers the resources of
      every page up to and including the first one whose token is empty.
      `pages[i]` is the answer to the token of `pages[i - 1]`. */
  method CollectResults(pages: seq<TaggingPage>) returns (totalResults: seq<ResourceTagMapping>)
    requires HasFinalPage(pages)
    ensures totalResults == AllMappings(pages[..FinalPageIndex(pages) + 1])
  {
    var last := FinalPageIndex(pages);
    totalResults := [];
    var i := 0;
    var response := pages[0];
    while true
      invariant 0 <= i <= last
      invariant response == pages[i]
      invariant totalResults == AllMappings(pages[..i])
      decreases last - i
    {
      assert pages[..i + 1][..i] == pages[..i];
      totalResults := totalResults + response.resourceTagMappingList;
      var pageToken := response.paginationToken;
      if pageToken == "" {
        break;
      }
      i := i + 1;
      response := pages[i];
    }
  }

  /** The `Key:k Value:v` lines of a resource's tags. */
  function TagLines(tags: seq<Tag>): (r: string)
    ensures r == "" <==> |tags| == 0
    ensures |tags| > 0 ==> r[|r| - 1] == '\n'
  {
    if |tags| == 0 then ""
    else TagLines(tags[..|tags| - 1]) + "Key:" + tags[|tags| - 1].key + " Value:" + tags[|tags| - 1].value + "\n"
  }

  /** The text for one matching resource. */
  function ResourceBlock(r: ResourceTagMapping): (block: string)
    ensures ARN_HEADER + r.resourceArn + "\n" <= block
    ensures |block| > 0
  {
    ARN_HEADER + r.resourceArn + "\n" + TAGS_HEADER + TagLines(r.tags)
  }

  /** The resources whose ARN contains `rid` (`find` does not answer -1),
      in their original order. */
  function Matching(results: seq<ResourceTagMapping>, rid: string): (m: seq<ResourceTagMapping>)
    ensures forall r :: r in m <==> r in results && Strings.Contains(r.resourceArn, rid)
    ensures IsSubsequence(m, results)
  {
    if |results| == 0 then []
    else
      var init := results[..|results| - 1];
      var last := results[|results| - 1];
      var rest := Matching(init, rid);
      assert results == init + [last];
      SubsequenceExtend(rest, init, last);
      if Strings.Find(last.resourceArn, rid) != -1 then rest + [last] else rest
  }

  /** Duplicates are kept: a resource whose ARN contains `rid` is described
      as often as it was collected, any other not at all. */
  lemma {:induction false} MatchingKeepsMultiplicity(results: seq<ResourceTagMapping>, rid: string)
    ensures forall r :: (multiset(Matching(results, rid))[r]
      == if Strings.Contains(r.resourceArn, rid) then multiset(results)[r] else 0)
    decreases |results|
  {
    if |results| > 0 {
      var init := results[..|results| - 1];
      var last := results[|results| - 1];
      MatchingKeepsMultiplicity(init, rid);
      assert results == init + [last];
      assert multiset(results) == multiset(init) + multiset{last};
    }
  }

  /** The blocks of the given resources, one after the other. */
  function Blocks(rs: seq<ResourceTagMapping>): string
  {
    if |rs| == 0 then ""
    else Blocks(rs[..|rs| - 1]) + ResourceBlock(rs[|rs| - 1])
  }

  /** No text comes out exactly when there is no resource to describe. */
  lemma BlocksEmpty(rs: seq<ResourceTagMapping>)
    ensures Blocks(rs) == "" <==> |rs| == 0
  {
    if |rs| > 0 {
      assert |ResourceBlock(rs[|rs| - 1])| > 0;
    }
  }

  /** The description is empty exactly when no collected ARN contains the
      resource id. */
  lemma {:induction false} DescriptionEmptyIffNoMatch(results: seq<ResourceTagMapping>, rid: string)
    ensures Blocks(Matching(results, rid)) == "" <==>
      forall r :: r in results ==> !Strings.Contains(r.resourceArn, rid)
  {
    var m := Matching(results, rid);
    BlocksEmpty(m);
    if |m| > 0 {
      assert m[0] in m;
    }
  }

  /** The description loop of `lookup`, given the collected resources. */
  method DescribeMatches(totalResults: seq<ResourceTagMapping>, rid: string) returns (resourceInfo: string)
    ensures resourceInfo == Blocks(Matching(totalResults, rid))
  {
    resourceInfo := "";
    for i := 0 to |totalResults|
      invariant resourceInfo == Blocks(Matching(totalResults[..i], rid))
    {
      assert totalResults[..i + 1][..i] == totalResults[..i];
      var r := totalResults[i];
      var findResult := Strings.Find(r.resourceArn, rid);
      if findResult != -1 {
        resourceInfo := AppendResourceBlock(resourceInfo, r);
        MatchingStep(totalResults[..i + 1], rid);
      }
    }
    assert totalResults[..|totalResults|] == totalResults;
  }

  /** A resource whose ARN contains the id is the last match of the
      resources up to it. */
  lemma MatchingStep(results: seq<ResourceTagMapping>, rid: string)
    requires |results| > 0 && Strings.Find(results[|results| - 1].resourceArn, rid) != -1
    ensures Blocks(Matching(results, rid))
      == Blocks(Matching(results[..|results| - 1], rid)) + ResourceBlock(results[|results| - 1])
  {
    var m := Matching(results[..|results| - 1], rid);
    assert Matching(results, rid) == m + [results[|results| - 1]];
    assert (m + [results[|results| - 1]])[..|m|] == m;
  }

  /** The body of the description loop for one matching resource. */
  method AppendResourceBlock(text: string, r: ResourceTagMapping) returns (resourceInfo: string)
    ensures resourceInfo == text + ResourceBlock(r)
  {
    resourceInfo := text + ARN_HEADER + r.resourceArn + "\n";
    resourceInfo := resourceInfo + TAGS_HEADER;
    resourceInfo := AppendTagLines(resourceInfo, r.tags);
  }

  /** The innermost loop of `lookup`: one line per tag appended to `text`. */
  method AppendTagLines(text: string, tags: seq<Tag>) returns (resourceInfo: string)
    ensures resourceInfo == text + TagLines(tags)
  {
    resourceInfo := text;
    for t := 0 to |tags|
      invariant resourceInfo == text + TagLines(tags[..t])
    {
      assert tags[..t + 1][..t] == tags[..t];
      resourceInfo := resourceInfo + "Key:" + tags[t].key + " Value:" + tags[t].value + "\n";
    }
    assert tags[..|tags|] == tags;
  }

  /** `lookup(rid, resource_types)`, given the answers of `get_resources` to
      the converted resource types. */
  method Lookup(rid: string, pages: seq<TaggingPage>) returns (resourceInfo: string)
    requires HasFinalPage(pages)
    ensures resourceInfo == Blocks(Matching(AllMappings(pages[..FinalPageIndex(pages) + 1]), rid))
  {
    var totalResults := CollectResults(pages);
    resourceInfo := DescribeMatches(totalResults, rid);
  }

  // ---------------------------------------------------------------------
  // The issue

  /** The value of an issue field: a plain string, `{"name": v}` or `{"key": v}`. */
  datatype FieldValue = Text(text: string) | NameRef(name: string) | KeyRef(key: string)

  /** The keys of an issue's `fields` dictionary the handler sets. */
  datatype FieldName = Summary | Project | Description | IssueType | Priority | Assignee | DueDate

  /** The issue sent to Jira: its `fields` dictionary. */
  class Issue {
    var fields: map<FieldName, FieldValue>

    /** The dictionary literal of the handler. */
    constructor (summary: string, projectKey: string, description: string, issueTypeName: string)
      ensures fields == BaseFields(summary, projectKey, description, issueTypeName)
    {
      fields := map[Summary := Text(summary), Project := KeyRef(projectKey),
                    Description := Text(description), IssueType := NameRef(issueTypeName)];
    }

    /** `add_priority`. */
    method AddPriority(priority: string)
      modifies this
      ensures fields == old(fields)[Priority := NameRef(priority)]
    {
      fields := fields[Priority := NameRef(priority)];
    }

    /** `add_assignee`. */
    method AddAssignee(assignee: string)
      modifies this
      ensures fields == old(fields)[Assignee := NameRef(assignee)]
    {
      fields := fields[Assignee := NameRef(assignee)];
    }

    /** `add_due_date`. */
    method AddDueDate(dueDate: string)
      modifies this
      ensures fields == old(fields)[DueDate := Text(dueDate)]
    {
      fields := fields[DueDate := Text(dueDate)];
    }
  }

  function BaseFields(summary: string, projectKey: string, description: string, issueTypeName: string): map<FieldName, FieldValue>
  {
    map[Summary := Text(summary), Project := KeyRef(projectKey),
        Description := Text(description), IssueType := NameRef(issueTypeName)]
  }

  /** The event fields the handler reads. */
  datatype JiraEvent = JiraEvent(
    configRuleName: string,
    ssmParameterName: string,
    jiraUsername: string,
    jiraUrl: string,
    issueDescription: string,
    issueSummary: string,
    projectKey: string,
    issueTypeName: string,
    priorityName: string,
    assigneeName: string,
    dueDate: string)

  /** The stripped event values and lookup text the issue is built from. */
  datatype IssueInput = IssueInput(
    summary: string,
    projectKey: string,
    description: string,
    issueTypeName: string,
    priority: string,
    assignee: string,
    dueDate: string)

  /** Every value `.strip()`ped; the summary is the issue summary, `-` and
      the resource id. */
  function InputOf(event: JiraEvent, resourceInfo: string): (r: IssueInput)
    ensures Strings.Strip(event.issueSummary) + "-" <= r.summary
    ensures Strings.NoEdgeSpace(r.projectKey) && Strings.NoEdgeSpace(r.description)
      && Strings.NoEdgeSpace(r.issueTypeName) && Strings.NoEdgeSpace(r.priority)
      && Strings.NoEdgeSpace(r.assignee) && Strings.NoEdgeSpace(r.dueDate)
    ensures r.priority == "" <==> forall k :: 0 <= k < |event.priorityName| ==> Strings.IsSpace(event.priorityName[k])
    ensures r.assignee == "" <==> forall k :: 0 <= k < |event.assigneeName| ==> Strings.IsSpace(event.assigneeName[k])
    ensures r.dueDate == "" <==> forall k :: 0 <= k < |event.dueDate| ==> Strings.IsSpace(event.dueDate[k])
  {
    Strings.StripEmpty(event.priorityName);
    Strings.StripEmpty(event.assigneeName);
    Strings.StripEmpty(event.dueDate);
    IssueInput(
      Strings.Strip(event.issueSummary) + "-" + Strings.Strip(event.issueDescription),
      Strings.Strip(event.projectKey),
      Strings.Strip(resourceInfo),
      Strings.Strip(event.issueTypeName),
      Strings.Strip(event.priorityName),
      Strings.Strip(event.assigneeName),
      Strings.Strip(event.dueDate))
  }

  /** The fields of the issue the handler posts: the four fixed ones, and
      each optional one only when its value is not empty. */
  function IssueFields(input: IssueInput): (f: map<FieldName, FieldValue>)
    ensures Summary in f && f[Summary] == Text(input.summary)
    ensures Project in f && f[Project] == KeyRef(input.projectKey)
    ensures Description in f && f[Description] == Text(input.description)
    ensures IssueType in f && f[IssueType] == NameRef(input.issueTypeName)
    ensures (Priority in f <==> input.priority != "")
      && (Priority in f ==> f[Priority] == NameRef(input.priority))
    ensures (Assignee in f <==> input.assignee != "")
      && (Assignee in f ==> f[Assignee] == NameRef(input.assignee))
    ensures (DueDate in f <==> input.dueDate != "")
      && (DueDate in f ==> f[DueDate] == Text(input.dueDate))
  {
    var base := BaseFields(input.summary, input.projectKey, input.description, input.issueTypeName);
    var withPriority := if input.priority != "" then base[Priority := NameRef(input.priority)] else base;
    var withAssignee := if input.assignee != "" then withPriority[Assignee := NameRef(input.assignee)] else withPriority;
    if input.dueDate != "" then withAssignee[DueDate := Text(input.dueDate)] else withAssignee
  }

  /** `s` holds only whitespace. */
  predicate Blank(s: string)
  {
    forall k :: 0 <= k < |s| ==> Strings.IsSpace(s[k])
  }

  /** An optional field is set exactly when its event value is not blank. */
  lemma OptionalFieldsUnlessBlank(event: JiraEvent, resourceInfo: string)
    ensures var f := IssueFields(InputOf(event, resourceInfo));
      && (Priority in f <==> !Blank(event.priorityName))
      && (Assignee in f <==> !Blank(event.assigneeName))
      && (DueDate in f <==> !Blank(event.dueDate))
  {
    Strings.StripEmpty(event.priorityName);
    Strings.StripEmpty(event.assigneeName);
    Strings.StripEmpty(event.dueDate);
  }

  /** Jira's answer to the POST. */
  datatype JiraResponse = JiraResponse(statusCode: nat, issueKey: string)

  /** `response.ok` of `requests`: false exactly when `raise_for_status`
      would raise, for a client (4xx) or server (5xx) error code. */
  predicate Ok(response: JiraResponse)
  {
    !(400 <= response.statusCode < 600)
  }

  /** The end of the handler: the error raised for an answer that is not ok,
      or the created issue key. */
  function JiraOutcome(response: JiraResponse): (r: Result<string, string>)
    ensures r.Failure? <==> 400 <= response.statusCode < 600
    ensures r.Success? ==> r.value == response.issueKey
    ensures r.Failure? ==> r.error == "Received error with status code " + Strings.NatToString(response.statusCode) + " from Jira"
  {
    if !Ok(response) then
      Failure("Received error with status code " + Strings.NatToString(response.statusCode) + " from Jira")
    else Success(response.issueKey)
  }

  /** The issue built from the stripped values: the four fixed fields, then
      each optional one added when its value is not empty. */
  method BuildIssue(input: IssueInput) returns (issue: Issue)
    ensures fresh(issue)
    ensures issue.fields == IssueFields(input)
  {
    issue := new Issue(input.summary, input.projectKey, input.description, input.issueTypeName);
    if input.priority != "" {
      issue.AddPriority(input.priority);
    }
    if input.assignee != "" {
      issue.AddAssignee(input.assignee);
    }
    if input.dueDate != "" {
      issue.AddDueDate(input.dueDate);
    }
  }

  /** `handler`: the resource types for the tagging API, the issue posted to
      Jira and the outcome. `configRuleResourceTypes` is the rule's scope,
      `pages` the answers of `get_resources` and `response` Jira's answer. */
  method Handler(event: JiraEvent, configRuleResourceTypes: seq<string>, pages: seq<TaggingPage>, response: JiraResponse)
    returns (resourceTypes: seq<string>, issue: Issue, outcome: Result<string, string>)
    requires HasFinalPage(pages)
    ensures |resourceTypes| == |SupportedTypes(configRuleResourceTypes)|
    ensures forall i :: 0 <= i < |resourceTypes| ==>
      resourceTypes[i] == ConvertType(SupportedTypes(configRuleResourceTypes)[i])
    ensures fresh(issue)
    ensures issue.fields == IssueFields(InputOf(event,
      Blocks(Matching(AllMappings(pages[..FinalPageIndex(pages) + 1]), Strings.Strip(event.issueDescription)))))
    ensures outcome == JiraOutcome(response)
  {
    resourceTypes := ConvertResourceTypes(configRuleResourceTypes);
    var resourceId := Strings.Strip(event.issueDescription);
    var resourceInfoDescrip := Lookup(resourceId, pages);
    issue := BuildIssue(InputOf(event, resourceInfoDescrip));
    outcome := JiraOutcome(response);
  }
}
