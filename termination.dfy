/** The change-triggered AWS Config rule that asks whether an EC2 instance has
    termination protection or an RDS DB instance has deletion protection
    (ised-config-termination/index.js). The EC2 and RDS attribute values and
    the answer of `putEvaluations` are inputs. */
module TerminationRule {
  import opened Wrappers

  const OVERSIZED_NOTIFICATION := "OversizedConfigurationItemChangeNotification"
  const EC2_INSTANCE_TYPE := "AWS::EC2::Instance"
  const RDS_INSTANCE_TYPE := "AWS::RDS::DBInstance"
  /** What reading `DeletionProtection` of a missing first DB instance throws. */
  const NO_DB_INSTANCE_ERROR := "TypeError: Cannot read properties of undefined (reading 'DeletionProtection')"

  /** A JavaScript value as far as truthiness and `===` see it; an object is
      told apart from other objects by its identity. */
  datatype Js = Undefined | Null | Bool(b: bool) | Num(n: int) | Str(s: string) | Obj(identity: nat)

  /** JavaScript's `ToBoolean` (the number NaN is not modelled). */
  predicate Truthy(v: Js)
  {
    match v
    case Undefined => false
    case Null => false
    case Bool(b) => b
    case Num(n) => n != 0
    case Str(s) => s != ""
    case Obj(_) => true
  }

  function NotDefined(referenceName: string): string
  {
    "Error: " + referenceName + " is not defined"
  }

  /** `checkDefined`: the reference itself, or the error it throws. */
  function CheckDefined(reference: Js, referenceName: string): (r: Result<Js, string>)
    ensures r.Failure? <==> reference in {Undefined, Null, Bool(false), Num(0), Str("")}
    ensures r.Success? ==> r.value == reference
    ensures r.Failure? ==> r.error == NotDefined(referenceName)
  {
    if Truthy(reference) then Success(reference) else Failure(NotDefined(referenceName))
  }

  function IsOverSizedChangeNotification(messageType: Js): (r: Result<bool, string>)
    ensures r.Failure? <==> !Truthy(messageType)
    ensures r.Failure? ==> r.error == NotDefined("messageType")
    ensures r.Success? ==> (r.value <==> messageType == Str(OVERSIZED_NOTIFICATION))
  {
    match CheckDefined(messageType, "messageType")
    case Failure(e) => Failure(e)
    case Success(_) => Success(messageType == Str(OVERSIZED_NOTIFICATION))
  }

  /** A configuration item in the model of the invoking event. */
  datatype ConfigurationItem = ConfigurationItem(
    resourceType: string,
    resourceId: string,
    configurationItemStatus: Js,
    configurationItemCaptureTime: Js,
    configuration: Js)

  /** The parsed `invokingEvent`; an absent `configurationItem` is None. */
  datatype InvokingEvent = InvokingEvent(
    messageType: Js,
    configurationItem: Option<ConfigurationItem>,
    configurationItemSummary: Js)

  datatype Event = Event(invokingEvent: InvokingEvent, eventLeftScope: Js, resultToken: string)

  /** Where the configuration item comes from: the event itself, or the
      resource history that an oversized notification must be completed from. */
  datatype ItemSource = Inline(item: ConfigurationItem) | FromHistory

  /** `getConfigurationItem`, up to the history fetch of the oversized case. */
  function GetConfigurationItem(invokingEvent: InvokingEvent): (r: Result<ItemSource, string>)
    ensures !Truthy(invokingEvent.messageType) ==> r == Failure(NotDefined("messageType"))
    ensures r == Success(FromHistory) <==>
      invokingEvent.messageType == Str(OVERSIZED_NOTIFICATION) && Truthy(invokingEvent.configurationItemSummary)
    ensures r.Success? && r.value.Inline? ==>
      invokingEvent.messageType != Str(OVERSIZED_NOTIFICATION) && invokingEvent.configurationItem == Some(r.value.item)
    ensures Truthy(invokingEvent.messageType) && invokingEvent.messageType != Str(OVERSIZED_NOTIFICATION) ==>
      (r.Failure? <==> invokingEvent.configurationItem.None?)
    ensures invokingEvent.messageType == Str(OVERSIZED_NOTIFICATION) && !Truthy(invokingEvent.configurationItemSummary) ==>
      r == Failure(NotDefined("configurationItemSummary"))
    ensures Truthy(invokingEvent.messageType) && invokingEvent.messageType != Str(OVERSIZED_NOTIFICATION)
            && invokingEvent.configurationItem.None? ==>
      r == Failure(NotDefined("configurationItem"))
  {
    match IsOverSizedChangeNotification(invokingEvent.messageType)
    case Failure(e) => Failure(e)
    case Success(oversized) =>
      if oversized then
        match CheckDefined(invokingEvent.configurationItemSummary, "configurationItemSummary")
        case Failure(e) => Failure(e)
        case Success(_) => Success(FromHistory)
      else if invokingEvent.configurationItem.None? then Failure(NotDefined("configurationItem"))
      else Success(Inline(invokingEvent.configurationItem.value))
  }

  /** One relationship of a configuration item as the history API gives it. */
  datatype Relationship = Relationship(
    relationshipName: Js,
    name: Js,
    resourceId: Js,
    resourceName: Js,
    resourceType: Js)

  /** Each relationship with `name` set to its `relationshipName`: the count
      and every other field are kept. */
  function RenameRelationships(rels: seq<Relationship>): (r: seq<Relationship>)
    ensures |r| == |rels|
    ensures forall k :: 0 <= k < |rels| ==> r[k] == rels[k].(name := rels[k].relationshipName)
  {
    if |rels| == 0 then []
    else [rels[0].(name := rels[0].relationshipName)] + RenameRelationships(rels[1..])
  }

  /** A configuration item in the model of the history API, converted in
      place to the field names of the invocation model. */
  class ApiConfigurationItem {
    var accountId: Js
    var arn: Js
    var configurationItemMD5Hash: Js
    var version: Js
    var awsAccountId: Js
    var ARN: Js
    var configurationStateMd5Hash: Js
    var configurationItemVersion: Js
    /** None when the object has no own `relationships` property. */
    var relationships: Option<seq<Relationship>>

    constructor (accountId: Js, arn: Js, configurationItemMD5Hash: Js, version: Js, relationships: Option<seq<Relationship>>)
      ensures this.accountId == accountId && this.arn == arn
      ensures this.configurationItemMD5Hash == configurationItemMD5Hash && this.version == version
      ensures this.relationships == relationships
      ensures awsAccountId == Undefined && ARN == Undefined
      ensures configurationStateMd5Hash == Undefined && configurationItemVersion == Undefined
    {
      this.accountId := accountId;
      this.arn := arn;
      this.configurationItemMD5Hash := configurationItemMD5Hash;
      this.version := version;
      this.relationships := relationships;
      awsAccountId, ARN := Undefined, Undefined;
      configurationStateMd5Hash, configurationItemVersion := Undefined, Undefined;
    }

    /** `convertApiConfiguration`: copies the four renamed fields and names
        every relationship after its `relationshipName`; nothing else changes. */
    method ConvertApiConfiguration()
      modifies this`awsAccountId, this`ARN, this`configurationStateMd5Hash, this`configurationItemVersion, this`relationships
      ensures awsAccountId == accountId && ARN == arn
      ensures configurationStateMd5Hash == configurationItemMD5Hash && configurationItemVersion == version
      ensures relationships == match old(relationships)
        case None => None
        case Some(rels) => Some(RenameRelationships(rels))
    {
      awsAccountId := accountId;
      ARN := arn;
      configurationStateMd5Hash := configurationItemMD5Hash;
      configurationItemVersion := version;
      if relationships.Some? {
        ghost var original := relationships.value;
        var rels := relationships.value;
        var i := 0;
        while i < |rels|
          invariant |rels| == |original|
          invariant 0 <= i <= |rels|
          invariant forall k :: 0 <= k < i ==> rels[k] == original[k].(name := original[k].relationshipName)
          invariant forall k :: i <= k < |rels| ==> rels[k] == original[k]
        {
          rels := rels[i := rels[i].(name := rels[i].relationshipName)];
          i := i + 1;
        }
        assert rels == RenameRelationships(original);
        relationships := Some(rels);
      }
    }
  }

  /** `isApplicable`: the resource still exists and is in the rule's scope. */
  predicate IsApplicable(item: ConfigurationItem, event: Event)
  {
    (item.configurationItemStatus == Str("OK") || item.configurationItemStatus == Str("ResourceDiscovered"))
    && event.eventLeftScope == Bool(false)
  }

  datatype Compliance = Compliant | NonCompliant | NotApplicable

  /** How a call of `evaluateChangeNotificationCompliance` ends: it throws
      before returning a promise, or the promise it returns rejects or
      resolves to a verdict. */
  datatype ComplianceCall = Throws(error: string) | Rejects(error: string) | Resolves(compliance: Compliance)

  /** `evaluateChangeNotificationCompliance`, given the `Value` of the
      instance's `DisableApiTermination` attribute and the
      `DeletionProtection` of each DB instance RDS describes. */
  function EvaluateChangeNotificationCompliance(item: ConfigurationItem, disableApiTermination: Js, deletionProtection: seq<Js>): (r: ComplianceCall)
    ensures r.Throws? <==> !Truthy(item.configuration)
    ensures r.Throws? ==> r.error == NotDefined("configurationItem.configuration")
    ensures r.Rejects? <==>
      Truthy(item.configuration) && item.resourceType == RDS_INSTANCE_TYPE && |deletionProtection| == 0
    ensures r.Rejects? ==> r.error == NO_DB_INSTANCE_ERROR
    ensures r == Resolves(NotApplicable) <==>
      Truthy(item.configuration) && item.resourceType != EC2_INSTANCE_TYPE && item.resourceType != RDS_INSTANCE_TYPE
    ensures r == Resolves(Compliant) <==> (Truthy(item.configuration) &&
      ((item.resourceType == EC2_INSTANCE_TYPE && disableApiTermination == Bool(true)) ||
       (item.resourceType == RDS_INSTANCE_TYPE && |deletionProtection| > 0 && deletionProtection[0] == Bool(true))))
    ensures r == Resolves(NonCompliant) <==> (Truthy(item.configuration) &&
      ((item.resourceType == EC2_INSTANCE_TYPE && disableApiTermination != Bool(true)) ||
       (item.resourceType == RDS_INSTANCE_TYPE && |deletionProtection| > 0 && deletionProtection[0] != Bool(true))))
  {
    match CheckDefined(item.configuration, "configurationItem.configuration")
    case Failure(e) => Throws(e)
    case Success(_) =>
      if item.resourceType == EC2_INSTANCE_TYPE then
        if disableApiTermination == Bool(true) then Resolves(Compliant) else Resolves(NonCompliant)
      else if item.resourceType == RDS_INSTANCE_TYPE then
        if |deletionProtection| == 0 then Rejects(NO_DB_INSTANCE_ERROR)
        else if deletionProtection[0] == Bool(true) then Resolves(Compliant) else Resolves(NonCompliant)
      else Resolves(NotApplicable)
  }

  datatype Evaluation = Evaluation(
    complianceResourceType: string,
    complianceResourceId: string,
    complianceType: Compliance,
    orderingTimestamp: Js)

  datatype PutEvaluationsRequest = PutEvaluationsRequest(evaluations: seq<Evaluation>, resultToken: string)

  /** The data `putEvaluations` answers with. */
  datatype PutEvaluationsResponse = PutEvaluationsResponse(failedEvaluations: seq<Evaluation>)

  /** How the handler ends its Lambda callback after submission. */
  datatype CallbackResult =
    | CallbackError(error: string)
    | CallbackFailure(data: PutEvaluationsResponse)
    | CallbackSuccess(data: PutEvaluationsResponse)

  /** The `putEvaluations` callback: an error, then a failure carrying the
      (serialised) data when some evaluation was not accepted, else success. */
  function SubmissionOutcome(answer: Result<PutEvaluationsResponse, string>): (r: CallbackResult)
    ensures r.CallbackError? <==> answer.Failure?
    ensures r.CallbackError? ==> r.error == answer.error
    ensures r.CallbackFailure? <==> answer.Success? && |answer.value.failedEvaluations| > 0
    ensures r.CallbackSuccess? <==> answer.Success? && answer.value.failedEvaluations == []
    ensures !r.CallbackError? ==> r.data == answer.value
  {
    match answer
    case Failure(e) => CallbackError(e)
    case Success(data) =>
      if |data.failedEvaluations| > 0 then CallbackFailure(data) else CallbackSuccess(data)
  }

  /** How one invocation of the handler ends. */
  datatype HandlerResult =
    | Thrown(error: string)          // an exception thrown by checkDefined
    | HistoryNeeded                  // oversized notification: history fetch not modelled
    | NotEvaluated                   // not applicable: nothing submitted, callback not called
    | Rejected(error: string)        // the compliance promise rejected
    | Submitted(request: PutEvaluationsRequest, outcome: CallbackResult)

  /** The event carries its own configuration item (not an oversized
      notification) and that item is applicable. */
  predicate InlineApplicable(event: Event)
  {
    && Truthy(event.invokingEvent.messageType)
    && event.invokingEvent.messageType != Str(OVERSIZED_NOTIFICATION)
    && event.invokingEvent.configurationItem.Some?
    && IsApplicable(event.invokingEvent.configurationItem.value, event)
  }

  /** The handler for one event, given the EC2/RDS attribute values and the
      answer of `putEvaluations`. */
  function Handler(event: Event, disableApiTermination: Js, deletionProtection: seq<Js>,
                   answer: Result<PutEvaluationsResponse, string>): (r: HandlerResult)
    ensures !Truthy(event.invokingEvent.messageType) ==> r == Thrown(NotDefined("messageType"))
    ensures r.HistoryNeeded? <==> GetConfigurationItem(event.invokingEvent) == Success(FromHistory)
    ensures r.NotEvaluated? <==> exists item :: GetConfigurationItem(event.invokingEvent) == Success(Inline(item)) && !IsApplicable(item, event)
    ensures r.Submitted? ==> event.invokingEvent.configurationItem.Some?
    ensures r.Submitted? ==>
      var item := event.invokingEvent.configurationItem.value;
      && IsApplicable(item, event)
      && r.request.resultToken == event.resultToken
      && |r.request.evaluations| == 1
      && r.request.evaluations[0].complianceResourceType == item.resourceType
      && r.request.evaluations[0].complianceResourceId == item.resourceId
      && r.request.evaluations[0].orderingTimestamp == item.configurationItemCaptureTime
      && EvaluateChangeNotificationCompliance(item, disableApiTermination, deletionProtection)
         == Resolves(r.request.evaluations[0].complianceType)
    ensures InlineApplicable(event) ==>
      var call := EvaluateChangeNotificationCompliance(event.invokingEvent.configurationItem.value,
                                                       disableApiTermination, deletionProtection);
      && (r.Submitted? <==> call.Resolves?)
      && (r.Thrown? <==> call.Throws?)
      && (r.Rejected? <==> call.Rejects?)
      && (!r.Submitted? ==> r.error == call.error)
    ensures GetConfigurationItem(event.invokingEvent).Failure? ==>
      r == Thrown(GetConfigurationItem(event.invokingEvent).error)
    ensures r.Submitted? ==> InlineApplicable(event)
    ensures r.Submitted? ==> r.outcome == SubmissionOutcome(answer)
  {
    match GetConfigurationItem(event.invokingEvent)
    case Failure(e) => Thrown(e)
    case Success(FromHistory) => HistoryNeeded
    case Success(Inline(item)) =>
      if !IsApplicable(item, event) then NotEvaluated
      else
        match EvaluateChangeNotificationCompliance(item, disableApiTermination, deletionProtection)
        case Throws(e) => Thrown(e)
        case Rejects(e) => Rejected(e)
        case Resolves(compliance) =>
          var evaluation := Evaluation(item.resourceType, item.resourceId, compliance, item.configurationItemCaptureTime);
          Submitted(PutEvaluationsRequest([evaluation], event.resultToken), SubmissionOutcome(answer))
  }
}
