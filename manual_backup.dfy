/** The periodic AWS Config rule that reports every RDS DB instance without a
    manual DB snapshot (ised-config-manual-backup/index.js). The two RDS
    listings and the clock are inputs; the result is the request handed to
    `putEvaluations`, or the message returned for a trigger that is ignored. */
module ManualBackup {
  import opened Wrappers
  import opened Sequences

  const SCHEDULED_NOTIFICATION := "ScheduledNotification"
  const IGNORING_MESSAGE := "Invoked for a notification other than Scheduled Notification... Ignoring."
  const DB_INSTANCE_TYPE := "AWS::RDS::DBInstance"
  const NON_COMPLIANT := "NON_COMPLIANT"

  /** The parsed `invokingEvent`; `messageType` is None when the field is absent. */
  datatype InvokingEvent = InvokingEvent(messageType: Option<string>)

  /** The Lambda event: its parsed invoking event and the result token. */
  datatype Event = Event(invokingEvent: InvokingEvent, resultToken: string)

  /** An element of `DBInstances` or `DBSnapshots`: only its instance
      identifier is read. */
  datatype DBObject = DBObject(dbInstanceIdentifier: string)

  /** One record of the `Evaluations` array; `orderingTimestamp` is the time
      of the run in milliseconds. */
  datatype Evaluation = Evaluation(
    complianceResourceType: string,
    complianceResourceId: string,
    complianceType: string,
    orderingTimestamp: int)

  datatype PutEvaluationsRequest = PutEvaluationsRequest(evaluations: seq<Evaluation>, resultToken: string)

  /** What the handler resolves to before any call to AWS Config. */
  datatype HandlerOutcome = Ignored(message: string) | Submit(request: PutEvaluationsRequest)

  predicate IsScheduledNotification(invokingEvent: InvokingEvent)
  {
    invokingEvent.messageType == Some(SCHEDULED_NOTIFICATION)
  }

  /** The `DBInstanceIdentifier` of each object, in order. */
  function ExtractDBInstanceIdentifiers(objs: seq<DBObject>): (r: seq<string>)
    ensures |r| == |objs|
    ensures forall i :: 0 <= i < |objs| ==> r[i] == objs[i].dbInstanceIdentifier
  {
    if |objs| == 0 then [] else [objs[0].dbInstanceIdentifier] + ExtractDBInstanceIdentifiers(objs[1..])
  }

  /** The instance identifiers that no manual snapshot names: JavaScript's
      `filter` with `indexOf(...) === -1`. */
  function FindDBInstanceIdentifiersWithNoManualSnapshots(instanceIds: seq<string>, snapshotIds: seq<string>): (r: seq<string>)
    ensures |r| <= |instanceIds|
    ensures forall x :: x in r <==> x in instanceIds && x !in snapshotIds
    ensures IsSubsequence(r, instanceIds)
  {
    if |instanceIds| == 0 then []
    else
      var rest := FindDBInstanceIdentifiersWithNoManualSnapshots(instanceIds[1..], snapshotIds);
      assert instanceIds == [instanceIds[0]] + instanceIds[1..];
      if instanceIds[0] in snapshotIds then rest else [instanceIds[0]] + rest
  }

  /** Duplicates are kept: each identifier without a snapshot occurs in the
      result as often as among the instances, the others not at all. */
  lemma {:induction false} NoManualSnapshotsKeepsMultiplicity(instanceIds: seq<string>, snapshotIds: seq<string>)
    ensures forall x :: (multiset(FindDBInstanceIdentifiersWithNoManualSnapshots(instanceIds, snapshotIds))[x]
      == if x in snapshotIds then 0 else multiset(instanceIds)[x])
  {
    if |instanceIds| > 0 {
      NoManualSnapshotsKeepsMultiplicity(instanceIds[1..], snapshotIds);
      assert instanceIds == [instanceIds[0]] + instanceIds[1..];
      assert multiset(instanceIds) == multiset{instanceIds[0]} + multiset(instanceIds[1..]);
    }
  }

  /** An empty snapshot list filters nothing out. */
  lemma {:induction false} NoSnapshotsKeepsAll(instanceIds: seq<string>)
    ensures FindDBInstanceIdentifiersWithNoManualSnapshots(instanceIds, []) == instanceIds
  {
    if |instanceIds| > 0 {
      NoSnapshotsKeepsAll(instanceIds[1..]);
      assert instanceIds == [instanceIds[0]] + instanceIds[1..];
    }
  }

  /** One NON_COMPLIANT evaluation of type AWS::RDS::DBInstance per
      identifier, in order. */
  function BuildEvaluations(ids: seq<string>, now: int): (r: seq<Evaluation>)
    ensures |r| == |ids|
    ensures forall i :: 0 <= i < |ids| ==>
      r[i] == Evaluation(DB_INSTANCE_TYPE, ids[i], NON_COMPLIANT, now)
  {
    if |ids| == 0 then [] else [Evaluation(DB_INSTANCE_TYPE, ids[0], NON_COMPLIANT, now)] + BuildEvaluations(ids[1..], now)
  }

  /** The `ComplianceResourceId` of each evaluation, in order. */
  function ResourceIds(evaluations: seq<Evaluation>): seq<string>
  {
    seq(|evaluations|, i requires 0 <= i < |evaluations| => evaluations[i].complianceResourceId)
  }

  /** The handler, given the two RDS listings and the time of the run. Only
      NON_COMPLIANT records are produced: an instance with a manual snapshot
      is left out of the request rather than reported COMPLIANT. */
  function Handler(event: Event, dbInstances: seq<DBObject>, dbSnapshots: seq<DBObject>, now: int): (r: HandlerOutcome)
    ensures r.Ignored? <==> event.invokingEvent.messageType != Some(SCHEDULED_NOTIFICATION)
    ensures r.Ignored? ==> r.message == IGNORING_MESSAGE
    ensures r.Submit? ==> r.request.resultToken == event.resultToken
    ensures r.Submit? ==> |r.request.evaluations| <= |dbInstances|
    ensures r.Submit? ==> forall e :: e in r.request.evaluations ==>
      e.complianceResourceType == DB_INSTANCE_TYPE && e.complianceType == NON_COMPLIANT && e.orderingTimestamp == now
    ensures r.Submit? ==> IsSubsequence(ResourceIds(r.request.evaluations), ExtractDBInstanceIdentifiers(dbInstances))
    ensures r.Submit? ==> forall id :: id in ResourceIds(r.request.evaluations) <==>
      id in ExtractDBInstanceIdentifiers(dbInstances) && id !in ExtractDBInstanceIdentifiers(dbSnapshots)
    ensures r.Submit? ==> ResourceIds(r.request.evaluations) == FindDBInstanceIdentifiersWithNoManualSnapshots(
      ExtractDBInstanceIdentifiers(dbInstances), ExtractDBInstanceIdentifiers(dbSnapshots))
    ensures r.Submit? ==> forall id :: (multiset(ResourceIds(r.request.evaluations))[id]
      == if id in ExtractDBInstanceIdentifiers(dbSnapshots) then 0 else multiset(ExtractDBInstanceIdentifiers(dbInstances))[id])
  {
    if !IsScheduledNotification(event.invokingEvent) then Ignored(IGNORING_MESSAGE)
    else
      var instanceIds := ExtractDBInstanceIdentifiers(dbInstances);
      var snapshotIds := ExtractDBInstanceIdentifiers(dbSnapshots);
      var ids := FindDBInstanceIdentifiersWithNoManualSnapshots(instanceIds, snapshotIds);
      var evaluations := BuildEvaluations(ids, now);
      assert ResourceIds(evaluations) == ids;
      NoManualSnapshotsKeepsMultiplicity(instanceIds, snapshotIds);
      Submit(PutEvaluationsRequest(evaluations, event.resultToken))
  }

}
