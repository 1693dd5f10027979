/** Task events as the projector decodes them: the envelope, and by event type what the payload says. */
module Events {
  import opened Common

  /** An amount in a usage or budget object; JSON null is an unknown amount. */
  datatype Amount = Null | Number(n: int) | NotNumber(text: string)

  type Amounts = map<string, Amount>

  /** What node.status_changed says about the node besides its status; absent fields are empty or None. */
  datatype NodeDetails = NodeDetails(
    frozen: Option<bool>, nodeType: string, title: string, workspaceAccess: string, ownerProfile: string,
    dependsOn: Option<seq<string>>, attemptCount: Option<int>, currentAttemptId: string, parentNodeId: string,
    sopStep: Option<string>)

  /**
   * The event type with its decoded payload. A payload that does not decode is `Other`, except for approvals: their
   * rows are written from a typed decoding (`typed` says whether it succeeds) and the pending list from an untyped one.
   */
  datatype Change =
    | NodeStatusChanged(nodeId: string, toStatus: string, reason: string, details: NodeDetails)
    | AttemptStarted(attemptId: string, startedNode: string, startedNo: int, startedProfile: string)
    | AttemptParked(attemptId: string, parkReason: string)
    | AttemptResumed(attemptId: string, activityAttempt: int, stateVersion: int)
    | AttemptFinished(attemptId: string, node: string, no: int, profile: string, outcome: string,
                      failure: Option<string>, usage: Option<string>)
    | ApprovalRequested(approvalId: string, typed: bool)
    | ApprovalDecided(approvalId: string, decision: string, typed: bool)
    | BudgetGranted(delta: Amounts)
    | UsageRecorded(delta: Amounts)
    | Other

  datatype Event = Event(
    id: string, tenant: string, task: string, durable: bool, number: nat, follows: nat, occurred: int,
    entityKind: string, entityId: string, version: int, change: Change)

  predicate HasPrefix(s: string, prefix: string) {
    prefix <= s
  }
}
