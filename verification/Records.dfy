/** The records the console stores and exchanges with its agents. Numbers are mathematical
    integers; instants are seconds. */
module Records {
  import opened Text

  // ----- agents and what they report -----

  datatype Agent = Agent(
    id: string, hostname: string, tokenSHA256: string, enrolledAt: int, agentVersion: string,
    lastSeenAt: int, mode: string, revoked: bool, revokedAt: int)

  datatype ReportDisk = ReportDisk(path: string, apparentBytes: int, allocatedBytes: int, missing: bool)

  datatype ReportFenced = ReportFenced(fenceID: string, state: string, atUnix: int)

  datatype ReportDomain = ReportDomain(
    name: string, active: bool, role: string, status: string,
    replicaSource: string, replicaTargets: seq<string>,
    lastPromotedAt: string, verifyState: string, replicaIncomplete: string,
    fenced: Option<ReportFenced>, restorePoints: seq<string>, disks: seq<ReportDisk>)

  datatype Report = Report(
    reportedAtUnix: int, agentVersion: string, hostname: string, mode: string, domains: seq<ReportDomain>)

  // ----- schedules -----

  datatype SyncProfile = SyncProfile(
    compress: string, compressLevel: string, netBuffer: string, useSSH: bool, ioDepth: int,
    noChecksum: bool, verify: string, verifyFailureReinit: bool, reinitAfterFailures: int,
    targetDiskPath: string, retention: string, timestampToleranceSec: int,
    sourcePortRange: string, targetPortRange: string)

  datatype ScheduleEntry = ScheduleEntry(
    vm: string, intervalSeconds: int, enabled: bool, profile: SyncProfile, targetHost: string,
    verifyIntervalSeconds: int, verifyDays: string, verifyWindow: string, template: string,
    shutdownTimeoutSec: int)

  // ----- settings, and the configuration an agent polls -----

  datatype ScheduleTemplate = ScheduleTemplate(
    name: string, intervalSeconds: int, verifyIntervalSeconds: int, verifyDays: string, verifyWindow: string,
    profile: SyncProfile, enabled: bool)

  datatype Settings = Settings(
    reportIntervalSeconds: int, pollWaitSeconds: int, maxConcurrentSyncs: int,
    targetReplicationSlots: map<string, int>, shutdownTimeoutSec: int, templates: map<string, ScheduleTemplate>)

  datatype AgentConfig = AgentConfig(
    reportIntervalSeconds: int, pollWaitSeconds: int, cadenceSeconds: map<string, int>,
    schedule: seq<ScheduleEntry>, templates: map<string, ScheduleTemplate>, operations: seq<Operation>,
    maxConcurrentSyncs: int, targetReplicationSlots: map<string, int>, shutdownTimeoutSec: int)

  // ----- one-shot operations -----

  const OP_PROMOTE := "promote"
  const OP_INVERT := "invert"
  const OP_SHUTDOWN := "shutdown-domain"
  const OP_SET_ROLE := "set-role"
  const OP_RESTORE := "restore"
  const OP_REINIT := "reinit"
  const OP_FORCE_CLEAN := "force-clean"

  const STATE_RUNNING := "running"
  const STATE_DONE := "done"
  const STATE_UNKNOWN := "unknown"

  const ROLE_SOURCE := "source"
  const ROLE_TARGET := "target"
  const ROLE_PROMOTED := "promoted"
  const ROLE_PAUSED := "paused"
  const ROLE_FENCED := "fenced"

  /** How long an operation stays executable: fifteen minutes. */
  const OPERATION_TTL := 900

  datatype Operation = Operation(
    id: string, kind: string, vm: string, peerHost: string, peerVM: string, mode: string,
    startVM: bool, force: bool, armFence: bool, shutdownTimeoutSec: int, tag: string,
    actionID: string, createdAtUnix: int, createdBy: string, notAfterUnix: int)

  datatype OperationResult = OperationResult(
    id: string, kind: string, vm: string, state: string,
    startedAtUnix: int, finishedAtUnix: int, exitCode: int, error: string, logTail: string)
  {
    /** An outcome rather than progress: every state but "running", known or not. */
    predicate Terminal() { state != STATE_RUNNING }
  }

  datatype OperationRecord = OperationRecord(
    op: Operation, agentID: string, auditID: string, result: Option<OperationResult>,
    followUpDone: bool, cancelledAtUnix: int, cancelledBy: string)
  {
    /** Still published to its agent. */
    predicate Pending() {
      cancelledAtUnix == 0 && (result.None? || !result.value.Terminal())
    }

    /** The agent has reported something about it. */
    predicate Started() { result.Some? }
  }

  // ----- the audit log -----

  datatype AuditEntry = AuditEntry(
    id: string, atUnix: int, actor: string, action: string, target: string, detail: string,
    outcome: string, doneUnix: int)
}
