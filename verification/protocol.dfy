/**
 The slice of the identify protocol types that the fake identify UI reads or
 stores. Each record keeps only the fields the recorder touches; Go pointers
 that may be nil become `Option`, and Go's nil maps are represented by `None`
 wherever the difference between a nil map and an empty one is observable.
 */
module Protocol {

  /** A value that may be absent: a nil pointer or a nil map in the source. */
  datatype Option<+T> = None | Some(value: T)

  type Byte = bv8

  /** A parsed PGP fingerprint, the key of the recorder's `Keys` map. */
  datatype Fingerprint = Fingerprint(bytes: seq<Byte>)

  /** The user announced by `LaunchNetworkChecks`. */
  datatype User = User(uid: string, username: string)

  /** The user the engine hands back as its result; the profile check compares
      the announced user against the uid and name taken from it. */
  datatype UserSummary = UserSummary(uid: string, name: string)

  /** A claim of control over a remote account: proof-type key and claimed value. */
  datatype RemoteProof = RemoteProof(key: string, value: string)

  /** Verification state of one proof; states other than the named ones keep their code. */
  datatype ProofState = Ok | TempFailure | PermFailure | Superseded | OtherState(code: int)

  /** Status code of one proof check. */
  datatype ProofStatus = StatusOk | BaseHardError | OtherStatus(code: int)

  datatype ProofResult = ProofResult(state: ProofState, status: ProofStatus, desc: string)

  /** The outcome of checking one claim, as delivered to the UI session. */
  datatype LinkCheckResult = LinkCheckResult(proofResult: ProofResult, breaksTracking: bool)

  /** How the current verification differs from a previously stored track. */
  datatype TrackDiff = TrackDiff(diffType: int, displayMarkup: string)

  /** A key to display: raw fingerprint bytes and an optional diff. */
  datatype IdentifyKey = IdentifyKey(pgpFingerprint: seq<Byte>, trackDiff: Option<TrackDiff>)

  /** Policy flags that steer the confirmation step. */
  datatype TrackOptions = TrackOptions(bypassConfirm: bool, expiringLocal: bool)

  /** The aggregated outcome handed to `Confirm`. */
  datatype IdentifyOutcome = IdentifyOutcome(username: string, trackOptions: TrackOptions)

  datatype ConfirmResult = ConfirmResult(identityConfirmed: bool, remoteConfirmed: bool)

  /** An opaque track token; the empty string is Go's zero value. */
  type TrackToken = string

  /** The argument of `DisplayTLFCreateWithInvite`, reduced to what identifies it. */
  datatype TlfInviteArg = TlfInviteArg(folderName: string, assertion: string)

  /** The result the engine delivers for a proof type it has no checker for. */
  const NotImplemented: ProofResult := ProofResult(TempFailure, BaseHardError, "Not implemented")
}
