/**
 The identify UI test double as an immutable recorder. Every callback the
 engine can make is a pure transition from one recorder state to the next;
 the transitions are applied one after another. In the source most callbacks
 hold the recorder's mutex, but `ReportTrackToken` and
 `DisplayTLFCreateWithInvite` do not, and the model treats them as atomic too.
 Every callback of the source returns a nil error, so the transitions have no
 error channel.
 */
module FakeIdentifyUi {
  import opened Protocol

  datatype Recorder = Recorder(
    proofs: Option<map<string, string>>,
    proofResults: Option<map<string, LinkCheckResult>>,
    user: Option<User>,
    keys: Option<map<Fingerprint, Option<TrackDiff>>>,
    displayKeyCalls: nat,
    displayKeyDiffs: seq<TrackDiff>,
    outcome: Option<IdentifyOutcome>,
    startCount: nat,
    token: TrackToken,
    brokenTracking: bool,
    displayTlfArg: TlfInviteArg,
    displayTlfCount: nat,
    fakeConfirm: bool)

  /** The zero-valued recorder a test allocates, with its confirmation switch. */
  function Initial(fakeConfirm: bool): Recorder {
    Recorder(None, None, None, None, 0, [], None, 0, "", false, TlfInviteArg("", ""), 0, fakeConfirm)
  }

  /** The contents of a possibly-nil map: a nil map reads as empty. */
  function AsMap<K, V>(m: Option<map<K, V>>): map<K, V> {
    match m
    case None => map[]
    case Some(contents) => contents
  }

  /** `after` is `before` with `k` bound to `v` and every other entry kept. */
  ghost predicate Overwrites<K, V>(before: map<K, V>, after: map<K, V>, k: K, v: V) {
    && after.Keys == before.Keys + {k}
    && after[k] == v
    && forall j :: j in before && j != k ==> after[j] == before[j]
  }

  /** Binding a key the map did not have adds exactly one entry. */
  lemma OverwriteFreshGrows<K, V>(before: map<K, V>, after: map<K, V>, k: K, v: V)
    requires Overwrites(before, after, k, v)
    requires k !in before
    ensures |after| == |before| + 1
  {
    assert after.Keys == before.Keys + {k};
  }

  /** Records the claim and its result for a web-verifiable proof. */
  function FinishWebProofCheck(r: Recorder, proof: RemoteProof, result: LinkCheckResult): (r': Recorder)
    ensures r'.proofs.Some? && r'.proofResults.Some?
    ensures Overwrites(AsMap(r.proofs), r'.proofs.value, proof.key, proof.value)
    ensures Overwrites(AsMap(r.proofResults), r'.proofResults.value, proof.key, result)
    ensures r'.brokenTracking <==> r.brokenTracking || result.breaksTracking
    ensures r' == r.(proofs := r'.proofs, proofResults := r'.proofResults, brokenTracking := r'.brokenTracking)
  {
    var proofs := AsMap(r.proofs)[proof.key := proof.value];
    var results := AsMap(r.proofResults)[proof.key := result];
    r.(proofs := Some(proofs),
       proofResults := Some(results),
       brokenTracking := if result.breaksTracking then true else r.brokenTracking)
  }

  /** Records the claim and its result for a purely social proof. */
  function FinishSocialProofCheck(r: Recorder, proof: RemoteProof, result: LinkCheckResult): (r': Recorder)
    ensures r'.proofs.Some? && r'.proofResults.Some?
    ensures Overwrites(AsMap(r.proofs), r'.proofs.value, proof.key, proof.value)
    ensures Overwrites(AsMap(r.proofResults), r'.proofResults.value, proof.key, result)
    ensures r'.brokenTracking <==> r.brokenTracking || result.breaksTracking
    ensures r' == r.(proofs := r'.proofs, proofResults := r'.proofResults, brokenTracking := r'.brokenTracking)
  {
    var proofs := AsMap(r.proofs)[proof.key := proof.value];
    var results := AsMap(r.proofResults)[proof.key := result];
    r.(proofs := Some(proofs),
       proofResults := Some(results),
       brokenTracking := if result.breaksTracking then true else r.brokenTracking)
  }

  /** The two proof-check callbacks are indistinguishable to the recorder. */
  lemma WebAndSocialAgree(r: Recorder, proof: RemoteProof, result: LinkCheckResult)
    ensures FinishWebProofCheck(r, proof, result) == FinishSocialProofCheck(r, proof, result)
  {
  }

  datatype ConfirmReply = ConfirmReply(recorder: Recorder, result: ConfirmResult)

  /** Records the outcome and decides: confirmed when the test forces it or the
      outcome bypasses confirmation; remotely only when the track does not expire. */
  function Confirm(r: Recorder, outcome: IdentifyOutcome): (reply: ConfirmReply)
    ensures reply.result.identityConfirmed <==> r.fakeConfirm || outcome.trackOptions.bypassConfirm
    ensures reply.result.remoteConfirmed <==> reply.result.identityConfirmed && !outcome.trackOptions.expiringLocal
    ensures reply.result.remoteConfirmed ==> reply.result.identityConfirmed
    ensures outcome.trackOptions.expiringLocal ==> !reply.result.remoteConfirmed
    ensures reply.recorder == r.(outcome := Some(outcome))
  {
    var bypass := r.fakeConfirm || outcome.trackOptions.bypassConfirm;
    ConfirmReply(r.(outcome := Some(outcome)), ConfirmResult(bypass, bypass && !outcome.trackOptions.expiringLocal))
  }

  /** The decision reads nothing the callbacks record: two recorders that agree
      on the test's confirmation switch decide every outcome alike. */
  lemma ConfirmIgnoresRecordings(r1: Recorder, r2: Recorder, outcome: IdentifyOutcome)
    requires r1.fakeConfirm == r2.fakeConfirm
    ensures Confirm(r1, outcome).result == Confirm(r2, outcome).result
  {
  }

  /** Counts the call; remembers the key's diff under its fingerprint when the
      fingerprint parses, and appends the diff to the diff list when present. */
  function DisplayKey(r: Recorder, ik: IdentifyKey, parse: seq<Byte> -> Option<Fingerprint>): (r': Recorder)
    ensures r'.displayKeyCalls == r.displayKeyCalls + 1
    ensures r'.keys.Some?
    ensures parse(ik.pgpFingerprint).None? ==> r'.keys.value == AsMap(r.keys)
    ensures parse(ik.pgpFingerprint).Some? ==>
              Overwrites(AsMap(r.keys), r'.keys.value, parse(ik.pgpFingerprint).value, ik.trackDiff)
    ensures |AsMap(r'.keys)| <= |AsMap(r.keys)| + 1
    ensures ik.trackDiff.None? ==> r'.displayKeyDiffs == r.displayKeyDiffs
    ensures ik.trackDiff.Some? ==> r'.displayKeyDiffs == r.displayKeyDiffs + [ik.trackDiff.value]
    ensures r' == r.(keys := r'.keys, displayKeyDiffs := r'.displayKeyDiffs, displayKeyCalls := r'.displayKeyCalls)
  {
    var keys := AsMap(r.keys);
    var keys' := match parse(ik.pgpFingerprint)
      case Some(fp) => keys[fp := ik.trackDiff]
      case None => keys;
    var diffs := match ik.trackDiff
      case Some(d) => r.displayKeyDiffs + [d]
      case None => r.displayKeyDiffs;
    r.(keys := Some(keys'), displayKeyDiffs := diffs, displayKeyCalls := r.displayKeyCalls + 1)
  }

  /** Counts the session opening; the username is not recorded. */
  function Start(r: Recorder, username: string): (r': Recorder)
    ensures r'.startCount == r.startCount + 1
    ensures r' == r.(startCount := r'.startCount)
  {
    r.(startCount := r.startCount + 1)
  }

  /** Remembers the announced user (nil included); the identity is not recorded. */
  function LaunchNetworkChecks(r: Recorder, user: Option<User>): (r': Recorder)
    ensures r'.user == user
    ensures r' == r.(user := r'.user)
  {
    r.(user := user)
  }

  /** Remembers the most recent track token. */
  function ReportTrackToken(r: Recorder, token: TrackToken): (r': Recorder)
    ensures r'.token == token
    ensures r' == r.(token := r'.token)
  {
    r.(token := token)
  }

  /** Counts the invitation display and remembers its argument. */
  function DisplayTlfCreateWithInvite(r: Recorder, arg: TlfInviteArg): (r': Recorder)
    ensures r'.displayTlfCount == r.displayTlfCount + 1 && r'.displayTlfArg == arg
    ensures r' == r.(displayTlfCount := r'.displayTlfCount, displayTlfArg := arg)
  {
    r.(displayTlfCount := r.displayTlfCount + 1, displayTlfArg := arg)
  }
}
