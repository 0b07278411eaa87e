/**
 The expectations the identify tests place on the recorder after a run, and
 what they mean for the calls the engine made. The recorder a test allocates
 starts from `Initial`.
 */
module Expectations {
  import opened Protocol
  import F = FakeIdentifyUi
  import opened Session

  /** The display-key expectation: the call counter and the number of recorded
      keys (a nil map has none) are the expected numbers. */
  predicate CheckDisplayKeys(r: F.Recorder, callCount: int, keyCount: int) {
    r.displayKeyCalls == callCount && |F.AsMap(r.keys)| == keyCount
  }

  /** The keyed-profile expectation: the result user exists, the announced user
      is that user, and the recorded proofs deep-equal the expected ones, where
      a nil expectation only equals a nil map. */
  predicate CheckKeyedProfile(r: F.Recorder, them: Option<UserSummary>, expected: Option<map<string, string>>) {
    && them.Some?
    && r.user == Some(User(them.value.uid, them.value.name))
    && r.proofs == expected
  }

  /** From a fresh recorder, a display-key expectation passes exactly when it
      names the number of `DisplayKey` calls and the number of distinct
      fingerprints among the displayed keys that parse; the latter never
      exceeds the former. */
  lemma DisplayKeysExpectationExactly(
    fakeConfirm: bool, cs: seq<Callback>, parse: Parser, callCount: int, keyCount: int)
    ensures CheckDisplayKeys(Replay(F.Initial(fakeConfirm), cs, parse), callCount, keyCount) <==>
            callCount == Count(cs, DisplayKeyCall) && keyCount == |ParsedFingerprints(cs, parse)|
    ensures |ParsedFingerprints(cs, parse)| <= Count(cs, DisplayKeyCall)
  {
    var r0 := F.Initial(fakeConfirm);
    var r := Replay(r0, cs, parse);
    ReplayCounts(r0, cs, parse);
    ReplayKeyFingerprints(r0, cs, parse);
    ReplayConsistent(r0, cs, parse);
    assert F.AsMap(r.keys).Keys == ParsedFingerprints(cs, parse);
    assert |F.AsMap(r.keys)| == |F.AsMap(r.keys).Keys|;
  }

  /** When every displayed key parses to its own fingerprint, the expectation
      passes with the number of calls as both counts, as in the single-key runs. */
  lemma DisplayKeysExpectationMet(fakeConfirm: bool, cs: seq<Callback>, parse: Parser)
    requires DistinctParsedKeys(cs, parse)
    ensures CheckDisplayKeys(Replay(F.Initial(fakeConfirm), cs, parse),
                             Count(cs, DisplayKeyCall), Count(cs, DisplayKeyCall))
  {
    var r0 := F.Initial(fakeConfirm);
    ReplayCounts(r0, cs, parse);
    DistinctKeysAllRecorded(r0, cs, parse);
  }

  /** A keyed-profile expectation passes exactly when the latest announced user
      is the result user and the expectation is nil for a session without proof
      checks, or else the latest value of every claimed key. */
  lemma KeyedProfileExactly(
    fakeConfirm: bool, cs: seq<Callback>, parse: Parser,
    them: Option<UserSummary>, expected: Option<map<string, string>>)
    ensures CheckKeyedProfile(Replay(F.Initial(fakeConfirm), cs, parse), them, expected) <==>
            && them.Some?
            && LastOf(cs, LaunchCall).Some?
            && LastOf(cs, LaunchCall).value.user == Some(User(them.value.uid, them.value.name))
            && expected == (if HasProofCheck(cs) then Some(ExpectedProofs(cs)) else None)
  {
    var r0 := F.Initial(fakeConfirm);
    ReplayLatestRecorded(r0, cs, parse);
    ReplayProofsExpected(r0, cs, parse);
  }

  /** A profile without claims is recorded as a nil proof map: the nil
      expectation can pass, while an empty map never does. */
  lemma ZeroClaimProfile(
    fakeConfirm: bool, cs: seq<Callback>, parse: Parser, them: UserSummary)
    requires !HasProofCheck(cs)
    requires LastOf(cs, LaunchCall) == Some(LaunchNetworkChecks(Some(User(them.uid, them.name))))
    ensures CheckKeyedProfile(Replay(F.Initial(fakeConfirm), cs, parse), Some(them), None)
    ensures !CheckKeyedProfile(Replay(F.Initial(fakeConfirm), cs, parse), Some(them), Some(map[]))
  {
    KeyedProfileExactly(fakeConfirm, cs, parse, Some(them), None);
    KeyedProfileExactly(fakeConfirm, cs, parse, Some(them), Some(map[]));
  }

  /** An outcome that bypasses confirmation is confirmed, whatever the recorder
      and its switch: remotely unless the track expires locally, and the
      outcome is what the recorder keeps. */
  lemma BypassedOutcomeConfirmed(r: F.Recorder, outcome: IdentifyOutcome)
    requires outcome.trackOptions.bypassConfirm
    ensures var reply := F.Confirm(r, outcome);
            && reply.result.identityConfirmed
            && (reply.result.remoteConfirmed <==> !outcome.trackOptions.expiringLocal)
            && reply.recorder.outcome == Some(outcome)
  {
  }

  /** The callbacks of a two-claim, one-key profile run under a bypassing
      outcome: the recorder holds exactly the two claims and one displayed key,
      and the run is confirmed, remotely too. */
  lemma TwoClaimProfileRun(parse: Parser, fingerprint: seq<Byte>, ok: LinkCheckResult)
    requires parse(fingerprint).Some?
    ensures var r1 := F.LaunchNetworkChecks(F.Start(F.Initial(false), "t_alice"), Some(User("alice-uid", "t_alice")));
            var r2 := F.FinishSocialProofCheck(r1, RemoteProof("github", "kbtester2"), ok);
            var r3 := F.FinishSocialProofCheck(r2, RemoteProof("twitter", "tacovontaco"), ok);
            var r4 := F.DisplayKey(r3, IdentifyKey(fingerprint, None), parse);
            var reply := F.Confirm(r4, IdentifyOutcome("t_alice", TrackOptions(true, false)));
            && CheckKeyedProfile(reply.recorder, Some(UserSummary("alice-uid", "t_alice")),
                                 Some(map["github" := "kbtester2", "twitter" := "tacovontaco"]))
            && CheckDisplayKeys(reply.recorder, 1, 1)
            && reply.recorder.startCount == 1
            && reply.result == ConfirmResult(true, true)
  {
    var r1 := F.LaunchNetworkChecks(F.Start(F.Initial(false), "t_alice"), Some(User("alice-uid", "t_alice")));
    var r2 := F.FinishSocialProofCheck(r1, RemoteProof("github", "kbtester2"), ok);
    var r3 := F.FinishSocialProofCheck(r2, RemoteProof("twitter", "tacovontaco"), ok);
    var r4 := F.DisplayKey(r3, IdentifyKey(fingerprint, None), parse);
    assert r3.proofs.value == map["github" := "kbtester2", "twitter" := "tacovontaco"];
    assert F.AsMap(r4.keys).Keys == {parse(fingerprint).value};
  }

  /** A profile whose only claim has a proof type without a checker: the
      recorder holds the not-implemented result under that key. */
  lemma UnsupportedProofTypeRun(parse: Parser, username: string, cs: seq<Callback>)
    requires cs == [
               Start(username),
               LaunchNetworkChecks(Some(User("uid", username))),
               FinishSocialProofCheck(RemoteProof("gubble.social", username), LinkCheckResult(NotImplemented, false))]
    ensures var r := Replay(F.Initial(false), cs, parse);
            && r.proofResults.Some?
            && "gubble.social" in r.proofResults.value
            && r.proofResults.value["gubble.social"].proofResult == NotImplemented
            && CheckKeyedProfile(r, Some(UserSummary("uid", username)), Some(map["gubble.social" := username]))
            && CheckDisplayKeys(r, 0, 0)
  {
    var r0 := F.Initial(false);
    ReplayPrefixStep(r0, cs, 1, parse);
    ReplayPrefixStep(r0, cs, 2, parse);
    ReplayPrefixStep(r0, cs, 3, parse);
    assert cs[..3] == cs;
    var r := Replay(r0, cs, parse);
    assert r.proofs.value == map["gubble.social" := username];
  }
}
