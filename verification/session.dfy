/**
 A whole identify session as seen by the recorder: the callbacks the engine
 makes, one after another, replayed from a starting recorder. The functions
 below `Replay` are reference descriptions written over the list of calls
 alone; the lemmas connect each of them to the replayed recorder.
 */
module Session {
  import opened Protocol
  import F = FakeIdentifyUi

  /** The fingerprint parser of the key library, which is not part of this
      model: every statement about keys holds for any parser. */
  type Parser = seq<Byte> -> Option<Fingerprint>

  /** The kinds of callback, used to count and to find the latest call of a kind. */
  datatype CallKind =
    | StartCall | LaunchCall | WebProofCall | SocialProofCall | DisplayKeyCall
    | ConfirmCall | TokenCall | TlfInviteCall | NoOpCall

  /** One callback of the identify UI session, with the arguments the recorder reads. */
  datatype Callback =
    | Start(username: string)
    | LaunchNetworkChecks(user: Option<User>)
    | FinishWebProofCheck(proof: RemoteProof, result: LinkCheckResult)
    | FinishSocialProofCheck(proof: RemoteProof, result: LinkCheckResult)
    | DisplayKey(key: IdentifyKey)
    | Confirm(outcome: IdentifyOutcome)
    | ReportTrackToken(token: TrackToken)
    | DisplayTlfCreateWithInvite(arg: TlfInviteArg)
    | DisplayCryptocurrency
    | ReportLastTrack
    | Cancel
    | Finish
    | Dismiss(username: string)
    | DisplayTrackStatement(statement: string)
    | DisplayUserCard
    | SetStrict(strict: bool)
  {
    function Kind(): CallKind {
      match this
      case Start(_) => StartCall
      case LaunchNetworkChecks(_) => LaunchCall
      case FinishWebProofCheck(_, _) => WebProofCall
      case FinishSocialProofCheck(_, _) => SocialProofCall
      case DisplayKey(_) => DisplayKeyCall
      case Confirm(_) => ConfirmCall
      case ReportTrackToken(_) => TokenCall
      case DisplayTlfCreateWithInvite(_) => TlfInviteCall
      case _ => NoOpCall
    }

    predicate IsProofCheck() {
      FinishWebProofCheck? || FinishSocialProofCheck?
    }

    /** A delivered proof result that flags a broken track. */
    predicate BreaksTracking() {
      IsProofCheck() && result.breaksTracking
    }
  }

  /** The recorder after one callback. */
  function Step(r: F.Recorder, c: Callback, parse: Parser): (r': F.Recorder)
    ensures r'.fakeConfirm == r.fakeConfirm
    ensures r.brokenTracking ==> r'.brokenTracking
    ensures !c.IsProofCheck() ==>
              r'.proofs == r.proofs && r'.proofResults == r.proofResults && r'.brokenTracking == r.brokenTracking
    ensures !c.DisplayKey? ==>
              r'.keys == r.keys && r'.displayKeyCalls == r.displayKeyCalls && r'.displayKeyDiffs == r.displayKeyDiffs
    ensures r'.startCount == r.startCount + (if c.Start? then 1 else 0)
    ensures r'.displayTlfCount == r.displayTlfCount + (if c.DisplayTlfCreateWithInvite? then 1 else 0)
    ensures c.DisplayKey? ==> r'.displayKeyCalls == r.displayKeyCalls + 1
    ensures c.IsProofCheck() ==> F.Overwrites(F.AsMap(r.proofs), F.AsMap(r'.proofs), c.proof.key, c.proof.value)
    ensures c.DisplayKey? && parse(c.key.pgpFingerprint).Some? ==>
              F.Overwrites(F.AsMap(r.keys), F.AsMap(r'.keys), parse(c.key.pgpFingerprint).value, c.key.trackDiff)
  {
    match c
    case Start(username) => F.Start(r, username)
    case LaunchNetworkChecks(user) => F.LaunchNetworkChecks(r, user)
    case FinishWebProofCheck(proof, result) => F.FinishWebProofCheck(r, proof, result)
    case FinishSocialProofCheck(proof, result) => F.FinishSocialProofCheck(r, proof, result)
    case DisplayKey(key) => F.DisplayKey(r, key, parse)
    case Confirm(outcome) => F.Confirm(r, outcome).recorder
    case ReportTrackToken(token) => F.ReportTrackToken(r, token)
    case DisplayTlfCreateWithInvite(arg) => F.DisplayTlfCreateWithInvite(r, arg)
    case _ => r
  }

  /** The recorder after the calls `cs`, oldest first. The test's confirmation
      switch is never changed and a broken track is never forgotten. */
  function Replay(r: F.Recorder, cs: seq<Callback>, parse: Parser): (r': F.Recorder)
    decreases |cs|
    ensures r'.fakeConfirm == r.fakeConfirm
    ensures r.brokenTracking ==> r'.brokenTracking
    ensures r'.displayKeyCalls >= r.displayKeyCalls
  {
    if |cs| == 0 then r else Step(Replay(r, cs[..|cs| - 1], parse), cs[|cs| - 1], parse)
  }

  /** Replaying the first `n` calls is one step past replaying the first `n - 1`. */
  lemma ReplayPrefixStep(r: F.Recorder, cs: seq<Callback>, n: nat, parse: Parser)
    requires 0 < n <= |cs|
    ensures Replay(r, cs[..n], parse) == Step(Replay(r, cs[..n - 1], parse), cs[n - 1], parse)
  {
    assert cs[..n][..n - 1] == cs[..n - 1];
  }

  // ---------------------------------------------------------------------------
  // Reference descriptions over the list of calls

  /** The number of calls of the given kind. */
  function Count(cs: seq<Callback>, kind: CallKind): nat
    decreases |cs|
  {
    if |cs| == 0 then 0
    else Count(cs[..|cs| - 1], kind) + (if cs[|cs| - 1].Kind() == kind then 1 else 0)
  }

  /** The latest call of the given kind, if any. */
  function LastOf(cs: seq<Callback>, kind: CallKind): (found: Option<Callback>)
    decreases |cs|
    ensures found.Some? ==> found.value.Kind() == kind
    ensures found.None? <==> Count(cs, kind) == 0
  {
    if |cs| == 0 then None
    else if cs[|cs| - 1].Kind() == kind then Some(cs[|cs| - 1])
    else LastOf(cs[..|cs| - 1], kind)
  }

  /** The latest proof check delivered for claim key `k`, if any. */
  function LastProofCheck(cs: seq<Callback>, k: string): (found: Option<Callback>)
    decreases |cs|
    ensures found.Some? ==> found.value.IsProofCheck() && found.value.proof.key == k
    ensures found.Some? <==> k in ClaimedKeys(cs)
  {
    if |cs| == 0 then None
    else if cs[|cs| - 1].IsProofCheck() && cs[|cs| - 1].proof.key == k then Some(cs[|cs| - 1])
    else
      ClaimedKeysOfPrefix(cs);
      LastProofCheck(cs[..|cs| - 1], k)
  }

  ghost predicate HasProofCheck(cs: seq<Callback>) {
    exists i :: 0 <= i < |cs| && cs[i].IsProofCheck()
  }

  ghost predicate BreaksTrackingIn(cs: seq<Callback>) {
    exists i :: 0 <= i < |cs| && cs[i].BreaksTracking()
  }

  /** The claim keys of every proof check among the calls. */
  function ClaimedKeys(cs: seq<Callback>): set<string> {
    set i | 0 <= i < |cs| && cs[i].IsProofCheck() :: cs[i].proof.key
  }

  /** The fingerprints of every displayed key whose fingerprint parses. */
  function ParsedFingerprints(cs: seq<Callback>, parse: Parser): set<Fingerprint> {
    set i | 0 <= i < |cs| && cs[i].DisplayKey? && parse(cs[i].key.pgpFingerprint).Some?
      :: parse(cs[i].key.pgpFingerprint).value
  }

  /** The proofs a session should leave behind: every claimed key bound to the
      value of its latest proof check. */
  function ExpectedProofs(cs: seq<Callback>): map<string, string> {
    map k | k in ClaimedKeys(cs) :: LastProofCheck(cs, k).value.proof.value
  }

  /** The diffs carried by displayed keys, in call order. */
  function TrackDiffs(cs: seq<Callback>): seq<TrackDiff>
    decreases |cs|
  {
    if |cs| == 0 then []
    else
      var c := cs[|cs| - 1];
      TrackDiffs(cs[..|cs| - 1]) + (if c.DisplayKey? && c.key.trackDiff.Some? then [c.key.trackDiff.value] else [])
  }

  /** Proof checks name pairwise different claim keys. */
  ghost predicate DistinctClaims(cs: seq<Callback>) {
    forall i, j :: 0 <= i < j < |cs| && cs[i].IsProofCheck() && cs[j].IsProofCheck() ==>
      cs[i].proof.key != cs[j].proof.key
  }

  /** Every displayed key parses, and to a fingerprint no other displayed key has. */
  ghost predicate DistinctParsedKeys(cs: seq<Callback>, parse: Parser) {
    && (forall i :: 0 <= i < |cs| && cs[i].DisplayKey? ==> parse(cs[i].key.pgpFingerprint).Some?)
    && (forall i, j :: 0 <= i < j < |cs| && cs[i].DisplayKey? && cs[j].DisplayKey? ==>
          parse(cs[i].key.pgpFingerprint) != parse(cs[j].key.pgpFingerprint))
  }

  /** The entries for `k` in two maps coincide, absence included. */
  ghost predicate SameEntry<K, V>(m1: map<K, V>, m2: map<K, V>, k: K) {
    (k in m1 <==> k in m2) && (k in m1 ==> m1[k] == m2[k])
  }

  /** What a recorder keeps consistent across every callback. */
  ghost predicate Consistent(r: F.Recorder) {
    && |F.AsMap(r.keys)| <= r.displayKeyCalls
    && |r.displayKeyDiffs| <= r.displayKeyCalls
    && (r.proofs.None? <==> r.proofResults.None?)
    && F.AsMap(r.proofs).Keys == F.AsMap(r.proofResults).Keys
  }

  // ---------------------------------------------------------------------------
  // Splitting the reference descriptions at the latest call

  lemma ClaimedKeysOfPrefix(cs: seq<Callback>)
    requires |cs| > 0
    ensures ClaimedKeys(cs) == ClaimedKeys(cs[..|cs| - 1]) +
              (if cs[|cs| - 1].IsProofCheck() then {cs[|cs| - 1].proof.key} else {})
  {
    var init := cs[..|cs| - 1];
    var last := cs[|cs| - 1];
    var extra: set<string> := if last.IsProofCheck() then {last.proof.key} else {};
    forall k | k in ClaimedKeys(cs)
      ensures k in ClaimedKeys(init) + extra
    {
      var i :| 0 <= i < |cs| && cs[i].IsProofCheck() && cs[i].proof.key == k;
      if i < |cs| - 1 {
        assert init[i] == cs[i];
      }
    }
    forall k | k in ClaimedKeys(init)
      ensures k in ClaimedKeys(cs)
    {
      var i :| 0 <= i < |init| && init[i].IsProofCheck() && init[i].proof.key == k;
      assert cs[i] == init[i];
    }
  }

  lemma ParsedFingerprintsOfPrefix(cs: seq<Callback>, parse: Parser)
    requires |cs| > 0
    ensures var last := cs[|cs| - 1];
            ParsedFingerprints(cs, parse) == ParsedFingerprints(cs[..|cs| - 1], parse) +
              (if last.DisplayKey? && parse(last.key.pgpFingerprint).Some?
               then {parse(last.key.pgpFingerprint).value} else {})
  {
    var init := cs[..|cs| - 1];
    var last := cs[|cs| - 1];
    var extra: set<Fingerprint> :=
      if last.DisplayKey? && parse(last.key.pgpFingerprint).Some? then {parse(last.key.pgpFingerprint).value} else {};
    forall fp | fp in ParsedFingerprints(cs, parse)
      ensures fp in ParsedFingerprints(init, parse) + extra
    {
      var i :| 0 <= i < |cs| && cs[i].DisplayKey? && parse(cs[i].key.pgpFingerprint).Some?
               && parse(cs[i].key.pgpFingerprint).value == fp;
      if i < |cs| - 1 {
        assert init[i] == cs[i];
      }
    }
    forall fp | fp in ParsedFingerprints(init, parse)
      ensures fp in ParsedFingerprints(cs, parse)
    {
      var i :| 0 <= i < |init| && init[i].DisplayKey? && parse(init[i].key.pgpFingerprint).Some?
               && parse(init[i].key.pgpFingerprint).value == fp;
      assert cs[i] == init[i];
    }
  }

  // ---------------------------------------------------------------------------
  // What a replayed session records

  /** Each counter counts exactly the calls of its kind. */
  lemma {:induction false} ReplayCounts(r: F.Recorder, cs: seq<Callback>, parse: Parser)
    decreases |cs|
    ensures Replay(r, cs, parse).displayKeyCalls == r.displayKeyCalls + Count(cs, DisplayKeyCall)
    ensures Replay(r, cs, parse).startCount == r.startCount + Count(cs, StartCall)
    ensures Replay(r, cs, parse).displayTlfCount == r.displayTlfCount + Count(cs, TlfInviteCall)
  {
    if |cs| > 0 {
      ReplayCounts(r, cs[..|cs| - 1], parse);
    }
  }

  /** The proof maps stay nil exactly as long as no proof check was delivered. */
  lemma {:induction false} ReplayProofsStayNil(r: F.Recorder, cs: seq<Callback>, parse: Parser)
    decreases |cs|
    ensures Replay(r, cs, parse).proofs.None? <==> r.proofs.None? && !HasProofCheck(cs)
    ensures Replay(r, cs, parse).proofResults.None? <==> r.proofResults.None? && !HasProofCheck(cs)
  {
    if |cs| > 0 {
      var init := cs[..|cs| - 1];
      ReplayProofsStayNil(r, init, parse);
      if HasProofCheck(init) {
        var i :| 0 <= i < |init| && init[i].IsProofCheck();
        assert cs[i] == init[i];
      }
      if HasProofCheck(cs) && !cs[|cs| - 1].IsProofCheck() {
        var i :| 0 <= i < |cs| && cs[i].IsProofCheck();
        assert init[i] == cs[i];
      }
    }
  }

  /** The key map stays nil exactly as long as no key was displayed. */
  lemma {:induction false} ReplayKeysStayNil(r: F.Recorder, cs: seq<Callback>, parse: Parser)
    decreases |cs|
    ensures Replay(r, cs, parse).keys.None? <==> r.keys.None? && Count(cs, DisplayKeyCall) == 0
  {
    if |cs| > 0 {
      ReplayKeysStayNil(r, cs[..|cs| - 1], parse);
    }
  }

  /** The broken-tracking flag is the sticky OR of every delivered result. */
  lemma {:induction false} ReplayBrokenTracking(r: F.Recorder, cs: seq<Callback>, parse: Parser)
    decreases |cs|
    ensures Replay(r, cs, parse).brokenTracking <==> r.brokenTracking || BreaksTrackingIn(cs)
  {
    if |cs| > 0 {
      var init := cs[..|cs| - 1];
      var last := cs[|cs| - 1];
      ReplayBrokenTracking(r, init, parse);
      var before := Replay(r, init, parse);
      if last.IsProofCheck() {
        assert Replay(r, cs, parse).brokenTracking == (before.brokenTracking || last.result.breaksTracking);
      }
      if BreaksTrackingIn(init) {
        var i :| 0 <= i < |init| && init[i].BreaksTracking();
        assert cs[i] == init[i];
      }
      if BreaksTrackingIn(cs) && !last.BreaksTracking() {
        var i :| 0 <= i < |cs| && cs[i].BreaksTracking();
        assert init[i] == cs[i];
      }
    }
  }

  /** The proof maps hold an entry for exactly the claim keys delivered. */
  lemma {:induction false} ReplayProofKeys(r: F.Recorder, cs: seq<Callback>, parse: Parser)
    decreases |cs|
    ensures F.AsMap(Replay(r, cs, parse).proofs).Keys == F.AsMap(r.proofs).Keys + ClaimedKeys(cs)
    ensures F.AsMap(Replay(r, cs, parse).proofResults).Keys == F.AsMap(r.proofResults).Keys + ClaimedKeys(cs)
  {
    if |cs| > 0 {
      ReplayProofKeys(r, cs[..|cs| - 1], parse);
      ClaimedKeysOfPrefix(cs);
    }
  }

  /** For every claim key the recorded value and result are those of the latest
      proof check for that key; keys never checked keep what they had. */
  lemma {:induction false} ReplayLatestProofWins(r: F.Recorder, cs: seq<Callback>, parse: Parser, k: string)
    decreases |cs|
    ensures var after := Replay(r, cs, parse);
            match LastProofCheck(cs, k)
            case Some(c) =>
              && k in F.AsMap(after.proofs) && F.AsMap(after.proofs)[k] == c.proof.value
              && k in F.AsMap(after.proofResults) && F.AsMap(after.proofResults)[k] == c.result
            case None =>
              && SameEntry(F.AsMap(after.proofs), F.AsMap(r.proofs), k)
              && SameEntry(F.AsMap(after.proofResults), F.AsMap(r.proofResults), k)
  {
    if |cs| > 0 {
      ReplayLatestProofWins(r, cs[..|cs| - 1], parse, k);
    }
  }

  /** Starting from nil proofs, a session leaves nil proofs when it delivered no
      proof check, and otherwise exactly the expected proofs. */
  lemma ReplayProofsExpected(r: F.Recorder, cs: seq<Callback>, parse: Parser)
    requires r.proofs.None?
    ensures Replay(r, cs, parse).proofs == if HasProofCheck(cs) then Some(ExpectedProofs(cs)) else None
  {
    ReplayProofsStayNil(r, cs, parse);
    if HasProofCheck(cs) {
      var recorded := Replay(r, cs, parse).proofs.value;
      ReplayProofKeys(r, cs, parse);
      forall k | k in ClaimedKeys(cs)
        ensures recorded[k] == ExpectedProofs(cs)[k]
      {
        ReplayLatestProofWins(r, cs, parse, k);
      }
      assert recorded == ExpectedProofs(cs);
    }
  }

  /** The key map holds an entry for exactly the fingerprints that parsed. */
  lemma {:induction false} ReplayKeyFingerprints(r: F.Recorder, cs: seq<Callback>, parse: Parser)
    decreases |cs|
    ensures F.AsMap(Replay(r, cs, parse).keys).Keys == F.AsMap(r.keys).Keys + ParsedFingerprints(cs, parse)
  {
    if |cs| > 0 {
      ReplayKeyFingerprints(r, cs[..|cs| - 1], parse);
      ParsedFingerprintsOfPrefix(cs, parse);
    }
  }

  /** The diff list is every displayed diff, in call order, after the ones already there. */
  lemma {:induction false} ReplayTrackDiffs(r: F.Recorder, cs: seq<Callback>, parse: Parser)
    decreases |cs|
    ensures Replay(r, cs, parse).displayKeyDiffs == r.displayKeyDiffs + TrackDiffs(cs)
  {
    if |cs| > 0 {
      var init := cs[..|cs| - 1];
      ReplayTrackDiffs(r, init, parse);
      var last := cs[|cs| - 1];
      if last.DisplayKey? && last.key.trackDiff.Some? {
        assert r.displayKeyDiffs + TrackDiffs(init) + [last.key.trackDiff.value]
            == r.displayKeyDiffs + (TrackDiffs(init) + [last.key.trackDiff.value]);
      }
    }
  }

  /** One callback sets the user, outcome, token or invitation argument only
      when it is the call that delivers that value. */
  lemma StepLatestRecorded(r: F.Recorder, c: Callback, parse: Parser)
    ensures var after := Step(r, c, parse);
            && after.user == (if c.Kind() == LaunchCall then c.user else r.user)
            && after.outcome == (if c.Kind() == ConfirmCall then Some(c.outcome) else r.outcome)
            && after.token == (if c.Kind() == TokenCall then c.token else r.token)
            && after.displayTlfArg == (if c.Kind() == TlfInviteCall then c.arg else r.displayTlfArg)
  {
  }

  /** The user, outcome, token and invitation argument are those of the latest
      call that sets them; without such a call they keep their earlier value. */
  lemma {:induction false} ReplayLatestRecorded(r: F.Recorder, cs: seq<Callback>, parse: Parser)
    decreases |cs|
    ensures var after := Replay(r, cs, parse);
            && after.user == (match LastOf(cs, LaunchCall) case Some(c) => c.user case None => r.user)
            && after.outcome == (match LastOf(cs, ConfirmCall) case Some(c) => Some(c.outcome) case None => r.outcome)
            && after.token == (match LastOf(cs, TokenCall) case Some(c) => c.token case None => r.token)
            && after.displayTlfArg == (match LastOf(cs, TlfInviteCall) case Some(c) => c.arg case None => r.displayTlfArg)
  {
    if |cs| > 0 {
      var init := cs[..|cs| - 1];
      ReplayLatestRecorded(r, init, parse);
      StepLatestRecorded(Replay(r, init, parse), cs[|cs| - 1], parse);
    }
  }

  /** The flag is an OR over delivered results, not over recorded ones: a
      breaking result later overwritten by a clean one for the same claim key
      leaves the flag set although no recorded result breaks tracking. */
  lemma BrokenTrackingOutlivesOverwrite(
    r: F.Recorder, proof: RemoteProof, breaking: LinkCheckResult, clean: LinkCheckResult)
    requires breaking.breaksTracking && !clean.breaksTracking
    ensures var after := F.FinishSocialProofCheck(F.FinishWebProofCheck(r, proof, breaking), proof, clean);
            && after.brokenTracking
            && after.proofResults.value[proof.key] == clean
  {
  }

  /** One callback keeps a consistent recorder consistent. */
  lemma StepConsistent(r: F.Recorder, c: Callback, parse: Parser)
    requires Consistent(r)
    ensures Consistent(Step(r, c, parse))
  {
  }

  /** Every session keeps the recorder consistent: in particular no more keys and
      no more diffs are recorded than `DisplayKey` calls were made. */
  lemma {:induction false} ReplayConsistent(r: F.Recorder, cs: seq<Callback>, parse: Parser)
    requires Consistent(r)
    decreases |cs|
    ensures Consistent(Replay(r, cs, parse))
  {
    if |cs| > 0 {
      ReplayConsistent(r, cs[..|cs| - 1], parse);
      StepConsistent(Replay(r, cs[..|cs| - 1], parse), cs[|cs| - 1], parse);
    }
  }

  /** One proof check for a claim key not yet recorded adds exactly one entry;
      any other callback leaves the number of entries alone. */
  lemma ReplayProofEntriesStep(r: F.Recorder, cs: seq<Callback>, parse: Parser)
    requires |cs| > 0
    requires cs[|cs| - 1].IsProofCheck() ==>
               cs[|cs| - 1].proof.key !in F.AsMap(Replay(r, cs[..|cs| - 1], parse).proofs)
    ensures var step := if cs[|cs| - 1].IsProofCheck() then 1 else 0;
            && |F.AsMap(Replay(r, cs, parse).proofs)| == |F.AsMap(Replay(r, cs[..|cs| - 1], parse).proofs)| + step
            && Count(cs, WebProofCall) + Count(cs, SocialProofCall)
               == Count(cs[..|cs| - 1], WebProofCall) + Count(cs[..|cs| - 1], SocialProofCall) + step
  {
    var prev := Replay(r, cs[..|cs| - 1], parse);
    var last := cs[|cs| - 1];
    assert Replay(r, cs, parse) == Step(prev, last, parse);
    if last.IsProofCheck() {
      F.OverwriteFreshGrows(F.AsMap(prev.proofs), F.AsMap(Step(prev, last, parse).proofs), last.proof.key, last.proof.value);
    }
    assert Count(cs, WebProofCall) + Count(cs, SocialProofCall)
           == Count(cs[..|cs| - 1], WebProofCall) + Count(cs[..|cs| - 1], SocialProofCall)
              + (if last.IsProofCheck() then 1 else 0) by {
      assert last.Kind() == WebProofCall <==> last.FinishWebProofCheck?;
      assert last.Kind() == SocialProofCall <==> last.FinishSocialProofCheck?;
    }
  }

  /** One displayed key with a parseable fingerprint not yet recorded adds
      exactly one entry; any other callback leaves the number of entries alone. */
  lemma ReplayKeyEntriesStep(r: F.Recorder, cs: seq<Callback>, parse: Parser)
    requires |cs| > 0
    requires var last := cs[|cs| - 1];
             last.DisplayKey? ==>
               && parse(last.key.pgpFingerprint).Some?
               && parse(last.key.pgpFingerprint).value !in F.AsMap(Replay(r, cs[..|cs| - 1], parse).keys)
    ensures var step := if cs[|cs| - 1].DisplayKey? then 1 else 0;
            && |F.AsMap(Replay(r, cs, parse).keys)| == |F.AsMap(Replay(r, cs[..|cs| - 1], parse).keys)| + step
            && Count(cs, DisplayKeyCall) == Count(cs[..|cs| - 1], DisplayKeyCall) + step
  {
    var prev := Replay(r, cs[..|cs| - 1], parse);
    var last := cs[|cs| - 1];
    assert Replay(r, cs, parse) == Step(prev, last, parse);
    if last.DisplayKey? {
      var fp := parse(last.key.pgpFingerprint).value;
      F.OverwriteFreshGrows(F.AsMap(prev.keys), F.AsMap(Step(prev, last, parse).keys), fp, last.key.trackDiff);
    }
  }

  lemma DistinctClaimsOfPrefix(cs: seq<Callback>)
    requires |cs| > 0 && DistinctClaims(cs)
    ensures DistinctClaims(cs[..|cs| - 1])
    ensures cs[|cs| - 1].IsProofCheck() ==> cs[|cs| - 1].proof.key !in ClaimedKeys(cs[..|cs| - 1])
  {
    var init := cs[..|cs| - 1];
    var last := cs[|cs| - 1];
    forall i, j | 0 <= i < j < |init| && init[i].IsProofCheck() && init[j].IsProofCheck()
      ensures init[i].proof.key != init[j].proof.key
    {
      assert init[i] == cs[i] && init[j] == cs[j];
    }
  }

  lemma DistinctParsedKeysOfPrefix(cs: seq<Callback>, parse: Parser)
    requires |cs| > 0 && DistinctParsedKeys(cs, parse)
    ensures DistinctParsedKeys(cs[..|cs| - 1], parse)
    ensures var last := cs[|cs| - 1];
            last.DisplayKey? ==>
              && parse(last.key.pgpFingerprint).Some?
              && parse(last.key.pgpFingerprint).value !in ParsedFingerprints(cs[..|cs| - 1], parse)
  {
    var init := cs[..|cs| - 1];
    var last := cs[|cs| - 1];
    forall i | 0 <= i < |init| && init[i].DisplayKey?
      ensures parse(init[i].key.pgpFingerprint).Some?
    {
      assert init[i] == cs[i];
    }
    forall i, j | 0 <= i < j < |init| && init[i].DisplayKey? && init[j].DisplayKey?
      ensures parse(init[i].key.pgpFingerprint) != parse(init[j].key.pgpFingerprint)
    {
      assert init[i] == cs[i] && init[j] == cs[j];
    }
  }

  /** N proof checks for N distinct new claim keys leave exactly N more entries. */
  lemma {:induction false} DistinctClaimsAllRecorded(r: F.Recorder, cs: seq<Callback>, parse: Parser)
    requires DistinctClaims(cs)
    requires ClaimedKeys(cs) !! F.AsMap(r.proofs).Keys
    decreases |cs|
    ensures |F.AsMap(Replay(r, cs, parse).proofs)|
            == |F.AsMap(r.proofs)| + Count(cs, WebProofCall) + Count(cs, SocialProofCall)
  {
    if |cs| > 0 {
      var init := cs[..|cs| - 1];
      var last := cs[|cs| - 1];
      assert DistinctClaims(init) && ClaimedKeys(init) !! F.AsMap(r.proofs).Keys by {
        ClaimedKeysOfPrefix(cs);
        DistinctClaimsOfPrefix(cs);
      }
      DistinctClaimsAllRecorded(r, init, parse);
      assert last.IsProofCheck() ==> last.proof.key !in F.AsMap(Replay(r, init, parse).proofs) by {
        ClaimedKeysOfPrefix(cs);
        DistinctClaimsOfPrefix(cs);
        ReplayProofKeys(r, init, parse);
      }
      ReplayProofEntriesStep(r, cs, parse);
    }
  }

  /** N displayed keys with distinct parseable new fingerprints leave exactly N
      more entries, so the key count then equals the call count. */
  lemma {:induction false} DistinctKeysAllRecorded(r: F.Recorder, cs: seq<Callback>, parse: Parser)
    requires DistinctParsedKeys(cs, parse)
    requires ParsedFingerprints(cs, parse) !! F.AsMap(r.keys).Keys
    decreases |cs|
    ensures |F.AsMap(Replay(r, cs, parse).keys)| == |F.AsMap(r.keys)| + Count(cs, DisplayKeyCall)
  {
    if |cs| > 0 {
      var init := cs[..|cs| - 1];
      var last := cs[|cs| - 1];
      assert DistinctParsedKeys(init, parse) && ParsedFingerprints(init, parse) !! F.AsMap(r.keys).Keys by {
        ParsedFingerprintsOfPrefix(cs, parse);
        DistinctParsedKeysOfPrefix(cs, parse);
      }
      DistinctKeysAllRecorded(r, init, parse);
      assert last.DisplayKey? ==>
               && parse(last.key.pgpFingerprint).Some?
               && parse(last.key.pgpFingerprint).value !in F.AsMap(Replay(r, init, parse).keys) by {
        ParsedFingerprintsOfPrefix(cs, parse);
        DistinctParsedKeysOfPrefix(cs, parse);
        ReplayKeyFingerprints(r, init, parse);
      }
      ReplayKeyEntriesStep(r, cs, parse);
    }
  }
}
