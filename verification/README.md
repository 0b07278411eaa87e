# Identify UI recorder

This project models `FakeIdentifyUI`, the identify UI session test double of the
Keybase client's identify engine tests (`go/engine/id_test.go`). The engine calls
the UI session back while it identifies a user. The double records what it was
told: the proofs and their results, the announced user, the displayed keys, the
outcome handed to `Confirm`, and the track token. It also counts the calls and
keeps a sticky "tracking broken" flag. `Confirm` answers with a small decision
rule. The tests then check the recorder against expected proofs and key counts.

The model is functional. The recorder is an immutable datatype, and every
callback is a pure transition on it (`FakeIdentifyUi`). A session is a list of
callbacks replayed in order (`Session`). Each fact about a whole session is
stated against a reference description written over the list of calls alone:
counts, claimed keys, parsed fingerprints, the latest call of a kind, and the
expected proof map. The tests' expectation helpers are predicates over the
recorder (`Expectations`).

Modules:

- `protocol.dfy`, module `Protocol`: the identify protocol records the recorder
  reads, reduced to the fields it touches. A nil pointer or nil map is `None`.
  The "Not implemented" proof result is here as well.
- `fake_identify_ui.dfy`, module `FakeIdentifyUi`: the recorder and one
  transition per stateful callback.
- `session.dfy`, module `Session`: callbacks as data, `Step`, `Replay`, the
  reference descriptions, and the lemmas that connect them.
- `expectations.dfy`, module `Expectations`: the display-key and keyed-profile
  expectations, and what it takes for them to pass.

Go distinguishes a nil map from an empty one, and `reflect.DeepEqual` does too.
The zero-claim expectation compares the recorded proofs against a nil map. The
model therefore keeps the proof, result and key maps as `Option<map<…>>`.
`AsMap` reads a nil map as empty, just as `len` and lookups do in Go.

Three facts about the code that the model follows:

- `DisplayKeyCalls` counts every `DisplayKey` call, parseable or not
  (`go/engine/id_test.go:285`). Only the key map is limited to fingerprints that
  parse (276-279). From a fresh recorder the key count is the number of
  distinct parsed fingerprints (`DisplayKey`, `ReplayCounts`,
  `ReplayKeyFingerprints`, `DisplayKeysExpectationExactly`).
- `BrokenTracking` is an OR over every delivered result (226-228), not over
  the results still recorded. A breaking result that a later clean result for
  the same claim key overwrites leaves the flag set
  (`BrokenTrackingOutlivesOverwrite`).
- The bodies of `FinishWebProofCheck` and `FinishSocialProofCheck` (214-247)
  are identical, so the recorder cannot tell web claims from social ones
  (`WebAndSocialAgree`).

## Model

| member | source | states |
|---|---|---|
| FakeIdentifyUi.FinishWebProofCheck | go/engine/id_test.go:214-230 | Afterwards both proof maps exist (a nil map becomes non-nil). The claim key maps to the claimed value and to the result, and every other key keeps its entry. The broken flag becomes the old flag OR the result's flag. No other field changes. |
| FakeIdentifyUi.FinishSocialProofCheck | go/engine/id_test.go:232-247 | Same contract as the web variant: both maps are non-nil, the key is overwritten, other keys are kept, the flag is ORed, and nothing else changes. |
| FakeIdentifyUi.WebAndSocialAgree | go/engine/id_test.go:214-247 | On every recorder, claim and result, the two proof-check callbacks produce the same recorder. |
| FakeIdentifyUi.Confirm | go/engine/id_test.go:249-264 | Identity is confirmed iff the test's switch is set or the outcome bypasses confirmation. Remote confirmation is identity confirmation and not expiring-local. So remote implies identity, and expiring-local forces remote to false. The recorder changes only by storing the outcome. |
| FakeIdentifyUi.ConfirmIgnoresRecordings | go/engine/id_test.go:259-262 | The decision ignores everything the callbacks recorded. Two recorders with the same confirmation switch decide every outcome alike. |
| FakeIdentifyUi.DisplayKey | go/engine/id_test.go:269-287 | The call counter grows by exactly one, parsed or not. The key map becomes non-nil. If the fingerprint does not parse, the key map is unchanged. If it parses, the fingerprint maps to the key's diff and other entries are kept, so the key count grows by at most one. A present diff is appended to the diff list and an absent one is not. No other field changes. |
| FakeIdentifyUi.Start | go/engine/id_test.go:292-297 | The start counter grows by exactly one, and nothing else changes. |
| FakeIdentifyUi.LaunchNetworkChecks | go/engine/id_test.go:311-316 | The recorded user is the announced one, nil included, and nothing else changes. |
| FakeIdentifyUi.ReportTrackToken | go/engine/id_test.go:326-329 | The recorded token is the reported one, and nothing else changes. |
| FakeIdentifyUi.DisplayTlfCreateWithInvite | go/engine/id_test.go:334-338 | The invitation counter grows by one and the argument is kept. Nothing else changes. |
| Session.Step | go/engine/id_test.go:214-338 | Dispatches each callback; the no-op callbacks leave the recorder alone. The test's switch never changes, and a set broken flag stays set. Only proof checks touch the proof maps and the flag, and only key displays touch the key map, the counter and the diffs. A proof check overwrites its claim key, and a parsed key display overwrites its fingerprint. The start, display-key and invitation counters each grow by one exactly on a call of their kind. |
| Session.Replay | go/engine/id_test.go:226-245 | Over any list of calls, the confirmation switch is kept, the broken flag never goes from true to false, and the display counter never decreases. |
| Session.ReplayCounts | go/engine/id_test.go:269-297 | The display-key counter and the start counter each equal their starting value plus the number of calls of their kind. So does the invitation counter. |
| Session.ReplayProofsStayNil | go/engine/id_test.go:214-247 | Each proof map is nil after a session iff it was nil before and no proof check was delivered (both directions). |
| Session.ReplayKeysStayNil | go/engine/id_test.go:269-279 | The key map is nil after a session iff it was nil before and no key was displayed. |
| Session.ReplayBrokenTracking | go/engine/id_test.go:226-245 | The broken flag after a session is true iff it was true before or some delivered result broke tracking. |
| Session.ReplayProofKeys | go/engine/id_test.go:214-247 | The keys of both proof maps are the earlier keys plus exactly the claim keys of the delivered proof checks. |
| Session.ReplayLatestProofWins | go/engine/id_test.go:220-225 | For each claim key, the recorded value and result come from the latest proof check for that key. A key never checked keeps its earlier entry or its absence. |
| Session.ReplayProofsExpected | go/engine/id_test.go:214-247 | Starting from nil proofs, the recorded proofs are nil when no proof check was delivered. Otherwise they are exactly the map from each claimed key to its latest value. |
| Session.ReplayKeyFingerprints | go/engine/id_test.go:276-279 | The fingerprints in the key map are the earlier ones plus exactly those of the displayed keys that parse. |
| Session.ReplayTrackDiffs | go/engine/id_test.go:281-283 | The diff list is the earlier list followed by the diffs of the displayed keys that carry one, in call order. |
| Session.ReplayLatestRecorded | go/engine/id_test.go:249-338 | The user, outcome, token and invitation argument each come from the latest call that sets them. Without such a call, each keeps its earlier value. |
| Session.BrokenTrackingOutlivesOverwrite | go/engine/id_test.go:220-228 | Take a breaking result that a clean result for the same claim key later overwrites. The clean result is recorded, and the broken flag stays set. |
| Session.ReplayConsistent | go/engine/id_test.go:214-287 | From a consistent recorder, every session keeps these invariants: no more keys than display calls, and no more diffs than display calls. The two proof maps are nil together and have the same keys. |
| Session.DistinctClaimsAllRecorded | go/engine/id_test.go:214-247 | N proof checks for pairwise distinct, new claim keys leave exactly N more proof entries. |
| Session.DistinctKeysAllRecorded | go/engine/id_test.go:269-287 | N displayed keys that all parse, to pairwise distinct new fingerprints, leave exactly N more key entries. |
| Expectations.DisplayKeysExpectationExactly | go/engine/id_test.go:85-96 | Start from a fresh recorder, with any session and any parser. The display-key expectation passes iff its call count is the number of `DisplayKey` calls and its key count is the number of distinct fingerprints among the displayed keys that parse. That key count never exceeds the call count. |
| Expectations.DisplayKeysExpectationMet | go/engine/id_test.go:85-96 | The expectation passes with the call count as both numbers when every displayed key parses to its own fingerprint. Zero calls give (0, 0). |
| Expectations.KeyedProfileExactly | go/engine/id_test.go:68-83 | The profile expectation passes iff three things hold. The result user exists. The latest `LaunchNetworkChecks` announced exactly that uid and name. The expected proofs are nil for a session with no proof check, and otherwise exactly the latest value of each claimed key. |
| Expectations.ZeroClaimProfile | go/engine/id_test.go:64-83 | For a session with no proof check that announced the result user, the nil expectation passes and an empty-map expectation fails. |
| Expectations.BypassedOutcomeConfirmed | go/engine/id_test.go:249-264 | On any recorder, with the confirmation switch on or off, an outcome that bypasses confirmation is confirmed. It is confirmed remotely iff it is not expiring-local, and it is the recorded outcome. |
| Expectations.TwoClaimProfileRun | go/engine/id_test.go:98-105 | Take a run with claims github=kbtester2 and twitter=tacovontaco, one parseable key and a bypassing outcome. It passes the profile expectation with exactly those claims and the (1, 1) display-key expectation. It records one start, and the run is confirmed both locally and remotely. |
| Expectations.UnsupportedProofTypeRun | go/engine/id_test.go:168-195 | Take a run whose only claim is a `gubble.social` proof carrying the not-implemented result. The recorder holds {temporary failure, hard error, "Not implemented"} under that key. It passes the profile expectation with that one claim and the (0, 0) display-key expectation. |

## Left out

- The `sync.Mutex` of the recorder is left out, and so is the 100 ms sleep in `Confirm`. Callbacks are atomic transitions applied in sequence. For the locked callbacks, every concurrent run is then some order of the call list; the two unlocked ones are the exception below.
- `ReportTrackToken` (`go/engine/id_test.go:326-329`) and `DisplayTLFCreateWithInvite` (334-338) take no lock in Go. Concurrent calls to them race, and a concurrent `DisplayTLFCount++` can lose an update. The model treats both as atomic, so `ReplayCounts`' invitation count holds only for calls that do not overlap.
- `runIdentify` and the `TestId*` functions are left out. They drive the real identify engine, a test server, user signup and PGP import, none of which is part of this model. Only their expectations appear, as the lemmas in `Expectations`, with two of the runs as examples. The bob, charlie, doug, ellen and not-eldest-key runs have the same shapes as the alice run and are covered by `KeyedProfileExactly`, `ZeroClaimProfile` and `DisplayKeysExpectationMet`, not written out one by one.
- `libkb.ImportPGPFingerprintSlice` is not part of this model. It is a parameter `parse` of every key transition and lemma, so every statement holds for any parser.
- The `keybase1` protocol records are reduced to the fields the double reads or compares. Enum values other than the named proof states and statuses keep only their code. `reflect.DeepEqual` becomes structural equality. On the pointers involved, that compares the pointees, as `DeepEqual` does.
- The ignored arguments are not modelled: the identity of `LaunchNetworkChecks`, and the username, reason and force-display flag of `Start`.
- The recorder stores four kinds of pointer in Go: the announced `User` (314), the `Outcome` (259), the `Keys` values (278) and the `DisplayKeyDiffs` entries (282). The model stores values. `checkKeyedProfile` dereferences `User` when it runs (76), not when the user was announced. The model therefore assumes no caller mutates a pointee after handing it over. A change the engine made later would be seen by the Go test and not by the model.
- `Confirm` takes a non-nil outcome. Go would panic on a nil pointer there. The model assumes the engine never passes one; the engine's code is not part of this model.
- The counters are unbounded `nat`s. Go's `int` is 64-bit, and no test comes near its wrap-around.
- Every callback returns a nil error, so the transitions have no error result.
- These callbacks are not modelled beyond leaving the recorder unchanged in `Session.Step`: `DisplayCryptocurrency`, `ReportLastTrack`, `Cancel`, `Finish`, `Dismiss`, `DisplayTrackStatement`, `DisplayUserCard` and `SetStrict`. They are no-ops in the source.
- The callback order that a real engine must follow (`Start` before `LaunchNetworkChecks` before the proof checks before `Confirm`) is left out. The double neither enforces nor records it.
- `react-native/react/tracker/render.desktop.js` is left out. It is layout only.
