# Airsonic scrobble dispatch and Sonos link, in Dafny

This project models two pieces of the Airsonic media server.

**`AudioScrobblerService`** decides, for each playback event, which external
tracking services ("scrobblers") hear about it. `register(mediaFile,
username, submission, time)`:

1. drops a null or video media file;
2. builds the set of apps the user has enabled from two flags of the user's
   settings (Last.fm, ListenBrainz);
3. asks the security service for the user's credentials for exactly that set;
4. for Last.fm and then ListenBrainz, if a credential came back, creates the
   backend's scrobbler on first use, decodes the credential, and calls the
   scrobbler only if decoding gave a non-null string.

`decode` looks up the decoder for the credential's encoder and turns any
exception into null, including the null dereference a missing decoder
causes.

The service is the class `AudioScrobbling.AudioScrobblerService`. It has the
two lazily created scrobbler fields of the source and a ghost `log`. The log
records, in order, the settings request, the credential request (with the
requested set) and every call into a scrobbler with its arguments.
`Register` is proved against the pure function `Trace`, which gives the
events of one call. The lemmas about `Trace` state who is called, with which
arguments, in which order, and what a failed decode does not affect. The two
inline backend blocks of `register` are the methods `RegisterWithLastFm` and
`RegisterWithListenBrainz`. The collaborators are parameters of `Register`:
the settings lookup, the credential lookup and the decoder registry.

**`SonosLink`** is an immutable (username, householdId, linkcode) triple.
`SonosLinks.LinkFields` holds its three `String` fields, with `None` for
`null`. The constructor `New` rejects null arguments with the source's
messages and returns the subset type `SonosLink` (no null field). `Equals`
and `HashCode` are modelled on any `LinkFields`, null branches included.
Java `int` arithmetic (wrap-around modulo 2^32) and `String.hashCode` (a fold
over UTF-16 code units) are in the module `JavaInt`.

Notes on the code's behaviour, which the model follows:
- Each backend gets the stored credential (`cred.getCredential()`), not the
  decoded string. The decoded string only decides whether the call happens.
- `register` reads the user's settings without a null check
  (AudioScrobblerService.java:82), so the settings lookup always returns a
  record.
- The credential map is not filtered to the requested apps. A Last.fm
  credential returned for a user who disabled Last.fm is still used.
- A scrobbler is created as soon as its credential is present, before and
  independently of decoding.

## Model

| member | source | states |
|---|---|---|
| `AudioScrobbling.Decode` | airsonic-main/src/main/java/org/airsonic/player/service/AudioScrobblerService.java:54-62 | a missing decoder and a decoder that throws both give null (`None`); otherwise the result is the decoder's return value |
| `AudioScrobbling.EnabledApps` | airsonic-main/src/main/java/org/airsonic/player/service/AudioScrobblerService.java:81-88 | the enabled set holds LASTFM iff Last.fm is enabled and LISTENBRAINZ iff ListenBrainz is enabled |
| `AudioScrobbling.Trace` | airsonic-main/src/main/java/org/airsonic/player/service/AudioScrobblerService.java:74-90 | a null or video file causes no request and no call; otherwise the settings are requested first, then credentials for exactly the enabled set, and at most two further events follow |
| `AudioScrobbling.LastFmCalledIffFires` | airsonic-main/src/main/java/org/airsonic/player/service/AudioScrobblerService.java:92-101 | Last.fm gets exactly one call iff the file is audio, a Last.fm credential was returned and it decodes to non-null; the call carries the file, the account name, the stored (not decoded) credential, and `submission` and `time` unchanged; otherwise Last.fm gets no call |
| `AudioScrobbling.ListenBrainzCalledIffFires` | airsonic-main/src/main/java/org/airsonic/player/service/AudioScrobblerService.java:103-112 | ListenBrainz gets exactly one call iff its credential was returned and decodes to non-null; the call carries the file, the stored credential, `submission` and `time`; otherwise no call |
| `AudioScrobbling.TraceCalls` | airsonic-main/src/main/java/org/airsonic/player/service/AudioScrobblerService.java:92-112 | the calls to a backend in one `register` are exactly those of the two backend blocks; a dropped file gives none |
| `AudioScrobbling.TraceOnlyRequestsAndCallsInOrder` | airsonic-main/src/main/java/org/airsonic/player/service/AudioScrobblerService.java:74-113 | `register` does nothing besides the two requests and the backend calls, and a Last.fm call always comes before a ListenBrainz call |
| `AudioScrobbling.NothingEnabledNoCalls` | airsonic-main/src/main/java/org/airsonic/player/service/AudioScrobblerService.java:81-90 | with both flags off and a credential lookup that returns nothing for the empty request, no backend is called |
| `AudioScrobbling.ListenBrainzIndependentOfLastFm` | airsonic-main/src/main/java/org/airsonic/player/service/AudioScrobblerService.java:92-112 | ListenBrainz's calls depend only on its own credential: a missing or undecodable Last.fm credential does not change them |
| `AudioScrobbling.LastFmIndependentOfListenBrainz` | airsonic-main/src/main/java/org/airsonic/player/service/AudioScrobblerService.java:92-112 | Last.fm's calls depend only on its own credential |
| `AudioScrobbling.CallsToAppend` | airsonic-main/src/main/java/org/airsonic/player/service/AudioScrobblerService.java:92-112 | the calls to one backend in two consecutive stretches of the log are the calls of the first followed by those of the second |
| `AudioScrobbling.AudioScrobblerService.constructor` | airsonic-main/src/main/java/org/airsonic/player/service/AudioScrobblerService.java:47-48 | a new service has no scrobbler yet and an empty log |
| `AudioScrobbling.AudioScrobblerService.Register` | airsonic-main/src/main/java/org/airsonic/player/service/AudioScrobblerService.java:74-113 | the log grows by exactly `Trace` of the call; a scrobbler that exists is kept (later calls reuse it); a missing one is freshly created exactly when its credential was returned, even if it then fails to decode, and otherwise stays absent |
| `AudioScrobbling.AudioScrobblerService.RegisterWithLastFm` | airsonic-main/src/main/java/org/airsonic/player/service/AudioScrobblerService.java:92-101 | the Last.fm block appends its one call or nothing, creates the Last.fm scrobbler when a credential is present and none exists, and leaves the ListenBrainz scrobbler alone |
| `AudioScrobbling.AudioScrobblerService.RegisterWithListenBrainz` | airsonic-main/src/main/java/org/airsonic/player/service/AudioScrobblerService.java:103-112 | the ListenBrainz block does the same for ListenBrainz and leaves the Last.fm scrobbler alone |
| `SonosLinks.New` | airsonic-main/src/main/java/org/airsonic/player/domain/SonosLink.java:10-17 | construction succeeds iff all three arguments are non-null; otherwise it fails with the message of the first null one, checked in the order username, householdId, linkcode; on success the getters give back the arguments |
| `SonosLinks.GetUsername` | airsonic-main/src/main/java/org/airsonic/player/domain/SonosLink.java:19-21 | returns the stored username |
| `SonosLinks.GetHouseholdId` | airsonic-main/src/main/java/org/airsonic/player/domain/SonosLink.java:23-25 | returns the stored householdId |
| `SonosLinks.GetLinkcode` | airsonic-main/src/main/java/org/airsonic/player/domain/SonosLink.java:27-29 | returns the stored linkcode |
| `SonosLinks.Equals` | airsonic-main/src/main/java/org/airsonic/player/domain/SonosLink.java:41-66 | `equals` is true iff the argument is a `SonosLink` whose householdId, linkcode and username are pairwise equal, with null equal only to null |
| `SonosLinks.EqualsReflexive` | airsonic-main/src/main/java/org/airsonic/player/domain/SonosLink.java:43-44 | every link equals itself |
| `SonosLinks.EqualsRejectsNullAndOtherClasses` | airsonic-main/src/main/java/org/airsonic/player/domain/SonosLink.java:45-48 | `equals(null)` and `equals` on an object of another class are false |
| `SonosLinks.EqualsSymmetric` | airsonic-main/src/main/java/org/airsonic/player/domain/SonosLink.java:49-65 | `equals` is symmetric |
| `SonosLinks.EqualsTransitive` | airsonic-main/src/main/java/org/airsonic/player/domain/SonosLink.java:49-65 | `equals` is transitive |
| `SonosLinks.HashCode` | airsonic-main/src/main/java/org/airsonic/player/domain/SonosLink.java:31-39 | the step-by-step wrapping fold equals `31*(31*(31*1 + h(householdId)) + h(linkcode)) + h(username)` evaluated exactly and reduced once to a 32-bit signed int, where a null field contributes 0 |
| `SonosLinks.HashCodeOfLink` | airsonic-main/src/main/java/org/airsonic/player/domain/SonosLink.java:31-39 | for a constructed link the hash code is `31^3 + 31^2*P(householdId) + 31*P(linkcode) + P(username)` modulo 2^32 as a signed int, where `P` is the documented `String.hashCode` polynomial |
| `SonosLinks.FieldWeightsCongruent` | airsonic-main/src/main/java/org/airsonic/player/domain/SonosLink.java:35-37 | replacing each field hash by a value congruent modulo 2^32 does not change the hash code |
| `SonosLinks.EqualLinksHaveEqualHashCodes` | airsonic-main/src/main/java/org/airsonic/player/domain/SonosLink.java:31-66 | equal links have equal hash codes |
| `JavaInt.Wrap` | airsonic-main/src/main/java/org/airsonic/player/domain/SonosLink.java:33-38 | a Java `int` result is the in-range value congruent to the exact result modulo 2^32 |
| `JavaInt.WrapUnique` | airsonic-main/src/main/java/org/airsonic/player/domain/SonosLink.java:33-38 | that in-range value is unique |
| `JavaInt.FoldStep` | airsonic-main/src/main/java/org/airsonic/player/domain/SonosLink.java:35-37 | one step `result = 31 * result + x` gives the same `int` whether or not `result` was wrapped before |
| `JavaInt.StringHashIsPolynomial` | airsonic-main/src/main/java/org/airsonic/player/domain/SonosLink.java:35-37 | the `String.hashCode` each field contributes, computed by the wrapping fold `h = 31*h + c`, equals `s[0]*31^(n-1) + ... + s[n-1]` modulo 2^32 |
| `JavaInt.HashPolynomialSnoc` | airsonic-main/src/main/java/org/airsonic/player/domain/SonosLink.java:35-37 | appending a code unit multiplies the hash polynomial by 31 and adds the unit (Horner's rule) |

## Left out

- The `synchronized` modifier on `register` and the thread safety of the lazy fields: `Register` is sequential.
- The asynchrony of the scrobblers, their network protocols and their own handling of a null `time`. `LastFMScrobbler` and `ListenBrainzScrobbler` are not part of this model; each call into them is an entry in the ghost log, and `time` is passed through as given.
- The concrete decoders of `GlobalSecurityConfig.ENCODERS`: the registry is a map from encoder name to an arbitrary decoder function. The `ClassCastException` of the `PasswordDecoder` cast (AudioScrobblerService.java:55), which is thrown outside the `try`, is not modelled.
- `SettingsService.getUserSettings` and `SecurityService.getDecodableCredsForLocations` are parameters of `Register`. A null `UserSettings`, which would make `register` throw, is not modelled.
- The array of apps passed to `getDecodableCredsForLocations` is modelled as the set it is built from; the order of that array is not kept.
- Logging in `decode` (AudioScrobblerService.java:59) and the Spring wiring and setters (AudioScrobblerService.java:49-52, 115-121).
- `MediaFile` and `Instant` are opaque: only `isVideo` is read, and the values are passed on unchanged.
- `SonosLinks.Equals`: the `this == obj` shortcut is not modelled as reference identity, because links are values here. An object is always structurally equal to itself, so the result is the same.
