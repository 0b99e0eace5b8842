/**
  The scrobble dispatcher of the player: `AudioScrobblerService.register`
  tells the external tracking services a user has enabled (Last.fm and
  ListenBrainz) that a track is playing or has been played.

  Its collaborators are parameters of the model: the settings lookup
  (`SettingsService.getUserSettings`), the credential lookup
  (`SecurityService.getDecodableCredsForLocations`) and the registry of
  credential decoders (`GlobalSecurityConfig.ENCODERS`). Every request made
  to a collaborator and every call into a backend scrobbler is appended to
  the ghost log of the service, in the order the source makes them.
*/
module AudioScrobbling {
  import opened Wrappers

  /** The credential locations the dispatcher knows (`UserCredential.App`). */
  datatype App = LASTFM | LISTENBRAINZ

  /** A point in time, passed through to the backends unchanged. */
  type Instant = int

  datatype MediaFile = MediaFile(path: string, isVideo: bool)

  /** The two per-user flags `register` reads from the user's settings. */
  datatype UserSettings = UserSettings(lastFmEnabled: bool, listenBrainzEnabled: bool)

  /** A stored credential: the owning user, the account name at the external
      service, the stored (encoded) secret, the name of its encoder and the
      service it belongs to. */
  datatype UserCredential = UserCredential(
    username: string,
    locationUsername: string,
    credential: string,
    encoderType: string,
    location: App)

  /** What one decoder does with a stored secret: return a string (possibly
      null) or throw. */
  datatype DecoderOutcome = Returned(value: Option<string>) | Threw

  type Decoder = string -> DecoderOutcome

  /** The registry of decoders, keyed by encoder name. */
  type Encoders = map<string, Decoder>

  type SettingsLookup = string -> UserSettings

  /** The credential lookup: user name and requested locations to the
      credentials found. Nothing obliges it to return only the requested ones. */
  type CredentialLookup = (string, set<App>) -> map<App, UserCredential>

  datatype Event =
    | SettingsRequested(username: string)
    | CredentialsRequested(username: string, apps: set<App>)
    | LastFmRegistered(mediaFile: MediaFile, locationUsername: string, credential: string, submission: bool, time: Option<Instant>)
    | ListenBrainzRegistered(mediaFile: MediaFile, credential: string, submission: bool, time: Option<Instant>)

  /** `decode`: the decoder registered for the credential's encoder is applied
      to the stored secret; a missing decoder (a null dereference inside the
      `try`) and a decoder that throws both give null instead of an exception. */
  function Decode(encoders: Encoders, uc: UserCredential): (r: Option<string>)
    ensures uc.encoderType !in encoders ==> r == None
    ensures uc.encoderType in encoders && encoders[uc.encoderType](uc.credential).Threw? ==> r == None
    ensures uc.encoderType in encoders && encoders[uc.encoderType](uc.credential).Returned?
            ==> r == encoders[uc.encoderType](uc.credential).value
  {
    if uc.encoderType !in encoders then None
    else
      match encoders[uc.encoderType](uc.credential)
      case Returned(s) => s
      case Threw => None
  }

  /** `register` goes past its first check only for a non-null audio file. */
  predicate Scrobblable(mediaFile: Option<MediaFile>)
  {
    mediaFile.Some? && !mediaFile.value.isVideo
  }

  /** The set of apps the user has enabled, one flag per app. */
  function EnabledApps(settings: UserSettings): (apps: set<App>)
    ensures LASTFM in apps <==> settings.lastFmEnabled
    ensures LISTENBRAINZ in apps <==> settings.listenBrainzEnabled
  {
    (if settings.lastFmEnabled then {LASTFM} else {}) + (if settings.listenBrainzEnabled then {LISTENBRAINZ} else {})
  }

  /** The credentials `register` obtains for `username`. */
  function Credentials(username: string, settingsOf: SettingsLookup, credsFor: CredentialLookup): map<App, UserCredential>
  {
    credsFor(username, EnabledApps(settingsOf(username)))
  }

  /** A backend's scrobbler is needed (and created if absent) when the file
      is scrobblable and a credential for the backend was returned. */
  predicate NeedsScrobbler(app: App, mediaFile: Option<MediaFile>, creds: map<App, UserCredential>)
  {
    Scrobblable(mediaFile) && app in creds
  }

  /** A backend is called when, in addition, its credential decodes to a non-null string. */
  predicate Fires(app: App, mediaFile: Option<MediaFile>, creds: map<App, UserCredential>, encoders: Encoders)
  {
    NeedsScrobbler(app, mediaFile, creds) && Decode(encoders, creds[app]).Some?
  }

  /** The backend calls in a log that go to `app`, in order. */
  function CallsTo(app: App, events: seq<Event>): seq<Event>
  {
    if events == [] then []
    else (if IsCallTo(app, events[0]) then [events[0]] else []) + CallsTo(app, events[1..])
  }

  predicate IsCallTo(app: App, e: Event)
  {
    match app
    case LASTFM => e.LastFmRegistered?
    case LISTENBRAINZ => e.ListenBrainzRegistered?
  }

  lemma {:induction false} CallsToAppend(app: App, a: seq<Event>, b: seq<Event>)
    ensures CallsTo(app, a + b) == CallsTo(app, a) + CallsTo(app, b)
  {
    if a == [] {
      assert a + b == b;
    } else {
      assert (a + b)[0] == a[0];
      assert (a + b)[1..] == a[1..] + b;
      CallsToAppend(app, a[1..], b);
    }
  }

  /** Regrouping a concatenation; as a separate lemma it keeps this step
      out of the proof of `Register`, where it is expensive. */
  lemma Regroup<T>(a: seq<T>, b: seq<T>, c: seq<T>, d: seq<T>)
    ensures a + b + c + d == a + (b + c + d)
  {
  }

  /** The Last.fm part of `register`. */
  function LastFmStep(mediaFile: MediaFile, creds: map<App, UserCredential>, encoders: Encoders, submission: bool, time: Option<Instant>): seq<Event>
  {
    if LASTFM in creds && Decode(encoders, creds[LASTFM]).Some?
    then [LastFmRegistered(mediaFile, creds[LASTFM].locationUsername, creds[LASTFM].credential, submission, time)]
    else []
  }

  /** The ListenBrainz part of `register`. */
  function ListenBrainzStep(mediaFile: MediaFile, creds: map<App, UserCredential>, encoders: Encoders, submission: bool, time: Option<Instant>): seq<Event>
  {
    if LISTENBRAINZ in creds && Decode(encoders, creds[LISTENBRAINZ]).Some?
    then [ListenBrainzRegistered(mediaFile, creds[LISTENBRAINZ].credential, submission, time)]
    else []
  }

  /** Everything one `register` call asks of its collaborators and of the
      backends, in order. */
  function Trace(
    mediaFile: Option<MediaFile>, username: string, submission: bool, time: Option<Instant>,
    settingsOf: SettingsLookup, credsFor: CredentialLookup, encoders: Encoders): (r: seq<Event>)
    // A null or video file: no request, no call.
    ensures !Scrobblable(mediaFile) ==> r == []
    // Otherwise the settings, then the credentials for exactly the enabled apps.
    ensures Scrobblable(mediaFile) ==>
              2 <= |r| <= 4 && r[0] == SettingsRequested(username)
              && r[1] == CredentialsRequested(username, EnabledApps(settingsOf(username)))
  {
    if !Scrobblable(mediaFile) then []
    else
      var creds := Credentials(username, settingsOf, credsFor);
      [SettingsRequested(username), CredentialsRequested(username, EnabledApps(settingsOf(username)))]
      + LastFmStep(mediaFile.value, creds, encoders, submission, time)
      + ListenBrainzStep(mediaFile.value, creds, encoders, submission, time)
  }

  /** Last.fm gets exactly one call, with its account name and its stored
      (not the decoded) credential, iff it fires; otherwise none. */
  lemma LastFmCalledIffFires(
    mediaFile: Option<MediaFile>, username: string, submission: bool, time: Option<Instant>,
    settingsOf: SettingsLookup, credsFor: CredentialLookup, encoders: Encoders)
    ensures var creds := Credentials(username, settingsOf, credsFor);
            CallsTo(LASTFM, Trace(mediaFile, username, submission, time, settingsOf, credsFor, encoders))
            == if Fires(LASTFM, mediaFile, creds, encoders)
               then [LastFmRegistered(mediaFile.value, creds[LASTFM].locationUsername, creds[LASTFM].credential, submission, time)]
               else []
  {
    TraceCalls(LASTFM, mediaFile, username, submission, time, settingsOf, credsFor, encoders);
  }

  /** ListenBrainz gets exactly one call, with its stored credential, iff it
      fires; otherwise none. */
  lemma ListenBrainzCalledIffFires(
    mediaFile: Option<MediaFile>, username: string, submission: bool, time: Option<Instant>,
    settingsOf: SettingsLookup, credsFor: CredentialLookup, encoders: Encoders)
    ensures var creds := Credentials(username, settingsOf, credsFor);
            CallsTo(LISTENBRAINZ, Trace(mediaFile, username, submission, time, settingsOf, credsFor, encoders))
            == if Fires(LISTENBRAINZ, mediaFile, creds, encoders)
               then [ListenBrainzRegistered(mediaFile.value, creds[LISTENBRAINZ].credential, submission, time)]
               else []
  {
    TraceCalls(LISTENBRAINZ, mediaFile, username, submission, time, settingsOf, credsFor, encoders);
  }

  /** The calls to `app` in a trace are those of that backend's own step. */
  lemma TraceCalls(
    app: App, mediaFile: Option<MediaFile>, username: string, submission: bool, time: Option<Instant>,
    settingsOf: SettingsLookup, credsFor: CredentialLookup, encoders: Encoders)
    ensures Scrobblable(mediaFile) ==>
              var creds := Credentials(username, settingsOf, credsFor);
              var lastFm := LastFmStep(mediaFile.value, creds, encoders, submission, time);
              var listenBrainz := ListenBrainzStep(mediaFile.value, creds, encoders, submission, time);
              CallsTo(app, Trace(mediaFile, username, submission, time, settingsOf, credsFor, encoders))
              == CallsTo(app, lastFm) + CallsTo(app, listenBrainz)
    ensures !Scrobblable(mediaFile) ==> CallsTo(app, Trace(mediaFile, username, submission, time, settingsOf, credsFor, encoders)) == []
  {
    if Scrobblable(mediaFile) {
      var creds := Credentials(username, settingsOf, credsFor);
      var requests := [SettingsRequested(username), CredentialsRequested(username, EnabledApps(settingsOf(username)))];
      var lastFm := LastFmStep(mediaFile.value, creds, encoders, submission, time);
      var listenBrainz := ListenBrainzStep(mediaFile.value, creds, encoders, submission, time);
      CallsToAppend(app, requests + lastFm, listenBrainz);
      CallsToAppend(app, requests, lastFm);
      assert CallsTo(app, requests) == [] by {
        assert requests[1..][1..] == [];
      }
    }
  }

  /** `register` does nothing besides the two requests and the backend
      calls, and Last.fm is called before ListenBrainz. */
  lemma TraceOnlyRequestsAndCallsInOrder(
    mediaFile: Option<MediaFile>, username: string, submission: bool, time: Option<Instant>,
    settingsOf: SettingsLookup, credsFor: CredentialLookup, encoders: Encoders)
    ensures var r := Trace(mediaFile, username, submission, time, settingsOf, credsFor, encoders);
            |r| == (if Scrobblable(mediaFile) then 2 else 0) + |CallsTo(LASTFM, r)| + |CallsTo(LISTENBRAINZ, r)|
    ensures var r := Trace(mediaFile, username, submission, time, settingsOf, credsFor, encoders);
            forall i, j :: 0 <= i < |r| && 0 <= j < |r| && r[i].LastFmRegistered? && r[j].ListenBrainzRegistered? ==> i < j
  {
    LastFmCalledIffFires(mediaFile, username, submission, time, settingsOf, credsFor, encoders);
    ListenBrainzCalledIffFires(mediaFile, username, submission, time, settingsOf, credsFor, encoders);
    if Scrobblable(mediaFile) {
      var r := Trace(mediaFile, username, submission, time, settingsOf, credsFor, encoders);
      var creds := Credentials(username, settingsOf, credsFor);
      var lastFm := LastFmStep(mediaFile.value, creds, encoders, submission, time);
      var listenBrainz := ListenBrainzStep(mediaFile.value, creds, encoders, submission, time);
      assert r == [r[0], r[1]] + lastFm + listenBrainz;
      // Last.fm's call, if any, sits at index 2 and ListenBrainz's at the end.
      forall k | 2 <= k < |r|
        ensures r[k].LastFmRegistered? ==> k == 2
        ensures r[k].ListenBrainzRegistered? ==> k == |r| - 1 && k == 2 + |lastFm|
      {
        if k < 2 + |lastFm| {
          assert r[k] == lastFm[k - 2];
        } else {
          assert r[k] == listenBrainz[k - 2 - |lastFm|];
        }
      }
    }
  }

  /** A user whose credential lookup honours the request and who has enabled
      neither backend causes no backend call. */
  lemma NothingEnabledNoCalls(
    mediaFile: Option<MediaFile>, username: string, submission: bool, time: Option<Instant>,
    settingsOf: SettingsLookup, credsFor: CredentialLookup, encoders: Encoders)
    requires !settingsOf(username).lastFmEnabled && !settingsOf(username).listenBrainzEnabled
    requires credsFor(username, {}).Keys == {}
    ensures var r := Trace(mediaFile, username, submission, time, settingsOf, credsFor, encoders);
            CallsTo(LASTFM, r) == [] && CallsTo(LISTENBRAINZ, r) == []
  {
    assert EnabledApps(settingsOf(username)) == {};
    LastFmCalledIffFires(mediaFile, username, submission, time, settingsOf, credsFor, encoders);
    ListenBrainzCalledIffFires(mediaFile, username, submission, time, settingsOf, credsFor, encoders);
  }

  /** A failed decode of the Last.fm credential does not keep ListenBrainz
      from being called: its call depends on its own credential only. */
  lemma ListenBrainzIndependentOfLastFm(
    mediaFile: Option<MediaFile>, username: string, submission: bool, time: Option<Instant>,
    settingsOf: SettingsLookup, credsFor: CredentialLookup, credsFor': CredentialLookup, encoders: Encoders)
    requires var creds, creds' := Credentials(username, settingsOf, credsFor), Credentials(username, settingsOf, credsFor');
             (LISTENBRAINZ in creds <==> LISTENBRAINZ in creds')
             && (LISTENBRAINZ in creds ==> creds[LISTENBRAINZ] == creds'[LISTENBRAINZ])
    ensures CallsTo(LISTENBRAINZ, Trace(mediaFile, username, submission, time, settingsOf, credsFor, encoders))
         == CallsTo(LISTENBRAINZ, Trace(mediaFile, username, submission, time, settingsOf, credsFor', encoders))
  {
    ListenBrainzCalledIffFires(mediaFile, username, submission, time, settingsOf, credsFor, encoders);
    ListenBrainzCalledIffFires(mediaFile, username, submission, time, settingsOf, credsFor', encoders);
  }

  /** The same independence in the other direction. */
  lemma LastFmIndependentOfListenBrainz(
    mediaFile: Option<MediaFile>, username: string, submission: bool, time: Option<Instant>,
    settingsOf: SettingsLookup, credsFor: CredentialLookup, credsFor': CredentialLookup, encoders: Encoders)
    requires var creds, creds' := Credentials(username, settingsOf, credsFor), Credentials(username, settingsOf, credsFor');
             (LASTFM in creds <==> LASTFM in creds')
             && (LASTFM in creds ==> creds[LASTFM] == creds'[LASTFM])
    ensures CallsTo(LASTFM, Trace(mediaFile, username, submission, time, settingsOf, credsFor, encoders))
         == CallsTo(LASTFM, Trace(mediaFile, username, submission, time, settingsOf, credsFor', encoders))
  {
    LastFmCalledIffFires(mediaFile, username, submission, time, settingsOf, credsFor, encoders);
    LastFmCalledIffFires(mediaFile, username, submission, time, settingsOf, credsFor', encoders);
  }

  /** The Last.fm client (`LastFMScrobbler`); its network protocol is not part of this model. */
  class LastFMScrobbler {
    constructor ()
    {
    }
  }

  /** The ListenBrainz client (`ListenBrainzScrobbler`); its network protocol is not part of this model. */
  class ListenBrainzScrobbler {
    constructor ()
    {
    }
  }

  class AudioScrobblerService {
    /** Created on first use, then kept for the lifetime of the service. */
    var lastFMScrobbler: LastFMScrobbler?
    var listenBrainzScrobbler: ListenBrainzScrobbler?

    /** Requests to the collaborators and calls into the backends so far. */
    ghost var log: seq<Event>

    constructor ()
      ensures lastFMScrobbler == null && listenBrainzScrobbler == null
      ensures log == []
    {
      lastFMScrobbler := null;
      listenBrainzScrobbler := null;
      log := [];
    }

    /** `register(mediaFile, username, submission, time)`, with the
        collaborators' answers for this call given as functions. */
    method Register(
      mediaFile: Option<MediaFile>, username: string, submission: bool, time: Option<Instant>,
      settingsOf: SettingsLookup, credsFor: CredentialLookup, encoders: Encoders)
      modifies this
      ensures log == old(log) + Trace(mediaFile, username, submission, time, settingsOf, credsFor, encoders)
      // A scrobbler that exists is kept; a missing one is created exactly
      // when its credential is present, whether or not that credential decodes.
      ensures old(lastFMScrobbler) != null ==> lastFMScrobbler == old(lastFMScrobbler)
      ensures NeedsScrobbler(LASTFM, mediaFile, Credentials(username, settingsOf, credsFor))
              ==> lastFMScrobbler != null && (old(lastFMScrobbler) == null ==> fresh(lastFMScrobbler))
      ensures !NeedsScrobbler(LASTFM, mediaFile, Credentials(username, settingsOf, credsFor))
              ==> lastFMScrobbler == old(lastFMScrobbler)
      ensures old(listenBrainzScrobbler) != null ==> listenBrainzScrobbler == old(listenBrainzScrobbler)
      ensures NeedsScrobbler(LISTENBRAINZ, mediaFile, Credentials(username, settingsOf, credsFor))
              ==> listenBrainzScrobbler != null && (old(listenBrainzScrobbler) == null ==> fresh(listenBrainzScrobbler))
      ensures !NeedsScrobbler(LISTENBRAINZ, mediaFile, Credentials(username, settingsOf, credsFor))
              ==> listenBrainzScrobbler == old(listenBrainzScrobbler)
    {
      if mediaFile.None? || mediaFile.value.isVideo {
        return;
      }
      var media := mediaFile.value;

      var userSettings := settingsOf(username);
      log := log + [SettingsRequested(username)];

      var enabledApps: set<App> := {};
      if userSettings.lastFmEnabled {
        enabledApps := enabledApps + {LASTFM};
      }
      if userSettings.listenBrainzEnabled {
        enabledApps := enabledApps + {LISTENBRAINZ};
      }
      assert enabledApps == EnabledApps(userSettings);

      var creds := credsFor(username, enabledApps);
      assert creds == Credentials(username, settingsOf, credsFor);
      log := log + [CredentialsRequested(username, enabledApps)];
      ghost var requests := [SettingsRequested(username), CredentialsRequested(username, enabledApps)];
      assert log == old(log) + requests;
      ghost var requested := log;

      RegisterWithLastFm(media, creds, encoders, submission, time);
      ghost var afterLastFm := log;
      RegisterWithListenBrainz(media, creds, encoders, submission, time);

      ghost var lastFm := LastFmStep(media, creds, encoders, submission, time);
      ghost var listenBrainz := ListenBrainzStep(media, creds, encoders, submission, time);
      assert Trace(mediaFile, username, submission, time, settingsOf, credsFor, encoders) == requests + lastFm + listenBrainz;
      calc {
        log;
        afterLastFm + listenBrainz;
        (old(log) + requests + lastFm) + listenBrainz;
        { Regroup(old(log), requests, lastFm, listenBrainz); }
        old(log) + (requests + lastFm + listenBrainz);
      }
    }

    /** The Last.fm block of `register`: given a Last.fm credential, create
        the scrobbler if there is none yet, then decode the credential and
        call the scrobbler only if that gave a non-null string. */
    method RegisterWithLastFm(media: MediaFile, creds: map<App, UserCredential>, encoders: Encoders, submission: bool, time: Option<Instant>)
      modifies this
      ensures log == old(log) + LastFmStep(media, creds, encoders, submission, time)
      ensures listenBrainzScrobbler == old(listenBrainzScrobbler)
      ensures old(lastFMScrobbler) != null ==> lastFMScrobbler == old(lastFMScrobbler)
      ensures LASTFM in creds ==> lastFMScrobbler != null && (old(lastFMScrobbler) == null ==> fresh(lastFMScrobbler))
      ensures LASTFM !in creds ==> lastFMScrobbler == old(lastFMScrobbler)
    {
      if LASTFM in creds {
        var cred := creds[LASTFM];
        if lastFMScrobbler == null {
          lastFMScrobbler := new LastFMScrobbler();
        }
        var decoded := Decode(encoders, cred);
        if decoded.Some? {
          log := log + [LastFmRegistered(media, cred.locationUsername, cred.credential, submission, time)];
        }
      }
    }

    /** The ListenBrainz block of `register`, the same as the Last.fm one
        except that the account name is not passed on. */
    method RegisterWithListenBrainz(media: MediaFile, creds: map<App, UserCredential>, encoders: Encoders, submission: bool, time: Option<Instant>)
      modifies this
      ensures log == old(log) + ListenBrainzStep(media, creds, encoders, submission, time)
      ensures lastFMScrobbler == old(lastFMScrobbler)
      ensures old(listenBrainzScrobbler) != null ==> listenBrainzScrobbler == old(listenBrainzScrobbler)
      ensures LISTENBRAINZ in creds ==> listenBrainzScrobbler != null && (old(listenBrainzScrobbler) == null ==> fresh(listenBrainzScrobbler))
      ensures LISTENBRAINZ !in creds ==> listenBrainzScrobbler == old(listenBrainzScrobbler)
    {
      if LISTENBRAINZ in creds {
        var cred := creds[LISTENBRAINZ];
        if listenBrainzScrobbler == null {
          listenBrainzScrobbler := new ListenBrainzScrobbler();
        }
        var decoded := Decode(encoders, cred);
        if decoded.Some? {
          log := log + [ListenBrainzRegistered(media, cred.credential, submission, time)];
        }
      }
    }
  }
}
