/** The `sso:login` command (src/Command/SsoLogin.php): check the selected
    profile, reuse a cached access token while it is valid, otherwise obtain
    client credentials (cached or newly registered), run the OAuth 2.0 device
    authorization grant of RFC 8628 and cache the token it yields.

    The identity provider is a script of replies, the cache directory is a
    map from path to decoded file, the clock is a pair of parameters and the
    date parsing and formatting of the SDK are uninterpreted functions. */
module SsoLogin {
  import opened Php
  import Files
  import Profiles

  const DefaultIntervalSec: nat := 5
  const UpdateDelaySec: nat := 1
  const RequiredFields: seq<string> := ["sso_start_url", "sso_region", "sso_role_name", "sso_account_id"]
  /** The grant type of a device access token request (RFC 8628, section 3.4). */
  const DeviceCodeGrantType: string := "urn:ietf:params:oauth:grant-type:device_code"
  const PendingCode: string := "AuthorizationPendingException"
  const SlowDownCode: string := "SlowDownException"
  const ExpiredCode: string := "ExpiredTokenException"

  /** What the command takes from PHP and the SDK's date handling: reading a
      timestamp from text (None where DateTimeResult throws), writing one as
      text (DateTimeResult::__toString), and PHP's reading of numeric strings
      in comparisons. */
  datatype Runtime = Runtime(parse: string -> Option<int>, format: int -> string, numeric: string -> Option<real>)

  /** Formatting a timestamp yields a non-empty text that parses back to it,
      as ISO 8601 output of DateTimeResult does. */
  ghost predicate FormatReadsBack(rt: Runtime)
  {
    forall t: int :: Truthy(rt.format(t)) && rt.parse(rt.format(t)) == Some(t)
  }

  // ---------------------------------------------------------------------
  // Validity of cached secrets

  /** isValidAccessToken: present, with a non-empty token and a non-empty,
      parsable expiry that lies strictly after now. */
  predicate IsValidAccessToken(token: Option<Record>, now: int, rt: Runtime)
  {
    match token
    case None => false
    case Some(t) =>
      if EmptyAt(t, "accessToken") || EmptyAt(t, "expiresAt") then false
      else match t["expiresAt"]
        case Str(text) => (match rt.parse(text) case Some(expiry) => expiry > now case None => false)
        case _ => false
  }

  /** isValidClientCredentials: present, with non-empty id, secret and
      expiry, the expiry comparing greater than now. */
  predicate IsValidClientCredentials(creds: Option<Record>, now: int, rt: Runtime)
  {
    match creds
    case None => false
    case Some(c) =>
      && !EmptyAt(c, "clientId")
      && !EmptyAt(c, "clientSecret")
      && !EmptyAt(c, "clientSecretExpiresAt")
      && GreaterThanInt(c["clientSecretExpiresAt"], now, rt.numeric)
  }

  lemma EmptyTokenFieldsAreInvalid(t: Record, now: int, rt: Runtime)
    ensures EmptyAt(t, "accessToken") ==> !IsValidAccessToken(Some(t), now, rt)
    ensures EmptyAt(t, "expiresAt") ==> !IsValidAccessToken(Some(t), now, rt)
    ensures "expiresAt" in t && t["expiresAt"] == Str("0") ==> !IsValidAccessToken(Some(t), now, rt)
    ensures !IsValidAccessToken(None, now, rt)
  {
  }

  /** A token whose expiry parses is valid exactly while the expiry is
      strictly in the future; one that expires at this very second is not. */
  lemma TokenValidIffExpiryAfterNow(t: Record, now: int, rt: Runtime, text: string, expiry: int)
    requires !EmptyAt(t, "accessToken")
    requires "expiresAt" in t && t["expiresAt"] == Str(text) && Truthy(text)
    requires rt.parse(text) == Some(expiry)
    ensures IsValidAccessToken(Some(t), now, rt) <==> expiry > now
    ensures IsValidAccessToken(Some(t), expiry, rt) == false
  {
  }

  lemma UnparsableExpiryIsInvalid(t: Record, now: int, rt: Runtime, text: string)
    requires "expiresAt" in t && t["expiresAt"] == Str(text)
    requires rt.parse(text) == None
    ensures !IsValidAccessToken(Some(t), now, rt)
  {
  }

  /** Credentials with an integer expiry are valid exactly when id, secret
      and expiry are non-empty and the expiry is strictly after now. */
  lemma CredentialsValidIffExpiryAfterNow(c: Record, now: int, rt: Runtime, expiry: int)
    requires "clientSecretExpiresAt" in c && c["clientSecretExpiresAt"] == Int(expiry)
    ensures IsValidClientCredentials(Some(c), now, rt) <==>
      !EmptyAt(c, "clientId") && !EmptyAt(c, "clientSecret") && expiry != 0 && expiry > now
  {
  }

  /** A clientSecretExpiresAt that is a word rather than a number (say
      "never") never lets the credentials expire: PHP 8 compares it with
      time() as a string, and letters sort after digits. */
  lemma WordExpiryNeverExpires(c: Record, now: nat, rt: Runtime, word: string)
    requires !EmptyAt(c, "clientId") && !EmptyAt(c, "clientSecret")
    requires "clientSecretExpiresAt" in c && c["clientSecretExpiresAt"] == Str(word)
    requires rt.numeric(word) == None && word != [] && word[0] > '9'
    ensures IsValidClientCredentials(Some(c), now, rt)
  {
    WordExceedsEveryNat(word, now, rt.numeric);
  }

  // ---------------------------------------------------------------------
  // The cache files

  /** The SSO cache directory: each file the command reads or writes, by
      path, as json_decode returns it. A missing or unreadable file is
      absent. */
  type Disk = map<string, Record>

  /** readAccessToken */
  function ReadAccessToken(disk: Disk, cfg: Files.Config, startUrl: string): Option<Record>
  {
    var path := Files.AccessToken(cfg, startUrl);
    if path in disk then Some(disk[path]) else None
  }

  /** readClientCredentials; the region does not enter the path. */
  function ReadClientCredentials(disk: Disk, cfg: Files.Config, region: string): Option<Record>
  {
    var path := Files.ClientCredentials(cfg);
    if path in disk then Some(disk[path]) else None
  }

  /** The cache after writeAccessToken: the file named by the record's own
      start URL holds the record. */
  function WithAccessToken(disk: Disk, cfg: Files.Config, token: Record): Disk
    requires "startUrl" in token && token["startUrl"].Str?
  {
    disk[Files.AccessToken(cfg, token["startUrl"].s) := token]
  }

  /** The cache after writeClientCredentials. */
  function WithClientCredentials(disk: Disk, cfg: Files.Config, region: string, creds: Record): Disk
  {
    disk[Files.ClientCredentials(cfg) := creds]
  }

  /** The files on disk, changed in place by the write helpers. */
  class FileStore {
    var disk: Disk

    constructor(disk: Disk)
      ensures this.disk == disk
    {
      this.disk := disk;
    }
  }

  method WriteAccessToken(store: FileStore, cfg: Files.Config, token: Record)
    requires "startUrl" in token && token["startUrl"].Str?
    modifies store
    ensures store.disk == WithAccessToken(old(store.disk), cfg, token)
  {
    store.disk := store.disk[Files.AccessToken(cfg, token["startUrl"].s) := token];
  }

  method WriteClientCredentials(store: FileStore, cfg: Files.Config, region: string, creds: Record)
    modifies store
    ensures store.disk == WithClientCredentials(old(store.disk), cfg, region, creds)
  {
    store.disk := store.disk[Files.ClientCredentials(cfg) := creds];
  }

  /** Reading back the token for the record's own start URL returns it. */
  lemma AccessTokenReadsBack(disk: Disk, cfg: Files.Config, token: Record, startUrl: string)
    requires "startUrl" in token && token["startUrl"] == Str(startUrl)
    ensures ReadAccessToken(WithAccessToken(disk, cfg, token), cfg, startUrl) == Some(token)
  {
  }

  /** Writing a token leaves the token of every start URL with another
      digest as it was, and leaves the client credentials alone when the
      digest is a sha1 hex digest. */
  lemma AccessTokenWriteIsolated(disk: Disk, cfg: Files.Config, token: Record, startUrl: string, other: string)
    requires "startUrl" in token && token["startUrl"] == Str(startUrl)
    ensures cfg.hash(other) != cfg.hash(startUrl) ==>
      ReadAccessToken(WithAccessToken(disk, cfg, token), cfg, other) == ReadAccessToken(disk, cfg, other)
    ensures Files.IsHexDigest(cfg.hash(startUrl)) ==> forall region ::
      ReadClientCredentials(WithAccessToken(disk, cfg, token), cfg, region) == ReadClientCredentials(disk, cfg, region)
  {
    Files.AccessTokenPathIdentifiesHash(cfg, other, startUrl);
    if Files.IsHexDigest(cfg.hash(startUrl)) {
      Files.TokenFileIsNotCredentialsFile(cfg, startUrl);
    }
  }

  /** Client credentials are one file for all regions: what is written for
      one region is what is read for any other. */
  lemma CredentialsSharedAcrossRegions(disk: Disk, cfg: Files.Config, creds: Record, written: string, read: string)
    ensures ReadClientCredentials(WithClientCredentials(disk, cfg, written, creds), cfg, read) == Some(creds)
    ensures ReadClientCredentials(disk, cfg, written) == ReadClientCredentials(disk, cfg, read)
  {
  }

  // ---------------------------------------------------------------------
  // The profile check

  /** `isset($profileData[$field])`; a profile that was not found is null,
      so none of its fields is set. */
  predicate IsSet(profile: Option<Profiles.ProfileData>, field: string)
  {
    profile.Some? && field in profile.value
  }

  function MissingMessage(field: string): string
  {
    "Missing required field \"" + field + "\" in profile."
  }

  /** The fields of `fields` that the profile does not set, in order. */
  function Missing(profile: Option<Profiles.ProfileData>, fields: seq<string>): (r: seq<string>)
    ensures |r| <= |fields|
    ensures forall f :: f in r <==> f in fields && !IsSet(profile, f)
    decreases |fields|
  {
    if fields == [] then []
    else
      var init, last := fields[..|fields| - 1], fields[|fields| - 1];
      assert fields == init + [last];
      Missing(profile, init) + (if IsSet(profile, last) then [] else [last])
  }

  function Messages(fields: seq<string>): (r: seq<string>)
    ensures |r| == |fields|
    ensures forall i :: 0 <= i < |fields| ==> r[i] == MissingMessage(fields[i])
  {
    seq(|fields|, i requires 0 <= i < |fields| => MissingMessage(fields[i]))
  }

  lemma MessagesOfSnoc(fields: seq<string>, f: string)
    ensures Messages(fields + [f]) == Messages(fields) + [MissingMessage(f)]
  {
  }

  /** The foreach over the required fields: one message per field the
      profile lacks, in the order of the required fields. */
  method CheckProfile(profile: Option<Profiles.ProfileData>) returns (valid: bool, errors: seq<string>)
    ensures valid <==> forall f :: f in RequiredFields ==> IsSet(profile, f)
    ensures valid <==> errors == []
    ensures errors == Messages(Missing(profile, RequiredFields))
  {
    valid := true;
    errors := [];
    var i := 0;
    while i < |RequiredFields|
      invariant 0 <= i <= |RequiredFields|
      invariant errors == Messages(Missing(profile, RequiredFields[..i]))
      invariant valid <==> errors == []
    {
      var field := RequiredFields[i];
      ghost var done := RequiredFields[..i];
      assert RequiredFields[..i + 1] == done + [field];
      if !IsSet(profile, field) {
        MessagesOfSnoc(Missing(profile, done), field);
        errors := errors + [MissingMessage(field)];
        valid := false;
      }
      i := i + 1;
    }
    assert i == |RequiredFields| && RequiredFields[..i] == RequiredFields;
    ghost var missing := Missing(profile, RequiredFields);
    assert missing != [] ==> missing[0] in missing;
  }

  /** A profile lacking only sso_account_id is reported with exactly that
      field's message. */
  lemma OnlyAccountIdMissing(data: Profiles.ProfileData)
    requires "sso_start_url" in data && "sso_region" in data && "sso_role_name" in data
    requires "sso_account_id" !in data
    ensures Messages(Missing(Some(data), RequiredFields)) == [MissingMessage("sso_account_id")]
  {
    var p := Some(data);
    assert RequiredFields[..3][..2] == RequiredFields[..2];
    assert RequiredFields[..2][..1] == RequiredFields[..1];
    assert RequiredFields[..1][..0] == [];
    assert Missing(p, RequiredFields[..1]) == [];
    assert Missing(p, RequiredFields[..2]) == [];
    assert Missing(p, RequiredFields[..3]) == [];
    assert RequiredFields[..4] == RequiredFields;
  }

  // ---------------------------------------------------------------------
  // The provider and the polling loop

  /** An AwsException: whether it is an SSOOIDCException, its error code
      and its error type. */
  datatype AwsError = AwsError(fromSsoOidc: bool, code: string, errorType: string)

  /** A provider call either answers or throws. */
  datatype Reply<T> = Answer(value: T) | Raised(error: AwsError)

  /** The startDeviceAuthorization result (RFC 8628, section 3.2). */
  datatype DeviceAuthorization = DeviceAuthorization(deviceCode: string, verificationUriComplete: string, interval: Option<nat>)

  /** One createToken call: a token with its lifetime, or an exception. */
  datatype TokenReply = Issued(accessToken: string, expiresIn: nat) | Failed(error: AwsError)

  /** How the polling loop ends; ScriptEnded means the scripted replies ran
      out while the loop would still be polling. */
  datatype PollEnd = Granted(accessToken: string, expiresIn: nat) | ExpiredDeviceCode | Unexpected(errorType: string) | ScriptEnded

  /** The end of the polling loop and the interval slept before each
      createToken call, in order. */
  datatype Polled = Polled(end: PollEnd, sleeps: seq<nat>)

  function InitialInterval(da: DeviceAuthorization): nat
  {
    match da.interval
    case Some(seconds) => seconds
    case None => DefaultIntervalSec
  }

  function Then(interval: nat, rest: Polled): Polled
  {
    Polled(rest.end, [interval] + rest.sleeps)
  }

  /** The polling loop as a function of the interval and the replies still
      to come: sleep, ask, and continue on authorization_pending, on
      slow_down with the interval one second longer, and on any other
      SSOOIDC error code; stop on a token, on expired_token and on an
      exception from outside SSOOIDC. */
  function Poll(interval: nat, replies: seq<TokenReply>): Polled
    decreases |replies|
  {
    if replies == [] then Polled(ScriptEnded, [])
    else match replies[0]
      case Issued(token, lifetime) => Polled(Granted(token, lifetime), [interval])
      case Failed(e) =>
        if !e.fromSsoOidc then Polled(Unexpected(e.errorType), [interval])
        else if e.code == PendingCode then Then(interval, Poll(interval, replies[1..]))
        else if e.code == SlowDownCode then Then(interval, Poll(interval + UpdateDelaySec, replies[1..]))
        else if e.code == ExpiredCode then Polled(ExpiredDeviceCode, [interval])
        else Then(interval, Poll(interval, replies[1..]))
  }

  /** A reply after which the loop polls again. */
  predicate KeepsPolling(r: TokenReply)
  {
    r.Failed? && r.error.fromSsoOidc && r.error.code != ExpiredCode
  }

  predicate IsSlowDown(r: TokenReply)
  {
    r.Failed? && r.error.fromSsoOidc && r.error.code == SlowDownCode
  }

  function SlowDowns(replies: seq<TokenReply>): nat
  {
    if replies == [] then 0 else (if IsSlowDown(replies[0]) then 1 else 0) + SlowDowns(replies[1..])
  }

  /** How a reply that stops the loop ends it. */
  function EndOf(r: TokenReply): PollEnd
    requires !KeepsPolling(r)
  {
    match r
    case Issued(token, lifetime) => Granted(token, lifetime)
    case Failed(e) => if !e.fromSsoOidc then Unexpected(e.errorType) else ExpiredDeviceCode
  }

  /** The number of replies before the first one that stops the loop. */
  function Transients(replies: seq<TokenReply>): (n: nat)
    ensures n <= |replies|
    ensures forall i :: 0 <= i < n ==> KeepsPolling(replies[i])
    ensures n < |replies| ==> !KeepsPolling(replies[n])
  {
    if replies == [] || !KeepsPolling(replies[0]) then 0 else 1 + Transients(replies[1..])
  }

  /** One sleep precedes every attempt, and the loop stops at the first
      reply that is a token, expired_token or an exception from outside
      SSOOIDC, with the outcome that reply calls for. */
  lemma {:induction false} PollStopsAtFirstFinalReply(interval: nat, replies: seq<TokenReply>)
    ensures var p, n := Poll(interval, replies), Transients(replies);
      if n < |replies| then p.end == EndOf(replies[n]) && |p.sleeps| == n + 1
      else p.end == ScriptEnded && |p.sleeps| == |replies|
    decreases |replies|
  {
    if replies != [] && KeepsPolling(replies[0]) {
      var next := if IsSlowDown(replies[0]) then interval + UpdateDelaySec else interval;
      PollStopsAtFirstFinalReply(next, replies[1..]);
      assert Poll(interval, replies) == Then(interval, Poll(next, replies[1..]));
    }
  }

  /** The k-th sleep lasts the initial interval plus one second for every
      slow_down received before it; in particular the intervals never
      shrink. */
  lemma {:induction false} SleepGrowsWithSlowDowns(interval: nat, replies: seq<TokenReply>, k: nat)
    requires k < |Poll(interval, replies).sleeps|
    ensures k <= |replies|
    ensures Poll(interval, replies).sleeps[k] == interval + UpdateDelaySec * SlowDowns(replies[..k])
    decreases |replies|
  {
    assert replies[..0] == [];
    if k > 0 {
      assert replies != [] && KeepsPolling(replies[0]);
      var next := if IsSlowDown(replies[0]) then interval + UpdateDelaySec else interval;
      assert Poll(interval, replies) == Then(interval, Poll(next, replies[1..]));
      SleepGrowsWithSlowDowns(next, replies[1..], k - 1);
      assert replies[..k][1..] == replies[1..][..k - 1];
    }
  }

  lemma {:induction false} SlowDownsGrow(replies: seq<TokenReply>, i: nat, j: nat)
    requires i <= j <= |replies|
    ensures SlowDowns(replies[..i]) <= SlowDowns(replies[..j])
    decreases |replies|
  {
    if i > 0 {
      assert replies[..i][1..] == replies[1..][..i - 1];
      assert replies[..j][1..] == replies[1..][..j - 1];
      SlowDownsGrow(replies[1..], i - 1, j - 1);
    }
  }

  lemma IntervalsNeverShrink(interval: nat, replies: seq<TokenReply>, i: nat, j: nat)
    requires i <= j < |Poll(interval, replies).sleeps|
    ensures interval <= Poll(interval, replies).sleeps[i] <= Poll(interval, replies).sleeps[j]
  {
    SleepGrowsWithSlowDowns(interval, replies, i);
    SleepGrowsWithSlowDowns(interval, replies, j);
    SlowDownsGrow(replies, i, j);
  }

  /** Two authorization_pending replies, a slow_down and a token: four
      attempts, each after a sleep, the last sleep one second longer. */
  lemma PendingPendingSlowDownToken(interval: nat, token: string, lifetime: nat, errorType: string)
    ensures var pending := Failed(AwsError(true, PendingCode, errorType));
      var slowDown := Failed(AwsError(true, SlowDownCode, errorType));
      Poll(interval, [pending, pending, slowDown, Issued(token, lifetime)])
        == Polled(Granted(token, lifetime), [interval, interval, interval, interval + 1])
  {
    var pending := Failed(AwsError(true, PendingCode, errorType));
    var slowDown := Failed(AwsError(true, SlowDownCode, errorType));
    var last := [Issued(token, lifetime)];
    assert Poll(interval + 1, last) == Polled(Granted(token, lifetime), [interval + 1]);
    assert ([slowDown] + last)[1..] == last;
    assert Poll(interval, [slowDown] + last) == Polled(Granted(token, lifetime), [interval, interval + 1]);
    assert ([pending, slowDown] + last)[1..] == [slowDown] + last;
    assert Poll(interval, [pending, slowDown] + last) == Polled(Granted(token, lifetime), [interval, interval, interval + 1]);
    assert ([pending, pending, slowDown] + last)[1..] == [pending, slowDown] + last;
    assert [pending, pending, slowDown, Issued(token, lifetime)] == [pending, pending, slowDown] + last;
  }

  /** One round of the loop: a reply that keeps polling adds a sleep in
      front of the rest, any other reply ends polling after its sleep. */
  lemma PollStep(interval: nat, replies: seq<TokenReply>)
    requires replies != []
    ensures KeepsPolling(replies[0]) ==>
      Poll(interval, replies)
        == Then(interval, Poll(if IsSlowDown(replies[0]) then interval + UpdateDelaySec else interval, replies[1..]))
    ensures !KeepsPolling(replies[0]) ==> Poll(interval, replies) == Polled(EndOf(replies[0]), [interval])
  {
  }

  /** The sleeps already taken, followed by the rest of the polling. */
  function Resume(done: seq<nat>, rest: Polled): Polled
  {
    Polled(rest.end, done + rest.sleeps)
  }

  /** PollStep in the middle of the loop, after the sleeps in `done`. */
  lemma PollResume(initial: nat, replies: seq<TokenReply>, attempts: nat, interval: nat, done: seq<nat>)
    requires attempts < |replies|
    requires Poll(initial, replies) == Resume(done, Poll(interval, replies[attempts..]))
    ensures KeepsPolling(replies[attempts]) ==>
      Poll(initial, replies)
        == Resume(done + [interval], Poll(if IsSlowDown(replies[attempts]) then interval + UpdateDelaySec else interval, replies[attempts + 1..]))
    ensures !KeepsPolling(replies[attempts]) ==> Poll(initial, replies) == Polled(EndOf(replies[attempts]), done + [interval])
  {
    assert replies[attempts..][1..] == replies[attempts + 1..];
    PollStep(interval, replies[attempts..]);
    var rest := Poll(if IsSlowDown(replies[attempts]) then interval + UpdateDelaySec else interval, replies[attempts + 1..]);
    assert done + ([interval] + rest.sleeps) == (done + [interval]) + rest.sleeps;
  }

  /** The while (true) loop: sleep, then one createToken call; the interval
      and the number of attempts are its state. */
  method PollForToken(initial: nat, replies: seq<TokenReply>) returns (end: PollEnd, sleeps: seq<nat>)
    ensures Polled(end, sleeps) == Poll(initial, replies)
  {
    var interval: nat := initial;
    var attempts := 0;
    sleeps := [];
    end := ScriptEnded;
    assert replies[0..] == replies && [] + Poll(initial, replies).sleeps == Poll(initial, replies).sleeps;
    while attempts < |replies|
      invariant 0 <= attempts <= |replies|
      invariant |sleeps| == attempts
      invariant Poll(initial, replies) == Resume(sleeps, Poll(interval, replies[attempts..]))
    {
      var reply := replies[attempts];
      PollResume(initial, replies, attempts, interval, sleeps);
      sleeps := sleeps + [interval];
      attempts := attempts + 1;
      if reply.Issued? {
        end := Granted(reply.accessToken, reply.expiresIn);
        return;
      }
      var e := reply.error;
      if !e.fromSsoOidc {
        end := Unexpected(e.errorType);
        return;
      }
      if e.code == PendingCode {
        continue;
      } else if e.code == SlowDownCode {
        interval := interval + UpdateDelaySec;
      } else if e.code == ExpiredCode {
        end := ExpiredDeviceCode;
        return;
      }
    }
    assert replies[attempts..] == [];
  }

  // ---------------------------------------------------------------------
  // The whole command

  /** Calls to the identity provider, sleeps and cache writes, in order. */
  datatype Event =
    | CreateClient(region: string)
    | RegisterClient(clientName: string, clientType: string)
    | StoreClientCredentials(path: string)
    | StartDeviceAuthorization(clientId: Value, clientSecret: Value, startUrl: string)
    | Sleep(seconds: nat)
    | CreateToken(grantType: string, clientId: Value, clientSecret: Value, deviceCode: string)
    | StoreAccessToken(path: string)

  /** Why the command ended. */
  datatype Reason =
    | InvalidProfile(errors: seq<string>)
    | TokenStillValid
    | InvalidClientCredentials
    | LoginExpired
    | UnexpectedError(errorType: string)
    | LoggedIn(token: Record, expiry: int)
    | Uncaught(error: AwsError)
    | StillPolling

  datatype Status = Success | Failure | Crashed | Running

  function StatusOf(r: Reason): Status
  {
    match r
    case TokenStillValid => Success
    case LoggedIn(_, _) => Success
    case Uncaught(_) => Crashed
    case StillPolling => Running
    case _ => Failure
  }

  /** The identity provider's scripted behaviour for one login. */
  datatype Provider = Provider(
    registration: Reply<Record>,
    authorization: Reply<DeviceAuthorization>,
    replies: seq<TokenReply>)

  /** A run of the command: why it ended, what it did, and the cache after. */
  datatype Run = Run(reason: Reason, events: seq<Event>, disk: Disk)

  /** The persisted token record. */
  function TokenRecord(accessToken: string, expiresAt: string, region: string, startUrl: string): (r: Record)
    ensures r.Keys == {"accessToken", "expiresAt", "region", "startUrl"}
    ensures r["startUrl"] == Str(startUrl)
  {
    map["accessToken" := Str(accessToken), "expiresAt" := Str(expiresAt), "region" := Str(region), "startUrl" := Str(startUrl)]
  }

  /** A sleep before each createToken call. */
  function Attempts(sleeps: seq<nat>, request: Event): (r: seq<Event>)
    ensures |r| == 2 * |sleeps|
    ensures forall k :: 0 <= k < |r| ==> r[k] == if k % 2 == 0 then Sleep(sleeps[k / 2]) else request
  {
    if sleeps == [] then [] else [Sleep(sleeps[0]), request] + Attempts(sleeps[1..], request)
  }

  /** execute() as a function of its inputs. `now` is time() at the
      validity checks, `issuedAt` the moment the token record is built. */
  function Login(profile: Option<Profiles.ProfileData>, disk: Disk, cfg: Files.Config, rt: Runtime,
                 now: int, issuedAt: int, p: Provider): Run
  {
    if !(profile.Some? && Complete(profile.value)) then
      Run(InvalidProfile(Messages(Missing(profile, RequiredFields))), [], disk)
    else
      var data := profile.value;
      if IsValidAccessToken(ReadAccessToken(disk, cfg, data["sso_start_url"]), now, rt) then Run(TokenStillValid, [], disk)
      else Connect(data["sso_start_url"], data["sso_region"], disk, cfg, rt, now, issuedAt, p)
  }

  /** From the creation of the client on: the cached client credentials
      when they are valid, otherwise a registration. */
  function Connect(startUrl: string, region: string, disk: Disk, cfg: Files.Config, rt: Runtime,
                   now: int, issuedAt: int, p: Provider): Run
  {
    var created := [CreateClient(region)];
    var cached := ReadClientCredentials(disk, cfg, region);
    if IsValidClientCredentials(cached, now, rt) then
      Authorize(created, disk, cached.value, startUrl, region, cfg, rt, issuedAt, p)
    else
      var registered := created + [RegisterClient(cfg.appName, "public")];
      match p.registration
      case Raised(e) => Run(Uncaught(e), registered, disk)
      case Answer(creds) =>
        if !IsValidClientCredentials(Some(creds), now, rt) then Run(InvalidClientCredentials, registered, disk)
        else
          Authorize(registered + [StoreClientCredentials(Files.ClientCredentials(cfg))],
                    WithClientCredentials(disk, cfg, region, creds), creds, startUrl, region, cfg, rt, issuedAt, p)
  }

  /** From startDeviceAuthorization on, with valid client credentials. */
  function Authorize(events: seq<Event>, disk: Disk, creds: Record, startUrl: string, region: string,
                     cfg: Files.Config, rt: Runtime, issuedAt: int, p: Provider): Run
    requires "clientId" in creds && "clientSecret" in creds
  {
    var started := events + [StartDeviceAuthorization(creds["clientId"], creds["clientSecret"], startUrl)];
    match p.authorization
    case Raised(e) => Run(Uncaught(e), started, disk)
    case Answer(da) =>
      var polled := Poll(InitialInterval(da), p.replies);
      var request := CreateToken(DeviceCodeGrantType, creds["clientId"], creds["clientSecret"], da.deviceCode);
      var polling := started + Attempts(polled.sleeps, request);
      match polled.end
      case Granted(token, lifetime) =>
        var expiry := issuedAt + 60 * lifetime;
        var record := TokenRecord(token, rt.format(expiry), region, startUrl);
        Run(LoggedIn(record, expiry), polling + [StoreAccessToken(Files.AccessToken(cfg, startUrl))],
            WithAccessToken(disk, cfg, record))
      case ExpiredDeviceCode => Run(LoginExpired, polling, disk)
      case Unexpected(errorType) => Run(UnexpectedError(errorType), polling, disk)
      case ScriptEnded => Run(StillPolling, polling, disk)
  }

  /** execute(). The profile comes from the --profile option or the prompt;
      the provider calls are answered by the script. */
  method Execute(profileName: string, sections: seq<Profiles.Section>, store: FileStore, cfg: Files.Config,
                 rt: Runtime, now: int, issuedAt: int, p: Provider) returns (reason: Reason, events: seq<Event>)
    modifies store
    ensures Run(reason, events, store.disk) ==
      Login(Profiles.Get(sections, profileName), old(store.disk), cfg, rt, now, issuedAt, p)
  {
    var profile := Profiles.Get(sections, profileName);
    var valid, errors := CheckProfile(profile);
    NothingMissingIffComplete(profile);
    if !valid {
      return InvalidProfile(errors), [];
    }
    var data := profile.value;
    var startUrl, region := data["sso_start_url"], data["sso_region"];

    var accessToken := ReadAccessToken(store.disk, cfg, startUrl);
    if IsValidAccessToken(accessToken, now, rt) {
      return TokenStillValid, [];
    }

    events := [CreateClient(region)];
    var creds := ReadClientCredentials(store.disk, cfg, region);
    if !IsValidClientCredentials(creds, now, rt) {
      events := events + [RegisterClient(cfg.appName, "public")];
      match p.registration {
        case Raised(e) =>
          return Uncaught(e), events;
        case Answer(registered) =>
          creds := Some(registered);
      }
      if !IsValidClientCredentials(creds, now, rt) {
        return InvalidClientCredentials, events;
      }
      WriteClientCredentials(store, cfg, region, creds.value);
      events := events + [StoreClientCredentials(Files.ClientCredentials(cfg))];
    }

    reason, events := AuthorizeDevice(events, store, creds.value, startUrl, region, cfg, rt, issuedAt, p);
  }

  /** execute() from startDeviceAuthorization on. */
  method AuthorizeDevice(before: seq<Event>, store: FileStore, creds: Record, startUrl: string, region: string,
                         cfg: Files.Config, rt: Runtime, issuedAt: int, p: Provider)
    returns (reason: Reason, events: seq<Event>)
    requires "clientId" in creds && "clientSecret" in creds
    modifies store
    ensures Run(reason, events, store.disk) == Authorize(before, old(store.disk), creds, startUrl, region, cfg, rt, issuedAt, p)
  {
    var clientId, clientSecret := creds["clientId"], creds["clientSecret"];
    events := before + [StartDeviceAuthorization(clientId, clientSecret, startUrl)];
    var da: DeviceAuthorization;
    match p.authorization {
      case Raised(e) =>
        return Uncaught(e), events;
      case Answer(answer) =>
        da := answer;
    }

    var end, sleeps := PollForToken(InitialInterval(da), p.replies);
    events := events + Attempts(sleeps, CreateToken(DeviceCodeGrantType, clientId, clientSecret, da.deviceCode));
    match end {
      case Granted(token, lifetime) =>
        var expiry := issuedAt + 60 * lifetime;
        var record := TokenRecord(token, rt.format(expiry), region, startUrl);
        WriteAccessToken(store, cfg, record);
        events := events + [StoreAccessToken(Files.AccessToken(cfg, startUrl))];
        reason := LoggedIn(record, expiry);
      case ExpiredDeviceCode =>
        reason := LoginExpired;
      case Unexpected(errorType) =>
        reason := UnexpectedError(errorType);
      case ScriptEnded =>
        reason := StillPolling;
    }
  }

  // ---------------------------------------------------------------------
  // Properties of a login

  /** A profile that sets all four required fields. */
  predicate Complete(data: Profiles.ProfileData)
  {
    "sso_start_url" in data && "sso_region" in data && "sso_role_name" in data && "sso_account_id" in data
  }

  /** The profile check passes exactly for a profile that was found and
      sets all four required fields. */
  lemma {:induction false} NothingMissingIffComplete(profile: Option<Profiles.ProfileData>)
    ensures Missing(profile, RequiredFields) == [] <==> profile.Some? && Complete(profile.value)
  {
    var m := Missing(profile, RequiredFields);
    assert m != [] ==> m[0] in m;
    assert "sso_start_url" in RequiredFields && "sso_region" in RequiredFields;
    assert "sso_role_name" in RequiredFields && "sso_account_id" in RequiredFields;
  }

  /** An incomplete profile, or one that does not exist, ends the command
      with one message per missing field, before any provider call and
      without touching the cache. */
  lemma InvalidProfileDoesNothing(profile: Option<Profiles.ProfileData>, disk: Disk, cfg: Files.Config, rt: Runtime,
                                  now: int, issuedAt: int, p: Provider)
    requires !(profile.Some? && Complete(profile.value))
    ensures var run := Login(profile, disk, cfg, rt, now, issuedAt, p);
      && run == Run(InvalidProfile(Messages(Missing(profile, RequiredFields))), [], disk)
      && StatusOf(run.reason) == Failure
    ensures profile.None? ==> |Login(profile, disk, cfg, rt, now, issuedAt, p).reason.errors| == |RequiredFields|
  {
    if profile.None? {
      var m := Missing(profile, RequiredFields);
      assert RequiredFields[..3][..2] == RequiredFields[..2];
      assert RequiredFields[..2][..1] == RequiredFields[..1];
      assert RequiredFields[..1][..0] == [];
      assert RequiredFields[..4] == RequiredFields;
      assert |Missing(profile, RequiredFields[..1])| == 1;
      assert |Missing(profile, RequiredFields[..2])| == 2;
      assert |Missing(profile, RequiredFields[..3])| == 3;
    }
  }

  /** A valid cached token for the profile's start URL ends the command
      successfully before any provider call, leaving the cache as it is, so
      that running it again does the same. */
  lemma CachedTokenShortCircuits(data: Profiles.ProfileData, disk: Disk, cfg: Files.Config, rt: Runtime,
                                 now: int, issuedAt: int, p: Provider)
    requires Complete(data)
    requires IsValidAccessToken(ReadAccessToken(disk, cfg, data["sso_start_url"]), now, rt)
    ensures Login(Some(data), disk, cfg, rt, now, issuedAt, p) == Run(TokenStillValid, [], disk)
  {
  }

  /** Past the cache check the SSO-OIDC client is created for the profile's
      region, and a client is registered exactly when the cached client
      credentials are not valid; otherwise the device authorization starts
      straight away with the cached ones. */
  lemma RegistersOnlyWithoutValidCredentials(data: Profiles.ProfileData, disk: Disk, cfg: Files.Config, rt: Runtime,
                                             now: int, issuedAt: int, p: Provider)
    requires Complete(data)
    requires !IsValidAccessToken(ReadAccessToken(disk, cfg, data["sso_start_url"]), now, rt)
    ensures var run := Login(Some(data), disk, cfg, rt, now, issuedAt, p);
      var cached := ReadClientCredentials(disk, cfg, data["sso_region"]);
      && |run.events| >= 2
      && run.events[0] == CreateClient(data["sso_region"])
      && (run.events[1] == RegisterClient(cfg.appName, "public") <==> !IsValidClientCredentials(cached, now, rt))
      && (IsValidClientCredentials(cached, now, rt) ==>
            run.events[1] == StartDeviceAuthorization(cached.value["clientId"], cached.value["clientSecret"], data["sso_start_url"]))
  {
    var startUrl, region := data["sso_start_url"], data["sso_region"];
    var run := Login(Some(data), disk, cfg, rt, now, issuedAt, p);
    var created := [CreateClient(region)];
    var cached := ReadClientCredentials(disk, cfg, region);
    assert run == Connect(startUrl, region, disk, cfg, rt, now, issuedAt, p);
    if IsValidClientCredentials(cached, now, rt) {
      AuthorizeStartsDeviceAuthorization(created, disk, cached.value, startUrl, region, cfg, rt, issuedAt, p);
      assert run.events[..2][1] == run.events[1];
    } else if p.registration.Answer? && IsValidClientCredentials(Some(p.registration.value), now, rt) {
      var creds := p.registration.value;
      var registered := created + [RegisterClient(cfg.appName, "public")] + [StoreClientCredentials(Files.ClientCredentials(cfg))];
      AuthorizeStartsDeviceAuthorization(registered, WithClientCredentials(disk, cfg, region, creds), creds, startUrl, region, cfg, rt, issuedAt, p);
      assert run.events[..4][1] == run.events[1];
      assert run.events[..4][0] == run.events[0];
    }
  }

  /** Registered credentials that are not valid end the command with a
      failure after the registration, writing nothing and never starting the
      device authorization. */
  lemma InvalidRegistrationFails(data: Profiles.ProfileData, disk: Disk, cfg: Files.Config, rt: Runtime,
                                 now: int, issuedAt: int, p: Provider, creds: Record)
    requires Complete(data)
    requires !IsValidAccessToken(ReadAccessToken(disk, cfg, data["sso_start_url"]), now, rt)
    requires !IsValidClientCredentials(ReadClientCredentials(disk, cfg, data["sso_region"]), now, rt)
    requires p.registration == Answer(creds) && !IsValidClientCredentials(Some(creds), now, rt)
    ensures var run := Login(Some(data), disk, cfg, rt, now, issuedAt, p);
      run == Run(InvalidClientCredentials, [CreateClient(data["sso_region"]), RegisterClient(cfg.appName, "public")], disk)
      && StatusOf(run.reason) == Failure
  {
  }

  /** Newly registered valid credentials are written to the cache before the
      device authorization starts, and starting it uses them. */
  lemma RegisteredCredentialsStoredFirst(data: Profiles.ProfileData, disk: Disk, cfg: Files.Config, rt: Runtime,
                                         now: int, issuedAt: int, p: Provider, creds: Record)
    requires Complete(data)
    requires !IsValidAccessToken(ReadAccessToken(disk, cfg, data["sso_start_url"]), now, rt)
    requires !IsValidClientCredentials(ReadClientCredentials(disk, cfg, data["sso_region"]), now, rt)
    requires p.registration == Answer(creds) && IsValidClientCredentials(Some(creds), now, rt)
    ensures var run := Login(Some(data), disk, cfg, rt, now, issuedAt, p);
      && |run.events| >= 4
      && run.events[2] == StoreClientCredentials(Files.ClientCredentials(cfg))
      && run.events[3] == StartDeviceAuthorization(creds["clientId"], creds["clientSecret"], data["sso_start_url"])
      && (Files.AccessToken(cfg, data["sso_start_url"]) != Files.ClientCredentials(cfg) ==>
            Files.ClientCredentials(cfg) in run.disk && run.disk[Files.ClientCredentials(cfg)] == creds)
  {
    var startUrl, region := data["sso_start_url"], data["sso_region"];
    var run := Login(Some(data), disk, cfg, rt, now, issuedAt, p);
    var registered := [CreateClient(region)] + [RegisterClient(cfg.appName, "public")] + [StoreClientCredentials(Files.ClientCredentials(cfg))];
    AuthorizeOutcome(registered, WithClientCredentials(disk, cfg, region, creds), creds, startUrl, region, cfg, rt, issuedAt, p);
    assert run == Authorize(registered, WithClientCredentials(disk, cfg, region, creds), creds, startUrl, region, cfg, rt, issuedAt, p);
    AuthorizeStartsDeviceAuthorization(registered, WithClientCredentials(disk, cfg, region, creds), creds, startUrl, region, cfg, rt, issuedAt, p);
    assert run.events[..4][2] == run.events[2];
    assert run.events[..4][3] == run.events[3];
  }

  /** The events before polling: only client set-up and the start of the
      device authorization. */
  predicate IsSetUp(e: Event)
  {
    e.CreateClient? || e.RegisterClient? || e.StoreClientCredentials? || e.StartDeviceAuthorization?
  }

  /** Every createToken call comes right after a sleep. */
  ghost predicate SleepsFirst(events: seq<Event>)
  {
    forall k :: 0 <= k < |events| && events[k].CreateToken? ==> 0 < k && events[k - 1].Sleep?
  }

  lemma AttemptsSleepFirst(started: seq<Event>, sleeps: seq<nat>, request: Event)
    requires forall k :: 0 <= k < |started| ==> IsSetUp(started[k])
    ensures SleepsFirst(started + Attempts(sleeps, request))
  {
    var tries := Attempts(sleeps, request);
    var polling := started + tries;
    forall k | 0 <= k < |polling| && polling[k].CreateToken?
      ensures 0 < k && polling[k - 1].Sleep?
    {
      assert forall j :: 0 <= j < |started| ==> IsSetUp(polling[j]);
      assert k != |started|;
      assert tries[k - |started|] == polling[k];
      assert (k - |started|) % 2 == 1;
      assert tries[k - 1 - |started|] == polling[k - 1];
    }
  }

  lemma SleepsFirstExtends(events: seq<Event>, e: Event)
    requires SleepsFirst(events) && !e.CreateToken?
    ensures SleepsFirst(events + [e])
  {
    var all := events + [e];
    forall k | 0 <= k < |all| && all[k].CreateToken? ensures 0 < k && all[k - 1].Sleep? {
      assert all[k] == events[k];
    }
  }

  lemma AuthorizeSleepsFirst(events: seq<Event>, disk: Disk, creds: Record, startUrl: string,
                             region: string, cfg: Files.Config, rt: Runtime, issuedAt: int, p: Provider)
    requires "clientId" in creds && "clientSecret" in creds
    requires forall k :: 0 <= k < |events| ==> IsSetUp(events[k])
    ensures SleepsFirst(Authorize(events, disk, creds, startUrl, region, cfg, rt, issuedAt, p).events)
  {
    var started := events + [StartDeviceAuthorization(creds["clientId"], creds["clientSecret"], startUrl)];
    match p.authorization
    case Raised(e) =>
      assert forall k :: 0 <= k < |started| ==> IsSetUp(started[k]);
    case Answer(da) =>
      var polled := Poll(InitialInterval(da), p.replies);
      var request := CreateToken(DeviceCodeGrantType, creds["clientId"], creds["clientSecret"], da.deviceCode);
      AttemptsSleepFirst(started, polled.sleeps, request);
      if polled.end.Granted? {
        SleepsFirstExtends(started + Attempts(polled.sleeps, request), StoreAccessToken(Files.AccessToken(cfg, startUrl)));
      }
  }

  /** Every createToken call of a login comes right after a sleep (RFC 8628,
      section 3.5: the client waits the interval between requests). */
  lemma SleepsBeforeEachTokenRequest(profile: Option<Profiles.ProfileData>, disk: Disk, cfg: Files.Config, rt: Runtime,
                                     now: int, issuedAt: int, p: Provider)
    ensures var run := Login(profile, disk, cfg, rt, now, issuedAt, p);
      forall k :: 0 <= k < |run.events| && run.events[k].CreateToken? ==> 0 < k && run.events[k - 1].Sleep?
  {
    if profile.Some? && Complete(profile.value) {
      var data := profile.value;
      var startUrl, region := data["sso_start_url"], data["sso_region"];
      var created := [CreateClient(region)];
      var cached := ReadClientCredentials(disk, cfg, region);
      if IsValidClientCredentials(cached, now, rt) {
        AuthorizeSleepsFirst(created, disk, cached.value, startUrl, region, cfg, rt, issuedAt, p);
      } else if p.registration.Answer? && IsValidClientCredentials(Some(p.registration.value), now, rt) {
        var creds := p.registration.value;
        var registered := created + [RegisterClient(cfg.appName, "public"), StoreClientCredentials(Files.ClientCredentials(cfg))];
        assert created + [RegisterClient(cfg.appName, "public")] + [StoreClientCredentials(Files.ClientCredentials(cfg))] == registered;
        AuthorizeSleepsFirst(registered, WithClientCredentials(disk, cfg, region, creds), creds, startUrl, region, cfg, rt, issuedAt, p);
      }
    }
  }

  /** The stored token record is valid exactly while its expiry lies ahead
      and its token is not a falsy string. */
  lemma TokenRecordValidity(accessToken: string, expiry: int, region: string, startUrl: string, now: int, rt: Runtime)
    requires FormatReadsBack(rt)
    ensures IsValidAccessToken(Some(TokenRecord(accessToken, rt.format(expiry), region, startUrl)), now, rt)
      <==> Truthy(accessToken) && now < expiry
  {
    assert Truthy(rt.format(expiry)) && rt.parse(rt.format(expiry)) == Some(expiry);
  }

  /** From startDeviceAuthorization on, the cache changes only when a token
      is obtained, and then only by the token record for the start URL. */
  lemma AuthorizeOutcome(events: seq<Event>, disk: Disk, creds: Record, startUrl: string, region: string,
                         cfg: Files.Config, rt: Runtime, issuedAt: int, p: Provider)
    requires "clientId" in creds && "clientSecret" in creds
    ensures var run := Authorize(events, disk, creds, startUrl, region, cfg, rt, issuedAt, p);
      && (!run.reason.LoggedIn? ==> run.disk == disk)
      && (run.reason.LoggedIn? ==>
            && "accessToken" in run.reason.token && run.reason.token["accessToken"].Str?
            && run.reason.token == TokenRecord(run.reason.token["accessToken"].s, rt.format(run.reason.expiry), region, startUrl)
            && run.disk == WithAccessToken(disk, cfg, run.reason.token))
  {
  }

  /** Authorize keeps the events before it and starts the device
      authorization with the client credentials it is given. */
  lemma AuthorizeStartsDeviceAuthorization(events: seq<Event>, disk: Disk, creds: Record, startUrl: string, region: string,
                                           cfg: Files.Config, rt: Runtime, issuedAt: int, p: Provider)
    requires "clientId" in creds && "clientSecret" in creds
    ensures var run := Authorize(events, disk, creds, startUrl, region, cfg, rt, issuedAt, p);
      && |run.events| > |events|
      && run.events[..|events| + 1] == events + [StartDeviceAuthorization(creds["clientId"], creds["clientSecret"], startUrl)]
  {
    var run := Authorize(events, disk, creds, startUrl, region, cfg, rt, issuedAt, p);
    var started := events + [StartDeviceAuthorization(creds["clientId"], creds["clientSecret"], startUrl)];
    assert run.events[..|started|] == started;
  }

  /** Once the device authorization has started, the first sleep lasts the
      interval the provider gave, or five seconds when it gave none, and is
      followed by the device-code token request (RFC 8628, section 3.4). */
  lemma AuthorizeSleepsTheGivenInterval(events: seq<Event>, disk: Disk, creds: Record, startUrl: string, region: string,
                                        cfg: Files.Config, rt: Runtime, issuedAt: int, p: Provider, da: DeviceAuthorization)
    requires "clientId" in creds && "clientSecret" in creds
    requires p.authorization == Answer(da) && p.replies != []
    ensures var run := Authorize(events, disk, creds, startUrl, region, cfg, rt, issuedAt, p);
      && |run.events| > |events| + 2
      && run.events[|events| + 1] == Sleep(if da.interval.Some? then da.interval.value else 5)
      && run.events[|events| + 2] == CreateToken(DeviceCodeGrantType, creds["clientId"], creds["clientSecret"], da.deviceCode)
  {
    var polled := Poll(InitialInterval(da), p.replies);
    assert |polled.sleeps| > 0 && polled.sleeps[0] == InitialInterval(da);
    var started := events + [StartDeviceAuthorization(creds["clientId"], creds["clientSecret"], startUrl)];
    var request := CreateToken(DeviceCodeGrantType, creds["clientId"], creds["clientSecret"], da.deviceCode);
    var polling := started + Attempts(polled.sleeps, request);
    var run := Authorize(events, disk, creds, startUrl, region, cfg, rt, issuedAt, p);
    assert run.events[..|polling|] == polling;
    assert polling[|started|] == Sleep(InitialInterval(da));
    assert polling[|started| + 1] == request;
  }

  /** The polling result decides the outcome: a token is stored with an
      expiry expiresIn minutes after issuedAt and the command succeeds;
      expired_token and unexpected errors fail without writing; a script
      that runs out leaves the command still polling. */
  lemma AuthorizeFollowsPolling(events: seq<Event>, disk: Disk, creds: Record, startUrl: string, region: string,
                                cfg: Files.Config, rt: Runtime, issuedAt: int, p: Provider, da: DeviceAuthorization)
    requires "clientId" in creds && "clientSecret" in creds
    requires p.authorization == Answer(da)
    ensures var run, polled := Authorize(events, disk, creds, startUrl, region, cfg, rt, issuedAt, p), Poll(InitialInterval(da), p.replies);
      && (polled.end.Granted? ==>
            var expiry := issuedAt + 60 * polled.end.expiresIn;
            && run.reason == LoggedIn(TokenRecord(polled.end.accessToken, rt.format(expiry), region, startUrl), expiry)
            && StatusOf(run.reason) == Success
            && run.events[|run.events| - 1] == StoreAccessToken(Files.AccessToken(cfg, startUrl)))
      && (polled.end.ExpiredDeviceCode? || polled.end.Unexpected? ==> StatusOf(run.reason) == Failure && run.disk == disk)
      && (polled.end.ScriptEnded? ==> StatusOf(run.reason) == Running)
  {
  }

  /** A login writes at most the client-credentials file and the access-token
      file of the profile's start URL; it writes the latter exactly when it
      ends with a token, and then with the record for that start URL. */
  lemma {:induction false} LoginWritesOnlyCacheFiles(data: Profiles.ProfileData, disk: Disk, cfg: Files.Config, rt: Runtime,
                                                     now: int, issuedAt: int, p: Provider)
    requires Complete(data)
    ensures var run := Login(Some(data), disk, cfg, rt, now, issuedAt, p);
      var tokenFile := Files.AccessToken(cfg, data["sso_start_url"]);
      && (forall path :: path != tokenFile && path != Files.ClientCredentials(cfg) ==>
            (path in run.disk <==> path in disk) && (path in disk ==> run.disk[path] == disk[path]))
      && (run.reason.LoggedIn? ==>
            && "accessToken" in run.reason.token && run.reason.token["accessToken"].Str?
            && run.reason.token == TokenRecord(run.reason.token["accessToken"].s, rt.format(run.reason.expiry),
                                               data["sso_region"], data["sso_start_url"])
            && tokenFile in run.disk && run.disk[tokenFile] == run.reason.token)
      && (!run.reason.LoggedIn? && tokenFile != Files.ClientCredentials(cfg) ==>
            ReadAccessToken(run.disk, cfg, data["sso_start_url"]) == ReadAccessToken(disk, cfg, data["sso_start_url"]))
  {
    var startUrl, region := data["sso_start_url"], data["sso_region"];
    var run := Login(Some(data), disk, cfg, rt, now, issuedAt, p);
    var created := [CreateClient(region)];
    var cached := ReadClientCredentials(disk, cfg, region);
    if IsValidAccessToken(ReadAccessToken(disk, cfg, startUrl), now, rt) {
      assert run.disk == disk;
    } else if IsValidClientCredentials(cached, now, rt) {
      assert run == Authorize(created, disk, cached.value, startUrl, region, cfg, rt, issuedAt, p);
      AuthorizeOutcome(created, disk, cached.value, startUrl, region, cfg, rt, issuedAt, p);
    } else if p.registration.Answer? && IsValidClientCredentials(Some(p.registration.value), now, rt) {
      var creds := p.registration.value;
      var registered := created + [RegisterClient(cfg.appName, "public")] + [StoreClientCredentials(Files.ClientCredentials(cfg))];
      var stored := WithClientCredentials(disk, cfg, region, creds);
      assert run == Authorize(registered, stored, creds, startUrl, region, cfg, rt, issuedAt, p);
      AuthorizeOutcome(registered, stored, creds, startUrl, region, cfg, rt, issuedAt, p);
    } else {
      assert run.disk == disk;
    }
  }

  /** A login that obtained a token stores it under the profile's start
      URL; a later run for the same profile returns at once while the token
      has not expired, and goes back to the provider from its expiry on. */
  lemma LoginIsRemembered(data: Profiles.ProfileData, disk: Disk, cfg: Files.Config, rt: Runtime,
                          now: int, issuedAt: int, p: Provider, later: int, laterIssued: int, q: Provider)
    requires Complete(data)
    requires FormatReadsBack(rt)
    requires Login(Some(data), disk, cfg, rt, now, issuedAt, p).reason.LoggedIn?
    ensures var run := Login(Some(data), disk, cfg, rt, now, issuedAt, p);
      var again := Login(Some(data), run.disk, cfg, rt, later, laterIssued, q);
      && (later < run.reason.expiry && !EmptyAt(run.reason.token, "accessToken") ==> again == Run(TokenStillValid, [], run.disk))
      && (later >= run.reason.expiry ==> again.events != [] && again.events[0] == CreateClient(data["sso_region"]))
  {
    LoginWritesOnlyCacheFiles(data, disk, cfg, rt, now, issuedAt, p);
    var run := Login(Some(data), disk, cfg, rt, now, issuedAt, p);
    var startUrl, region := data["sso_start_url"], data["sso_region"];
    var record := run.reason.token;
    assert ReadAccessToken(run.disk, cfg, startUrl) == Some(record);
    TokenRecordValidity(record["accessToken"].s, run.reason.expiry, region, startUrl, later, rt);
    if later >= run.reason.expiry {
      RegistersOnlyWithoutValidCredentials(data, run.disk, cfg, rt, later, laterIssued, q);
    } else if !EmptyAt(record, "accessToken") {
      CachedTokenShortCircuits(data, run.disk, cfg, rt, later, laterIssued, q);
    }
  }
}
