# blow-cli, the decision logic of its AWS commands, in Dafny

blow-cli is a PHP command-line tool for working with AWS accounts that sign in
through AWS IAM Identity Center (SSO). This project models the parts of it that
make decisions and proves properties about them:

- the `sso:login` command (`src/Command/SsoLogin.php`):
  - checking that the profile sets the required fields;
  - reusing a cached access token while it is valid;
  - reusing cached client credentials, or registering a client;
  - the OAuth 2.0 device authorization grant (RFC 8628, sections 3.4 and 3.5), with its polling loop;
  - building and caching the token record.
- the `database:proxy` command (`src/Command/DatabaseProxy.php`):
  - indexing the RDS instances and picking the bastion host;
  - ordering start, wait and session around the EC2 bastion, with `stop` in a `finally`;
  - the `aws ssm start-session` arguments and their JSON parameters;
  - relaying the session's stdout and stderr.
- the paths of the AWS config file and of the SSO cache files (`src/AWS/Files.php`).
- the profile table built from the config file's sections (`src/AWS/Profiles.php`):
  - section names normalised by deleting `"profile "`;
  - the first section under a name wins.

Files:

- `php.dfy` (module `Php`): the PHP semantics the commands rely on. That is `empty()`, truthiness, `>` against an int under PHP 8, `(string)` of an int, and `trim()`.
- `files.dfy` (module `Files`): `Files.php`.
- `profiles.dfy` (module `Profiles`): `Profiles.php`.
- `sso_login.dfy` (module `SsoLogin`): `SsoLogin.php`.
- `database_proxy.dfy` (module `DatabaseProxy`): `DatabaseProxy.php`, with `Bastion.php` as a class whose calls go to a recorder.

Where the code loops or changes state, the model does too. Each such method is proved equal to a specification function, and the lemmas are stated about that function:

| Source | Imperative model | Specification function |
|---|---|---|
| `Profiles::all` | `Profiles.All` | `Profiles.AllOf` |
| the required-field loop | `SsoLogin.CheckProfile` | `SsoLogin.Missing` |
| the `while (true)` polling loop | `SsoLogin.PollForToken` | `SsoLogin.Poll` |
| `SsoLogin::execute` | `SsoLogin.Execute`, which updates a `FileStore` | `SsoLogin.Login` |
| `getDatabaseInstances` | `DatabaseProxy.GetDatabaseInstances` | `DatabaseProxy.Indexed` |
| `DatabaseProxy::execute` | `DatabaseProxy.Execute`, which drives `Bastion` and `Recorder` objects | `DatabaseProxy.Proxy` |

What the model takes as given:

- Everything from outside the program is a parameter:
  - the environment, as a map;
  - the sha1 digest, as an uninterpreted function;
  - the clock, as the integers `now` and `issuedAt`;
  - the identity provider's replies, as a script;
  - the RDS and EC2 query results;
  - the prompt answers;
  - the free local port;
  - the subprocess output, as chunks.
- The SSO cache is a map from path to decoded file.

Some of the code's behaviours may surprise a reader. The model follows the code in each of them:

- Polling makes one `sleep` before every `createToken` call, the first one included. So the replies pending, pending, slow_down, token give four sleeps, of lengths i, i, i and i+1 (`SsoLogin.PendingPendingSlowDownToken`). The increase of 1 second per slow_down is below the 5 seconds that section 3.5 of RFC 8628 asks for.
- An SSOOIDC error code other than authorization_pending, slow_down and expired_token keeps polling with the interval unchanged. It does not end the login.
- `sso:login` computes the token's expiry as `expiresIn` **minutes** after issue (`PT<n>M`), although the SSO OIDC CreateToken API gives `expiresIn` in seconds. The model does the same as the code.
- Client credentials live in one file named after the application. The region the callers pass is dropped.
- If the start request or the wait for the bastion throws, no stop is ever requested, because `start` and `waitRunning` sit before the `try`. A started bastion is then not stopped by the command.
- If no bastion instance is found, the `Bastion` constructor fails on `null`. The command then crashes without starting anything; there is no "not found" message.
- The session's exit code is never consulted. Once the `try` is entered, `database:proxy` returns SUCCESS exactly when neither the session nor the stop request in the `finally` throws. A stop request that throws crashes the command even after a clean session (`DatabaseProxy.StopFailureCrashesCleanSession`).

## Model

| member | source | states |
|---|---|---|
| Php.NatToDecimalReadsBack | src/Command/DatabaseProxy.php:91-92 | `(string)` of a port is a non-empty digit string without a redundant leading zero, and it reads back as the port |
| Php.TrimSlice | src/Command/DatabaseProxy.php:100-102 | trim() keeps the slice between the leading and the trailing runs of " \t\n\r\0\x0B". Everything cut off is from that set, and the result neither starts nor ends with such a character |
| Php.TrimIdempotent | src/Command/DatabaseProxy.php:100-102 | trimming an already trimmed line changes nothing |
| Php.Trim | src/Command/DatabaseProxy.php:100-102 | PHP's trim() with its default character list. Php.TrimSlice characterizes it, and Php.TrimIdempotent shows it is idempotent |
| Php.IntToDecimalReadsBack | src/Command/DatabaseProxy.php:91-92 | `(string)` of any int is a minus sign exactly for a negative int, followed by a non-empty digit string that reads back as the absolute value |
| Php.IntToDecimal | src/Command/DatabaseProxy.php:91-92 | `(string)` of an int. Its reading back is Php.IntToDecimalReadsBack |
| Php.EmptyValues | src/Command/SsoLogin.php:38 | empty() accepts null, false, 0, 0.0, the empty array, "" and "0". Every string of two or more characters, such as "0.0" or "false", is truthy, and so is " " |
| Php.IsEmpty | src/Command/SsoLogin.php:38 | PHP's empty() on a set value. Php.EmptyValues states which values it accepts |
| Php.Truthy | src/AWS/Files.php:31-39 | a string used as a condition is truthy exactly when it is not empty(). Php.EmptyValues states which strings are falsy |
| Php.GreaterThanIntCases | src/Command/SsoLogin.php:61 | under PHP 8, `$v > $n` compares an int or a numeric string as a number. Null is never greater, true is greater only than 0, false is never greater, and an array is always greater |
| Php.WordExceedsEveryNat | src/Command/SsoLogin.php:61 | a non-numeric string starting after '9' (a word) is greater than every non-negative int, because the int is compared as its decimal string |
| Php.GreaterThanInt | src/Command/SsoLogin.php:61 | `$v > $n` against an int under PHP 8. Php.GreaterThanIntCases and Php.WordExceedsEveryNat state its cases |
| Files.HomeDir | src/AWS/Files.php:28-40 | the home directory is either "" or a truthy string, never "0" |
| Files.HomeDirChoice | src/AWS/Files.php:28-40 | HOME wins when it is set and truthy. Otherwise, when HOMEDRIVE and HOMEPATH are both set and truthy, the result is their concatenation. In every other case it is "" |
| Files.BothUnderAwsDir | src/AWS/Files.php:7-26 | the config file and the SSO cache directory both lie in `<home>/.aws/` |
| Files.CacheFilesShareDirectory | src/AWS/Files.php:12-26 | access-token files and the client-credentials file share the SSO cache directory |
| Files.AccessTokenPathIdentifiesHash | src/AWS/Files.php:12-16 | two start URLs share an access-token file if and only if their digests are equal |
| Files.TokenFileIsNotCredentialsFile | src/AWS/Files.php:12-21 | a token file named by a 40-digit hex digest is never the client-credentials file |
| Files.ConfigFile | src/AWS/Files.php:7-10 | the config file's path. Files.BothUnderAwsDir places it in `<home>/.aws/` |
| Files.SsoCacheDir | src/AWS/Files.php:23-26 | the SSO cache directory. Files.BothUnderAwsDir places it in `<home>/.aws/` |
| Files.AccessToken | src/AWS/Files.php:12-16 | the access-token file of a start URL. Files.CacheFilesShareDirectory places it in the cache directory. Files.AccessTokenPathIdentifiesHash shows that it identifies the digest |
| Files.ClientCredentials | src/AWS/Files.php:18-21 | the client-credentials file, without a region. Files.TokenFileIsNotCredentialsFile keeps it apart from the token files |
| Profiles.NormaliseDeletesEveryOccurrence | src/AWS/Profiles.php:19 | every occurrence of "profile " is deleted, not only a leading one. An occurrence splits the name into two parts that normalise independently |
| Profiles.NormaliseFixesExactlyUnmarked | src/AWS/Profiles.php:19 | normalising leaves a name unchanged if and only if "profile " does not occur in it |
| Profiles.Normalise | src/AWS/Profiles.php:19 | `str_replace('profile ', '', $name)`. Profiles.NormaliseDeletesEveryOccurrence and Profiles.NormaliseFixesExactlyUnmarked characterize it |
| Profiles.All | src/AWS/Profiles.php:13-26 | the foreach with its `isset` guard computes the fold of the sections in file order |
| Profiles.AllOf | src/AWS/Profiles.php:13-26 | all() as a fold over the sections. Profiles.AllOfFacts states the table it yields |
| Profiles.AllOfFacts | src/AWS/Profiles.php:15-25 | the table lists each key once, and its keys are exactly the normalised names that occur. Each key holds the data of the first section with that name, and keys are listed in the order of their first sections |
| Profiles.ProfileNamesAreNormalisedNames | src/AWS/Profiles.php:15-25 | the key set is the set of normalised section names |
| Profiles.Get | src/AWS/Profiles.php:7-11 | the result is present exactly when some section normalises to the profile, and it is that first section's data |
| Profiles.List | src/AWS/Profiles.php:28-31 | the list has no duplicates, contains exactly the names that occur, and follows first-occurrence order |
| SsoLogin.EmptyTokenFieldsAreInvalid | src/Command/SsoLogin.php:33-40 | a missing token, or one whose accessToken or expiresAt is PHP-empty (including "0"), is invalid |
| SsoLogin.TokenValidIffExpiryAfterNow | src/Command/SsoLogin.php:42-48 | with a parsable expiry, a token is valid if and only if the expiry is strictly after now. A token that expires now is invalid |
| SsoLogin.UnparsableExpiryIsInvalid | src/Command/SsoLogin.php:42-46 | an expiry that DateTimeResult cannot parse makes the token invalid |
| SsoLogin.CredentialsValidIffExpiryAfterNow | src/Command/SsoLogin.php:51-62 | credentials with an integer expiry are valid if and only if clientId and clientSecret are non-empty, the expiry is not 0, and the expiry is strictly after now |
| SsoLogin.WordExpiryNeverExpires | src/Command/SsoLogin.php:57-61 | credentials whose clientSecretExpiresAt is a word, such as "never", count as valid at every non-negative time |
| SsoLogin.IsValidAccessToken | src/Command/SsoLogin.php:33-49 | isValidAccessToken. Its cases are SsoLogin.EmptyTokenFieldsAreInvalid, SsoLogin.TokenValidIffExpiryAfterNow and SsoLogin.UnparsableExpiryIsInvalid |
| SsoLogin.IsValidClientCredentials | src/Command/SsoLogin.php:51-62 | isValidClientCredentials. Its cases are SsoLogin.CredentialsValidIffExpiryAfterNow and SsoLogin.WordExpiryNeverExpires |
| SsoLogin.WriteAccessToken | src/Command/SsoLogin.php:96-100 | the store afterwards holds the record under the path of the record's own startUrl, and nothing else changes |
| SsoLogin.WriteClientCredentials | src/Command/SsoLogin.php:75-83 | the store afterwards holds the credentials in the client-credentials file, and nothing else changes |
| SsoLogin.AccessTokenReadsBack | src/Command/SsoLogin.php:85-100 | reading the token for a start URL after writing a record for it returns that record |
| SsoLogin.AccessTokenWriteIsolated | src/Command/SsoLogin.php:85-100 | writing a token leaves untouched the tokens of start URLs with other digests, and the client credentials when the digest is hex |
| SsoLogin.CredentialsSharedAcrossRegions | src/Command/SsoLogin.php:64-83 | credentials written for one region are the ones read for any region |
| SsoLogin.ReadAccessToken | src/Command/SsoLogin.php:85-94 | the cached record for a start URL, or none. SsoLogin.AccessTokenReadsBack and SsoLogin.AccessTokenWriteIsolated relate it to the writes |
| SsoLogin.ReadClientCredentials | src/Command/SsoLogin.php:64-73 | the cached client credentials, or none. SsoLogin.CredentialsSharedAcrossRegions relates it to the writes |
| SsoLogin.Missing | src/Command/SsoLogin.php:114-119 | a field is reported missing if and only if it is required and the profile does not set it |
| SsoLogin.CheckProfile | src/Command/SsoLogin.php:112-125 | the profile is valid if and only if all four fields are set, if and only if there are no errors. The errors are one message per missing field, in the order of the required fields |
| SsoLogin.OnlyAccountIdMissing | src/Command/SsoLogin.php:114-119 | a profile lacking only sso_account_id gets exactly that field's message |
| SsoLogin.NothingMissingIffComplete | src/Command/SsoLogin.php:112-125 | the check passes if and only if the profile exists and sets all four required fields |
| SsoLogin.PollForToken | src/Command/SsoLogin.php:166-194 | the loop over interval and attempts, with its continue, break and early returns, ends as Poll says and with Poll's sleeps |
| SsoLogin.Poll | src/Command/SsoLogin.php:166-194 | the polling loop as a function. Its properties are SsoLogin.PollStopsAtFirstFinalReply, SsoLogin.SleepGrowsWithSlowDowns, SsoLogin.IntervalsNeverShrink and SsoLogin.PendingPendingSlowDownToken |
| SsoLogin.PollStep | src/Command/SsoLogin.php:167-194 | one round of the loop: a reply that keeps polling puts one sleep before the rest, slow_down lengthening the interval by a second. Any other reply ends polling after its sleep |
| SsoLogin.PollResume | src/Command/SsoLogin.php:166-194 | PollStep inside the loop: after any sleeps already taken, one more round adds one sleep and either goes on with the rest of the replies or ends with the outcome that reply calls for |
| SsoLogin.PollStopsAtFirstFinalReply | src/Command/SsoLogin.php:166-194 | polling stops at the first final reply, with the matching outcome: a token, expired_token, or an exception that is not an SSOOIDC exception. It does so after one sleep per attempt, up to and including that reply. If no final reply comes, the script runs out with one sleep per reply |
| SsoLogin.SleepGrowsWithSlowDowns | src/Command/SsoLogin.php:166-189 | the k-th sleep is the initial interval plus one second for each slow_down among the first k replies |
| SsoLogin.IntervalsNeverShrink | src/Command/SsoLogin.php:166-189 | the sleep intervals never fall below the initial interval and never decrease |
| SsoLogin.PendingPendingSlowDownToken | src/Command/SsoLogin.php:166-194 | pending, pending, slow_down, token gives four sleeps i, i, i, i+1 and the token |
| SsoLogin.TokenRecord | src/Command/SsoLogin.php:198-203 | the record has exactly the keys accessToken, expiresAt, region and startUrl, with the start URL as given |
| SsoLogin.Attempts | src/Command/SsoLogin.php:167-176 | sleeps and createToken requests alternate, starting with a sleep, and the k-th sleep lasts the k-th polling interval |
| SsoLogin.Execute | src/Command/SsoLogin.php:102-210 | the command's result, provider calls and new cache state are those the Login function specifies for the profile Profiles.Get returns |
| SsoLogin.Login | src/Command/SsoLogin.php:102-131 | execute() as a function: the profile check, then the cached-token check. Its properties are SsoLogin.InvalidProfileDoesNothing, SsoLogin.CachedTokenShortCircuits, SsoLogin.LoginWritesOnlyCacheFiles and SsoLogin.LoginIsRemembered |
| SsoLogin.Connect | src/Command/SsoLogin.php:134-155 | client creation, then cached or registered credentials. Its properties are SsoLogin.RegistersOnlyWithoutValidCredentials, SsoLogin.InvalidRegistrationFails and SsoLogin.RegisteredCredentialsStoredFirst |
| SsoLogin.Authorize | src/Command/SsoLogin.php:157-209 | the device authorization and polling. Its properties are SsoLogin.AuthorizeOutcome, SsoLogin.AuthorizeStartsDeviceAuthorization, SsoLogin.AuthorizeSleepsTheGivenInterval and SsoLogin.AuthorizeFollowsPolling |
| SsoLogin.AuthorizeDevice | src/Command/SsoLogin.php:157-209 | from startDeviceAuthorization on, the result, calls and cache are those Authorize specifies |
| SsoLogin.InvalidProfileDoesNothing | src/Command/SsoLogin.php:112-125 | an incomplete or absent profile fails with the missing-field messages (all four for an absent profile), with no provider call and no cache change |
| SsoLogin.CachedTokenShortCircuits | src/Command/SsoLogin.php:127-131 | a valid cached token means success, with no client created, no call made and no cache change |
| SsoLogin.RegistersOnlyWithoutValidCredentials | src/Command/SsoLogin.php:134-162 | after the client is created, a registration happens if and only if the cached credentials are invalid. Otherwise authorization starts with the cached ones |
| SsoLogin.InvalidRegistrationFails | src/Command/SsoLogin.php:140-149 | invalid registered credentials fail right after registration, writing nothing |
| SsoLogin.RegisteredCredentialsStoredFirst | src/Command/SsoLogin.php:140-162 | valid registered credentials are stored before the device authorization starts, and that authorization uses them. The credentials file ends up holding the registered record, unless the token file has the same path and overwrites it |
| SsoLogin.SleepsBeforeEachTokenRequest | src/Command/SsoLogin.php:166-176 | in every login, every createToken call comes right after a sleep |
| SsoLogin.TokenRecordValidity | src/Command/SsoLogin.php:196-206 | the stored record is valid exactly while its expiry lies ahead and its token is truthy |
| SsoLogin.AuthorizeOutcome | src/Command/SsoLogin.php:157-209 | after the device authorization starts, the cache changes only when a token is obtained, and then only by the record for the start URL |
| SsoLogin.AuthorizeStartsDeviceAuthorization | src/Command/SsoLogin.php:157-162 | startDeviceAuthorization follows the earlier calls and carries the client id and secret in use |
| SsoLogin.AuthorizeSleepsTheGivenInterval | src/Command/SsoLogin.php:166-175 | the first sleep is the provider's interval, or 5 s when it gives none. It is followed by the device-code token request |
| SsoLogin.AuthorizeFollowsPolling | src/Command/SsoLogin.php:166-209 | a token gives success, a record expiring expiresIn minutes after issue, and its storage as the last step. expired_token and unexpected errors fail without writing |
| SsoLogin.LoginWritesOnlyCacheFiles | src/Command/SsoLogin.php:127-206 | a login writes at most the credentials file and its own token file. The token file is written exactly when a token is obtained, and holds that record |
| SsoLogin.LoginIsRemembered | src/Command/SsoLogin.php:127-206 | after a successful login, a rerun for the profile returns at once, with no call and no write, while the token has not expired and is non-empty. From its expiry on, the rerun goes back to the provider |
| DatabaseProxy.GetDatabaseInstances | src/Command/DatabaseProxy.php:113-121 | the foreach builds the array the fold Indexed specifies |
| DatabaseProxy.Indexed | src/Command/DatabaseProxy.php:113-121 | the instance array as a fold over the described instances. DatabaseProxy.IndexedFacts and DatabaseProxy.LaterDuplicateOverwrites state its contents |
| DatabaseProxy.IndexedFacts | src/Command/DatabaseProxy.php:113-121 | every identifier is keyed once, its value is the last instance described under it, and keys are in first-appearance order |
| DatabaseProxy.LaterDuplicateOverwrites | src/Command/DatabaseProxy.php:116-118 | a later duplicate identifier overwrites the earlier instance but keeps the key's place |
| DatabaseProxy.Pick | src/Command/DatabaseProxy.php:61 | a prompt's answer is one of the offered choices |
| DatabaseProxy.BastionIsFirstOfFirst | src/Command/DatabaseProxy.php:123-134 | the bastion is the first instance of the first reservation. There is no fall-through to later reservations and no ambiguity check |
| DatabaseProxy.BastionInstanceId | src/Command/DatabaseProxy.php:123-134 | getBastionInstance's instance id, or none where the lookup finds null. DatabaseProxy.BastionIsFirstOfFirst states which instance it is |
| DatabaseProxy.SessionArgumentsReadBack | src/Command/DatabaseProxy.php:78-94 | the command is `aws ssm start-session`, and its flags read back as the profile, the bastion as --target, the port-forwarding document and the parameters |
| DatabaseProxy.SessionParametersReadBack | src/Command/DatabaseProxy.php:89-93 | the parameters give host = [endpoint address], and give portNumber and localPortNumber as one decimal string each that reads back as the port |
| DatabaseProxy.SessionArguments | src/Command/DatabaseProxy.php:78-94 | the process's argument list. DatabaseProxy.SessionArgumentsReadBack reads its flags back |
| DatabaseProxy.SessionParameters | src/Command/DatabaseProxy.php:89-93 | the document given to json_encode. DatabaseProxy.SessionParametersReadBack reads its members back |
| DatabaseProxy.TagShowsTrimmedData | src/Command/DatabaseProxy.php:98-104 | stdout lines are the chunk with only surrounding whitespace cut. stderr lines are the same, wrapped in `<error>…</error>` |
| DatabaseProxy.Tag | src/Command/DatabaseProxy.php:99-103 | the text written for one chunk. DatabaseProxy.TagShowsTrimmedData characterizes it |
| DatabaseProxy.Shown | src/Command/DatabaseProxy.php:98-104 | one `text` call per chunk, in chunk order |
| DatabaseProxy.Bastion.Start | src/AWS/Bastion.php:18-21 | records one startInstances call for the bastion's id and reports whether the request threw |
| DatabaseProxy.Bastion.Stop | src/AWS/Bastion.php:23-26 | records one stopInstances call for the bastion's id and reports whether the request threw |
| DatabaseProxy.Bastion.WaitRunning | src/AWS/Bastion.php:40-43 | records the wait and reports whether the waiter threw |
| DatabaseProxy.Execute | src/Command/DatabaseProxy.php:40-111 | the recorded calls and lines, and the outcome, are those the Proxy function specifies |
| DatabaseProxy.Proxy | src/Command/DatabaseProxy.php:40-111 | execute() as a function. Its properties are DatabaseProxy.StopExactlyOnceOnceTryEntered, DatabaseProxy.StartThenWaitThenSession, DatabaseProxy.NoBastionNoCalls, DatabaseProxy.ExitCodeIsIgnored and DatabaseProxy.OutputInChunkOrder |
| DatabaseProxy.ProfileOf | src/Command/DatabaseProxy.php:43-46 | the profile in use. DatabaseProxy.ProfileOptionWins states it |
| DatabaseProxy.InstanceOf | src/Command/DatabaseProxy.php:59-70 | the chosen instance. DatabaseProxy.ChosenInstanceWasDescribed states it |
| DatabaseProxy.RunTunnel | src/Command/DatabaseProxy.php:65-110 | start, wait and session are recorded as specified by Tunnel |
| DatabaseProxy.StartAndWait | src/Command/DatabaseProxy.php:65-67 | records the start alone when the start request throws, otherwise the start, the waiting line and the wait, in order. It reports whether the start or the wait threw |
| DatabaseProxy.Tunnel | src/Command/DatabaseProxy.php:65-110 | from the bastion start on: the start alone when it throws, the waiting events alone when the waiter throws, otherwise those followed by the session, with a crash when the session or the stop throws. DatabaseProxy.StartOrWaitFailureNeverStops and DatabaseProxy.StopFailureCrashesCleanSession state the failure cases |
| DatabaseProxy.Waiting | src/Command/DatabaseProxy.php:65-67 | the start, the waiting line and the wait of the bastion |
| DatabaseProxy.Session | src/Command/DatabaseProxy.php:72-108 | the proxying line, the process start, one `text` call per chunk, the stopping line and the stop |
| DatabaseProxy.ProxySession | src/Command/DatabaseProxy.php:72-108 | the try block and its finally clause record, in order: the proxying line, the process start, one line per chunk, the stopping line and the stop. It reports whether the stop request threw |
| DatabaseProxy.StopExactlyOnceOnceTryEntered | src/Command/DatabaseProxy.php:73-108 | once the try is entered, stop is called exactly once, as the last event, whether or not the output ends in an exception. Otherwise it is never called |
| DatabaseProxy.StartThenWaitThenSession | src/Command/DatabaseProxy.php:64-96 | start comes before the wait, and the wait before the only process start. The session targets the bastion with the profile in use |
| DatabaseProxy.NoBastionNoCalls | src/Command/DatabaseProxy.php:64-65 | without a bastion the command crashes. No Bastion start, wait or stop happens, no process is started and no `text` line is written. The earlier queries and prompts are not modelled as events |
| DatabaseProxy.StartOrWaitFailureNeverStops | src/Command/DatabaseProxy.php:65-73 | a throwing start request or wait crashes the command after the start was requested, with no stop request and no session |
| DatabaseProxy.StopFailureCrashesCleanSession | src/Command/DatabaseProxy.php:105-110 | a stop request that throws crashes the command after a session without an exception. The stop was still requested exactly once, as the last event |
| DatabaseProxy.ExitCodeIsIgnored | src/Command/DatabaseProxy.php:105-110 | the outcome does not depend on the exit code. Once the try is entered, the command succeeds if and only if neither the session nor the stop request throws |
| DatabaseProxy.OutputInChunkOrder | src/Command/DatabaseProxy.php:98-104 | output lines appear in chunk order, right after the process start |
| DatabaseProxy.ProfileOptionWins | src/Command/DatabaseProxy.php:43-46 | the --profile option wins. Without it the profile is one of Profiles::list(), and there is none when that list is empty |
| DatabaseProxy.ChosenInstanceWasDescribed | src/Command/DatabaseProxy.php:59-70 | an instance is chosen if and only if some were described, and it is the last one described under the chosen identifier |

## Left out

- Filesystem, JSON and ini I/O (`file_get_contents`, `file_put_contents`, `mkdir`, `is_readable`, `json_encode`, `json_decode`, `parse_ini_file`). These are foreign calls.
  - The cache is a map from path to decoded record, and an unreadable or corrupt file is absent.
  - The config file is the parser's list of sections.
  - The session parameters are a JSON value, handed to an uninterpreted encoder.
- `sha1`/`utf8_encode`, and DateTimeResult parsing, formatting and adding intervals. These are uninterpreted functions over integer timestamps. `time()` and the moment the record is built are the parameters `now` and `issuedAt`.
- The AWS SDK calls. They are scripted replies or query results. For the EC2 calls on the bastion, the model only has whether startInstances, the waiter and stopInstances throw. The waiter's timeout and the instance states that make it give up are not modelled.
- The Symfony Process lifetime, stream multiplexing and interruption: these are OS behaviour. The session is a list of output chunks plus whether the iteration ends in an exception. A process that fails to start counts as no chunks followed by an exception.
- `findAvailablePort`'s socket calls. The port is an input.
- SymfonyStyle prompts and most console output. The user's answer to a choice prompt is a position among the choices. `sso:login`'s console messages are not recorded; its `--profile` option and prompt are folded into the profile name given to `Execute`.
- `putenv('AWS_PROFILE=…')` and the `--region` option of `database:proxy`. They only configure SDK clients the model does not have.
- `Bastion::getState` and `Bastion::isRunning`, which the commands never call; `src/index.php` (application bootstrap).
- Exceptions that are not AwsExceptions, thrown from the SDK during `sso:login`. Every provider failure in the model is an AwsException.
- PHP's conversion of numeric-string array keys to integers in the profile table and the instance index. Names are kept as strings.
- SsoLogin.IsValidAccessToken: a non-string, non-empty expiresAt (a number, say) counts as invalid. In PHP the DateTimeResult constructor raises a TypeError under strict types, so the command would crash instead.
- SsoLogin.PollForToken: the replies are a finite script. When the script runs out while the loop would still poll, the run ends as `ScriptEnded` (status `Running`) instead of polling forever.
- DatabaseProxy.DbInstance: only the identifier and endpoint of an RDS instance are modelled; the other fields of the description are never read. A missing endpoint reads as null, which gives a `[null]` host and an empty port string.
