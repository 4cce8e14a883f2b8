/** Where the tool keeps the AWS config file and its SSO cache files
    (src/AWS/Files.php). Every path is built from the environment, the
    application name and a hash of the start URL; nothing here touches the
    filesystem. */
module Files {
  import opened Php

  /** The process environment as getenv() sees it: a variable that is not set
      is absent from the map (getenv returns false for it). */
  type Env = map<string, string>

  /** What the path helpers depend on: the environment, the digest used to
      name access-token files (utf8_encode(sha1(·)), left uninterpreted) and
      the APP_NAME constant. */
  datatype Config = Config(env: Env, hash: string -> string, appName: string)

  /** `getenv($name)` used as a condition: set and truthy. */
  predicate IsSetAndTruthy(env: Env, name: string)
  {
    name in env && Truthy(env[name])
  }

  /** The user's home directory: HOME when it is set and truthy, otherwise
      HOMEDRIVE followed by HOMEPATH when both are, otherwise "". */
  function HomeDir(env: Env): (home: string)
    ensures home == "" || Truthy(home)
  {
    if IsSetAndTruthy(env, "HOME") then env["HOME"]
    else if IsSetAndTruthy(env, "HOMEDRIVE") && IsSetAndTruthy(env, "HOMEPATH") then env["HOMEDRIVE"] + env["HOMEPATH"]
    else ""
  }

  function ConfigFile(env: Env): string
  {
    HomeDir(env) + "/.aws/config"
  }

  function SsoCacheDir(env: Env): string
  {
    HomeDir(env) + "/.aws/sso/cache"
  }

  /** The cache file of the access token for a start URL. */
  function AccessToken(c: Config, startUrl: string): string
  {
    SsoCacheDir(c.env) + "/" + c.hash(startUrl) + ".json"
  }

  /** The cache file of the registered client credentials. It has no region
      parameter: the callers pass one, and PHP drops the extra argument. */
  function ClientCredentials(c: Config): string
  {
    SsoCacheDir(c.env) + "/client_credentials_" + c.appName + ".json"
  }

  /** The home directory is chosen from HOME first, then from the Windows
      pair, and is never a falsy string other than "". */
  lemma HomeDirChoice(env: Env)
    ensures IsSetAndTruthy(env, "HOME") ==> HomeDir(env) == env["HOME"]
    ensures !IsSetAndTruthy(env, "HOME") ==>
      (HomeDir(env) != "" <==> IsSetAndTruthy(env, "HOMEDRIVE") && IsSetAndTruthy(env, "HOMEPATH"))
    ensures !IsSetAndTruthy(env, "HOME") && IsSetAndTruthy(env, "HOMEDRIVE") && IsSetAndTruthy(env, "HOMEPATH") ==>
      HomeDir(env) == env["HOMEDRIVE"] + env["HOMEPATH"]
    ensures HomeDir(env) != "0"
  {
  }

  /** The config file and the SSO cache directory both live in ~/.aws. */
  lemma {:induction false} BothUnderAwsDir(env: Env)
    ensures ConfigFile(env)[..|HomeDir(env)| + 6] == HomeDir(env) + "/.aws/"
    ensures SsoCacheDir(env)[..|HomeDir(env)| + 6] == HomeDir(env) + "/.aws/"
  {
    var h := HomeDir(env);
    assert ConfigFile(env) == (h + "/.aws/") + "config";
    assert SsoCacheDir(env) == (h + "/.aws/") + "sso/cache";
  }

  /** Access-token files and the client-credentials file share one directory. */
  lemma {:induction false} CacheFilesShareDirectory(c: Config, startUrl: string)
    ensures var prefix := SsoCacheDir(c.env) + "/";
      && AccessToken(c, startUrl)[..|prefix|] == prefix
      && ClientCredentials(c)[..|prefix|] == prefix
  {
    var prefix := SsoCacheDir(c.env) + "/";
    assert AccessToken(c, startUrl) == prefix + (c.hash(startUrl) + ".json");
    assert ClientCredentials(c) == prefix + ("client_credentials_" + c.appName + ".json");
  }

  /** Two start URLs share an access-token file exactly when their digests
      are equal. */
  lemma {:induction false} AccessTokenPathIdentifiesHash(c: Config, u1: string, u2: string)
    ensures AccessToken(c, u1) == AccessToken(c, u2) <==> c.hash(u1) == c.hash(u2)
  {
    var prefix := SsoCacheDir(c.env) + "/";
    var h1, h2 := c.hash(u1), c.hash(u2);
    var p1, p2 := AccessToken(c, u1), AccessToken(c, u2);
    assert p1 == prefix + h1 + ".json";
    assert p2 == prefix + h2 + ".json";
    if p1 == p2 {
      assert |h1| == |h2|;
      assert h1 == p1[|prefix|..|prefix| + |h1|];
      assert h2 == p2[|prefix|..|prefix| + |h2|];
    }
  }

  /** What sha1() returns: forty lower-case hexadecimal digits. */
  predicate IsHexDigest(h: string)
  {
    |h| == 40 && forall i :: 0 <= i < |h| ==> IsDigit(h[i]) || 'a' <= h[i] <= 'f'
  }

  /** Although they share a directory, an access-token file named by a hex
      digest is never the client-credentials file. */
  lemma {:induction false} TokenFileIsNotCredentialsFile(c: Config, startUrl: string)
    requires IsHexDigest(c.hash(startUrl))
    ensures AccessToken(c, startUrl) != ClientCredentials(c)
  {
    var prefix := SsoCacheDir(c.env) + "/";
    var h := c.hash(startUrl);
    var token := AccessToken(c, startUrl);
    var creds := ClientCredentials(c);
    assert token == prefix + h + ".json";
    assert creds == prefix + "client_credentials_" + c.appName + ".json";
    assert creds[|prefix| + 1] == 'l';
    assert token[|prefix| + 1] == h[1];
  }
}
