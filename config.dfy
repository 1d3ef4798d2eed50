/** The decisions of botleague_helpers/config.py: whether the code runs
    inside a test (read off the call stack, innermost frame first), whether
    Firestore is used, and where the GitHub token comes from. The call
    stack is the sequence of frame function names, the environment a map,
    and the Firestore `secrets` collection a map from document name to
    fields; whether `firebase_admin.initialize_app()` succeeds is an input. */
module Config {
  import opened Py

  const TEST_PREFIX := "test_"
  const TOKEN_NAME := "LEADERBOARD_GITHUB_TOKEN"
  const INIT_FAILED := "Could not initialize firestore, set SHOULD_USE_FIRESTORE=false locally to use temp storage."

  /** The test name the stack `frames` reveals: that of the last frame in
      the list whose name starts with `test_`, without the prefix, or ''
      when there is none. */
  function TestName(frames: seq<string>): (name: string)
    decreases |frames|
  {
    if frames == [] then ""
    else if StartsWith(frames[|frames| - 1], TEST_PREFIX) then frames[|frames| - 1][|TEST_PREFIX|..]
    else TestName(frames[..|frames| - 1])
  }

  /** `get_test_name_from_callstack`: one pass over the stack, keeping the
      name of the latest `test_` frame seen. */
  method TestNameFromCallstack(frames: seq<string>) returns (name: string)
    ensures name == TestName(frames)
  {
    name := "";
    for i := 0 to |frames|
      invariant name == TestName(frames[..i])
    {
      assert frames[..i + 1][..i] == frames[..i];
      if StartsWith(frames[i], TEST_PREFIX) {
        name := frames[i][|TEST_PREFIX|..];
      }
    }
    assert frames[..|frames|] == frames;
  }

  /** Without a `test_` frame the name is ''. */
  lemma {:induction false} NoTestFrame(frames: seq<string>)
    requires forall i | 0 <= i < |frames| :: !StartsWith(frames[i], TEST_PREFIX)
    ensures TestName(frames) == ""
    decreases |frames|
  {
    if frames != [] {
      NoTestFrame(frames[..|frames| - 1]);
    }
  }

  /** With one, the name is that of the last `test_` frame in the list (the
      outermost test function, as the stack lists the innermost frame
      first) minus the prefix. */
  lemma {:induction false} LastTestFrameWins(frames: seq<string>, j: nat)
    requires j < |frames| && StartsWith(frames[j], TEST_PREFIX)
    requires forall k | j < k < |frames| :: !StartsWith(frames[k], TEST_PREFIX)
    ensures TestName(frames) == frames[j][|TEST_PREFIX|..]
    decreases |frames|
  {
    if j < |frames| - 1 {
      var init := frames[..|frames| - 1];
      assert init[j] == frames[j];
      LastTestFrameWins(init, j);
    }
  }

  /** The name is '' or what follows the prefix in some `test_` frame. */
  lemma {:induction false} TestNameFromSomeFrame(frames: seq<string>)
    ensures TestName(frames) == ""
         || exists i | 0 <= i < |frames| :: StartsWith(frames[i], TEST_PREFIX) && TestName(frames) == frames[i][|TEST_PREFIX|..]
    decreases |frames|
  {
    if frames != [] && !StartsWith(frames[|frames| - 1], TEST_PREFIX) {
      var init := frames[..|frames| - 1];
      TestNameFromSomeFrame(init);
      if TestName(init) != "" {
        var i :| 0 <= i < |init| && StartsWith(init[i], TEST_PREFIX) && TestName(init) == init[i][|TEST_PREFIX|..];
        assert frames[i] == init[i];
      }
    }
  }

  /** `should_use_firestore`: true unless SHOULD_USE_FIRESTORE is set to
      anything but 'true'. */
  function ShouldUseFirestore(env: map<string, string>): (use: bool)
    ensures use <==> "SHOULD_USE_FIRESTORE" !in env || env["SHOULD_USE_FIRESTORE"] == "true"
  {
    (if "SHOULD_USE_FIRESTORE" in env then env["SHOULD_USE_FIRESTORE"] else "true") == "true"
  }

  /** The secret fetch of `github_token`: Firebase is initialised first if
      need be (failing with a RuntimeError), then the `token` field of the
      secret document is read; a missing document gives `to_dict()` None
      (TypeError on indexing), a missing field a KeyError. */
  function FetchToken(secrets: map<string, map<string, string>>, initialized: bool, initSucceeds: bool): (r: Result<string>)
    ensures r.Ok? <==> (initialized || initSucceeds) && TOKEN_NAME in secrets && "token" in secrets[TOKEN_NAME]
    ensures r.Ok? ==> r.value == secrets[TOKEN_NAME]["token"]
  {
    if !initialized && !initSucceeds then Err(RuntimeError(INIT_FAILED))
    else if TOKEN_NAME !in secrets then Err(TypeError)
    else if "token" !in secrets[TOKEN_NAME] then Err(KeyError("token"))
    else Ok(secrets[TOKEN_NAME]["token"])
  }

  /** `Config`: the two flags read from the environment at import, and the
      two properties that change as the program runs. */
  class Config {
    const shouldUseFirestore: bool
    const isTest: bool
    var githubToken: Option<string>
    var firebaseInitialized: bool

    constructor (env: map<string, string>)
      ensures shouldUseFirestore == ShouldUseFirestore(env)
      ensures isTest == ("IS_TEST" in env)
      ensures githubToken == None && !firebaseInitialized
    {
      shouldUseFirestore := ShouldUseFirestore(env);
      isTest := "IS_TEST" in env;
      githubToken := None;
      firebaseInitialized := false;
    }

    /** `github_token`: the first source that applies wins (a test on the
        stack, IS_TEST, the environment, Firestore switched off, an empty
        cache, the cache), and whatever is returned is cached. */
    method GithubToken(frames: seq<string>, env: map<string, string>,
                       secrets: map<string, map<string, string>>, initSucceeds: bool) returns (r: Result<string>)
      modifies this
      ensures TestName(frames) != "" || isTest ==> r == Ok("")
      ensures TestName(frames) == "" && !isTest && TOKEN_NAME in env ==> r == Ok(env[TOKEN_NAME])
      ensures TestName(frames) == "" && !isTest && TOKEN_NAME !in env && !shouldUseFirestore ==> r == Ok("")
      ensures TestName(frames) == "" && !isTest && TOKEN_NAME !in env && shouldUseFirestore ==>
                r == match old(githubToken)
                     case None => FetchToken(secrets, old(firebaseInitialized), initSucceeds)
                     case Some(cached) => Ok(cached)
      ensures r.Ok? ==> githubToken == Some(r.value)
      ensures r.Err? ==> githubToken == old(githubToken)
      ensures firebaseInitialized == (old(firebaseInitialized) || (initSucceeds && old(githubToken).None?
                                      && TestName(frames) == "" && !isTest && TOKEN_NAME !in env && shouldUseFirestore))
    {
      var testName := TestNameFromCallstack(frames);
      var ret: string;
      if testName != "" {
        ret := "";
      } else if isTest {
        ret := "";
      } else if TOKEN_NAME in env {
        ret := env[TOKEN_NAME];
      } else if !shouldUseFirestore {
        ret := "";
      } else if githubToken.None? {
        if !firebaseInitialized {
          if !initSucceeds {
            return Err(RuntimeError(INIT_FAILED));
          }
          firebaseInitialized := true;
        }
        if TOKEN_NAME !in secrets {
          return Err(TypeError);
        }
        if "token" !in secrets[TOKEN_NAME] {
          return Err(KeyError("token"));
        }
        ret := secrets[TOKEN_NAME]["token"];
      } else {
        ret := githubToken.value;
      }
      githubToken := Some(ret);
      r := Ok(ret);
    }
  }

  /** An empty token cached once (by a call made from a test) is what every
      later call outside a test returns, even when the secret store holds a
      token: the secret store is read only while the cache is None. */
  method EmptyTokenSticks(env: map<string, string>, testFrame: string, secrets: map<string, map<string, string>>)
    returns (first: Result<string>, second: Result<string>)
    requires StartsWith(testFrame, TEST_PREFIX) && |testFrame| > |TEST_PREFIX|
    requires ShouldUseFirestore(env) && "IS_TEST" !in env && TOKEN_NAME !in env
    ensures first == Ok("") && second == Ok("")
  {
    var config := new Config(env);
    first := config.GithubToken([testFrame], env, secrets, true);
    NoTestFrame([]);
    second := config.GithubToken([], env, secrets, true);
  }
}
