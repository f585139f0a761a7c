/** `verifyConfig`: the ordered, fail-fast checks a decoded configuration must pass,
    and the two in-place normalisations (tag defaulting and directory cleaning)
    made on the way. The in-place edits are modelled as the returned, updated
    configuration. */
module Verify {
  import opened Wrappers
  import opened Strings
  import opened ConfigTypes

  /** `parseTimeout`: the connection timeout with surrounding white space cut
      away; a blank one means no timeout at all. */
  function ParseTimeout(env: Env, timeout: string): (r: Option<int>)
    ensures AllSpace(timeout) ==> r == Some(0)
    ensures !AllSpace(timeout) ==> r == env.parseDuration(TrimSpace(timeout))
  {
    var tos := TrimSpace(timeout);
    if |tos| == 0 then Some(0) else env.parseDuration(tos)
  }

  /** The timeout parses and is not negative. */
  predicate TimeoutValid(env: Env, g: Global) {
    var to := ParseTimeout(env, g.connectionTimeout);
    to.Some? && to.value >= 0
  }

  /** The number of backend targets over all three transports. */
  function TargetCount(g: Global): nat {
    |g.cleartextBackendTarget| + |g.encryptedBackendTarget| + |g.pipeBackendTarget|
  }

  /** The four global checks, which come before any follower is looked at, all pass. */
  predicate GlobalChecksPass(env: Env, g: Global) {
    TimeoutValid(env, g) && g.ingestSecret != "" && TargetCount(g) > 0
  }

  /** A follower's tag once an empty one has been replaced by the default. */
  function DefaultedTag(tag: string): (r: string)
    ensures r != ""
    ensures tag != "" ==> r == tag
  {
    if |tag| == 0 then DefaultTag else tag
  }

  /** `after` is `before` as a passed check leaves it: the directory was given and
      is now cleaned, the tag is the original or the default and holds no forbidden
      character, and no other field has changed. */
  predicate NormalizedFrom(env: Env, before: FollowType, after: FollowType) {
    && before.baseDirectory != ""
    && after.baseDirectory == env.clean(before.baseDirectory)
    && after.tagName == (if before.tagName == "" then DefaultTag else before.tagName)
    && (forall k :: 0 <= k < |after.tagName| ==> after.tagName[k] !in env.forbiddenTagSet)
    && after.fileFilter == before.fileFilter
    && after.ignoreTimestamps == before.ignoreTimestamps
    && after.assumeLocalTimezone == before.assumeLocalTimezone
  }

  /** The body of the per-follower loop of `verifyConfig` for the follower `name`. */
  function CheckFollower(env: Env, name: string, f: FollowType): (r: Result<FollowType, Error>)
    ensures r.Success? <==>
              f.baseDirectory != "" && !ContainsAny(DefaultedTag(f.tagName), env.forbiddenTagSet)
    ensures r.Success? ==> NormalizedFrom(env, f, r.value)
    ensures r.Failure? && f.baseDirectory == "" ==> r.error == MissingBaseDirectory(name)
    ensures r.Failure? && f.baseDirectory != "" ==> r.error == InvalidTagName(name)
  {
    if |f.baseDirectory| == 0 then Failure(MissingBaseDirectory(name))
    else
      var tag := DefaultedTag(f.tagName);
      if ContainsAny(tag, env.forbiddenTagSet) then Failure(InvalidTagName(name))
      else Success(f.(tagName := tag, baseDirectory := env.clean(f.baseDirectory)))
  }

  /** The follower at index `i` is the first one whose check fails, and it fails with `e`. */
  predicate FailsFirstAt(env: Env, fs: seq<(string, FollowType)>, i: int, e: Error) {
    && 0 <= i < |fs|
    && CheckFollower(env, fs[i].0, fs[i].1) == Failure(e)
    && forall j :: 0 <= j < i ==> CheckFollower(env, fs[j].0, fs[j].1).Success?
  }

  /** The per-follower loop of `verifyConfig`, in iteration order: it stops at the
      first follower that fails and otherwise yields every follower normalised. */
  function VerifyFollowers(env: Env, fs: seq<(string, FollowType)>): (r: Result<seq<(string, FollowType)>, Error>)
    ensures r.Success? <==> forall i :: 0 <= i < |fs| ==> CheckFollower(env, fs[i].0, fs[i].1).Success?
    ensures r.Success? ==> |r.value| == |fs|
    ensures r.Success? ==> forall i :: 0 <= i < |fs| ==>
              r.value[i].0 == fs[i].0 && NormalizedFrom(env, fs[i].1, r.value[i].1)
    ensures r.Failure? ==> exists i :: FailsFirstAt(env, fs, i, r.error)
    ensures r.Failure? ==> r.error.MissingBaseDirectory? || r.error.InvalidTagName?
  {
    if |fs| == 0 then Success([])
    else
      match CheckFollower(env, fs[0].0, fs[0].1)
      case Failure(e) =>
        assert FailsFirstAt(env, fs, 0, e);
        Failure(e)
      case Success(f) =>
        match VerifyFollowers(env, fs[1..])
        case Failure(e) =>
          assert exists i :: FailsFirstAt(env, fs, i, e) by {
            var i :| FailsFirstAt(env, fs[1..], i, e);
            assert FailsFirstAt(env, fs, i + 1, e);
          }
          Failure(e)
        case Success(rest) =>
          Success([(fs[0].0, f)] + rest)
  }

  /** `verifyConfig`: the checks in their fixed order — timeout, secret, backend
      targets, followers present, then each follower — reporting the first that
      fails; on success the configuration with every follower normalised. */
  function VerifyConfig(env: Env, c: Config): (r: Result<Config, Error>)
    ensures r == Failure(UnparseableTimeout) <==> ParseTimeout(env, c.global.connectionTimeout).None?
    ensures r == Failure(NegativeTimeout) <==>
              var to := ParseTimeout(env, c.global.connectionTimeout); to.Some? && to.value < 0
    ensures r == Failure(MissingSecret) <==> TimeoutValid(env, c.global) && c.global.ingestSecret == ""
    ensures r == Failure(NoBackendTargets) <==>
              TimeoutValid(env, c.global) && c.global.ingestSecret != "" && TargetCount(c.global) == 0
    ensures r == Failure(NoFollowers) <==> GlobalChecksPass(env, c.global) && |c.follower| == 0
    ensures r.Failure? && (r.error.MissingBaseDirectory? || r.error.InvalidTagName?) ==>
              GlobalChecksPass(env, c.global) && exists i :: FailsFirstAt(env, c.follower, i, r.error)
    ensures forall i, e :: GlobalChecksPass(env, c.global) && FailsFirstAt(env, c.follower, i, e) ==> r == Failure(e)
    ensures r.Failure? ==> r.error !in {ConfigTooLarge, IncompleteRead, MalformedConfig, NoConnections, NoTags}
    ensures r.Success? <==>
              && GlobalChecksPass(env, c.global)
              && |c.follower| > 0
              && forall i :: 0 <= i < |c.follower| ==> CheckFollower(env, c.follower[i].0, c.follower[i].1).Success?
    ensures r.Success? ==> r.value.global == c.global && |r.value.follower| == |c.follower|
    ensures r.Success? ==> forall i :: 0 <= i < |c.follower| ==>
              r.value.follower[i].0 == c.follower[i].0 && NormalizedFrom(env, c.follower[i].1, r.value.follower[i].1)
  {
    match ParseTimeout(env, c.global.connectionTimeout)
    case None => Failure(UnparseableTimeout)
    case Some(to) =>
      if to < 0 then Failure(NegativeTimeout)
      else if c.global.ingestSecret == "" then Failure(MissingSecret)
      else if TargetCount(c.global) == 0 then Failure(NoBackendTargets)
      else if |c.follower| == 0 then Failure(NoFollowers)
      else
        match VerifyFollowers(env, c.follower)
        case Failure(e) => Failure(e)
        case Success(fs) => Success(c.(follower := fs))
  }

  /** Cleaning `d` gives a non-empty path that cleaning leaves alone. Go's
      `filepath.Clean` behaves so, but its code is not part of this model, so
      results that need it take it as a hypothesis. */
  predicate CleanSettles(env: Env, d: string) {
    env.clean(d) != "" && env.clean(env.clean(d)) == env.clean(d)
  }

  /** A follower that passed its check passes it again unchanged, provided
      cleaning settles on its directory. */
  lemma CheckFollowerStable(env: Env, name: string, before: FollowType, after: FollowType)
    requires NormalizedFrom(env, before, after)
    requires CleanSettles(env, before.baseDirectory)
    ensures CheckFollower(env, name, after) == Success(after)
  {
    var tag := after.tagName;
    assert !ContainsAny(tag, env.forbiddenTagSet);
  }

  /** Validating an already validated configuration changes nothing, provided
      cleaning settles on every follower's directory. */
  lemma {:induction false} VerifyConfigIdempotent(env: Env, c: Config)
    requires VerifyConfig(env, c).Success?
    requires forall i :: 0 <= i < |c.follower| ==> CleanSettles(env, c.follower[i].1.baseDirectory)
    ensures VerifyConfig(env, VerifyConfig(env, c).value) == VerifyConfig(env, c)
  {
    var c' := VerifyConfig(env, c).value;
    var fs := c'.follower;
    forall i | 0 <= i < |fs|
      ensures CheckFollower(env, fs[i].0, fs[i].1) == Success(fs[i].1)
    {
      CheckFollowerStable(env, fs[i].0, c.follower[i].1, fs[i].1);
    }
    var again := VerifyFollowers(env, fs);
    assert again.Success?;
    assert again.value == fs by {
      forall i | 0 <= i < |fs|
        ensures again.value[i] == fs[i]
      {
        var b := fs[i].1;
        var a := again.value[i].1;
        assert NormalizedFrom(env, b, a);
        assert a.baseDirectory == b.baseDirectory;
      }
    }
  }

  /** Example: an empty secret is reported even when no follower is given either,
      because the secret is checked first. */
  lemma SecretCheckedBeforeFollowers(env: Env, g: Global)
    requires g.connectionTimeout == "" && g.ingestSecret == ""
    ensures VerifyConfig(env, Config(g, [])) == Failure(MissingSecret)
  {
  }

  /** Example: a timeout the parser reads as negative is refused. */
  lemma NegativeTimeoutRefused(env: Env, c: Config)
    requires c.global.connectionTimeout == "-5s"
    requires env.parseDuration("-5s") == Some(-5_000_000_000)
    ensures VerifyConfig(env, c) == Failure(NegativeTimeout)
  {
    var t := "-5s";
    assert !IsSpace(t[0]) && !IsSpace(t[2]);
    assert SkipSpace(t, 0) == 0;
    assert SkipSpaceBack(t, 0, 3) == 3;
    assert t[0..3] == t;
    assert TrimSpace(t) == t;
  }

  /** Example: with `!` and space forbidden, the tag `bad tag!` is refused and the
      follower named. */
  lemma ForbiddenTagRefused(env: Env, g: Global, f: FollowType)
    requires GlobalChecksPass(env, g)
    requires env.forbiddenTagSet == {'!', ' '}
    requires f.baseDirectory != "" && f.tagName == "bad tag!"
    ensures VerifyConfig(env, Config(g, [("app", f)])) == Failure(InvalidTagName("app"))
  {
    assert f.tagName[3] == ' ';
  }
}
