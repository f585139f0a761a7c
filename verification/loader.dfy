/** `GetConfig` without its file handling: the size and read-count guards, the
    decoder's verdict, and validation, in that order; and what a configuration
    that comes out of it is guaranteed to answer. */
module Loader {
  import opened Wrappers
  import opened Dedup
  import opened ConfigTypes
  import opened Verify
  import opened Views

  /** `MAX_CONFIG_SIZE`: two mebibytes. */
  const MaxConfigSize: nat := 1024 * 1024 * 2

  /** The guards on a configuration file of `size` bytes (as reported by `Stat`)
      of which one read returned `bytesRead`: too large files are refused before
      they are read, and a read that returned a different count is refused. */
  function CheckRead(size: nat, bytesRead: nat): (r: Outcome<Error>)
    ensures r == Fail(ConfigTooLarge) <==> size > 2_097_152
    ensures r == Fail(IncompleteRead) <==> size <= 2_097_152 && bytesRead != size
    ensures r.Pass? <==> size <= 2_097_152 && bytesRead == size
  {
    if size > MaxConfigSize then Fail(ConfigTooLarge)
    else if bytesRead != size then Fail(IncompleteRead)
    else Pass
  }

  /** `GetConfig` after the file is opened and measured: `decoded` is what the
      configuration decoder made of the bytes read (`None` for a syntax error).
      The validator's verdict is passed on unchanged. */
  function Load(env: Env, size: nat, bytesRead: nat, decoded: Option<Config>): (r: Result<Config, Error>)
    ensures size > MaxConfigSize ==> r == Failure(ConfigTooLarge)
    ensures size <= MaxConfigSize && bytesRead != size ==> r == Failure(IncompleteRead)
    ensures CheckRead(size, bytesRead).Pass? && decoded.None? ==> r == Failure(MalformedConfig)
    ensures CheckRead(size, bytesRead).Pass? && decoded.Some? ==> r == VerifyConfig(env, decoded.value)
    ensures r.Success? ==> size <= MaxConfigSize && bytesRead == size && decoded.Some?
  {
    match CheckRead(size, bytesRead)
    case Fail(e) => Failure(e)
    case Pass =>
      match decoded
      case None => Failure(MalformedConfig)
      case Some(c) => VerifyConfig(env, c)
  }

  /** The size ceiling is inclusive: a file of exactly two mebibytes passes the
      guard, one byte more does not. */
  lemma SizeCeilingBoundary(bytesRead: nat)
    ensures CheckRead(2_097_152, 2_097_152) == Pass
    ensures CheckRead(2_097_153, bytesRead) == Fail(ConfigTooLarge)
  {
  }

  /** A configuration the loader accepts never trips the accessors' defensive
      re-checks: it has connections and tags, every follower's tag is among the
      tags, and its timeout is the parsed, non-negative duration. */
  lemma LoadedAnswers(env: Env, size: nat, bytesRead: nat, decoded: Option<Config>)
    requires Load(env, size, bytesRead, decoded).Success?
    ensures var c := Load(env, size, bytesRead, decoded).value;
            && Targets(c).Success?
            && FirstSeen(TagNames(c.follower)) != []
            && (forall i :: 0 <= i < |c.follower| ==> c.follower[i].1.tagName in FirstSeen(TagNames(c.follower)))
            && Timeout(env, c) == ParseTimeout(env, c.global.connectionTimeout).value
  {
    var c := Load(env, size, bytesRead, decoded).value;
    var names := TagNames(c.follower);
    forall i | 0 <= i < |c.follower|
      ensures names[i] != "" && names[i] in FirstSeen(names)
    {
      assert names[i] == c.follower[i].1.tagName;
    }
    assert names[0] in FirstSeen(names);
  }
}
