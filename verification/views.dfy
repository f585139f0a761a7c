/** The read-only views of a configuration the rest of the agent queries:
    connection strings, tags, timeout, cache switch and a copy of the followers. */
module Views {
  import opened Wrappers
  import opened Strings
  import opened Dedup
  import opened ConfigTypes
  import opened Verify

  const TcpScheme: string := "tcp://"
  const TlsScheme: string := "tls://"
  const PipeScheme: string := "pipe://"

  /** Each host of `hosts` behind the connection scheme `scheme`, in order. */
  function Prefixed(scheme: string, hosts: seq<string>): (r: seq<string>)
    ensures |r| == |hosts|
    ensures forall i :: 0 <= i < |hosts| ==> r[i] == scheme + hosts[i]
  {
    seq(|hosts|, i requires 0 <= i < |hosts| => scheme + hosts[i])
  }

  /** `Targets`: the cleartext targets as `tcp://`, then the encrypted ones as
      `tls://`, then the pipes as `pipe://`, each group in its own order; an
      error when there are none at all. */
  function Targets(c: Config): (r: Result<seq<string>, Error>)
    ensures r.Failure? <==> TargetCount(c.global) == 0
    ensures r.Failure? ==> r.error == NoConnections
    ensures r.Success? ==> |r.value| == TargetCount(c.global)
    ensures r.Success? ==>
              var clear := c.global.cleartextBackendTarget;
              var enc := c.global.encryptedBackendTarget;
              var pipe := c.global.pipeBackendTarget;
              && (forall i :: 0 <= i < |clear| ==> r.value[i] == TcpScheme + clear[i])
              && (forall i :: 0 <= i < |enc| ==> r.value[|clear| + i] == TlsScheme + enc[i])
              && (forall i :: 0 <= i < |pipe| ==> r.value[|clear| + |enc| + i] == PipeScheme + pipe[i])
  {
    var g := c.global;
    var conns := Prefixed(TcpScheme, g.cleartextBackendTarget)
               + Prefixed(TlsScheme, g.encryptedBackendTarget)
               + Prefixed(PipeScheme, g.pipeBackendTarget);
    if |conns| == 0 then Failure(NoConnections) else Success(conns)
  }

  /** The hosts of the connection strings that use `scheme`, scheme removed, in
      order: how a dialer reads a connection list back. */
  function SchemeHosts(conns: seq<string>, scheme: string): seq<string>
  {
    if |conns| == 0 then []
    else
      var rest := SchemeHosts(conns[1..], scheme);
      if HasPrefix(conns[0], scheme) then [conns[0][|scheme|..]] + rest else rest
  }

  lemma {:induction false} SchemeHostsAppend(a: seq<string>, b: seq<string>, scheme: string)
    ensures SchemeHosts(a + b, scheme) == SchemeHosts(a, scheme) + SchemeHosts(b, scheme)
  {
    if |a| > 0 {
      assert (a + b)[1..] == a[1..] + b;
      SchemeHostsAppend(a[1..], b, scheme);
    } else {
      assert a + b == b;
    }
  }

  /** Reading a group back under its own scheme gives the group. */
  lemma {:induction false} SchemeHostsOwn(scheme: string, hosts: seq<string>)
    ensures SchemeHosts(Prefixed(scheme, hosts), scheme) == hosts
  {
    if |hosts| > 0 {
      var ps := Prefixed(scheme, hosts);
      assert ps[1..] == Prefixed(scheme, hosts[1..]);
      SchemeHostsOwn(scheme, hosts[1..]);
      PrefixStrip(scheme, hosts[0]);
      assert hosts == [hosts[0]] + hosts[1..];
    }
  }

  /** Reading a group back under a scheme that clashes with its own at position `k` gives nothing. */
  lemma {:induction false} SchemeHostsOther(own: string, scheme: string, hosts: seq<string>, k: nat)
    requires k < |own| && k < |scheme| && own[k] != scheme[k]
    ensures SchemeHosts(Prefixed(own, hosts), scheme) == []
  {
    if |hosts| > 0 {
      var ps := Prefixed(own, hosts);
      assert ps[1..] == Prefixed(own, hosts[1..]);
      SchemeHostsOther(own, scheme, hosts[1..], k);
      PrefixClash(scheme, own, hosts[0], k);
    }
  }

  /** The connection list loses nothing: reading it back scheme by scheme gives
      the three target lists of the configuration, each in its original order. */
  lemma TargetsRoundTrip(c: Config)
    requires Targets(c).Success?
    ensures SchemeHosts(Targets(c).value, TcpScheme) == c.global.cleartextBackendTarget
    ensures SchemeHosts(Targets(c).value, TlsScheme) == c.global.encryptedBackendTarget
    ensures SchemeHosts(Targets(c).value, PipeScheme) == c.global.pipeBackendTarget
  {
    var g := c.global;
    var a := Prefixed(TcpScheme, g.cleartextBackendTarget);
    var b := Prefixed(TlsScheme, g.encryptedBackendTarget);
    var p := Prefixed(PipeScheme, g.pipeBackendTarget);
    assert Targets(c).value == (a + b) + p;
    SchemeHostsAppend(a + b, p, TcpScheme);
    SchemeHostsAppend(a + b, p, TlsScheme);
    SchemeHostsAppend(a + b, p, PipeScheme);
    SchemeHostsAppend(a, b, TcpScheme);
    SchemeHostsAppend(a, b, TlsScheme);
    SchemeHostsAppend(a, b, PipeScheme);
    SchemeHostsOwn(TcpScheme, g.cleartextBackendTarget);
    SchemeHostsOwn(TlsScheme, g.encryptedBackendTarget);
    SchemeHostsOwn(PipeScheme, g.pipeBackendTarget);
    SchemeHostsOther(TlsScheme, TcpScheme, g.encryptedBackendTarget, 1);
    SchemeHostsOther(PipeScheme, TcpScheme, g.pipeBackendTarget, 0);
    SchemeHostsOther(TcpScheme, TlsScheme, g.cleartextBackendTarget, 1);
    SchemeHostsOther(PipeScheme, TlsScheme, g.pipeBackendTarget, 0);
    SchemeHostsOther(TcpScheme, PipeScheme, g.cleartextBackendTarget, 0);
    SchemeHostsOther(TlsScheme, PipeScheme, g.encryptedBackendTarget, 0);
  }

  /** The followers' tag names, in iteration order. */
  function TagNames(fs: seq<(string, FollowType)>): (r: seq<string>)
    ensures |r| == |fs|
    ensures forall i :: 0 <= i < |fs| ==> r[i] == fs[i].1.tagName
  {
    seq(|fs|, i requires 0 <= i < |fs| => fs[i].1.tagName)
  }

  /** `Tags`: walks the followers in iteration order, remembering the tags already
      taken, and collects each non-empty tag the first time it is met; an error
      when no follower has a tag. */
  method Tags(c: Config) returns (r: Result<seq<string>, Error>)
    ensures r.Failure? <==> forall i :: 0 <= i < |c.follower| ==> c.follower[i].1.tagName == ""
    ensures r.Failure? ==> r.error == NoTags
    ensures r.Success? ==> r.value == FirstSeen(TagNames(c.follower))
    ensures r.Success? ==> NoDuplicates(r.value)
    ensures r.Success? ==> forall t :: t in r.value <==> t != "" && t in TagNames(c.follower)
    ensures r.Success? ==> OrderedByFirstIndex(TagNames(c.follower), r.value)
  {
    var names := TagNames(c.follower);
    var tags: seq<string> := [];
    var seen: set<string> := {};
    var i := 0;
    while i < |c.follower|
      invariant 0 <= i <= |c.follower|
      invariant tags == FirstSeen(names[..i])
      invariant forall t :: t in seen <==> t in tags
    {
      var t := c.follower[i].1.tagName;
      assert names[..i + 1][..i] == names[..i];
      if t != "" && t !in seen {
        tags := tags + [t];
        seen := seen + {t};
      }
      i := i + 1;
    }
    assert names[..i] == names;
    if |tags| == 0 {
      assert forall i :: 0 <= i < |c.follower| ==> names[i] !in tags;
      r := Failure(NoTags);
    } else {
      assert tags[0] in names[..i];
      var k :| 0 <= k < |names| && names[k] == tags[0];
      assert c.follower[k].1.tagName != "";
      FirstSeenOrder(names);
      r := Success(tags);
    }
  }

  /** `Timeout`: the parsed timeout when it is positive and zero otherwise,
      including when the timeout does not parse. */
  function Timeout(env: Env, c: Config): (r: int)
    ensures r >= 0
    ensures r > 0 ==> ParseTimeout(env, c.global.connectionTimeout) == Some(r)
    ensures var to := ParseTimeout(env, c.global.connectionTimeout);
            to.Some? && to.value > 0 ==> r == to.value
  {
    match ParseTimeout(env, c.global.connectionTimeout)
    case Some(to) => if to > 0 then to else 0
    case None => 0
  }

  /** `CacheEnabled`: the ingest cache is on exactly when a cache path is set. */
  function CacheEnabled(c: Config): (r: bool)
    ensures r <==> |c.global.ingestCachePath| > 0
  {
    c.global.ingestCachePath != ""
  }

  /** `Followers`: a copy of the follower map, from name to entry. The names are
      distinct, as the keys of the program's map are. */
  function Followers(c: Config): (m: map<string, FollowType>)
    requires DistinctNames(c.follower)
    ensures m.Keys == set p | p in c.follower :: p.0
    ensures forall i :: 0 <= i < |c.follower| ==> m[c.follower[i].0] == c.follower[i].1
  {
    FollowerMap(c.follower)
  }

  /** The map holding each (name, entry) pair of `fs`. */
  function FollowerMap(fs: seq<(string, FollowType)>): (m: map<string, FollowType>)
    ensures m.Keys == set p | p in fs :: p.0
    ensures DistinctNames(fs) ==> forall i :: 0 <= i < |fs| ==> m[fs[i].0] == fs[i].1
  {
    if |fs| == 0 then map[]
    else
      var init := fs[..|fs| - 1];
      var last := fs[|fs| - 1];
      var prior := FollowerMap(init);
      var m := prior[last.0 := last.1];
      assert fs == init + [last];
      assert forall p :: p in fs <==> p in init || p == last;
      assert DistinctNames(fs) ==> forall i :: 0 <= i < |fs| ==> m[fs[i].0] == fs[i].1 by {
        if DistinctNames(fs) {
          assert DistinctNames(init);
          forall i | 0 <= i < |fs|
            ensures m[fs[i].0] == fs[i].1
          {
            if i < |init| {
              assert fs[i] == init[i] && fs[i].0 != last.0;
            }
          }
        }
      }
      m
  }
}
