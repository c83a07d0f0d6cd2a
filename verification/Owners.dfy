/** utils.match_owner: vCenter shards of one availability zone are the same owner. */
module Owners {
  import opened Wrappers

  // ---- the names that the pattern describes

  /** The characters that the pattern takes for digits: '0' to '9' and every other
      decimal digit of Unicode. All that matters is that the dot is none. */
  type Decimals = d: set<char> | '.' !in d

  predicate IsDigits(decimals: Decimals, d: string) {
    d != "" && forall i :: 0 <= i < |d| ==> d[i] in decimals
  }

  predicate IsRegion(r: string) {
    r != "" && '\n' !in r
  }

  function Shard(letter: char, digits: string, region: string): string {
    "vc-" + [letter] + "-" + digits + ".cc." + region + ".cloud.sap"
  }

  predicate IsShard(decimals: Decimals, host: string, letter: char, digits: string, region: string) {
    'a' <= letter <= 'z' && IsDigits(decimals, digits) && IsRegion(region) && host == Shard(letter, digits, region)
  }

  ghost predicate IsShardOf(decimals: Decimals, host: string, letter: char, region: string) {
    exists digits :: IsShard(decimals, host, letter, digits, region)
  }

  /** The pattern matches and captures the letter and the region. Its last anchor
      also matches in front of a line break that ends the name. */
  ghost predicate InZone(decimals: Decimals, host: string, letter: char, region: string) {
    || IsShardOf(decimals, host, letter, region)
    || (host != "" && host[|host| - 1] == '\n' && IsShardOf(decimals, host[..|host| - 1], letter, region))
  }

  ghost predicate IsVCenter(decimals: Decimals, host: string) {
    exists letter, region :: InZone(decimals, host, letter, region)
  }

  // ---- matching

  function DigitRun(decimals: Decimals, s: string): (n: nat)
    ensures n <= |s|
    ensures forall i :: 0 <= i < n ==> s[i] in decimals
    ensures n < |s| ==> s[n] !in decimals
  {
    if s == "" || s[0] !in decimals then 0 else 1 + DigitRun(decimals, s[1..])
  }

  function MatchWhole(decimals: Decimals, host: string): Option<(char, string)> {
    if |host| < 5 || host[..3] != "vc-" || !('a' <= host[3] <= 'z') || host[4] != '-' then None
    else
      var tail := host[5..];
      var n := DigitRun(decimals, tail);
      var rest := tail[n..];
      if n == 0 || |rest| < 15 || rest[..4] != ".cc." || rest[|rest| - 10..] != ".cloud.sap" then None
      else
        var region := rest[4..|rest| - 10];
        if '\n' in region then None else Some((host[3], region))
  }

  datatype Owner = Zone(letter: char, region: string) | Other(host: Option<string>)

  /** extract_vcenter_az: no name and the empty name stay what they are. */
  function ExtractVCenterAz(decimals: Decimals, host: Option<string>): Owner {
    if host.None? || host.value == "" then Other(host)
    else
      var whole := MatchWhole(decimals, host.value);
      var line := if host.value[|host.value| - 1] == '\n' then MatchWhole(decimals, host.value[..|host.value| - 1])
                  else None;
      if whole.Some? then Zone(whole.value.0, whole.value.1)
      else if line.Some? then Zone(line.value.0, line.value.1)
      else Other(host)
  }

  predicate MatchOwner(decimals: Decimals, sessionUser: Option<string>, objectOwner: Option<string>) {
    ExtractVCenterAz(decimals, sessionUser) == ExtractVCenterAz(decimals, objectOwner)
  }

  // ---- the pattern takes a name apart in at most one way

  lemma {:induction false} DigitRunOf(decimals: Decimals, d: string, t: string)
    requires forall i :: 0 <= i < |d| ==> d[i] in decimals
    requires t != "" && t[0] !in decimals
    ensures DigitRun(decimals, d + t) == |d|
  {
    if d == "" {
      assert d + t == t;
    } else {
      assert (d + t)[1..] == d[1..] + t;
      DigitRunOf(decimals, d[1..], t);
    }
  }

  lemma ShardShape(letter: char, digits: string, region: string)
    ensures var host := Shard(letter, digits, region);
      && |host| >= 5 && host[..3] == "vc-" && host[3] == letter && host[4] == '-'
      && host[5..] == digits + (".cc." + region + ".cloud.sap")
  {
    var host := Shard(letter, digits, region);
    var start := "vc-" + [letter] + "-";
    assert host == start + (digits + (".cc." + region + ".cloud.sap"));
    assert host[5..] == digits + (".cc." + region + ".cloud.sap");
    assert start[..3] == "vc-" && host[..3] == start[..3];
  }

  lemma ShardMatches(decimals: Decimals, letter: char, digits: string, region: string)
    requires 'a' <= letter <= 'z' && IsDigits(decimals, digits) && IsRegion(region)
    ensures MatchWhole(decimals, Shard(letter, digits, region)) == Some((letter, region))
  {
    ShardShape(letter, digits, region);
    hide Shard;
    var rest := ".cc." + region + ".cloud.sap";
    assert rest[0] == '.';
    DigitRunOf(decimals, digits, rest);
    assert (digits + rest)[|digits|..] == rest;
    assert rest[..4] == ".cc.";
    assert rest[|rest| - 10..] == ".cloud.sap";
    assert rest[4..|rest| - 10] == region;
  }

  lemma MatchIsShard(decimals: Decimals, host: string) returns (digits: string)
    requires MatchWhole(decimals, host).Some?
    ensures IsShard(decimals, host, MatchWhole(decimals, host).value.0, digits, MatchWhole(decimals, host).value.1)
  {
    var tail := host[5..];
    digits := tail[..DigitRun(decimals, tail)];
    var rest, region := tail[DigitRun(decimals, tail)..], MatchWhole(decimals, host).value.1;
    assert rest == ".cc." + region + ".cloud.sap";
    assert host == host[..3] + [host[3]] + [host[4]] + digits + rest;
    assert host == Shard(host[3], digits, region);
  }

  /** The parts of a shard name are determined by the name. */
  lemma UniqueParts(decimals: Decimals, l: char, d: string, r: string, l': char, d': string, r': string)
    requires IsShard(decimals, Shard(l, d, r), l, d, r) && IsShard(decimals, Shard(l, d, r), l', d', r')
    ensures l == l' && d == d' && r == r'
  {
    ShardMatches(decimals, l, d, r);
    ShardMatches(decimals, l', d', r');
    var host := Shard(l, d, r);
    assert |d| == |d'|;
    assert host[5..5 + |d|] == d && host[5..5 + |d'|] == d';
  }

  lemma MatchWholeIff(decimals: Decimals, host: string, letter: char, region: string)
    ensures MatchWhole(decimals, host) == Some((letter, region)) <==> IsShardOf(decimals, host, letter, region)
  {
    if MatchWhole(decimals, host) == Some((letter, region)) {
      var digits := MatchIsShard(decimals, host);
    }
    if digits :| IsShard(decimals, host, letter, digits, region) {
      ShardMatches(decimals, letter, digits, region);
    }
  }

  /** A shard name ends with a letter, so at most one of the two ways to read the
      last anchor applies. */
  lemma NotBoth(decimals: Decimals, host: string)
    requires MatchWhole(decimals, host).Some?
    ensures host != "" && host[|host| - 1] == 'p'
  {
    var digits := MatchIsShard(decimals, host);
  }

  lemma NoEmptyName(decimals: Decimals)
    ensures MatchWhole(decimals, "").None?
  {
  }

  lemma ZoneIff(decimals: Decimals, host: Option<string>, letter: char, region: string)
    ensures ExtractVCenterAz(decimals, host) == Zone(letter, region)
            <==> host.Some? && InZone(decimals, host.value, letter, region)
  {
    hide MatchWhole, IsShardOf;
    NoEmptyName(decimals);
    if host.Some? {
      var h := host.value;
      MatchWholeIff(decimals, h, letter, region);
      if h != "" {
        MatchWholeIff(decimals, h[..|h| - 1], letter, region);
        if MatchWhole(decimals, h).Some? { NotBoth(decimals, h); }
      }
    }
  }

  // ---- who owns what

  /** Two names match if and only if both are shard names with the same letter and
      region, or neither is a shard name and they are equal. */
  lemma MatchOwnerIff(decimals: Decimals, sessionUser: Option<string>, objectOwner: Option<string>)
    ensures MatchOwner(decimals, sessionUser, objectOwner) <==>
      || (exists letter, region :: sessionUser.Some? && objectOwner.Some?
            && InZone(decimals, sessionUser.value, letter, region)
            && InZone(decimals, objectOwner.value, letter, region))
      || (sessionUser == objectOwner && (sessionUser.Some? ==> !IsVCenter(decimals, sessionUser.value)))
  {
    var user, owner := ExtractVCenterAz(decimals, sessionUser), ExtractVCenterAz(decimals, objectOwner);
    if user.Zone? {
      ZoneIff(decimals, sessionUser, user.letter, user.region);
      ZoneIff(decimals, objectOwner, user.letter, user.region);
    }
    forall letter, region
      ensures user == Zone(letter, region) <==> sessionUser.Some? && InZone(decimals, sessionUser.value, letter, region)
      ensures owner == Zone(letter, region)
         <==> objectOwner.Some? && InZone(decimals, objectOwner.value, letter, region)
    {
      ZoneIff(decimals, sessionUser, letter, region);
      ZoneIff(decimals, objectOwner, letter, region);
    }
  }

  /** The shards of a zone, whatever their numbers. */
  lemma ShardsMatch(decimals: Decimals, l: char, d: string, r: string, l': char, d': string, r': string)
    requires 'a' <= l <= 'z' && IsDigits(decimals, d) && IsRegion(r)
    requires 'a' <= l' <= 'z' && IsDigits(decimals, d') && IsRegion(r')
    ensures MatchOwner(decimals, Some(Shard(l, d, r)), Some(Shard(l', d', r'))) <==> l == l' && r == r'
  {
    ShardMatches(decimals, l, d, r);
    ShardMatches(decimals, l', d', r');
  }

  /** A shard never matches a name that is none. */
  lemma ShardAgainstOther(decimals: Decimals, l: char, d: string, r: string, other: Option<string>)
    requires 'a' <= l <= 'z' && IsDigits(decimals, d) && IsRegion(r)
    requires other.Some? ==> !IsVCenter(decimals, other.value)
    ensures !MatchOwner(decimals, Some(Shard(l, d, r)), other)
  {
    ShardMatches(decimals, l, d, r);
    ZoneIff(decimals, other, l, r);
    assert other.Some? && InZone(decimals, other.value, l, r) ==> IsVCenter(decimals, other.value);
  }
}
