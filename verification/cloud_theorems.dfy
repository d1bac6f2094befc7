/** What the record-set script's domain step does, read off its log: which sets it reads,
    when it creates one and with what, and what a failed create leaves out. */
module CloudTheorems {
  import opened Base
  import opened DomainNames
  import opened Zones
  import opened CloudApi
  import opened CloudReconciler

  /** A create of this type that got no set id back. */
  ghost predicate CreateFailed(log: seq<Exchange>, rtype: string) {
    exists x :: x in log && x.call.CreateRRSet? && x.call.rtype == rtype && !x.response.RRSetBody?
  }

  /** A family without an address is never read nor created. */
  lemma {:induction false} BlocksSkipAbsent(zoneId: Id, sub: string, token: string, ipv4: Option<string>, ipv6: Option<string>, p: Provider)
    ensures var log := Blocks(zoneId, sub, token, ipv4, ipv6, p).log;
      && (ipv4.None? ==> forall x :: x in log ==> !About(x.call, "A"))
      && (ipv6.None? ==> forall x :: x in log ==> !About(x.call, "AAAA"))
  {
    var v4 := Family(zoneId, sub, "A", ipv4, token, p);
    if v4.ok {
      var v6 := Family(zoneId, sub, "AAAA", ipv6, token, v4.provider);
      assert Blocks(zoneId, sub, token, ipv4, ipv6, p).log == v4.log + v6.log;
    }
  }

  /** Every create carries the fixed ttl and, as its only value, the address of its family. */
  lemma {:induction false} BlocksCreateAddress(zoneId: Id, sub: string, token: string, ipv4: Option<string>, ipv6: Option<string>, p: Provider)
    ensures forall x :: x in Blocks(zoneId, sub, token, ipv4, ipv6, p).log && x.call.CreateRRSet? ==>
      && x.call.ttl == Ttl
      && ((x.call.rtype == "A" && ipv4.Some? && x.call.values == [ipv4.value])
          || (x.call.rtype == "AAAA" && ipv6.Some? && x.call.values == [ipv6.value]))
  {
    var v4 := Family(zoneId, sub, "A", ipv4, token, p);
    if v4.ok {
      var v6 := Family(zoneId, sub, "AAAA", ipv6, token, v4.provider);
      assert Blocks(zoneId, sub, token, ipv4, ipv6, p).log == v4.log + v6.log;
    }
  }

  /** A family block fails exactly when its create fails. */
  lemma {:induction false} FamilyFails(zoneId: Id, sub: string, rtype: string, addr: Option<string>, token: string, p: Provider)
    ensures var s := Family(zoneId, sub, rtype, addr, token, p);
      !s.ok <==> CreateFailed(s.log, rtype)
  {
    var s := Family(zoneId, sub, rtype, addr, token, p);
    if !s.ok {
      var i :| 0 <= i < |s.log| && !Acceptable(s.log[i]);
      assert s.log[i] in s.log;
    }
    if CreateFailed(s.log, rtype) {
      var x :| x in s.log && x.call.CreateRRSet? && x.call.rtype == rtype && !x.response.RRSetBody?;
      var i :| 0 <= i < |s.log| && s.log[i] == x;
      assert !Acceptable(s.log[i]);
    }
  }

  /** The `continue` after a failed IPv4 create: the domain's IPv6 set is then neither read
      nor created, and the blocks fail. */
  lemma {:induction false} FailedIPv4CreateSkipsIPv6(zoneId: Id, sub: string, token: string, ipv4: Option<string>, ipv6: Option<string>, p: Provider)
    ensures var s := Blocks(zoneId, sub, token, ipv4, ipv6, p);
      CreateFailed(s.log, "A") ==> !s.ok && forall x :: x in s.log ==> !About(x.call, "AAAA")
  {
    var s := Blocks(zoneId, sub, token, ipv4, ipv6, p);
    var v4 := Family(zoneId, sub, "A", ipv4, token, p);
    FamilyFails(zoneId, sub, "A", ipv4, token, p);
    if v4.ok {
      var v6 := Family(zoneId, sub, "AAAA", ipv6, token, v4.provider);
      assert s.log == v4.log + v6.log;
      forall x | x in s.log && x.call.CreateRRSet? && x.call.rtype == "A" ensures x.response.RRSetBody? {
        assert x !in v6.log;
      }
    }
  }

  /** Conversely, a supplied IPv4 family is always read, and a supplied IPv6 family is read
      whenever no IPv4 create failed. */
  lemma {:induction false} BlocksReadSupplied(zoneId: Id, sub: string, token: string, ipv4: Option<string>, ipv6: Option<string>, p: Provider)
    ensures var log := Blocks(zoneId, sub, token, ipv4, ipv6, p).log;
      && (ipv4.Some? ==> |log| >= 1 && log[0].call == GetRRSet(zoneId, sub, "A"))
      && (ipv6.Some? && !CreateFailed(log, "A") ==> exists x :: x in log && x.call == GetRRSet(zoneId, sub, "AAAA"))
  {
    var log := Blocks(zoneId, sub, token, ipv4, ipv6, p).log;
    var v4 := Family(zoneId, sub, "A", ipv4, token, p);
    FamilyFails(zoneId, sub, "A", ipv4, token, p);
    if v4.ok {
      var v6 := Family(zoneId, sub, "AAAA", ipv6, token, v4.provider);
      assert log == v4.log + v6.log;
      if ipv6.Some? {
        assert v6.log[0] in log;
      }
    } else {
      assert log == v4.log;
    }
  }

  /** Every create comes straight after a read of the same set that found none. */
  predicate CreatesFollowMisses(log: seq<Exchange>) {
    forall i :: 0 <= i < |log| && log[i].call.CreateRRSet? ==>
      && 0 < i && !log[i - 1].response.RRSetBody?
      && log[i - 1].call == GetRRSet(log[i].call.zoneId, log[i].call.name, log[i].call.rtype)
  }

  /** Every read that found no set is followed straight away by the create of that set. */
  predicate MissesFollowedByCreates(log: seq<Exchange>) {
    forall i :: 0 <= i < |log| && log[i].call.GetRRSet? && !log[i].response.RRSetBody? ==>
      && i + 1 < |log| && log[i + 1].call.CreateRRSet?
      && log[i + 1].call.zoneId == log[i].call.zoneId
      && log[i + 1].call.name == log[i].call.name
      && log[i + 1].call.rtype == log[i].call.rtype
  }

  /** One family block creates its set exactly when its read found none. */
  lemma {:induction false} FamilyCreatesOnMiss(zoneId: Id, name: string, rtype: string, addr: Option<string>, token: string, p: Provider)
    ensures var log := Family(zoneId, name, rtype, addr, token, p).log;
      CreatesFollowMisses(log) && MissesFollowedByCreates(log)
  {
    var log := Family(zoneId, name, rtype, addr, token, p).log;
    if addr.Some? {
      assert 1 <= |log| <= 2 && log[0].call.GetRRSet?;
      if |log| == 2 {
        assert !log[0].response.RRSetBody? && log[1].call == CreateRRSet(zoneId, name, rtype, Ttl, [addr.value]);
      }
    }
  }

  /** Both adjacency properties survive putting two logs end to end, provided the second
      does not open with a create. */
  lemma {:induction false} AdjacencyConcat(a: seq<Exchange>, b: seq<Exchange>)
    requires CreatesFollowMisses(a) && MissesFollowedByCreates(a)
    requires CreatesFollowMisses(b) && MissesFollowedByCreates(b)
    requires |b| > 0 ==> !b[0].call.CreateRRSet?
    ensures CreatesFollowMisses(a + b) && MissesFollowedByCreates(a + b)
  {
    var log := a + b;
    forall i | 0 <= i < |log| && log[i].call.CreateRRSet?
      ensures 0 < i && !log[i - 1].response.RRSetBody?
      ensures log[i - 1].call == GetRRSet(log[i].call.zoneId, log[i].call.name, log[i].call.rtype)
    {
      if i < |a| {
        assert log[i] == a[i] && log[i - 1] == a[i - 1];
      } else {
        var j := i - |a|;
        assert log[i] == b[j];
        assert 0 < j;
        assert log[i - 1] == b[j - 1];
      }
    }
    forall i | 0 <= i < |log| && log[i].call.GetRRSet? && !log[i].response.RRSetBody?
      ensures i + 1 < |log| && log[i + 1].call.CreateRRSet?
      ensures log[i + 1].call.zoneId == log[i].call.zoneId && log[i + 1].call.name == log[i].call.name
      ensures log[i + 1].call.rtype == log[i].call.rtype
    {
      if i < |a| {
        assert log[i] == a[i] && log[i + 1] == a[i + 1];
      } else {
        var j := i - |a|;
        assert log[i] == b[j] && log[i + 1] == b[j + 1];
      }
    }
  }

  /** Across a domain's family blocks, a set is created exactly when the read just before
      found none: every create follows a miss of its own set, and every miss is followed by
      the create of that set. */
  lemma {:induction false} BlocksCreateOnMiss(zoneId: Id, sub: string, token: string, ipv4: Option<string>, ipv6: Option<string>, p: Provider)
    ensures var log := Blocks(zoneId, sub, token, ipv4, ipv6, p).log;
      CreatesFollowMisses(log) && MissesFollowedByCreates(log)
  {
    var v4 := Family(zoneId, sub, "A", ipv4, token, p);
    FamilyCreatesOnMiss(zoneId, sub, "A", ipv4, token, p);
    if v4.ok {
      var v6 := Family(zoneId, sub, "AAAA", ipv6, token, v4.provider);
      FamilyCreatesOnMiss(zoneId, sub, "AAAA", ipv6, token, v4.provider);
      AdjacencyConcat(v4.log, v6.log);
      assert Blocks(zoneId, sub, token, ipv4, ipv6, p).log == v4.log + v6.log;
    }
  }

  /** The domain loop stripped of `$result`: each domain's step in turn, each starting from
      the provider the one before left, with their logs put end to end. */
  function EachDomain(domains: seq<string>, token: string, ipv4: Option<string>, ipv6: Option<string>, p: Provider): Step
    decreases |domains|
  {
    if domains == [] then Step([], true, p)
    else
      var s := ProcessDomain(domains[0], token, ipv4, ipv6, p);
      var rest := EachDomain(domains[1..], token, ipv4, ipv6, s.provider);
      Step(s.log + rest.log, s.ok && rest.ok, rest.provider)
  }

  /** The loop's calls and the provider it leaves are those of the domain steps run one
      after another, and `$result` is the incoming verdict folded with every step's outcome:
      a failed domain neither stops nor changes what the later domains do. */
  lemma {:induction false} ProcessAllIsEachDomain(domains: seq<string>, token: string, ipv4: Option<string>, ipv6: Option<string>,
                                                  verdict: Verdict, p: Provider)
    ensures var b := ProcessAll(domains, token, ipv4, ipv6, verdict, p);
      var d := EachDomain(domains, token, ipv4, ipv6, p);
      && b.log == d.log && b.provider == d.provider
      && b.status == Completed(if verdict == Success && d.ok then Success else Failure)
    decreases |domains|
  {
    if domains != [] {
      var s := ProcessDomain(domains[0], token, ipv4, ipv6, p);
      ProcessAllIsEachDomain(domains[1..], token, ipv4, ipv6, Fold(verdict, s.ok), s.provider);
    }
  }

  /** The verdict carried into the loop changes neither its calls nor the provider it leaves. */
  lemma {:induction false} ProcessAllIgnoresVerdict(domains: seq<string>, token: string, ipv4: Option<string>, ipv6: Option<string>,
                                                    verdict: Verdict, p: Provider)
    ensures ProcessAll(domains, token, ipv4, ipv6, verdict, p).log == ProcessAll(domains, token, ipv4, ipv6, Success, p).log
    ensures ProcessAll(domains, token, ipv4, ipv6, verdict, p).provider == ProcessAll(domains, token, ipv4, ipv6, Success, p).provider
  {
    ProcessAllIsEachDomain(domains, token, ipv4, ipv6, verdict, p);
    ProcessAllIsEachDomain(domains, token, ipv4, ipv6, Success, p);
  }
}
