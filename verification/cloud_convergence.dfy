/** Running the record-set script's domain step twice against a provider that does not
    fail: the first pass leaves a set for every supplied family, and the second pass only
    reads. An existing set is never rewritten, whatever values it holds. */
module CloudConvergence {
  import opened Base
  import opened DomainNames
  import opened Zones
  import opened CloudApi
  import opened CloudReconciler

  /** From the provider's next call on, nothing fails: the token is accepted and the
      failure oracle is silent. */
  ghost predicate Reliable(p: Provider, token: string) {
    token in p.tokens && forall k :: p.served <= k ==> k !in p.outages
  }

  /** When an address is supplied, the set of its family exists. */
  predicate Holds(rrsets: seq<RRSet>, zoneId: Id, name: string, rtype: string, addr: Option<string>) {
    addr.Some? ==> FindRRSet(rrsets, zoneId, name, rtype).Some?
  }

  /** A set that exists keeps existing when sets are only appended. */
  lemma {:induction false} HoldsKept(a: seq<RRSet>, b: seq<RRSet>, zoneId: Id, name: string, rtype: string, addr: Option<string>)
    requires a <= b && Holds(a, zoneId, name, rtype, addr)
    ensures Holds(b, zoneId, name, rtype, addr)
  {
    if addr.Some? {
      var x := FindRRSet(a, zoneId, name, rtype).value;
      assert x in b;
    }
  }

  /** On a provider that does not fail and holds the zone, a family block succeeds and
      leaves the set in place, creating it when the read misses. */
  lemma {:induction false} EnsureProvides(zoneId: Id, name: string, rtype: string, addr: string, token: string, p: Provider)
    requires Reliable(p, token) && HasZone(p.zones, zoneId)
    ensures var s := Ensure(zoneId, name, rtype, addr, token, p);
      s.ok && FindRRSet(s.provider.rrsets, zoneId, name, rtype).Some?
  {
    ServeGet(p, token, zoneId, name, rtype);
    var q := p.(served := p.served + 1);
    if FindRRSet(p.rrsets, zoneId, name, rtype).None? {
      assert !Down(q, token);
      ServeCreate(q, token, zoneId, name, rtype, Ttl, [addr]);
      var x := RRSet(q.nextId, zoneId, name, rtype, Ttl, [addr]);
      assert x in q.rrsets + [x];
    }
  }

  /** When the set exists, a family block only reads it: no create, nothing changed, even
      when the set's values differ from the address. */
  lemma {:induction false} EnsureQuiet(zoneId: Id, name: string, rtype: string, addr: string, token: string, p: Provider)
    requires !Down(p, token) && FindRRSet(p.rrsets, zoneId, name, rtype).Some?
    ensures var s := Ensure(zoneId, name, rtype, addr, token, p);
      |s.log| == 1 && s.ok && s.provider.rrsets == p.rrsets
  {
    ServeGet(p, token, zoneId, name, rtype);
  }

  /** On a provider that does not fail and holds the zone, the blocks succeed and leave a
      set for every supplied family. */
  lemma {:induction false} BlocksProvide(zoneId: Id, sub: string, token: string, ipv4: Option<string>, ipv6: Option<string>, p: Provider)
    requires Reliable(p, token) && HasZone(p.zones, zoneId)
    ensures var s := Blocks(zoneId, sub, token, ipv4, ipv6, p);
      && s.ok
      && Holds(s.provider.rrsets, zoneId, sub, "A", ipv4)
      && Holds(s.provider.rrsets, zoneId, sub, "AAAA", ipv6)
  {
    var v4 := Family(zoneId, sub, "A", ipv4, token, p);
    if ipv4.Some? {
      EnsureProvides(zoneId, sub, "A", ipv4.value, token, p);
    }
    assert Reliable(v4.provider, token);
    var v6 := Family(zoneId, sub, "AAAA", ipv6, token, v4.provider);
    if ipv6.Some? {
      EnsureProvides(zoneId, sub, "AAAA", ipv6.value, token, v4.provider);
    }
    HoldsKept(v4.provider.rrsets, v6.provider.rrsets, zoneId, sub, "A", ipv4);
  }

  /** When every supplied family's set exists, the blocks issue reads only. */
  lemma {:induction false} BlocksQuiet(zoneId: Id, sub: string, token: string, ipv4: Option<string>, ipv6: Option<string>, p: Provider)
    requires Reliable(p, token)
    requires Holds(p.rrsets, zoneId, sub, "A", ipv4) && Holds(p.rrsets, zoneId, sub, "AAAA", ipv6)
    ensures var log := Blocks(zoneId, sub, token, ipv4, ipv6, p).log;
      forall x :: x in log ==> !x.call.IsWrite()
  {
    var v4 := Family(zoneId, sub, "A", ipv4, token, p);
    if ipv4.Some? {
      EnsureQuiet(zoneId, sub, "A", ipv4.value, token, p);
    }
    assert Reliable(v4.provider, token);
    var v6 := Family(zoneId, sub, "AAAA", ipv6, token, v4.provider);
    if ipv6.Some? {
      EnsureQuiet(zoneId, sub, "AAAA", ipv6.value, token, v4.provider);
    }
    assert Blocks(zoneId, sub, token, ipv4, ipv6, p).log == v4.log + v6.log;
  }

  /** The zone lookup on a provider that is up returns the account's zones of that name. */
  lemma {:induction false} ZoneLookup(domain: string, token: string, p: Provider)
    requires !Down(p, token)
    ensures Serve(p, token, FindZones(ZoneName(domain))) ==
      Reply(ZoneList(Named(p.zones, ZoneName(domain))), p.(served := p.served + 1))
  {
  }

  /** The domain step as its lookup and blocks, on a provider that is up. */
  lemma {:induction false} DomainSteps(domain: string, token: string, ipv4: Option<string>, ipv6: Option<string>, p: Provider)
    requires !Down(p, token)
    ensures var zones := Named(p.zones, ZoneName(domain));
      var s := ProcessDomain(domain, token, ipv4, ipv6, p);
      && (|zones| == 0 ==> |s.log| == 1 && !s.ok)
      && (|zones| > 0 ==>
            var b := Blocks(zones[0].id, SubName(domain), token, ipv4, ipv6, p.(served := p.served + 1));
            s.log[1..] == b.log && s.ok == b.ok && s.provider == b.provider)
  {
    ZoneLookup(domain, token, p);
    var s := ProcessDomain(domain, token, ipv4, ipv6, p);
    var zones := Named(p.zones, ZoneName(domain));
    if |zones| > 0 {
      var b := Blocks(zones[0].id, SubName(domain), token, ipv4, ipv6, p.(served := p.served + 1));
      assert s.log == [s.log[0]] + b.log;
    }
  }

  /** On a provider that does not fail, the domain step succeeds exactly when the account
      has a zone of the domain's zone name, and then leaves a set for every supplied family. */
  lemma {:induction false} FirstPassProvides(domain: string, token: string, ipv4: Option<string>, ipv6: Option<string>, p: Provider)
    requires Reliable(p, token)
    ensures var zones := Named(p.zones, ZoneName(domain));
      var s := ProcessDomain(domain, token, ipv4, ipv6, p);
      && (s.ok <==> |zones| > 0)
      && (|zones| > 0 ==>
            && Holds(s.provider.rrsets, zones[0].id, SubName(domain), "A", ipv4)
            && Holds(s.provider.rrsets, zones[0].id, SubName(domain), "AAAA", ipv6))
  {
    DomainSteps(domain, token, ipv4, ipv6, p);
    var zones := Named(p.zones, ZoneName(domain));
    if |zones| > 0 {
      FirstNamedHeld(p.zones, ZoneName(domain));
      BlocksProvide(zones[0].id, SubName(domain), token, ipv4, ipv6, p.(served := p.served + 1));
    }
  }

  /** Idempotence across runs: on a provider that does not fail, processing the same
      domain a second time creates nothing. */
  lemma {:induction false} SecondPassCreatesNothing(domain: string, token: string, ipv4: Option<string>, ipv6: Option<string>, p: Provider)
    requires Reliable(p, token)
    ensures var first := ProcessDomain(domain, token, ipv4, ipv6, p);
      var second := ProcessDomain(domain, token, ipv4, ipv6, first.provider);
      forall x :: x in second.log ==> !x.call.IsWrite()
  {
    var q := ProcessDomain(domain, token, ipv4, ipv6, p).provider;
    var zones := Named(p.zones, ZoneName(domain));
    FirstPassProvides(domain, token, ipv4, ipv6, p);
    assert Reliable(q, token);
    DomainSteps(domain, token, ipv4, ipv6, q);
    var log := ProcessDomain(domain, token, ipv4, ipv6, q).log;
    if |zones| > 0 {
      BlocksQuiet(zones[0].id, SubName(domain), token, ipv4, ipv6, q.(served := q.served + 1));
      assert log == [log[0]] + log[1..];
    } else {
      assert log == [log[0]];
    }
  }
}
