/** Running the flat-record script's domain step twice against a provider that does not
    fail: the first pass brings the zone to the requested addresses, and the second pass
    finds nothing to write. */
module FlatConvergence {
  import opened Base
  import opened DomainNames
  import opened Zones
  import opened FlatApi
  import opened FlatReconciler
  import opened FlatTheorems

  /** From the provider's next call on, nothing fails: the token is accepted and the
      failure oracle is silent. */
  ghost predicate Reliable(p: Provider, token: string) {
    token in p.tokens && forall k :: p.served <= k ==> k !in p.outages
  }

  /** A record of the domain in the zone holds the address of its family, if supplied. */
  predicate Good(x: Record, zoneId: Id, domain: string, ipv4: Option<string>, ipv6: Option<string>) {
    x.zoneId == zoneId && x.name == domain ==>
      && (x.rtype == "A" && ipv4.Some? ==> x.value == ipv4.value)
      && (x.rtype == "AAAA" && ipv6.Some? ==> x.value == ipv6.value)
  }

  /** The zone holds a record of the domain with this type. */
  ghost predicate Present(records: seq<Record>, zoneId: Id, domain: string, rtype: string) {
    exists x :: x in records && x.zoneId == zoneId && Matches(x, domain, rtype)
  }

  /** The zone holds the domain's records exactly as requested. */
  ghost predicate Converged(records: seq<Record>, zoneId: Id, domain: string, ipv4: Option<string>, ipv6: Option<string>) {
    && (forall x :: x in records ==> Good(x, zoneId, domain, ipv4, ipv6))
    && (ipv4.Some? ==> Present(records, zoneId, domain, "A"))
    && (ipv6.Some? ==> Present(records, zoneId, domain, "AAAA"))
  }

  /** Some call still to be issued rewrites the record with this id. */
  ghost predicate Targeted(calls: seq<Call>, id: Id) {
    exists c :: c in calls && c.UpdateRecord? && c.id == id
  }

  /** Some call still to be issued creates the domain's record of this type in the zone. */
  ghost predicate WillCreate(calls: seq<Call>, zoneId: Id, domain: string, rtype: string) {
    exists c :: c in calls && c.CreateRecord? && c.zoneId == zoneId && c.name == domain && c.rtype == rtype
  }

  /** A pending write leaves what it touches good: an update targets an existing id and
      fixes every record carrying it; a create goes to a known zone and makes a good record. */
  ghost predicate Fixes(c: Call, q: Provider, zoneId: Id, domain: string, ipv4: Option<string>, ipv6: Option<string>) {
    && (c.UpdateRecord? ==>
          && c.id < q.nextId
          && forall x :: x in q.records && x.id == c.id ==> Good(x.(value := c.value, ttl := c.ttl), zoneId, domain, ipv4, ipv6))
    && (c.CreateRecord? ==>
          && HasZone(q.zones, c.zoneId)
          && Good(Record(0, c.zoneId, c.name, c.rtype, c.value, c.ttl), zoneId, domain, ipv4, ipv6))
  }

  /** Pending writes stay fixing after a step that keeps every record's identity and only
      appends records with fresh ids. */
  lemma {:induction false} FixesKept(pending: seq<Call>, q: Provider, q': Provider,
                                     zoneId: Id, domain: string, ipv4: Option<string>, ipv6: Option<string>)
    requires forall c :: c in pending ==> Fixes(c, q, zoneId, domain, ipv4, ipv6)
    requires Persists(q.records, q'.records) && q'.zones == q.zones && q'.nextId >= q.nextId
    requires forall k :: |q.records| <= k < |q'.records| ==> q'.records[k].id >= q.nextId
    ensures forall c :: c in pending ==> Fixes(c, q', zoneId, domain, ipv4, ipv6)
  {
    forall c, x' | c in pending && c.UpdateRecord? && x' in q'.records && x'.id == c.id
      ensures Good(x'.(value := c.value, ttl := c.ttl), zoneId, domain, ipv4, ipv6)
    {
      var k :| 0 <= k < |q'.records| && q'.records[k] == x';
      assert q.records[k] in q.records;
    }
  }

  /** What one write does to the records when the provider is up. */
  ghost predicate Effect(c: Call, q: Provider, after: seq<Record>) {
    if c.UpdateRecord? && HasRecordId(q.records, c.id) then after == Assign(q.records, c.id, c.value, c.ttl)
    else if c.CreateRecord? && HasZone(q.zones, c.zoneId) then
      after == q.records + [Record(q.nextId, c.zoneId, c.name, c.rtype, c.value, c.ttl)]
    else after == q.records
  }

  /** After one write, every record is good or still awaits an update. */
  lemma {:induction false} GoodKept(c: Call, rest: seq<Call>, q: Provider, after: seq<Record>,
                                    zoneId: Id, domain: string, ipv4: Option<string>, ipv6: Option<string>)
    requires Fixes(c, q, zoneId, domain, ipv4, ipv6)
    requires Effect(c, q, after)
    requires forall x :: x in q.records ==> Good(x, zoneId, domain, ipv4, ipv6) || Targeted([c] + rest, x.id)
    ensures forall x :: x in after ==> Good(x, zoneId, domain, ipv4, ipv6) || Targeted(rest, x.id)
  {
    forall x' | x' in after ensures Good(x', zoneId, domain, ipv4, ipv6) || Targeted(rest, x'.id) {
      var k :| 0 <= k < |after| && after[k] == x';
      if k < |q.records| {
        var x := q.records[k];
        assert x in q.records;
        if !(c.UpdateRecord? && c.id == x.id) {
          assert x' == x;
          if !Good(x, zoneId, domain, ipv4, ipv6) {
            var d :| d in [c] + rest && d.UpdateRecord? && d.id == x.id;
            assert d in rest;
          }
        }
      }
    }
  }

  /** After one write, a record that was present or pending creation is present or still pending. */
  lemma {:induction false} PresenceKept(c: Call, rest: seq<Call>, q: Provider, after: seq<Record>,
                                        zoneId: Id, domain: string, rtype: string)
    requires Effect(c, q, after) && Persists(q.records, after)
    requires c.CreateRecord? ==> HasZone(q.zones, c.zoneId)
    requires Present(q.records, zoneId, domain, rtype) || WillCreate([c] + rest, zoneId, domain, rtype)
    ensures Present(after, zoneId, domain, rtype) || WillCreate(rest, zoneId, domain, rtype)
  {
    if Present(q.records, zoneId, domain, rtype) {
      var x :| x in q.records && x.zoneId == zoneId && Matches(x, domain, rtype);
      var k :| 0 <= k < |q.records| && q.records[k] == x;
      assert after[k] in after;
    } else {
      var d :| d in [c] + rest && d.CreateRecord? && d.zoneId == zoneId && d.name == domain && d.rtype == rtype;
      if d != c {
        assert d in rest;
      } else {
        assert after[|q.records|] in after;
      }
    }
  }

  /** The invariant of issuing the planned writes on a provider that does not fail. */
  lemma {:induction false} IssueConverges(calls: seq<Call>, token: string, q: Provider,
                                          zoneId: Id, domain: string, ipv4: Option<string>, ipv6: Option<string>)
    requires forall i :: 0 <= i < |calls| ==> calls[i].IsWrite()
    requires Valid(q) && Reliable(q, token)
    requires forall c :: c in calls ==> Fixes(c, q, zoneId, domain, ipv4, ipv6)
    requires forall x :: x in q.records ==> Good(x, zoneId, domain, ipv4, ipv6) || Targeted(calls, x.id)
    ensures var final := Issue(calls, token, q).provider.records;
      && (forall x :: x in final ==> Good(x, zoneId, domain, ipv4, ipv6))
      && (forall t :: Present(q.records, zoneId, domain, t) || WillCreate(calls, zoneId, domain, t) ==>
            Present(final, zoneId, domain, t))
    decreases |calls|
  {
    if calls != [] {
      var c := calls[0];
      var rest := calls[1..];
      assert calls == [c] + rest;
      assert c in calls;
      var q' := Serve(q, token, c).provider;
      ServeWrite(q, token, c);
      assert Effect(c, q, q'.records);
      assert forall i :: 0 <= i < |rest| ==> rest[i].IsWrite();
      assert Reliable(q', token);
      FixesKept(rest, q, q', zoneId, domain, ipv4, ipv6);
      GoodKept(c, rest, q, q'.records, zoneId, domain, ipv4, ipv6);
      forall t | Present(q.records, zoneId, domain, t) || WillCreate(calls, zoneId, domain, t)
        ensures Present(q'.records, zoneId, domain, t) || WillCreate(rest, zoneId, domain, t)
      {
        PresenceKept(c, rest, q, q'.records, zoneId, domain, t);
      }
      IssueConverges(rest, token, q', zoneId, domain, ipv4, ipv6);
    }
  }

  /** The planned writes for a zone's records all fix what they touch. */
  lemma {:induction false} PlanFixes(records: seq<Record>, q: Provider, zoneId: Id, domain: string, ipv4: Option<string>, ipv6: Option<string>)
    requires Valid(q) && HasZone(q.zones, zoneId) && records == InZone(q.records, zoneId)
    ensures forall c :: c in Plan(records, domain, zoneId, ipv4, ipv6) ==> Fixes(c, q, zoneId, domain, ipv4, ipv6)
  {
    var scan := ScanRecords(records, domain, ipv4, ipv6);
    var plan := Plan(records, domain, zoneId, ipv4, ipv6);
    PlanCreates(records, domain, zoneId, ipv4, ipv6);
    ScanUpdatesSound(records, domain, ipv4, ipv6);
    forall c | c in plan && c.UpdateRecord? ensures Fixes(c, q, zoneId, domain, ipv4, ipv6) {
      assert c in scan.writes;
      var i :| 0 <= i < |records| && Rewrites(c, records[i], domain, ipv4, ipv6);
      assert records[i] in q.records;
      forall x | x in q.records && x.id == c.id
        ensures Good(x.(value := c.value, ttl := c.ttl), zoneId, domain, ipv4, ipv6)
      {
        SameId(q, x, records[i]);
      }
    }
  }

  /** Every record of the domain that is not yet good is rewritten by the plan. */
  lemma {:induction false} PlanTargetsStale(records: seq<Record>, q: Provider, zoneId: Id, domain: string, ipv4: Option<string>, ipv6: Option<string>)
    requires records == InZone(q.records, zoneId)
    ensures forall x :: x in q.records ==>
      Good(x, zoneId, domain, ipv4, ipv6) || Targeted(Plan(records, domain, zoneId, ipv4, ipv6), x.id)
  {
    var scan := ScanRecords(records, domain, ipv4, ipv6);
    var plan := Plan(records, domain, zoneId, ipv4, ipv6);
    ScanCoversStale(records, domain, ipv4, ipv6);
    forall x | x in q.records && !Good(x, zoneId, domain, ipv4, ipv6) ensures Targeted(plan, x.id) {
      assert x in records;
      var i :| 0 <= i < |records| && records[i] == x;
      var c := if x.rtype == "A" then UpdateRecord(x.id, ipv4.value, Ttl) else UpdateRecord(x.id, ipv6.value, Ttl);
      assert c in scan.writes;
      assert c in plan;
    }
  }

  /** Each supplied family is present in the zone already or created by the plan. */
  lemma {:induction false} PlanProvides(records: seq<Record>, q: Provider, zoneId: Id, domain: string, rtype: string, addr: Option<string>,
                                        ipv4: Option<string>, ipv6: Option<string>)
    requires records == InZone(q.records, zoneId)
    requires (rtype == "A" && addr == ipv4) || (rtype == "AAAA" && addr == ipv6)
    requires addr.Some?
    ensures Present(q.records, zoneId, domain, rtype) || WillCreate(Plan(records, domain, zoneId, ipv4, ipv6), zoneId, domain, rtype)
  {
    PlanCreates(records, domain, zoneId, ipv4, ipv6);
    if Seen(records, domain, rtype) {
      var i :| 0 <= i < |records| && Matches(records[i], domain, rtype);
      assert records[i] in q.records;
    }
  }

  /** Convergence: once the zone is known and the provider does not fail, the domain step
      leaves every record of the domain of a supplied family holding that family's address,
      and at least one such record per supplied family. */
  lemma {:induction false} ReconcileConverges(domain: string, zoneId: Id, token: string, ipv4: Option<string>, ipv6: Option<string>, p: Provider)
    requires Valid(p) && Reliable(p, token) && HasZone(p.zones, zoneId)
    ensures Converged(Reconcile(domain, zoneId, token, ipv4, ipv6, p).provider.records, zoneId, domain, ipv4, ipv6)
  {
    var rr := Serve(p, token, ListRecords(zoneId));
    var p1 := rr.provider;
    var records := InZone(p.records, zoneId);
    assert rr.response == RecordList(records);
    var plan := Plan(records, domain, zoneId, ipv4, ipv6);
    assert Reconcile(domain, zoneId, token, ipv4, ipv6, p).provider == Issue(plan, token, p1).provider;
    PlanFixes(records, p1, zoneId, domain, ipv4, ipv6);
    PlanTargetsStale(records, p1, zoneId, domain, ipv4, ipv6);
    if ipv4.Some? { PlanProvides(records, p1, zoneId, domain, "A", ipv4, ipv4, ipv6); }
    if ipv6.Some? { PlanProvides(records, p1, zoneId, domain, "AAAA", ipv6, ipv4, ipv6); }
    IssueConverges(plan, token, p1, zoneId, domain, ipv4, ipv6);
  }

  lemma {:induction false} SameId(p: Provider, x: Record, y: Record)
    requires Valid(p) && x in p.records && y in p.records && x.id == y.id
    ensures x == y
  {
    var i :| 0 <= i < |p.records| && p.records[i] == x;
    var j :| 0 <= j < |p.records| && p.records[j] == y;
    assert i == j;
  }

  /** A record of the zone with this name and type shows up in the records fetch. */
  lemma {:induction false} PresentIsSeen(q: Provider, zoneId: Id, domain: string, rtype: string)
    requires Present(q.records, zoneId, domain, rtype)
    ensures Seen(InZone(q.records, zoneId), domain, rtype)
  {
    var records := InZone(q.records, zoneId);
    var x :| x in q.records && x.zoneId == zoneId && Matches(x, domain, rtype);
    assert x in records;
    var j :| 0 <= j < |records| && records[j] == x;
  }

  /** A converged zone is up to date: the script's plan for it is empty. */
  lemma {:induction false} ConvergedPlansNothing(q: Provider, zoneId: Id, domain: string, ipv4: Option<string>, ipv6: Option<string>)
    requires Converged(q.records, zoneId, domain, ipv4, ipv6)
    ensures Plan(InZone(q.records, zoneId), domain, zoneId, ipv4, ipv6) == []
  {
    var records := InZone(q.records, zoneId);
    if ipv4.Some? {
      PresentIsSeen(q, zoneId, domain, "A");
    }
    if ipv6.Some? {
      PresentIsSeen(q, zoneId, domain, "AAAA");
    }
    forall j | 0 <= j < |records| ensures !NeedsUpdate(records[j], domain, ipv4, ipv6) {
      assert records[j] in q.records;
      assert Good(records[j], zoneId, domain, ipv4, ipv6);
    }
    assert UpToDate(records, domain, ipv4, ipv6);
    PlanEmptyIffUpToDate(records, domain, zoneId, ipv4, ipv6);
  }

  /** On a provider that is up, the domain step is the zone lookup, followed, when the
      account has a zone of the domain's zone name, by the reconciliation of the first one. */
  lemma {:induction false} ProcessDomainUp(domain: string, token: string, ipv4: Option<string>, ipv6: Option<string>, p: Provider)
    requires !Down(p, token)
    ensures var zones := Named(p.zones, ZoneName(domain));
      var q := p.(served := p.served + 1);
      var s := ProcessDomain(domain, token, ipv4, ipv6, p);
      && (|zones| == 0 ==> |s.log| == 1)
      && (|zones| > 0 ==>
            && HasZone(q.zones, zones[0].id)
            && var r := Reconcile(domain, zones[0].id, token, ipv4, ipv6, q);
               s.log[1..] == r.log && s.provider == r.provider)
  {
    var zones := Named(p.zones, ZoneName(domain));
    var q := p.(served := p.served + 1);
    var lookup := FindZones(ZoneName(domain));
    assert Serve(p, token, lookup) == Reply(ZoneList(zones), q);
    var e := Exchange(lookup, ZoneList(zones));
    var s := ProcessDomain(domain, token, ipv4, ipv6, p);
    if |zones| > 0 {
      FirstNamedHeld(p.zones, ZoneName(domain));
      var r := Reconcile(domain, zones[0].id, token, ipv4, ipv6, q);
      assert s.log == [e] + r.log;
      assert s.log[1..] == r.log;
    }
  }

  /** With nothing to write, reconciling is the records fetch alone. */
  lemma {:induction false} ReconcileQuiet(domain: string, zoneId: Id, token: string, ipv4: Option<string>, ipv6: Option<string>, q: Provider)
    requires !Down(q, token) && HasZone(q.zones, zoneId)
    requires Plan(InZone(q.records, zoneId), domain, zoneId, ipv4, ipv6) == []
    ensures var log := Reconcile(domain, zoneId, token, ipv4, ipv6, q).log;
      |log| == 1 && !log[0].call.IsWrite()
  {
    var rr := Serve(q, token, ListRecords(zoneId));
    assert rr.response == RecordList(InZone(q.records, zoneId));
  }

  /** On a provider that does not fail, the domain step makes the zone it finds converge. */
  lemma {:induction false} FirstPassConverges(domain: string, token: string, ipv4: Option<string>, ipv6: Option<string>, p: Provider)
    requires Valid(p) && Reliable(p, token)
    ensures var zones := Named(p.zones, ZoneName(domain));
      |zones| > 0 ==>
        Converged(ProcessDomain(domain, token, ipv4, ipv6, p).provider.records, zones[0].id, domain, ipv4, ipv6)
  {
    var zones := Named(p.zones, ZoneName(domain));
    ProcessDomainUp(domain, token, ipv4, ipv6, p);
    if |zones| > 0 {
      var q := p.(served := p.served + 1);
      assert Valid(q) && Reliable(q, token);
      ReconcileConverges(domain, zones[0].id, token, ipv4, ipv6, q);
    }
  }

  /** When the zone found has nothing left to write, the domain step issues reads only. */
  lemma {:induction false} ProcessDomainQuiet(domain: string, token: string, ipv4: Option<string>, ipv6: Option<string>, q: Provider)
    requires Reliable(q, token)
    requires var zones := Named(q.zones, ZoneName(domain));
      |zones| > 0 ==> Plan(InZone(q.records, zones[0].id), domain, zones[0].id, ipv4, ipv6) == []
    ensures var log := ProcessDomain(domain, token, ipv4, ipv6, q).log;
      forall i :: 0 <= i < |log| ==> !log[i].call.IsWrite()
  {
    var zones := Named(q.zones, ZoneName(domain));
    var log := ProcessDomain(domain, token, ipv4, ipv6, q).log;
    ProcessDomainUp(domain, token, ipv4, ipv6, q);
    assert log[0].call == FindZones(ZoneName(domain));
    if |zones| > 0 {
      var q1 := q.(served := q.served + 1);
      assert !Down(q1, token);
      ReconcileQuiet(domain, zones[0].id, token, ipv4, ipv6, q1);
      assert |log| == 2 && log[1] == log[1..][0];
    }
  }

  /** Idempotence across runs: on a provider that does not fail, processing the same
      domain a second time issues no write at all. */
  lemma {:induction false} SecondPassWritesNothing(domain: string, token: string, ipv4: Option<string>, ipv6: Option<string>, p: Provider)
    requires Valid(p) && Reliable(p, token)
    ensures var first := ProcessDomain(domain, token, ipv4, ipv6, p);
      var second := ProcessDomain(domain, token, ipv4, ipv6, first.provider);
      forall i :: 0 <= i < |second.log| ==> !second.log[i].call.IsWrite()
  {
    var q := ProcessDomain(domain, token, ipv4, ipv6, p).provider;
    var zones := Named(p.zones, ZoneName(domain));
    assert Reliable(q, token);
    FirstPassConverges(domain, token, ipv4, ipv6, p);
    if |zones| > 0 {
      ConvergedPlansNothing(q, zones[0].id, domain, ipv4, ipv6);
    }
    ProcessDomainQuiet(domain, token, ipv4, ipv6, q);
  }
}
