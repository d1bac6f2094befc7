/** What the flat-record script's decisions amount to, stated against the records the zone
    returned: which records are rewritten, which families are created, when nothing is
    written at all. */
module FlatTheorems {
  import opened Base
  import opened Zones
  import opened FlatApi
  import opened FlatReconciler

  /** A record of this name and type. */
  predicate Matches(r: Record, domain: string, rtype: string) {
    r.name == domain && r.rtype == rtype
  }

  /** The zone holds a record of this name and type. */
  predicate Seen(records: seq<Record>, domain: string, rtype: string) {
    exists i :: 0 <= i < |records| && Matches(records[i], domain, rtype)
  }

  /** A record of this name and type whose value is not the requested address. */
  predicate Stale(r: Record, domain: string, rtype: string, addr: Option<string>) {
    addr.Some? && Matches(r, domain, rtype) && r.value != addr.value
  }

  /** The record must be rewritten for one of the two families. */
  predicate NeedsUpdate(r: Record, domain: string, ipv4: Option<string>, ipv6: Option<string>) {
    Stale(r, domain, "A", ipv4) || Stale(r, domain, "AAAA", ipv6)
  }

  /** Every requested family already has a record, and every record of that family
      already holds the requested address. */
  predicate UpToDate(records: seq<Record>, domain: string, ipv4: Option<string>, ipv6: Option<string>) {
    && (ipv4.Some? ==> Seen(records, domain, "A"))
    && (ipv6.Some? ==> Seen(records, domain, "AAAA"))
    && forall i :: 0 <= i < |records| ==> !NeedsUpdate(records[i], domain, ipv4, ipv6)
  }

  /** The call is `PUT records/{r.id}` bringing the stale record `r` to its family's address
      with ttl 60. */
  predicate Rewrites(c: Call, r: Record, domain: string, ipv4: Option<string>, ipv6: Option<string>) {
    && c.UpdateRecord? && c.id == r.id && c.ttl == Ttl
    && ((Stale(r, domain, "A", ipv4) && c.value == ipv4.value) ||
        (Stale(r, domain, "AAAA", ipv6) && c.value == ipv6.value))
  }

  predicate UniqueIds(records: seq<Record>) {
    forall i, j :: 0 <= i < j < |records| ==> records[i].id != records[j].id
  }

  /** How many of the calls are `PUT records/{id}`. */
  function UpdatesOf(calls: seq<Call>, id: Id): nat
    decreases |calls|
  {
    if calls == [] then 0
    else (if calls[0].UpdateRecord? && calls[0].id == id then 1 else 0) + UpdatesOf(calls[1..], id)
  }

  /** How many of the calls create a record of this type. */
  function CreatesOf(calls: seq<Call>, rtype: string): nat
    decreases |calls|
  {
    if calls == [] then 0
    else (if calls[0].CreateRecord? && calls[0].rtype == rtype then 1 else 0) + CreatesOf(calls[1..], rtype)
  }

  lemma {:induction false} UpdatesOfConcat(a: seq<Call>, b: seq<Call>, id: Id)
    ensures UpdatesOf(a + b, id) == UpdatesOf(a, id) + UpdatesOf(b, id)
    decreases |a|
  {
    if a == [] {
      assert a + b == b;
    } else {
      assert (a + b)[1..] == a[1..] + b;
      UpdatesOfConcat(a[1..], b, id);
    }
  }

  lemma {:induction false} CreatesOfConcat(a: seq<Call>, b: seq<Call>, rtype: string)
    ensures CreatesOf(a + b, rtype) == CreatesOf(a, rtype) + CreatesOf(b, rtype)
    decreases |a|
  {
    if a == [] {
      assert a + b == b;
    } else {
      assert (a + b)[1..] == a[1..] + b;
      CreatesOfConcat(a[1..], b, rtype);
    }
  }

  /** The loop's `found` flags: a family is found exactly when its address was supplied
      and the zone holds a record of the domain's name and that family's type. */
  lemma {:induction false} ScanFlags(records: seq<Record>, domain: string, ipv4: Option<string>, ipv6: Option<string>)
    ensures ScanRecords(records, domain, ipv4, ipv6).foundA <==> ipv4.Some? && Seen(records, domain, "A")
    ensures ScanRecords(records, domain, ipv4, ipv6).foundAAAA <==> ipv6.Some? && Seen(records, domain, "AAAA")
    decreases |records|
  {
    if records != [] {
      ScanFlags(records[1..], domain, ipv4, ipv6);
      forall t ensures Seen(records, domain, t) <==> Matches(records[0], domain, t) || Seen(records[1..], domain, t) {
        if Seen(records, domain, t) {
          var i :| 0 <= i < |records| && Matches(records[i], domain, t);
          if i > 0 { assert records[1..][i - 1] == records[i]; }
        }
        if Seen(records[1..], domain, t) {
          var i :| 0 <= i < |records[1..]| && Matches(records[1..][i], domain, t);
          assert records[i + 1] == records[1..][i];
        }
      }
    }
  }

  /** Every update the loop issues rewrites a stale record of a supplied family to that
      family's address, with ttl 60. */
  lemma {:induction false} ScanUpdatesSound(records: seq<Record>, domain: string, ipv4: Option<string>, ipv6: Option<string>)
    ensures forall c :: c in ScanRecords(records, domain, ipv4, ipv6).writes ==>
      exists i :: 0 <= i < |records| && Rewrites(c, records[i], domain, ipv4, ipv6)
    decreases |records|
  {
    if records != [] {
      ScanUpdatesSound(records[1..], domain, ipv4, ipv6);
      var rest := ScanRecords(records[1..], domain, ipv4, ipv6).writes;
      forall c | c in rest ensures exists i :: 0 <= i < |records| && Rewrites(c, records[i], domain, ipv4, ipv6) {
        var i :| 0 <= i < |records[1..]| && Rewrites(c, records[1..][i], domain, ipv4, ipv6);
        assert records[i + 1] == records[1..][i];
      }
    }
  }

  /** The updates one pass of the loop body issues for an id: one when the id is the
      record's own and the record is stale, none otherwise. */
  lemma {:induction false} VisitUpdates(r: Record, domain: string, ipv4: Option<string>, ipv6: Option<string>, id: Id)
    ensures UpdatesOf(Visit(r, domain, ipv4, ipv6).writes, id) ==
      (if id == r.id && NeedsUpdate(r, domain, ipv4, ipv6) then 1 else 0)
  {
    var w := Visit(r, domain, ipv4, ipv6).writes;
    assert |w| <= 1 by {
      if r.name == domain {
        assert !(r.rtype == "A" && r.rtype == "AAAA");
      }
    }
    if |w| == 1 {
      assert w[1..] == [];
    }
  }

  /** With unique record ids, every stale record of a supplied family gets exactly one
      `PUT records/{id}` carrying the new address, and every other record gets none. */
  lemma {:induction false} ScanUpdatesExactlyStale(records: seq<Record>, domain: string, ipv4: Option<string>, ipv6: Option<string>)
    requires UniqueIds(records)
    ensures var writes := ScanRecords(records, domain, ipv4, ipv6).writes;
      forall i :: 0 <= i < |records| ==>
        && UpdatesOf(writes, records[i].id) == (if NeedsUpdate(records[i], domain, ipv4, ipv6) then 1 else 0)
        && (Stale(records[i], domain, "A", ipv4) ==> UpdateRecord(records[i].id, ipv4.value, Ttl) in writes)
        && (Stale(records[i], domain, "AAAA", ipv6) ==> UpdateRecord(records[i].id, ipv6.value, Ttl) in writes)
    decreases |records|
  {
    if records != [] {
      var r := records[0];
      var tail := records[1..];
      var v := Visit(r, domain, ipv4, ipv6).writes;
      var rest := ScanRecords(tail, domain, ipv4, ipv6).writes;
      assert ScanRecords(records, domain, ipv4, ipv6).writes == v + rest;
      assert forall k :: 0 <= k < |tail| ==> tail[k] == records[k + 1];
      ScanUpdatesExactlyStale(tail, domain, ipv4, ipv6);
      forall i | 0 <= i < |records|
        ensures UpdatesOf(v + rest, records[i].id) == (if NeedsUpdate(records[i], domain, ipv4, ipv6) then 1 else 0)
      {
        UpdatesOfConcat(v, rest, records[i].id);
        VisitUpdates(r, domain, ipv4, ipv6, records[i].id);
        if i == 0 {
          ScanUpdatesSound(tail, domain, ipv4, ipv6);
          NoUpdatesOfOtherIds(rest, tail, r.id);
        } else {
          assert tail[i - 1] == records[i];
        }
      }
    }
    ScanCoversStale(records, domain, ipv4, ipv6);
  }

  /** Every stale record of a supplied family is rewritten to that family's address. */
  lemma {:induction false} ScanCoversStale(records: seq<Record>, domain: string, ipv4: Option<string>, ipv6: Option<string>)
    ensures var writes := ScanRecords(records, domain, ipv4, ipv6).writes;
      forall i :: 0 <= i < |records| ==>
        && (Stale(records[i], domain, "A", ipv4) ==> UpdateRecord(records[i].id, ipv4.value, Ttl) in writes)
        && (Stale(records[i], domain, "AAAA", ipv6) ==> UpdateRecord(records[i].id, ipv6.value, Ttl) in writes)
    decreases |records|
  {
    if records != [] {
      ScanCoversStale(records[1..], domain, ipv4, ipv6);
      assert forall i :: 1 <= i < |records| ==> records[1..][i - 1] == records[i];
    }
  }

  /** Updates that all target records of a list target no id outside it. */
  lemma {:induction false} NoUpdatesOfOtherIds(writes: seq<Call>, records: seq<Record>, id: Id)
    requires forall c :: c in writes ==> c.UpdateRecord? && exists i :: 0 <= i < |records| && c.id == records[i].id
    requires forall i :: 0 <= i < |records| ==> records[i].id != id
    ensures UpdatesOf(writes, id) == 0
    decreases |writes|
  {
    if writes != [] {
      assert writes[0] in writes;
      NoUpdatesOfOtherIds(writes[1..], records, id);
    }
  }

  /** The loop writes nothing exactly when no record of the domain is stale. */
  lemma {:induction false} ScanWritesNothing(records: seq<Record>, domain: string, ipv4: Option<string>, ipv6: Option<string>)
    ensures ScanRecords(records, domain, ipv4, ipv6).writes == [] <==>
      forall i :: 0 <= i < |records| ==> !NeedsUpdate(records[i], domain, ipv4, ipv6)
    decreases |records|
  {
    if records != [] {
      ScanWritesNothing(records[1..], domain, ipv4, ipv6);
      assert forall i :: 1 <= i < |records| ==> records[1..][i - 1] == records[i];
    }
  }

  /** A record is created for a family exactly once when its address was supplied and the
      zone had no record of the domain's name and that type, and never otherwise; the
      create carries the domain, the new address, ttl 60 and the zone's id. */
  lemma {:induction false} PlanCreates(records: seq<Record>, domain: string, zoneId: Id, ipv4: Option<string>, ipv6: Option<string>)
    ensures var plan := Plan(records, domain, zoneId, ipv4, ipv6);
      && CreatesOf(plan, "A") == (if ipv4.Some? && !Seen(records, domain, "A") then 1 else 0)
      && CreatesOf(plan, "AAAA") == (if ipv6.Some? && !Seen(records, domain, "AAAA") then 1 else 0)
      && (ipv4.Some? && !Seen(records, domain, "A") ==> CreateRecord("A", domain, ipv4.value, Ttl, zoneId) in plan)
      && (ipv6.Some? && !Seen(records, domain, "AAAA") ==> CreateRecord("AAAA", domain, ipv6.value, Ttl, zoneId) in plan)
      && forall c :: c in plan && c.CreateRecord? ==>
           && c.name == domain && c.ttl == Ttl && c.zoneId == zoneId
           && ((c.rtype == "A" && ipv4 == Some(c.value)) || (c.rtype == "AAAA" && ipv6 == Some(c.value)))
  {
    var scan := ScanRecords(records, domain, ipv4, ipv6);
    var creates := Creates(scan, domain, zoneId, ipv4, ipv6);
    ScanFlags(records, domain, ipv4, ipv6);
    ScanUpdatesSound(records, domain, ipv4, ipv6);
    NoCreatesInUpdates(scan.writes, "A");
    NoCreatesInUpdates(scan.writes, "AAAA");
    CreatesOfConcat(scan.writes, creates, "A");
    CreatesOfConcat(scan.writes, creates, "AAAA");
    var a := if ipv4.Some? && !scan.foundA then [CreateRecord("A", domain, ipv4.value, Ttl, zoneId)] else [];
    var b := if ipv6.Some? && !scan.foundAAAA then [CreateRecord("AAAA", domain, ipv6.value, Ttl, zoneId)] else [];
    assert creates == a + b;
    CreatesOfConcat(a, b, "A");
    CreatesOfConcat(a, b, "AAAA");
    assert a != [] ==> a[1..] == [];
    assert b != [] ==> b[1..] == [];
  }

  lemma {:induction false} NoCreatesInUpdates(writes: seq<Call>, rtype: string)
    requires forall c :: c in writes ==> c.UpdateRecord?
    ensures CreatesOf(writes, rtype) == 0
    decreases |writes|
  {
    if writes != [] {
      assert writes[0] in writes;
      NoCreatesInUpdates(writes[1..], rtype);
    }
  }

  /** Idempotence: the script issues no write for a domain exactly when the zone is already
      up to date for every supplied family. */
  lemma {:induction false} PlanEmptyIffUpToDate(records: seq<Record>, domain: string, zoneId: Id, ipv4: Option<string>, ipv6: Option<string>)
    ensures Plan(records, domain, zoneId, ipv4, ipv6) == [] <==> UpToDate(records, domain, ipv4, ipv6)
  {
    ScanFlags(records, domain, ipv4, ipv6);
    ScanWritesNothing(records, domain, ipv4, ipv6);
  }

  /** A family whose address was not supplied gets no write: nothing of its type is created,
      and no record of its type is updated. */
  lemma {:induction false} UnsuppliedFamilyUntouched(records: seq<Record>, domain: string, zoneId: Id, ipv4: Option<string>, ipv6: Option<string>)
    requires UniqueIds(records)
    ensures var plan := Plan(records, domain, zoneId, ipv4, ipv6);
      forall c :: c in plan ==>
        && (ipv4.None? ==> !(c.CreateRecord? && c.rtype == "A"))
        && (ipv6.None? ==> !(c.CreateRecord? && c.rtype == "AAAA"))
        && forall i :: 0 <= i < |records| && c.UpdateRecord? && c.id == records[i].id ==>
             && (ipv4.None? ==> records[i].rtype != "A")
             && (ipv6.None? ==> records[i].rtype != "AAAA")
  {
    PlanCreates(records, domain, zoneId, ipv4, ipv6);
    ScanUpdatesSound(records, domain, ipv4, ipv6);
  }

  /** The domain loop stripped of `$result`: each domain's step in turn, each starting from
      the provider the one before left, with their logs put end to end. */
  function EachDomain(domains: seq<string>, token: string, ipv4: Option<string>, ipv6: Option<string>, p: Provider): Step
    decreases |domains|
  {
    if domains == [] then Step([], true, p)
    else
      var s := ProcessDomain(domains[0], token, ipv4, ipv6, p);
      var rest := EachDomain(domains[1..], token, ipv4, ipv6, s.provider);
      Step(s.log + rest.log, s.ok && rest.ok, rest.provider)
  }

  /** The loop's calls and the provider it leaves are those of the domain steps run one
      after another, and `$result` is the incoming verdict folded with every step's outcome:
      a failed domain neither stops nor changes what the later domains do. */
  lemma {:induction false} ProcessAllIsEachDomain(domains: seq<string>, token: string, ipv4: Option<string>, ipv6: Option<string>,
                                                  verdict: Verdict, p: Provider)
    ensures var b := ProcessAll(domains, token, ipv4, ipv6, verdict, p);
      var d := EachDomain(domains, token, ipv4, ipv6, p);
      && b.log == d.log && b.provider == d.provider
      && b.status == Completed(if verdict == Success && d.ok then Success else Failure)
    decreases |domains|
  {
    if domains != [] {
      var s := ProcessDomain(domains[0], token, ipv4, ipv6, p);
      ProcessAllIsEachDomain(domains[1..], token, ipv4, ipv6, Fold(verdict, s.ok), s.provider);
    }
  }

  /** The verdict carried into the loop changes neither its calls nor the provider it leaves. */
  lemma {:induction false} ProcessAllIgnoresVerdict(domains: seq<string>, token: string, ipv4: Option<string>, ipv6: Option<string>,
                                                    verdict: Verdict, p: Provider)
    ensures ProcessAll(domains, token, ipv4, ipv6, verdict, p).log == ProcessAll(domains, token, ipv4, ipv6, Success, p).log
    ensures ProcessAll(domains, token, ipv4, ipv6, verdict, p).provider == ProcessAll(domains, token, ipv4, ipv6, Success, p).provider
  {
    ProcessAllIsEachDomain(domains, token, ipv4, ipv6, verdict, p);
    ProcessAllIsEachDomain(domains, token, ipv4, ipv6, Success, p);
  }
}
