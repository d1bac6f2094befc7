/** The flat-record script (`hetzner_dyndns.php`): for every listed domain, fetch the zone's
    records, rewrite every A/AAAA record of that name whose value differs, create the
    families that had no record, and fold every failure into the verdict. */
module FlatReconciler {
  import opened Base
  import Logs
  import opened Text
  import opened DomainNames
  import opened Zones
  import opened FlatApi

  /** The ttl the script writes on every record it updates or creates. */
  const Ttl: int := 60

  /** The query parameters. An address is `Some` only when it was given, non-empty and a
      valid literal of its family; the validation itself is not modelled. */
  datatype Input = Input(
    apiToken: Option<string>,
    domain: Option<string>,
    ipv4: Option<string>,
    ipv6: Option<string>)

  /** A whole run: what was sent and received, how it ended, the provider afterwards. */
  datatype Outcome = Outcome(log: seq<Exchange>, status: Status, provider: Provider)

  /** A stretch of the run: its exchanges, whether all of them went as hoped, the provider after it. */
  datatype Step = Step(log: seq<Exchange>, ok: bool, provider: Provider)

  /** What the loop over the fetched records leaves behind: the updates it issued and the
      two `found` flags. */
  datatype Scan = Scan(writes: seq<Call>, foundA: bool, foundAAAA: bool)

  /** The response a call must get for the run to stay a success. */
  predicate Acceptable(e: Exchange) {
    match e.call
    case ListZones => e.response.ZoneList?
    case FindZones(_) => e.response.ZoneList? && |e.response.zones| > 0
    case ListRecords(_) => e.response.RecordList?
    case UpdateRecord(_, _, _) => e.response.Saved?
    case CreateRecord(_, _, _, _, _) => e.response.Saved?
  }

  /** Every exchange of a log got the response the run hopes for. */
  predicate AllAcceptable(log: seq<Exchange>) {
    Logs.Every(log, Acceptable)
  }

  /** The zone name an exchange looks up, when it is a zone lookup. */
  function LookedUp(e: Exchange): Option<string> {
    if e.call.FindZones? then Some(e.call.name) else None
  }

  /** The zone names looked up in a log, in order. */
  function Lookups(log: seq<Exchange>): seq<string> {
    Logs.Lookups(log, LookedUp)
  }

  /** The calls of a log. */
  function Calls(log: seq<Exchange>): (cs: seq<Call>)
    ensures |cs| == |log| && forall i :: 0 <= i < |log| ==> cs[i] == log[i].call
  {
    seq(|log|, i requires 0 <= i < |log| => log[i].call)
  }

  // ----- the loop over the zone's records -----

  /** One pass of the loop body for a record: a record of the domain's name and a requested
      family is "found", and is rewritten when its value differs from the new address. */
  function Visit(r: Record, domain: string, ipv4: Option<string>, ipv6: Option<string>): (v: Scan)
    ensures v.foundA <==> r.name == domain && r.rtype == "A" && ipv4.Some?
    ensures v.foundAAAA <==> r.name == domain && r.rtype == "AAAA" && ipv6.Some?
    ensures |v.writes| <= 1
    ensures forall c :: c in v.writes ==>
      c.UpdateRecord? && c.id == r.id && c.ttl == Ttl && c.value != r.value && r.name == domain
  {
    if r.name != domain then Scan([], false, false)
    else
      var a := ipv4.Some? && r.rtype == "A";
      var aaaa := ipv6.Some? && r.rtype == "AAAA";
      Scan(
        (if a && r.value != ipv4.value then [UpdateRecord(r.id, ipv4.value, Ttl)] else [])
        + (if aaaa && r.value != ipv6.value then [UpdateRecord(r.id, ipv6.value, Ttl)] else []),
        a, aaaa)
  }

  /** The whole loop, in the order the records were returned. */
  function ScanRecords(records: seq<Record>, domain: string, ipv4: Option<string>, ipv6: Option<string>): (s: Scan)
    ensures |s.writes| <= |records|
    ensures forall c :: c in s.writes ==>
      && c.UpdateRecord? && c.ttl == Ttl
      && exists r :: r in records && r.id == c.id && r.name == domain && r.value != c.value
    decreases |records|
  {
    if records == [] then Scan([], false, false)
    else
      var v := Visit(records[0], domain, ipv4, ipv6);
      var rest := ScanRecords(records[1..], domain, ipv4, ipv6);
      Scan(v.writes + rest.writes, v.foundA || rest.foundA, v.foundAAAA || rest.foundAAAA)
  }

  /** The creates after the loop: one per requested family whose flag stayed down. */
  function Creates(s: Scan, domain: string, zoneId: Id, ipv4: Option<string>, ipv6: Option<string>): (cs: seq<Call>)
    ensures |cs| <= 2
    ensures forall c :: c in cs ==>
      && c.CreateRecord? && c.name == domain && c.ttl == Ttl && c.zoneId == zoneId
      && ((c.rtype == "A" && ipv4 == Some(c.value) && !s.foundA)
          || (c.rtype == "AAAA" && ipv6 == Some(c.value) && !s.foundAAAA))
  {
    (if ipv4.Some? && !s.foundA then [CreateRecord("A", domain, ipv4.value, Ttl, zoneId)] else [])
    + (if ipv6.Some? && !s.foundAAAA then [CreateRecord("AAAA", domain, ipv6.value, Ttl, zoneId)] else [])
  }

  /** Every write the script issues for one domain, given the zone's records. */
  function Plan(records: seq<Record>, domain: string, zoneId: Id, ipv4: Option<string>, ipv6: Option<string>): (plan: seq<Call>)
    ensures |plan| <= |records| + 2
    ensures forall i :: 0 <= i < |plan| ==> plan[i].IsWrite()
    ensures forall i, j :: 0 <= i < j < |plan| && plan[i].CreateRecord? ==> plan[j].CreateRecord?
  {
    var s := ScanRecords(records, domain, ipv4, ipv6);
    s.writes + Creates(s, domain, zoneId, ipv4, ipv6)
  }

  // ----- talking to the provider -----

  /** Issues the calls one after another. A failed call does not stop the ones after it:
      every call is issued, in order, whatever the earlier responses were. */
  function Issue(calls: seq<Call>, token: string, p: Provider): (s: Step)
    requires forall i :: 0 <= i < |calls| ==> calls[i].IsWrite()
    ensures |s.log| == |calls| && forall i :: 0 <= i < |calls| ==> s.log[i].call == calls[i]
    ensures s.ok <==> AllAcceptable(s.log)
    ensures Persists(p.records, s.provider.records)
    ensures Valid(p) ==> Valid(s.provider)
    ensures s.provider.zones == p.zones && s.provider.tokens == p.tokens && s.provider.outages == p.outages
    ensures s.provider.served >= p.served
    decreases |calls|
  {
    if calls == [] then Step([], true, p)
    else
      var reply := Serve(p, token, calls[0]);
      var rest := Issue(calls[1..], token, reply.provider);
      var e := Exchange(calls[0], reply.response);
      Logs.EveryConcat([e], rest.log, Acceptable);
      assert forall i :: 1 <= i < |[e] + rest.log| ==> ([e] + rest.log)[i] == rest.log[i - 1];
      Step([e] + rest.log, reply.response.Saved? && rest.ok, rest.provider)
  }

  /** The fetch `e` returned records: issue `calls` after it. */
  function IssueAfter(e: Exchange, calls: seq<Call>, token: string, q: Provider): (s: Step)
    requires e.call.ListRecords? && e.response.RecordList?
    requires forall i :: 0 <= i < |calls| ==> calls[i].IsWrite()
    ensures |s.log| >= 1 && s.log[0] == e && Calls(s.log[1..]) == calls
    ensures Lookups(s.log) == []
    ensures s.ok <==> AllAcceptable(s.log)
    ensures Persists(q.records, s.provider.records)
    ensures Valid(q) ==> Valid(s.provider)
    ensures s.provider.zones == q.zones && s.provider.tokens == q.tokens && s.provider.outages == q.outages
    ensures s.provider.served >= q.served
  {
    var w := Issue(calls, token, q);
    Logs.LookupsOne(e, LookedUp);
    Logs.NoLookups(w.log, LookedUp);
    Logs.LookupsConcat([e], w.log, LookedUp);
    Logs.EveryConcat([e], w.log, Acceptable);
    assert ([e] + w.log)[1..] == w.log;
    assert Calls(w.log) == calls;
    Step([e] + w.log, w.ok, w.provider)
  }

  /** The rest of the step once the records fetch `e` has been answered: stop when it
      returned no records, otherwise issue the writes planned from the records it returned. */
  function AfterFetch(e: Exchange, domain: string, zoneId: Id, token: string, ipv4: Option<string>, ipv6: Option<string>, q: Provider): (s: Step)
    requires e.call.ListRecords?
    ensures |s.log| >= 1 && s.log[0] == e
    ensures !e.response.RecordList? ==> |s.log| == 1 && !s.ok && s.provider == q
    ensures e.response.RecordList? ==> Calls(s.log[1..]) == Plan(e.response.records, domain, zoneId, ipv4, ipv6)
    ensures Lookups(s.log) == []
    ensures s.ok <==> AllAcceptable(s.log)
    ensures Persists(q.records, s.provider.records)
    ensures Valid(q) ==> Valid(s.provider)
    ensures s.provider.zones == q.zones && s.provider.tokens == q.tokens && s.provider.outages == q.outages
    ensures s.provider.served >= q.served
  {
    if !e.response.RecordList? then
      Logs.LookupsOne(e, LookedUp);
      Step([e], false, q)
    else
      IssueAfter(e, Plan(e.response.records, domain, zoneId, ipv4, ipv6), token, q)
  }

  /** The part of the domain loop after the zone was found: fetch the zone's records; if that
      worked, issue the planned writes. */
  function Reconcile(domain: string, zoneId: Id, token: string, ipv4: Option<string>, ipv6: Option<string>, p: Provider): (s: Step)
    ensures |s.log| >= 1 && s.log[0].call == ListRecords(zoneId)
    ensures !Down(p, token) && HasZone(p.zones, zoneId) ==> s.log[0].response == RecordList(InZone(p.records, zoneId))
    ensures !s.log[0].response.RecordList? ==> |s.log| == 1 && !s.ok
    ensures s.log[0].response.RecordList? ==>
      Calls(s.log[1..]) == Plan(s.log[0].response.records, domain, zoneId, ipv4, ipv6)
    ensures Lookups(s.log) == []
    ensures s.ok <==> AllAcceptable(s.log)
    ensures Persists(p.records, s.provider.records)
    ensures Valid(p) ==> Valid(s.provider)
    ensures s.provider.zones == p.zones && s.provider.tokens == p.tokens && s.provider.outages == p.outages
    ensures s.provider.served >= p.served
  {
    var fetch := ListRecords(zoneId);
    var rr := Serve(p, token, fetch);
    AfterFetch(Exchange(fetch, rr.response), domain, zoneId, token, ipv4, ipv6, rr.provider)
  }

  /** The rest of the domain loop body once the zone lookup `e` has been answered: stop
      when it found no zone, otherwise reconcile the first zone it returned. */
  function AfterLookup(e: Exchange, domain: string, token: string, ipv4: Option<string>, ipv6: Option<string>, q: Provider): (s: Step)
    requires e.call.FindZones?
    ensures |s.log| >= 1 && s.log[0] == e
    ensures !Acceptable(e) ==> |s.log| == 1 && !s.ok && s.provider == q
    ensures Acceptable(e) ==> s.log[1..] == Reconcile(domain, e.response.zones[0].id, token, ipv4, ipv6, q).log
    ensures Lookups(s.log) == [e.call.name]
    ensures s.ok <==> AllAcceptable(s.log)
    ensures Persists(q.records, s.provider.records)
    ensures Valid(q) ==> Valid(s.provider)
    ensures s.provider.zones == q.zones && s.provider.tokens == q.tokens && s.provider.outages == q.outages
    ensures s.provider.served >= q.served
  {
    Logs.LookupsOne(e, LookedUp);
    if !Acceptable(e) then
      Step([e], false, q)
    else
      var r := Reconcile(domain, e.response.zones[0].id, token, ipv4, ipv6, q);
      Logs.LookupsConcat([e], r.log, LookedUp);
      Logs.EveryConcat([e], r.log, Acceptable);
      assert ([e] + r.log)[1..] == r.log;
      Step([e] + r.log, r.ok, r.provider)
  }

  /** The body of the domain loop: find the zone, then reconcile its records. */
  function ProcessDomain(domain: string, token: string, ipv4: Option<string>, ipv6: Option<string>, p: Provider): (s: Step)
    ensures |s.log| >= 1 && s.log[0].call == FindZones(ZoneName(domain))
    ensures s.log[0].response == if Down(p, token) then Rejected else ZoneList(Named(p.zones, ZoneName(domain)))
    ensures !Acceptable(s.log[0]) ==> |s.log| == 1 && !s.ok
    ensures Acceptable(s.log[0]) ==>
      s.log[1..] == Reconcile(domain, s.log[0].response.zones[0].id, token, ipv4, ipv6, p.(served := p.served + 1)).log
    ensures Lookups(s.log) == [ZoneName(domain)]
    ensures s.ok <==> AllAcceptable(s.log)
    ensures Persists(p.records, s.provider.records)
    ensures Valid(p) ==> Valid(s.provider)
    ensures s.provider.zones == p.zones && s.provider.tokens == p.tokens && s.provider.outages == p.outages
    ensures s.provider.served >= p.served
  {
    var lookup := FindZones(ZoneName(domain));
    var zr := Serve(p, token, lookup);
    assert zr.provider == p.(served := p.served + 1);
    AfterLookup(Exchange(lookup, zr.response), domain, token, ipv4, ipv6, zr.provider)
  }

  /** The domain loop, with the verdict accumulator `$result`. */
  function ProcessAll(domains: seq<string>, token: string, ipv4: Option<string>, ipv6: Option<string>,
                      verdict: Verdict, p: Provider): (b: Outcome)
    ensures b.status.Completed?
    ensures verdict == Failure ==> b.status.verdict == Failure
    ensures b.status.verdict == Success <==> verdict == Success && AllAcceptable(b.log)
    ensures Lookups(b.log) == ZoneNames(domains)
    ensures Persists(p.records, b.provider.records)
    ensures Valid(p) ==> Valid(b.provider)
    ensures b.provider.zones == p.zones && b.provider.tokens == p.tokens && b.provider.outages == p.outages
    ensures b.provider.served >= p.served
    decreases |domains|
  {
    if domains == [] then Outcome([], Completed(verdict), p)
    else
      var s := ProcessDomain(domains[0], token, ipv4, ipv6, p);
      var rest := ProcessAll(domains[1..], token, ipv4, ipv6, Fold(verdict, s.ok), s.provider);
      Logs.LookupsConcat(s.log, rest.log, LookedUp);
      Logs.EveryConcat(s.log, rest.log, Acceptable);
      Outcome(s.log + rest.log, rest.status, rest.provider)
  }

  /** The run once the authentication probe `e` has been answered: stop with 401 when it
      got no `zones`, otherwise run the domain loop. */
  function AfterProbe(e: Exchange, domains: seq<string>, token: string, ipv4: Option<string>, ipv6: Option<string>, q: Provider): (o: Outcome)
    requires e.call == ListZones
    ensures o.status.Aborted? <==> !Acceptable(e)
    ensures |o.log| >= 1 && o.log[0] == e
    ensures o.status.Aborted? ==> o.status == Aborted(401) && |o.log| == 1
    ensures o.status.Completed? ==>
      && Lookups(o.log) == ZoneNames(domains)
      && (o.status.verdict == Success <==> AllAcceptable(o.log))
    ensures o.status.Completed? ==>
      var b := ProcessAll(domains, token, ipv4, ipv6, Success, q);
      o.log[1..] == b.log && o.provider == b.provider && o.status == b.status
    ensures Persists(q.records, o.provider.records)
    ensures Valid(q) ==> Valid(o.provider)
  {
    if !e.response.ZoneList? then Outcome([e], Aborted(401), q)
    else
      var b := ProcessAll(domains, token, ipv4, ipv6, Success, q);
      Logs.LookupsOne(e, LookedUp);
      Logs.LookupsConcat([e], b.log, LookedUp);
      assert AllAcceptable([e]);
      Logs.EveryConcat([e], b.log, Acceptable);
      assert AllAcceptable([e] + b.log) <==> AllAcceptable(b.log);
      assert ([e] + b.log)[1..] == b.log;
      Outcome([e] + b.log, b.status, b.provider)
  }

  /** From the authentication probe on: `GET zones`; without `zones` in the response the
      script stops with 401, otherwise it runs the domain loop. */
  function Probe(token: string, domains: seq<string>, ipv4: Option<string>, ipv6: Option<string>, p: Provider): (o: Outcome)
    ensures o.status.Aborted? <==> Down(p, token)
    ensures o.status.Aborted? ==>
      o.status == Aborted(401) && |o.log| == 1 && o.log[0].call == ListZones && !Acceptable(o.log[0])
    ensures o.status.Completed? ==>
      && |o.log| >= 1 && o.log[0].call == ListZones && Acceptable(o.log[0])
      && Lookups(o.log) == ZoneNames(domains)
      && (o.status.verdict == Success <==> AllAcceptable(o.log))
    ensures o.status.Completed? ==>
      var b := ProcessAll(domains, token, ipv4, ipv6, Success, p.(served := p.served + 1));
      o.log[1..] == b.log && o.provider == b.provider && o.status == b.status
    ensures Persists(p.records, o.provider.records)
    ensures Valid(p) ==> Valid(o.provider)
  {
    var probe := Serve(p, token, ListZones);
    assert probe.provider == p.(served := p.served + 1);
    AfterProbe(Exchange(ListZones, probe.response), domains, token, ipv4, ipv6, probe.provider)
  }

  /** The script from its first check to `echo "Result: $result"`. It stops with 400 before
      calling the provider when the token or the domain parameter is absent or no address
      was supplied, and with 401 when the authentication probe gets no `zones`; otherwise
      it processes every token of `explode(",", domain)`, trimmed, in order. */
  function Run(input: Input, p: Provider): (o: Outcome)
    ensures o.status == Aborted(400) <==>
      input.apiToken.None? || input.domain.None? || (input.ipv4.None? && input.ipv6.None?)
    ensures o.status == Aborted(400) ==> o.log == [] && o.provider == p
    ensures o.status == Aborted(401) <==>
      input.apiToken.Some? && input.domain.Some? && (input.ipv4.Some? || input.ipv6.Some?)
      && Down(p, input.apiToken.value)
    ensures o.status == Aborted(401) ==> |o.log| == 1 && o.log[0].call == ListZones && !Acceptable(o.log[0])
    ensures o.status.Aborted? ==> o.status.code == 400 || o.status.code == 401
    ensures o.status.Completed? ==>
      && |o.log| >= 1 && o.log[0].call == ListZones && Acceptable(o.log[0])
      && Lookups(o.log) == ZoneNames(Tokens(input.domain.value, ","))
      && (o.status.verdict == Success <==> AllAcceptable(o.log))
    ensures o.status.Completed? ==>
      var b := ProcessAll(Tokens(input.domain.value, ","), input.apiToken.value, input.ipv4, input.ipv6,
                          Success, p.(served := p.served + 1));
      o.log[1..] == b.log && o.provider == b.provider && o.status == b.status
    ensures Persists(p.records, o.provider.records)
    ensures Valid(p) ==> Valid(o.provider)
  {
    if input.apiToken.None? || input.domain.None? then Outcome([], Aborted(400), p)
    else if input.ipv4.None? && input.ipv6.None? then Outcome([], Aborted(400), p)
    else Probe(input.apiToken.value, Tokens(input.domain.value, ","), input.ipv4, input.ipv6, p)
  }
}
