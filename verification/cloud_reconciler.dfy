/** The record-set script (`hetzner_dyndns_cloud.php`): for every listed domain, find the
    zone, then for each supplied address family make sure a record set of the domain's
    sub-name and that type exists, creating it with the address when it does not. An
    existing set is left exactly as it is. A failed create abandons the rest of that domain. */
module CloudReconciler {
  import opened Base
  import Logs
  import opened Text
  import opened DomainNames
  import opened Zones
  import opened CloudApi

  /** The ttl of every set the script creates. */
  const Ttl: int := 3600

  /** The inputs: the `HETZNER_CLOUD_API_TOKEN` environment variable (`None` when unset),
      the `token` and `domain` query parameters, and the addresses. An address is `Some`
      only when it was given, non-empty and a valid literal of its family; the validation
      itself is not modelled. */
  datatype Input = Input(
    envToken: Option<string>,
    getToken: Option<string>,
    domain: Option<string>,
    ipv4: Option<string>,
    ipv6: Option<string>)

  /** A whole run: what was sent and received, how it ended, the provider afterwards. */
  datatype Outcome = Outcome(log: seq<Exchange>, status: Status, provider: Provider)

  /** A stretch of the run: its exchanges, whether all of them went as hoped, the provider after it. */
  datatype Step = Step(log: seq<Exchange>, ok: bool, provider: Provider)

  /** A value that is present and not PHP-empty, so PHP treats it as true. */
  predicate Usable(v: Option<string>) {
    v.Some? && !PhpEmpty(v.value)
  }

  /** `getenv(…) ?: ($_GET['token'] ?? null)`: the environment wins whenever it is usable. */
  function ChosenToken(input: Input): (token: Option<string>)
    ensures Usable(token) <==> Usable(input.envToken) || Usable(input.getToken)
    ensures Usable(input.envToken) ==> token == input.envToken
    ensures !Usable(input.envToken) ==> token == input.getToken
  {
    if Usable(input.envToken) then input.envToken else input.getToken
  }

  /** The response a call must get for the run to stay a success. A record-set read never
      fails the run: a miss, for whatever reason, only leads to a create. */
  predicate Acceptable(e: Exchange) {
    match e.call
    case ListZones => e.response.ZoneList?
    case FindZones(_) => e.response.ZoneList? && |e.response.zones| > 0
    case GetRRSet(_, _, _) => true
    case CreateRRSet(_, _, _, _, _) => e.response.RRSetBody?
  }

  /** Every exchange of a log got the response the run hopes for. */
  predicate AllAcceptable(log: seq<Exchange>) {
    Logs.Every(log, Acceptable)
  }

  /** The zone name an exchange looks up, when it is a zone lookup. */
  function LookedUp(e: Exchange): Option<string> {
    if e.call.FindZones? then Some(e.call.name) else None
  }

  /** The zone names looked up in a log, in order. */
  function Lookups(log: seq<Exchange>): seq<string> {
    Logs.Lookups(log, LookedUp)
  }

  /** The call reads or creates a record set of this type. */
  predicate About(c: Call, rtype: string) {
    (c.GetRRSet? || c.CreateRRSet?) && c.rtype == rtype
  }

  /** One address family's block: read the set; when the response has no set id, create
      it with the one address and the fixed ttl. The block succeeds when it ends holding a
      set id. */
  function Ensure(zoneId: Id, name: string, rtype: string, addr: string, token: string, p: Provider): (s: Step)
    ensures 1 <= |s.log| <= 2 && s.log[0].call == GetRRSet(zoneId, name, rtype)
    ensures |s.log| == 1 <==> s.log[0].response.RRSetBody?
    ensures |s.log| == 2 ==> s.log[1].call == CreateRRSet(zoneId, name, rtype, Ttl, [addr])
    ensures s.ok <==> s.log[|s.log| - 1].response.RRSetBody?
    ensures s.ok <==> AllAcceptable(s.log)
    ensures p.rrsets <= s.provider.rrsets
    ensures Valid(p) ==> Valid(s.provider)
    ensures s.provider.zones == p.zones && s.provider.tokens == p.tokens && s.provider.outages == p.outages
    ensures s.provider.served >= p.served
  {
    var get := GetRRSet(zoneId, name, rtype);
    var gr := Serve(p, token, get);
    var e := Exchange(get, gr.response);
    if gr.response.RRSetBody? then Step([e], true, gr.provider)
    else
      var post := CreateRRSet(zoneId, name, rtype, Ttl, [addr]);
      var cr := Serve(gr.provider, token, post);
      Step([e, Exchange(post, cr.response)], cr.response.RRSetBody?, cr.provider)
  }

  /** `if (!empty($ipvN)) { … }`: the block for one family, skipped when no address was supplied. */
  function Family(zoneId: Id, name: string, rtype: string, addr: Option<string>, token: string, p: Provider): (s: Step)
    ensures addr.None? ==> s == Step([], true, p)
    ensures addr.Some? ==> 1 <= |s.log| <= 2 && s.log[0].call == GetRRSet(zoneId, name, rtype)
    ensures addr.Some? ==> (|s.log| == 2 <==> !s.log[0].response.RRSetBody?)
    ensures addr.Some? && |s.log| == 2 ==> s.log[1].call == CreateRRSet(zoneId, name, rtype, Ttl, [addr.value])
    ensures forall x :: x in s.log ==> About(x.call, rtype) && x.call.zoneId == zoneId && x.call.name == name
    ensures forall x :: x in s.log && x.call.CreateRRSet? ==>
      x.call.ttl == Ttl && addr.Some? && x.call.values == [addr.value]
    ensures Lookups(s.log) == []
    ensures s.ok <==> AllAcceptable(s.log)
    ensures p.rrsets <= s.provider.rrsets
    ensures Valid(p) ==> Valid(s.provider)
    ensures s.provider.zones == p.zones && s.provider.tokens == p.tokens && s.provider.outages == p.outages
    ensures s.provider.served >= p.served
  {
    if addr.None? then Step([], true, p)
    else
      var s := Ensure(zoneId, name, rtype, addr.value, token, p);
      Logs.NoLookups(s.log, LookedUp);
      s
  }

  /** The domain loop body after the zone was found: the IPv4 block and, unless it failed
      (`continue`), the IPv6 block. */
  function Blocks(zoneId: Id, sub: string, token: string, ipv4: Option<string>, ipv6: Option<string>, p: Provider): (s: Step)
    ensures forall x :: x in s.log ==>
      && (About(x.call, "A") || About(x.call, "AAAA"))
      && x.call.zoneId == zoneId && x.call.name == sub
    ensures Lookups(s.log) == []
    ensures s.ok <==> AllAcceptable(s.log)
    ensures p.rrsets <= s.provider.rrsets
    ensures Valid(p) ==> Valid(s.provider)
    ensures s.provider.zones == p.zones && s.provider.tokens == p.tokens && s.provider.outages == p.outages
    ensures s.provider.served >= p.served
  {
    var v4 := Family(zoneId, sub, "A", ipv4, token, p);
    if !v4.ok then Step(v4.log, false, v4.provider)
    else
      var v6 := Family(zoneId, sub, "AAAA", ipv6, token, v4.provider);
      Logs.LookupsConcat(v4.log, v6.log, LookedUp);
      Logs.EveryConcat(v4.log, v6.log, Acceptable);
      Step(v4.log + v6.log, v6.ok, v6.provider)
  }

  /** The rest of the domain loop body once the zone lookup `e` has been answered: stop
      when it found no zone (`continue`), otherwise run the family blocks for the first zone
      it returned and the domain's sub-name. */
  function AfterLookup(e: Exchange, domain: string, token: string, ipv4: Option<string>, ipv6: Option<string>, q: Provider): (s: Step)
    requires e.call.FindZones?
    ensures |s.log| >= 1 && s.log[0] == e
    ensures !Acceptable(e) ==> |s.log| == 1 && !s.ok && s.provider == q
    ensures Acceptable(e) ==> forall x :: x in s.log[1..] ==>
      && (About(x.call, "A") || About(x.call, "AAAA"))
      && x.call.zoneId == e.response.zones[0].id && x.call.name == SubName(domain)
    ensures Lookups(s.log) == [e.call.name]
    ensures s.ok <==> AllAcceptable(s.log)
    ensures q.rrsets <= s.provider.rrsets
    ensures Valid(q) ==> Valid(s.provider)
    ensures s.provider.zones == q.zones && s.provider.tokens == q.tokens && s.provider.outages == q.outages
    ensures s.provider.served >= q.served
  {
    Logs.LookupsOne(e, LookedUp);
    if !Acceptable(e) then
      Step([e], false, q)
    else
      var b := Blocks(e.response.zones[0].id, SubName(domain), token, ipv4, ipv6, q);
      Logs.LookupsConcat([e], b.log, LookedUp);
      Logs.EveryConcat([e], b.log, Acceptable);
      assert ([e] + b.log)[1..] == b.log;
      Step([e] + b.log, b.ok, b.provider)
  }

  /** The body of the domain loop: find the zone, then run the address-family blocks. */
  function ProcessDomain(domain: string, token: string, ipv4: Option<string>, ipv6: Option<string>, p: Provider): (s: Step)
    ensures |s.log| >= 1 && s.log[0].call == FindZones(ZoneName(domain))
    ensures s.log[0].response == if Down(p, token) then Rejected else ZoneList(Named(p.zones, ZoneName(domain)))
    ensures !Acceptable(s.log[0]) ==> |s.log| == 1 && !s.ok
    ensures Acceptable(s.log[0]) ==> forall x :: x in s.log[1..] ==>
      && (About(x.call, "A") || About(x.call, "AAAA"))
      && x.call.zoneId == s.log[0].response.zones[0].id && x.call.name == SubName(domain)
    ensures Lookups(s.log) == [ZoneName(domain)]
    ensures s.ok <==> AllAcceptable(s.log)
    ensures p.rrsets <= s.provider.rrsets
    ensures Valid(p) ==> Valid(s.provider)
    ensures s.provider.zones == p.zones && s.provider.tokens == p.tokens && s.provider.outages == p.outages
    ensures s.provider.served >= p.served
  {
    var lookup := FindZones(ZoneName(domain));
    var zr := Serve(p, token, lookup);
    AfterLookup(Exchange(lookup, zr.response), domain, token, ipv4, ipv6, zr.provider)
  }

  /** The domain loop with the verdict accumulator `$result`: a failed domain does not stop
      the ones after it. */
  function ProcessAll(domains: seq<string>, token: string, ipv4: Option<string>, ipv6: Option<string>,
                      verdict: Verdict, p: Provider): (b: Outcome)
    ensures b.status.Completed?
    ensures verdict == Failure ==> b.status.verdict == Failure
    ensures b.status.verdict == Success <==> verdict == Success && AllAcceptable(b.log)
    ensures Lookups(b.log) == ZoneNames(domains)
    ensures p.rrsets <= b.provider.rrsets
    ensures Valid(p) ==> Valid(b.provider)
    ensures b.provider.zones == p.zones && b.provider.tokens == p.tokens && b.provider.outages == p.outages
    ensures b.provider.served >= p.served
    decreases |domains|
  {
    if domains == [] then Outcome([], Completed(verdict), p)
    else
      var s := ProcessDomain(domains[0], token, ipv4, ipv6, p);
      var rest := ProcessAll(domains[1..], token, ipv4, ipv6, Fold(verdict, s.ok), s.provider);
      Logs.LookupsConcat(s.log, rest.log, LookedUp);
      Logs.EveryConcat(s.log, rest.log, Acceptable);
      Outcome(s.log + rest.log, rest.status, rest.provider)
  }

  /** From the authentication probe on: `GET zones` with the chosen token; without `zones`
      in the response the script stops with 401, otherwise it runs the domain loop. */
  function Probe(token: string, domains: seq<string>, ipv4: Option<string>, ipv6: Option<string>, p: Provider): (o: Outcome)
    ensures o.status.Aborted? <==> Down(p, token)
    ensures o.status.Aborted? ==>
      o.status == Aborted(401) && |o.log| == 1 && o.log[0].call == ListZones && !Acceptable(o.log[0])
    ensures o.status.Completed? ==>
      && |o.log| >= 1 && o.log[0].call == ListZones && Acceptable(o.log[0])
      && Lookups(o.log) == ZoneNames(domains)
      && (o.status.verdict == Success <==> AllAcceptable(o.log))
    ensures o.status.Completed? ==>
      var b := ProcessAll(domains, token, ipv4, ipv6, Success, p.(served := p.served + 1));
      o.log[1..] == b.log && o.provider == b.provider && o.status == b.status
    ensures p.rrsets <= o.provider.rrsets
    ensures Valid(p) ==> Valid(o.provider)
  {
    var probe := Serve(p, token, ListZones);
    var e := Exchange(ListZones, probe.response);
    if !probe.response.ZoneList? then Outcome([e], Aborted(401), probe.provider)
    else
      var b := ProcessAll(domains, token, ipv4, ipv6, Success, probe.provider);
      Logs.LookupsOne(e, LookedUp);
      Logs.LookupsConcat([e], b.log, LookedUp);
      Logs.EveryConcat([e], b.log, Acceptable);
      assert ([e] + b.log)[1..] == b.log;
      Outcome([e] + b.log, b.status, b.provider)
  }

  /** The script from its first check to `echo "Result: $result"`. It stops with 400 before
      calling the provider when neither the environment nor the query yields a usable token,
      when the domain parameter is absent or PHP-empty, or when no address was supplied; with
      401 when the authentication probe gets no `zones`; otherwise it processes every token
      of `explode(", ", domain)`, trimmed, in order. */
  function Run(input: Input, p: Provider): (o: Outcome)
    ensures o.status == Aborted(400) <==>
      !(Usable(input.envToken) || Usable(input.getToken)) || !Usable(input.domain)
      || (input.ipv4.None? && input.ipv6.None?)
    ensures o.status == Aborted(400) ==> o.log == [] && o.provider == p
    ensures o.status == Aborted(401) <==>
      (Usable(input.envToken) || Usable(input.getToken)) && Usable(input.domain)
      && (input.ipv4.Some? || input.ipv6.Some?)
      && Down(p, if Usable(input.envToken) then input.envToken.value else input.getToken.value)
    ensures o.status == Aborted(401) ==> |o.log| == 1 && o.log[0].call == ListZones && !Acceptable(o.log[0])
    ensures o.status.Aborted? ==> o.status.code == 400 || o.status.code == 401
    ensures o.status.Completed? ==>
      && |o.log| >= 1 && o.log[0].call == ListZones && Acceptable(o.log[0])
      && Lookups(o.log) == ZoneNames(Tokens(input.domain.value, ", "))
      && (o.status.verdict == Success <==> AllAcceptable(o.log))
    ensures o.status.Completed? ==>
      var b := ProcessAll(Tokens(input.domain.value, ", "), ChosenToken(input).value, input.ipv4, input.ipv6,
                          Success, p.(served := p.served + 1));
      o.log[1..] == b.log && o.provider == b.provider && o.status == b.status
    ensures p.rrsets <= o.provider.rrsets
    ensures Valid(p) ==> Valid(o.provider)
  {
    var token := ChosenToken(input);
    if !Usable(token) || !Usable(input.domain) then Outcome([], Aborted(400), p)
    else if input.ipv4.None? && input.ipv6.None? then Outcome([], Aborted(400), p)
    else Probe(token.value, Tokens(input.domain.value, ", "), input.ipv4, input.ipv6, p)
  }
}
