/** The Hetzner Cloud API (`https://api.hetzner.cloud/v1/`) as the record-set script uses
    it: zones, and resource-record sets keyed by zone, name and type, each holding a list of
    values. The script only reads and creates sets, so the provider is append-only. As for
    the flat API, the provider is pure state and failures are an oracle. */
module CloudApi {
  import opened Base
  import opened Zones

  /** A resource-record set: `id`, the zone, `name`, `type`, `ttl` and its record values. */
  datatype RRSet = RRSet(id: Id, zoneId: Id, name: string, rtype: string, ttl: int, values: seq<string>)

  /** The requests the script issues. */
  datatype Call =
    | ListZones                                                                  // GET zones
    | FindZones(name: string)                                                    // GET zones?name=…
    | GetRRSet(zoneId: Id, name: string, rtype: string)                          // GET zones/{id}/rrsets/{name}/{type}
    | CreateRRSet(zoneId: Id, name: string, rtype: string, ttl: int, values: seq<string>)  // POST zones/{id}/rrsets
  {
    predicate IsWrite() {
      CreateRRSet?
    }
  }

  /** A decoded response, reduced to what the script tests with `isset`: `zones`, or an
      `rrset` with an `id`. `Rejected` stands for every other body: an error object, a
      timeout, bad JSON. */
  datatype Response =
    | ZoneList(zones: seq<Zone>)
    | RRSetBody(rrset: RRSet)
    | Rejected

  datatype Exchange = Exchange(call: Call, response: Response)

  /** The provider: zones, record sets, the next identifier, accepted tokens, and the
      failure oracle (indices of the calls that fail in transit). */
  datatype Provider = Provider(
    tokens: set<string>,
    zones: seq<Zone>,
    rrsets: seq<RRSet>,
    nextId: Id,
    outages: set<nat>,
    served: nat)

  datatype Reply = Reply(response: Response, provider: Provider)

  /** The set is the one addressed by zone, name and type. */
  predicate Keyed(s: RRSet, zoneId: Id, name: string, rtype: string) {
    s.zoneId == zoneId && s.name == name && s.rtype == rtype
  }

  /** Identifiers are unique and below the next one; no two sets share zone, name and type. */
  ghost predicate Valid(p: Provider) {
    && (forall i, j :: 0 <= i < j < |p.rrsets| ==> p.rrsets[i].id != p.rrsets[j].id)
    && (forall i :: 0 <= i < |p.rrsets| ==> p.rrsets[i].id < p.nextId)
    && (forall i, j :: 0 <= i < j < |p.rrsets| ==>
          !Keyed(p.rrsets[j], p.rrsets[i].zoneId, p.rrsets[i].name, p.rrsets[i].rtype))
  }

  /** The call the provider serves next fails: the token is refused or the oracle says so. */
  predicate Down(p: Provider, token: string) {
    token !in p.tokens || p.served in p.outages
  }

  /** The set addressed by zone, name and type, if there is one. */
  function FindRRSet(rrsets: seq<RRSet>, zoneId: Id, name: string, rtype: string): (r: Option<RRSet>)
    ensures r.Some? ==> r.value in rrsets && Keyed(r.value, zoneId, name, rtype)
    ensures r.None? <==> forall s :: s in rrsets ==> !Keyed(s, zoneId, name, rtype)
    decreases |rrsets|
  {
    if rrsets == [] then None
    else if Keyed(rrsets[0], zoneId, name, rtype) then Some(rrsets[0])
    else FindRRSet(rrsets[1..], zoneId, name, rtype)
  }

  /** Appending a set under the next id, for a key not yet taken, keeps the provider valid. */
  lemma {:induction false} AppendKeepsValid(p: Provider, s: RRSet)
    requires s.id == p.nextId && FindRRSet(p.rrsets, s.zoneId, s.name, s.rtype).None?
    ensures Valid(p) ==> Valid(p.(rrsets := p.rrsets + [s], nextId := p.nextId + 1))
  {
    var rs := p.rrsets + [s];
    forall i | 0 <= i < |p.rrsets| ensures !Keyed(s, rs[i].zoneId, rs[i].name, rs[i].rtype) {
      assert rs[i] == p.rrsets[i];
      assert p.rrsets[i] in p.rrsets;
    }
  }

  /** The provider answering one call. Nothing is changed or deleted: a read changes
      nothing, a create appends one set with a fresh id. A create is refused for an unknown
      zone and for a set that already exists. */
  function Serve(p: Provider, token: string, c: Call): (out: Reply)
    ensures out.provider.served == p.served + 1
    ensures out.provider.tokens == p.tokens && out.provider.zones == p.zones
    ensures out.provider.outages == p.outages
    ensures p.rrsets <= out.provider.rrsets && |out.provider.rrsets| <= |p.rrsets| + 1
    ensures Valid(p) ==> Valid(out.provider)
    ensures !c.IsWrite() || Down(p, token) ==> out.provider.rrsets == p.rrsets
    ensures Down(p, token) ==> out.response == Rejected
    ensures out.provider.nextId >= p.nextId
  {
    var next := p.(served := p.served + 1);
    if Down(p, token) then Reply(Rejected, next)
    else
      match c
      case ListZones => Reply(ZoneList(p.zones), next)
      case FindZones(name) => Reply(ZoneList(Named(p.zones, name)), next)
      case GetRRSet(zoneId, name, rtype) =>
        var found := FindRRSet(p.rrsets, zoneId, name, rtype);
        if found.Some? then Reply(RRSetBody(found.value), next) else Reply(Rejected, next)
      case CreateRRSet(zoneId, name, rtype, ttl, values) =>
        if HasZone(p.zones, zoneId) && FindRRSet(p.rrsets, zoneId, name, rtype).None? then
          var s := RRSet(p.nextId, zoneId, name, rtype, ttl, values);
          AppendKeepsValid(p, s);
          Reply(RRSetBody(s), next.(rrsets := p.rrsets + [s], nextId := p.nextId + 1))
        else Reply(Rejected, next)
  }

  /** A record-set read on a provider that is up answers with the set exactly when it
      exists, and changes nothing but the call counter. */
  lemma {:induction false} ServeGet(p: Provider, token: string, zoneId: Id, name: string, rtype: string)
    requires !Down(p, token)
    ensures var out := Serve(p, token, GetRRSet(zoneId, name, rtype));
      && out.provider == p.(served := p.served + 1)
      && (out.response.RRSetBody? <==> FindRRSet(p.rrsets, zoneId, name, rtype).Some?)
      && (out.response.RRSetBody? ==> Keyed(out.response.rrset, zoneId, name, rtype) && out.response.rrset in p.rrsets)
  {
  }

  /** A create on a provider that is up succeeds exactly when the zone exists and the set
      does not; a successful create appends the requested set under the next id. */
  lemma {:induction false} ServeCreate(p: Provider, token: string, zoneId: Id, name: string, rtype: string, ttl: int, values: seq<string>)
    requires !Down(p, token)
    ensures var out := Serve(p, token, CreateRRSet(zoneId, name, rtype, ttl, values));
      && (out.response.RRSetBody? <==> HasZone(p.zones, zoneId) && FindRRSet(p.rrsets, zoneId, name, rtype).None?)
      && (out.response.RRSetBody? ==>
            out.provider.rrsets == p.rrsets + [RRSet(p.nextId, zoneId, name, rtype, ttl, values)])
  {
  }
}
