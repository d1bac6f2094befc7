/** The legacy Hetzner DNS API (`https://dns.hetzner.com/api/v1/`) as the flat-record script
    uses it: zones, and a flat list of records each carrying one value. The provider is pure
    state; transport failures, HTTP errors and a rejected token are a failure oracle. */
module FlatApi {
  import opened Zones

  /** A DNS record as the API returns it: `id`, `zone_id`, `name`, `type`, `value`, `ttl`. */
  datatype Record = Record(id: Id, zoneId: Id, name: string, rtype: string, value: string, ttl: int)

  /** The requests the script issues. */
  datatype Call =
    | ListZones                                                              // GET zones
    | FindZones(name: string)                                                // GET zones?name=…
    | ListRecords(zoneId: Id)                                                // GET records?zone_id=…
    | UpdateRecord(id: Id, value: string, ttl: int)                          // PUT records/{id}
    | CreateRecord(rtype: string, name: string, value: string, ttl: int, zoneId: Id)  // POST records
  {
    predicate IsWrite() {
      UpdateRecord? || CreateRecord?
    }
  }

  /** A decoded response, reduced to the field the script tests with `isset`: `zones`,
      `records` or `record`. `Rejected` stands for every body that has none of them:
      an HTTP status of 400 or more (the helper returns `false`), a timeout, bad JSON. */
  datatype Response =
    | ZoneList(zones: seq<Zone>)
    | RecordList(records: seq<Record>)
    | Saved(id: Id)
    | Rejected

  /** One request and the response it got. */
  datatype Exchange = Exchange(call: Call, response: Response)

  /** The provider: the account's zones and records, the next identifier it hands out, the
      tokens it accepts, and the failure oracle — the indices of the calls (counted from 0
      over the provider's lifetime) that fail in transit. */
  datatype Provider = Provider(
    tokens: set<string>,
    zones: seq<Zone>,
    records: seq<Record>,
    nextId: Id,
    outages: set<nat>,
    served: nat)

  datatype Reply = Reply(response: Response, provider: Provider)

  /** Record identifiers are unique and below the next one to be handed out. */
  ghost predicate Valid(p: Provider) {
    && (forall i, j :: 0 <= i < j < |p.records| ==> p.records[i].id != p.records[j].id)
    && (forall i :: 0 <= i < |p.records| ==> p.records[i].id < p.nextId)
  }

  /** Every record of `before` is still in `after`, at the same position, with the same
      identity (id, zone, name, type); only its value and ttl may differ. */
  ghost predicate Persists(before: seq<Record>, after: seq<Record>) {
    && |before| <= |after|
    && forall i :: 0 <= i < |before| ==>
         && after[i].id == before[i].id
         && after[i].zoneId == before[i].zoneId
         && after[i].name == before[i].name
         && after[i].rtype == before[i].rtype
  }

  /** The call the provider serves next fails: the token is refused or the oracle says so. */
  predicate Down(p: Provider, token: string) {
    token !in p.tokens || p.served in p.outages
  }

  /** The records of one zone, in the provider's order. */
  function InZone(records: seq<Record>, zoneId: Id): (r: seq<Record>)
    ensures forall x :: x in r <==> x in records && x.zoneId == zoneId
    decreases |records|
  {
    if records == [] then []
    else (if records[0].zoneId == zoneId then [records[0]] else []) + InZone(records[1..], zoneId)
  }

  predicate HasRecordId(records: seq<Record>, id: Id) {
    exists i :: 0 <= i < |records| && records[i].id == id
  }

  /** `PUT records/{id}`: the record with that id gets the new value and ttl. */
  function Assign(records: seq<Record>, id: Id, value: string, ttl: int): (r: seq<Record>)
    ensures |r| == |records|
    ensures forall i :: 0 <= i < |r| ==>
      r[i] == if records[i].id == id then records[i].(value := value, ttl := ttl) else records[i]
  {
    seq(|records|, i requires 0 <= i < |records| =>
      if records[i].id == id then records[i].(value := value, ttl := ttl) else records[i])
  }

  /** The provider answering one call. Nothing is ever deleted: reads change no record, an
      update changes one record's value and ttl, a create appends a record with a fresh id. */
  function Serve(p: Provider, token: string, c: Call): (out: Reply)
    ensures out.provider.served == p.served + 1
    ensures out.provider.tokens == p.tokens && out.provider.zones == p.zones
    ensures out.provider.outages == p.outages
    ensures Persists(p.records, out.provider.records)
    ensures Valid(p) ==> Valid(out.provider)
    ensures !c.IsWrite() || Down(p, token) ==> out.provider.records == p.records
    ensures Down(p, token) ==> out.response == Rejected
    ensures out.provider.nextId >= p.nextId
    ensures forall k :: |p.records| <= k < |out.provider.records| ==> out.provider.records[k].id >= p.nextId
  {
    var next := p.(served := p.served + 1);
    if Down(p, token) then Reply(Rejected, next)
    else
      match c
      case ListZones => Reply(ZoneList(p.zones), next)
      case FindZones(name) => Reply(ZoneList(Named(p.zones, name)), next)
      case ListRecords(zoneId) =>
        if HasZone(p.zones, zoneId) then Reply(RecordList(InZone(p.records, zoneId)), next)
        else Reply(Rejected, next)
      case UpdateRecord(id, value, ttl) =>
        if HasRecordId(p.records, id) then Reply(Saved(id), next.(records := Assign(p.records, id, value, ttl)))
        else Reply(Rejected, next)
      case CreateRecord(rtype, name, value, ttl, zoneId) =>
        if HasZone(p.zones, zoneId) then
          var r := Record(p.nextId, zoneId, name, rtype, value, ttl);
          Reply(Saved(p.nextId), next.(records := p.records + [r], nextId := p.nextId + 1))
        else Reply(Rejected, next)
  }

  /** What a write does when the provider is up: an update of a known id rewrites that
      record, a create in a known zone appends a record with the next id, anything else is
      refused and changes nothing. */
  lemma {:induction false} ServeWrite(p: Provider, token: string, c: Call)
    requires !Down(p, token) && c.IsWrite()
    ensures var out := Serve(p, token, c);
      && (c.UpdateRecord? && HasRecordId(p.records, c.id) ==>
            out.response.Saved? && out.provider.records == Assign(p.records, c.id, c.value, c.ttl))
      && (c.CreateRecord? && HasZone(p.zones, c.zoneId) ==>
            out.response.Saved? &&
            out.provider.records == p.records + [Record(p.nextId, c.zoneId, c.name, c.rtype, c.value, c.ttl)])
      && (c.UpdateRecord? && !HasRecordId(p.records, c.id) ==> out.provider.records == p.records)
      && (c.CreateRecord? && !HasZone(p.zones, c.zoneId) ==> out.provider.records == p.records)
  {
  }
}
