/** The DNS zones a provider account holds; both provider APIs expose them the same way. */
module Zones {

  /** Provider identifiers are opaque to the scripts; they are only echoed back in paths
      and request bodies. */
  type Id = nat

  datatype Zone = Zone(id: Id, name: string)

  /** `GET zones?name=X`: the account's zones with exactly that name, in the provider's order. */
  function Named(zones: seq<Zone>, name: string): (r: seq<Zone>)
    ensures forall z :: z in r <==> z in zones && z.name == name
    ensures |r| <= |zones|
    decreases |zones|
  {
    if zones == [] then []
    else (if zones[0].name == name then [zones[0]] else []) + Named(zones[1..], name)
  }

  /** The account has a zone with this identifier. */
  predicate HasZone(zones: seq<Zone>, id: Id) {
    exists i :: 0 <= i < |zones| && zones[i].id == id
  }

  /** The first zone a lookup returns is one of the account's zones, with the name asked for. */
  lemma {:induction false} FirstNamedHeld(zones: seq<Zone>, name: string)
    requires |Named(zones, name)| > 0
    ensures HasZone(zones, Named(zones, name)[0].id)
    ensures Named(zones, name)[0].name == name
  {
    var z := Named(zones, name)[0];
    assert z in Named(zones, name);
    var i :| 0 <= i < |zones| && zones[i] == z;
  }
}
