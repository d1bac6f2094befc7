/** How both scripts cut a domain into the zone it belongs to and the name inside that
    zone: the zone is taken to be the last two dot-separated labels (a two-label public
    suffix is assumed; "example.co.uk" yields the zone "co.uk"). */
module DomainNames {
  import opened Text

  /** `explode(".", domain)`. */
  function Labels(domain: string): (ls: seq<string>)
    ensures |ls| >= 1
    ensures forall i :: 0 <= i < |ls| ==> '.' !in ls[i]
  {
    var ls := Split(domain, ".");
    forall i | 0 <= i < |ls| ensures '.' !in ls[i] {
      NoCharOccurrence(ls[i], '.');
    }
    ls
  }

  /** `implode(".", array_slice($domain_parts, -2))`: the zone name of a domain. Its labels
      are the last two labels of the domain (all of them when it has fewer), so it never
      has more than two. */
  function ZoneName(domain: string): (zone: string)
    ensures var ls := Labels(domain); Labels(zone) == if |ls| <= 2 then ls else ls[|ls| - 2..]
    ensures |Labels(zone)| <= 2
  {
    var ls := Labels(domain);
    var tail := if |ls| <= 2 then ls else ls[|ls| - 2..];
    assert forall i :: 0 <= i < |tail| ==> '.' !in tail[i];
    SplitJoin(tail, '.');
    Join(tail, ".")
  }

  /** The zone name of each domain, in order. */
  function ZoneNames(domains: seq<string>): (names: seq<string>)
    ensures |names| == |domains| && forall i :: 0 <= i < |domains| ==> names[i] == ZoneName(domains[i])
    decreases |domains|
  {
    if domains == [] then [] else [ZoneName(domains[0])] + ZoneNames(domains[1..])
  }

  /** `implode(".", array_slice($domain_parts, 0, count($domain_parts) - 2))`: the labels
      in front of the zone, empty when there are none. */
  function SubName(domain: string): (sub: string)
    ensures |Labels(domain)| <= 2 ==> sub == ""
    ensures var ls := Labels(domain); |ls| >= 3 ==> Labels(sub) == ls[..|ls| - 2]
  {
    var ls := Labels(domain);
    if |ls| <= 2 then ""
    else
      var head := ls[..|ls| - 2];
      assert forall i :: 0 <= i < |head| ==> '.' !in head[i];
      SplitJoin(head, '.');
      Join(head, ".")
  }

  /** A domain of at most two labels is its own zone, at the zone apex. */
  lemma {:induction false} ShortDomainIsZone(domain: string)
    requires |Labels(domain)| <= 2
    ensures ZoneName(domain) == domain
    ensures SubName(domain) == ""
  {
    JoinSplit(domain, ".");
  }

  /** A domain of three or more labels is its sub-name, a dot, and its zone name. */
  lemma {:induction false} LongDomainRejoins(domain: string)
    requires |Labels(domain)| >= 3
    ensures SubName(domain) + "." + ZoneName(domain) == domain
  {
    var ls := Labels(domain);
    var n := |ls|;
    assert ls == ls[..n - 2] + ls[n - 2..];
    JoinConcat(ls[..n - 2], ls[n - 2..], ".");
    JoinSplit(domain, ".");
  }

  /** Deriving a zone name from a zone name changes nothing. */
  lemma {:induction false} ZoneNameIdempotent(domain: string)
    ensures ZoneName(ZoneName(domain)) == ZoneName(domain)
  {
    ShortDomainIsZone(ZoneName(domain));
  }

  /** The example from the script's header comment. */
  lemma {:induction false} ServiceExample()
    ensures ZoneName("service.my-domain.ch") == "my-domain.ch"
    ensures SubName("service.my-domain.ch") == "service"
  {
    var parts := ["service", "my-domain", "ch"];
    var zone := ["my-domain", "ch"];
    assert parts[1..] == zone && zone[1..] == ["ch"];
    assert Join(zone, ".") == "my-domain.ch" by {
      assert Join(zone, ".") == "my-domain" + "." + Join(["ch"], ".");
    }
    assert Join(parts, ".") == "service.my-domain.ch" by {
      assert Join(parts, ".") == "service" + "." + Join(zone, ".");
    }
    SplitJoin(parts, '.');
    assert Labels("service.my-domain.ch") == parts;
    assert parts[|parts| - 2..] == zone;
    assert parts[..|parts| - 2] == ["service"];
  }
}
