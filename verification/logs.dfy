/** What both scripts' run logs have in common, whatever API the exchanges belong to: the
    zone names a log looks up, and whether every exchange in it went as hoped. */
module Logs {
  import opened Base

  /** The zone name one exchange looks up, as a list of at most one name. */
  function LookedUp<E>(e: E, lookup: E -> Option<string>): seq<string> {
    if lookup(e).Some? then [lookup(e).value] else []
  }

  /** The zone names looked up in a log, in order. `lookup` gives the name an exchange
      looks up, or `None` when the exchange is not a zone lookup. */
  function Lookups<E>(log: seq<E>, lookup: E -> Option<string>): (names: seq<string>)
    ensures |names| <= |log|
    decreases |log|
  {
    if log == [] then [] else LookedUp(log[0], lookup) + Lookups(log[1..], lookup)
  }

  lemma {:induction false} LookupsConcat<E>(a: seq<E>, b: seq<E>, lookup: E -> Option<string>)
    ensures Lookups(a + b, lookup) == Lookups(a, lookup) + Lookups(b, lookup)
    decreases |a|
  {
    if a == [] {
      assert a + b == b;
    } else {
      var head, tail := LookedUp(a[0], lookup), a[1..] + b;
      assert (a + b)[0] == a[0] && (a + b)[1..] == tail;
      assert Lookups(a + b, lookup) == head + Lookups(tail, lookup);
      LookupsConcat(a[1..], b, lookup);
      assert Lookups(tail, lookup) == Lookups(a[1..], lookup) + Lookups(b, lookup);
      assert Lookups(a, lookup) == head + Lookups(a[1..], lookup);
    }
  }

  /** A one-exchange log looks up what its exchange looks up. */
  lemma {:induction false} LookupsOne<E>(e: E, lookup: E -> Option<string>)
    ensures Lookups([e], lookup) == LookedUp(e, lookup)
  {
    assert [e][1..] == [];
  }

  /** A log without zone lookups looks up nothing. */
  lemma {:induction false} NoLookups<E>(log: seq<E>, lookup: E -> Option<string>)
    requires forall i :: 0 <= i < |log| ==> lookup(log[i]).None?
    ensures Lookups(log, lookup) == []
    decreases |log|
  {
    if log != [] {
      NoLookups(log[1..], lookup);
    }
  }

  /** Every exchange of a log passes `ok`. */
  predicate Every<E>(log: seq<E>, ok: E -> bool) {
    forall i :: 0 <= i < |log| ==> ok(log[i])
  }

  lemma {:induction false} EveryConcat<E>(a: seq<E>, b: seq<E>, ok: E -> bool)
    ensures Every(a + b, ok) <==> Every(a, ok) && Every(b, ok)
  {
    if Every(a, ok) && Every(b, ok) {
      forall i | 0 <= i < |a + b| ensures ok((a + b)[i]) {
        if i >= |a| { assert (a + b)[i] == b[i - |a|]; }
      }
    }
    if Every(a + b, ok) {
      forall i | 0 <= i < |a| ensures ok(a[i]) {
        assert (a + b)[i] == a[i];
      }
      forall i | 0 <= i < |b| ensures ok(b[i]) {
        assert (a + b)[|a| + i] == b[i];
      }
    }
  }
}
