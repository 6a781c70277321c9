/** Carrying a container's networks over a recreate (`buildNetworking`, `endpointFrom`). */
module Networking {
  import opened Common
  import opened Docker
  import opened Sorting

  /** The endpoints an inspect reports; an entry may be nil. */
  type Reported = map<string, Option<Endpoint>>

  /** Keeps the configuration that must survive and drops what the host assigned. */
  function EndpointFrom(ep: Option<Endpoint>): EndpointConfig {
    match ep
    case None => EndpointConfig([], [], None, map[])
    case Some(e) => EndpointConfig(e.config.aliases, e.config.links, e.config.ipam, e.config.driverOpts)
  }

  function Projected(ns: Reported): map<string, EndpointConfig> {
    map n | n in ns :: EndpointFrom(ns[n])
  }

  /** The networks to attach at create time and those to connect afterwards. */
  datatype Split = Split(primary: map<string, EndpointConfig>, extra: map<string, EndpointConfig>)

  ghost predicate IsSplit(ns: Reported, s: Split) {
    if ns == map[] then s == Split(map[], map[])
    else exists p :: IsSplitAt(ns, s, p)
  }

  /** Exactly the least network name goes to create; the others wait. */
  ghost predicate IsSplitAt(ns: Reported, s: Split, p: string) {
    IsLeast(p, ns.Keys) && s == Split(map[p := EndpointFrom(ns[p])], Projected(ns) - {p})
  }

  ghost function SplitOf(ns: Reported): (s: Split)
    ensures IsSplit(ns, s)
  {
    if ns == map[] then Split(map[], map[])
    else
      LeastExists(ns.Keys);
      var p :| IsLeast(p, ns.Keys);
      var s := Split(map[p := EndpointFrom(ns[p])], Projected(ns) - {p});
      assert IsSplitAt(ns, s, p);
      s
  }

  /** The split is determined by the networks. */
  lemma SplitUnique(ns: Reported, s: Split)
    requires IsSplit(ns, s)
    ensures s == SplitOf(ns)
  {
    if ns != map[] {
      var p :| IsSplitAt(ns, s, p);
      var q :| IsSplitAt(ns, SplitOf(ns), q);
      LeqTotal(p, q);
    }
  }

  /** It loses no network and attaches none twice. */
  lemma SplitLosesNothing(ns: Reported, s: Split)
    requires IsSplit(ns, s)
    ensures s.primary.Keys !! s.extra.Keys && s.primary + s.extra == Projected(ns)
    ensures |s.primary| == if ns == map[] then 0 else 1
  {
  }

  /** The network attached at create time is the first in dictionary order. */
  lemma PrimaryComesFirst(ns: Reported, s: Split, p: string)
    requires IsSplit(ns, s) && p in s.primary
    ensures s.primary.Keys == {p} && p in ns && forall n :: n in ns ==> Lexicographic(p, n)
  {
    hide Leq, Lexicographic;
    forall n | n in ns ensures Lexicographic(p, n) { LeqIsLexicographic(p, n); }
  }

  method SortedNames(keys: set<string>) returns (sorted: seq<string>)
    requires keys != {}
    ensures sorted != [] && IsLeast(sorted[0], keys)
    ensures Enumerates(sorted, keys)
  {
    var names := RangeOrder(keys);
    sorted := StableSort(names, (n: string) => Key(0, n));
    SortedEnumeration(names, sorted, keys);
  }

  /** Go ranges over the map in any order, sorts, and takes the first name. */
  method BuildNetworking(ns: Reported) returns (s: Split)
    ensures s == SplitOf(ns)
  {
    if ns == map[] {
      s := Split(map[], map[]);
      return;
    }
    var sorted := SortedNames(ns.Keys);
    var primary := sorted[0];
    var rest := sorted[1..];
    var extra: map<string, EndpointConfig> := map[];
    var i := 0;
    while i < |rest|
      invariant 0 <= i <= |rest|
      invariant extra.Keys == set k | 0 <= k < i :: rest[k]
      invariant forall n :: n in extra ==> n in ns && extra[n] == EndpointFrom(ns[n])
    {
      assert rest[i] == sorted[i+1] && sorted[i+1] in ns.Keys;
      extra := extra[rest[i] := EndpointFrom(ns[rest[i]])];
      i := i + 1;
    }
    s := Split(map[primary := EndpointFrom(ns[primary])], extra);
    SplitOfSorted(ns, sorted, extra);
    SplitUnique(ns, s);
  }

  lemma SplitOfSorted(ns: Reported, sorted: seq<string>, extra: map<string, EndpointConfig>)
    requires sorted != [] && IsLeast(sorted[0], ns.Keys) && Enumerates(sorted, ns.Keys)
    requires extra.Keys == set n | n in sorted[1..]
    requires forall n :: n in extra ==> n in ns && extra[n] == EndpointFrom(ns[n])
    ensures IsSplitAt(ns, Split(map[sorted[0] := EndpointFrom(ns[sorted[0]])], extra), sorted[0])
  {
    RestOfEnumeration(sorted, ns.Keys);
    hide Enumerates, IsLeast;
    SameConfigs(ns, extra, sorted[0]);
  }

  lemma RestOfEnumeration(order: seq<string>, keys: set<string>)
    requires order != [] && Enumerates(order, keys)
    ensures (set n | n in order[1..]) == keys - {order[0]}
  {
    assert order == [order[0]] + order[1..];
    forall n ensures n in order[1..] <==> n in keys && n != order[0] {
      assert n in order <==> n == order[0] || n in order[1..];
    }
  }

  lemma SameConfigs(ns: Reported, extra: map<string, EndpointConfig>, p: string)
    requires extra.Keys == ns.Keys - {p}
    requires forall n :: n in extra ==> n in ns && extra[n] == EndpointFrom(ns[n])
    ensures extra == Projected(ns) - {p}
  {
    hide EndpointFrom;
    assert forall n :: n in extra <==> n in Projected(ns) - {p};
  }

  lemma {:induction false} SortedEnumeration(names: seq<string>, sorted: seq<string>, keys: set<string>)
    requires Enumerates(names, keys) && keys != {}
    requires sorted == StableSort(names, (n: string) => Key(0, n))
    ensures sorted != [] && IsLeast(sorted[0], keys)
    ensures Enumerates(sorted, keys)
  {
    var any :| any in keys;
    assert any in names;
    forall y | y in keys ensures Leq(sorted[0], y) {
      var k :| 0 <= k < |sorted| && sorted[k] == y;
      if k == 0 { LeqTotal(y, y); }
    }
  }
}
