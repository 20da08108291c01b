/**
 * The network model handed to the optimiser: links with capacities, flows with
 * their candidate paths, and the traffic demand of each flow, all for one
 * timestamp. Also the two pieces of path/link incidence the optimiser uses:
 * splitting a link key back into its endpoints, and the consecutive node pairs
 * of a path.
 */
module Network {
  import opened Dicts

  type Node = string

  /** A candidate path: the router names it passes, in order. */
  type Path = seq<Node>

  /** One row of the link table: its endpoints and its capacity. */
  datatype LinkRow = LinkRow(linkStart: string, linkEnd: string, capacity: real)

  /** Links indexed by link key (`linkStart + linkEnd`). */
  type Links = Dict<string, LinkRow>

  /** For each source-destination key, its candidate paths, indexed 0..k-1. */
  type Flows = Dict<string, seq<Path>>

  /** Demand of each source-destination key. */
  type Traffic = Dict<string, real>

  datatype NetworkModel = NetworkModel(links: Links, flows: Flows, traffic: Traffic)

  ghost predicate PositiveCapacities(links: Links)
  {
    forall k :: k in links.at ==> links.at[k].capacity > 0.0
  }

  /** The data contract the optimiser relies on: dicts are dicts, capacities are positive. */
  ghost predicate WellFormed(n: NetworkModel)
  {
    Valid(n.links) && Valid(n.flows) && Valid(n.traffic) && PositiveCapacities(n.links)
  }

  // ----- link keys -----

  /** `(key[:5], key[5:])`, with Python's slicing of short strings. */
  function SplitLinkKey(key: string): (r: (Node, Node))
    ensures r.0 + r.1 == key
    ensures |r.0| == if |key| < 5 then |key| else 5
  {
    if |key| <= 5 then (key, "") else (key[..5], key[5..])
  }

  // ----- consecutive node pairs: zip(path[:-1], path[1:]) -----

  function ConsecutivePairs(p: Path): (r: seq<(Node, Node)>)
    ensures |r| == if |p| < 2 then 0 else |p| - 1
    ensures forall i :: 0 <= i < |r| ==> r[i] == (p[i], p[i + 1])
  {
    if |p| < 2 then [] else [(p[0], p[1])] + ConsecutivePairs(p[1..])
  }

  /** The edge-membership test: the link's endpoint pair is one of the path's hops. */
  predicate OnPath(pair: (Node, Node), p: Path)
  {
    pair in ConsecutivePairs(p)
  }

  lemma OnPathMeansHop(pair: (Node, Node), p: Path)
    ensures OnPath(pair, p) <==> exists i :: 0 <= i < |p| - 1 && p[i] == pair.0 && p[i + 1] == pair.1
    ensures |p| < 2 ==> !OnPath(pair, p)
  {
    if OnPath(pair, p) {
      var r := ConsecutivePairs(p);
      var i :| 0 <= i < |r| && r[i] == pair;
      assert r[i] == (p[i], p[i + 1]);
    }
    if exists i :: 0 <= i < |p| - 1 && p[i] == pair.0 && p[i + 1] == pair.1 {
      var i :| 0 <= i < |p| - 1 && p[i] == pair.0 && p[i + 1] == pair.1;
      assert ConsecutivePairs(p)[i] == pair;
    }
  }

  // ----- (sd, pathNum) slots, in the iteration order of the source -----

  /** One path-ratio index: a source-destination key and a path number. */
  datatype Slot = Slot(sd: string, pathNum: nat)

  ghost predicate IsSlot(flows: Flows, s: Slot)
  {
    s.sd in flows.at && s.pathNum < |flows.at[s.sd]|
  }

  function PathOf(flows: Flows, s: Slot): Path
    requires IsSlot(flows, s)
  {
    flows.at[s.sd][s.pathNum]
  }

  /** `(sd, 0), ..., (sd, count - 1)`. */
  function PathSlots(sd: string, count: nat): (r: seq<Slot>)
    ensures |r| == count
    ensures forall k :: 0 <= k < count ==> r[k] == Slot(sd, k)
  {
    if count == 0 then [] else PathSlots(sd, count - 1) + [Slot(sd, count - 1)]
  }

  function SlotsOf(flows: Flows, sds: seq<string>): seq<Slot>
    requires forall i :: 0 <= i < |sds| ==> sds[i] in flows.at
  {
    if sds == [] then [] else PathSlots(sds[0], |flows.at[sds[0]]|) + SlotsOf(flows, sds[1..])
  }

  /** `[(sd, pathNum) for sd in flows for pathNum in range(len(flows[sd]))]`. */
  function Slots(flows: Flows): (r: seq<Slot>)
    requires Listed(flows)
    ensures forall s :: s in r ==> IsSlot(flows, s)
  {
    SlotsOfExact(flows, flows.keys);
    SlotsOf(flows, flows.keys)
  }

  ghost predicate Distinct<T>(s: seq<T>)
  {
    forall i, j :: 0 <= i < j < |s| ==> s[i] != s[j]
  }

  lemma {:induction false} SlotsOfExact(flows: Flows, sds: seq<string>)
    requires forall i :: 0 <= i < |sds| ==> sds[i] in flows.at
    ensures forall s :: s in SlotsOf(flows, sds) <==> s.sd in sds && IsSlot(flows, s)
    ensures Distinct(sds) ==> Distinct(SlotsOf(flows, sds))
  {
    if sds != [] {
      var head := PathSlots(sds[0], |flows.at[sds[0]]|);
      var tail := SlotsOf(flows, sds[1..]);
      SlotsOfExact(flows, sds[1..]);
      forall s ensures s in SlotsOf(flows, sds) <==> s.sd in sds && IsSlot(flows, s) {
        if s.sd == sds[0] && IsSlot(flows, s) {
          assert head[s.pathNum] == s;
        }
        assert s.sd in sds <==> s.sd == sds[0] || s.sd in sds[1..];
      }
      if Distinct(sds) {
        assert sds[0] !in sds[1..];
        assert Distinct(sds[1..]) by {
          forall i, j | 0 <= i < j < |sds[1..]| ensures sds[1..][i] != sds[1..][j] {
            assert sds[1..][i] == sds[i + 1] && sds[1..][j] == sds[j + 1];
          }
        }
        var all := head + tail;
        forall i, j | 0 <= i < j < |all| ensures all[i] != all[j] {
          if j < |head| {
          } else if i < |head| {
            assert all[j] in tail;
            assert all[j].sd in sds[1..];
          } else {
            assert all[i] == tail[i - |head|] && all[j] == tail[j - |head|];
          }
        }
      }
    }
  }

  /** Exactly one slot for each sd of flows and each of its path numbers, and no others. */
  lemma SlotsExact(flows: Flows)
    requires Valid(flows)
    ensures forall s :: s in Slots(flows) <==> IsSlot(flows, s)
    ensures Distinct(Slots(flows))
  {
    SlotsOfExact(flows, flows.keys);
  }
}
