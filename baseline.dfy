/**
 * The baseline of `main`: for every timestamp, the `totalTraffic` of every
 * known link is reset to zero, then each flow adds `traffic × trafficRatio`
 * to every link of its link map (inserting links not yet known), and
 * `calcLinkUtil` turns the totals into percentages of capacity. The link
 * map of each flow is what the routing helpers compute; it is an input here.
 */
module Baseline {
  import opened Dicts

  /** A row of the running `links` table. */
  datatype LinkRecord = LinkRecord(linkStart: string, linkEnd: string, capacity: real, totalTraffic: real)

  /** An entry of the link map of one flow. */
  datatype FlowLink = FlowLink(linkStart: string, linkEnd: string, capacity: real, trafficRatio: real)

  type Table = Dict<string, LinkRecord>

  type FlowLinks = Dict<string, FlowLink>

  // ----- specification of one timestamp -----

  function Zeroed(r: LinkRecord): LinkRecord
  {
    r.(totalTraffic := 0.0)
  }

  /** The reset loop: every link's `totalTraffic` set to 0. */
  function ResetAll(d: Table): Table
  {
    Dict(d.keys, map k | k in d.at :: Zeroed(d.at[k]))
  }

  /** `traffic[timestamp][flow] * flowLinks[linkKey].trafficRatio`: what one flow puts on one of its links. */
  function Contribution(volume: real, fl: FlowLink): real
  {
    volume * fl.trafficRatio
  }

  /**
   * One step of the update loop: add the flow's share (`traffic ×
   * trafficRatio`) to a known link, or insert the link with that share.
   */
  function AddLink(d: Table, share: real, key: string, fl: FlowLink): Table
  {
    if key in d.at then Put(d, key, d.at[key].(totalTraffic := d.at[key].totalTraffic + share))
    else Put(d, key, LinkRecord(fl.linkStart, fl.linkEnd, fl.capacity, share))
  }

  /** The update loop over the keys `ks` of one flow's link map. */
  function AddFlow(d: Table, volume: real, flowLinks: FlowLinks, ks: seq<string>): Table
    requires forall i :: 0 <= i < |ks| ==> ks[i] in flowLinks.at
  {
    if ks == [] then d
    else
      var key := ks[|ks| - 1];
      AddLink(AddFlow(d, volume, flowLinks, ks[..|ks| - 1]), Contribution(volume, flowLinks.at[key]), key, flowLinks.at[key])
  }

  lemma AddFlowStep(d: Table, volume: real, flowLinks: FlowLinks, ks: seq<string>, i: nat)
    requires i < |ks| && forall j :: 0 <= j < |ks| ==> ks[j] in flowLinks.at
    ensures AddFlow(d, volume, flowLinks, ks[..i + 1])
      == AddLink(AddFlow(d, volume, flowLinks, ks[..i]), Contribution(volume, flowLinks.at[ks[i]]), ks[i], flowLinks.at[ks[i]])
  {
    assert ks[..i + 1][..i] == ks[..i];
  }

  /** Link maps are dicts and every link in them has a positive capacity. */
  ghost predicate ProperFlowLinks<T(!new)>(flowLinksOf: (T, string) -> FlowLinks)
  {
    forall t, f :: Valid(flowLinksOf(t, f)) && forall k :: k in flowLinksOf(t, f).at ==> flowLinksOf(t, f).at[k].capacity > 0.0
  }

  /** `traffic[timestamp][flow]`, read only when the flow's link map is not empty. */
  function Volume<T(==,!new)>(traffic: Dict<T, Dict<string, real>>, t: T, f: string): real
  {
    if t in traffic.at && f in traffic.at[t].at then traffic.at[t].at[f] else 0.0
  }

  /** Every flow of `names` whose link map is not empty has a traffic value at `t`. */
  ghost predicate TrafficKnown<T>(traffic: Dict<T, Dict<string, real>>, t: T, names: seq<string>,
                                      flowLinksOf: (T, string) -> FlowLinks)
  {
    forall i :: 0 <= i < |names| && flowLinksOf(t, names[i]).keys != [] ==>
      t in traffic.at && names[i] in traffic.at[t].at
  }

  /** The flow loop of one timestamp, over the flow names `names`. */
  function AddFlows<T(==,!new)>(d: Table, traffic: Dict<T, Dict<string, real>>, t: T, names: seq<string>,
                           flowLinksOf: (T, string) -> FlowLinks): Table
    requires ProperFlowLinks(flowLinksOf)
  {
    if names == [] then d
    else
      var f := names[|names| - 1];
      var fl := flowLinksOf(t, f);
      AddFlow(AddFlows(d, traffic, t, names[..|names| - 1], flowLinksOf), Volume(traffic, t, f), fl, fl.keys)
  }

  /** The body of `for timestamp in flows`, up to `calcLinkUtil`. */
  function Timestamp<T(==,!new)>(d: Table, traffic: Dict<T, Dict<string, real>>, t: T, names: seq<string>,
                            flowLinksOf: (T, string) -> FlowLinks): Table
    requires ProperFlowLinks(flowLinksOf)
  {
    AddFlows(ResetAll(d), traffic, t, names, flowLinksOf)
  }

  /** `links` after the timestamps `ts`. */
  function AfterTimestamps<T(==,!new)>(d: Table, flows: Dict<T, Dict<string, seq<seq<string>>>>, ts: seq<T>,
                                  traffic: Dict<T, Dict<string, real>>, flowLinksOf: (T, string) -> FlowLinks): Table
    requires ProperFlowLinks(flowLinksOf)
    requires forall i :: 0 <= i < |ts| ==> ts[i] in flows.at
  {
    if ts == [] then d
    else
      var t := ts[|ts| - 1];
      Timestamp(AfterTimestamps(d, flows, ts[..|ts| - 1], traffic, flowLinksOf), traffic, t, flows.at[t].keys, flowLinksOf)
  }

  lemma AfterStep<T(!new)>(d: Table, flows: Dict<T, Dict<string, seq<seq<string>>>>, ts: seq<T>, i: nat,
                          traffic: Dict<T, Dict<string, real>>, flowLinksOf: (T, string) -> FlowLinks)
    requires ProperFlowLinks(flowLinksOf)
    requires i < |ts| && forall j :: 0 <= j < |ts| ==> ts[j] in flows.at
    ensures AfterTimestamps(d, flows, ts[..i + 1], traffic, flowLinksOf)
      == Timestamp(AfterTimestamps(d, flows, ts[..i], traffic, flowLinksOf), traffic, ts[i], flows.at[ts[i]].keys, flowLinksOf)
  {
    assert ts[..i + 1][..i] == ts[..i];
  }

  /** `totalTraffic / capacity * 100`. */
  function Percent(r: LinkRecord): real
    requires r.capacity > 0.0
  {
    r.totalTraffic / r.capacity * 100.0
  }

  ghost predicate PositiveCapacities(d: Table)
  {
    forall k :: k in d.at ==> d.at[k].capacity > 0.0
  }

  /** The result of `calcLinkUtil`. */
  function LinkUtil(d: Table): Dict<string, real>
    requires PositiveCapacities(d)
  {
    Dict(d.keys, map k | k in d.at :: Percent(d.at[k]))
  }

  // ----- what one timestamp does -----

  /** After the reset every link is still there, in the same order, with the same endpoints and capacity and no traffic. */
  lemma ResetZeroes(d: Table)
    ensures ResetAll(d).keys == d.keys
    ensures forall k :: k in ResetAll(d).at <==> k in d.at
    ensures forall k :: k in d.at ==>
      var r := ResetAll(d).at[k];
      r.totalTraffic == 0.0 && r.linkStart == d.at[k].linkStart && r.linkEnd == d.at[k].linkEnd && r.capacity == d.at[k].capacity
  {
  }

  /** A known link gains exactly its share; nothing else changes. */
  lemma AddKnownLink(d: Table, share: real, key: string, fl: FlowLink)
    requires key in d.at
    ensures var r := AddLink(d, share, key, fl);
      && r.keys == d.keys
      && (forall k :: k in r.at <==> k in d.at)
      && r.at[key] == d.at[key].(totalTraffic := d.at[key].totalTraffic + share)
      && forall k :: k in d.at && k != key ==> r.at[k] == d.at[k]
  {
  }

  /** An unknown link is appended with the flow link's endpoints and capacity and its share as traffic. */
  lemma AddNewLink(d: Table, share: real, key: string, fl: FlowLink)
    requires key !in d.at
    ensures var r := AddLink(d, share, key, fl);
      && r.keys == d.keys + [key]
      && (forall k :: k in r.at <==> k in d.at || k == key)
      && r.at[key] == LinkRecord(fl.linkStart, fl.linkEnd, fl.capacity, share)
      && forall k :: k in d.at ==> r.at[k] == d.at[k]
  {
  }

  /** The traffic a link had before, or 0 for a link not yet known. */
  function Before(d: Table, k: string): real
  {
    if k in d.at then d.at[k].totalTraffic else 0.0
  }

  /** The share of one flow on link k: `volume × trafficRatio` when k is in its link map, else 0. */
  function Share(volume: real, flowLinks: FlowLinks, k: string): real
  {
    if k in flowLinks.at then Contribution(volume, flowLinks.at[k]) else 0.0
  }

  /** One step of the update loop adds the share to link `key` and leaves every other link alone. */
  lemma AddLinkTotal(d: Table, share: real, key: string, fl: FlowLink)
    ensures var r := AddLink(d, share, key, fl);
      && (forall k :: k in r.at <==> k in d.at || k == key)
      && r.at[key].totalTraffic == Before(d, key) + share
      && forall k :: k in d.at && k != key ==> r.at[k] == d.at[k]
  {
  }

  /** The update loop of one flow keeps the known links and inserts the links of its link map. */
  lemma {:induction false} AddFlowKeys(d: Table, volume: real, flowLinks: FlowLinks, ks: seq<string>)
    requires forall i :: 0 <= i < |ks| ==> ks[i] in flowLinks.at
    ensures forall k :: k in AddFlow(d, volume, flowLinks, ks).at <==> k in d.at || k in ks
  {
    if ks != [] {
      var key := ks[|ks| - 1];
      AddFlowKeys(d, volume, flowLinks, ks[..|ks| - 1]);
      AddLinkTotal(AddFlow(d, volume, flowLinks, ks[..|ks| - 1]), Contribution(volume, flowLinks.at[key]), key, flowLinks.at[key]);
      assert forall k :: k in ks <==> k in ks[..|ks| - 1] || k == key;
    }
  }

  /** The update loop of one flow adds `volume × trafficRatio` to each link of its link map, once. */
  lemma {:induction false} AddFlowTotals(d: Table, volume: real, flowLinks: FlowLinks, ks: seq<string>)
    requires forall i :: 0 <= i < |ks| ==> ks[i] in flowLinks.at
    requires forall i, j :: 0 <= i < j < |ks| ==> ks[i] != ks[j]
    ensures var r := AddFlow(d, volume, flowLinks, ks);
      forall k :: k in r.at ==> r.at[k].totalTraffic == Before(d, k) + (if k in ks then Contribution(volume, flowLinks.at[k]) else 0.0)
  {
    if ks != [] {
      var init := ks[..|ks| - 1];
      var key := ks[|ks| - 1];
      var acc := AddFlow(d, volume, flowLinks, init);
      var r := AddFlow(d, volume, flowLinks, ks);
      AddFlowTotals(d, volume, flowLinks, init);
      AddFlowKeys(d, volume, flowLinks, init);
      AddLinkTotal(acc, Contribution(volume, flowLinks.at[key]), key, flowLinks.at[key]);
      assert key !in init;
      forall k | k in r.at
        ensures r.at[k].totalTraffic == Before(d, k) + (if k in ks then Contribution(volume, flowLinks.at[k]) else 0.0)
      {
        assert k in ks <==> k in init || k == key;
        if k == key {
          assert Before(acc, key) == Before(d, key);
        } else {
          assert r.at[k] == acc.at[k];
        }
      }
    }
  }

  /** The sum of the shares of the flows `names` on link k. */
  function TrafficSum<T(==,!new)>(traffic: Dict<T, Dict<string, real>>, t: T, names: seq<string>,
                             flowLinksOf: (T, string) -> FlowLinks, k: string): real
  {
    if names == [] then 0.0
    else
      var f := names[|names| - 1];
      TrafficSum(traffic, t, names[..|names| - 1], flowLinksOf, k) + Share(Volume(traffic, t, f), flowLinksOf(t, f), k)
  }

  /** A link that is in no link map of the flows gets nothing from them. */
  lemma {:induction false} TrafficSumAbsent<T(!new)>(traffic: Dict<T, Dict<string, real>>, t: T, names: seq<string>,
                                                flowLinksOf: (T, string) -> FlowLinks, k: string)
    requires forall i :: 0 <= i < |names| ==> k !in flowLinksOf(t, names[i]).at
    ensures TrafficSum(traffic, t, names, flowLinksOf, k) == 0.0
  {
    if names != [] {
      TrafficSumAbsent(traffic, t, names[..|names| - 1], flowLinksOf, k);
    }
  }

  /** Link k is in the link map of one of the flows `names` at `t`. */
  ghost predicate OnSomeFlow<T>(t: T, names: seq<string>, flowLinksOf: (T, string) -> FlowLinks, k: string)
  {
    exists i :: 0 <= i < |names| && k in flowLinksOf(t, names[i]).at
  }

  lemma OnSomeFlowStep<T>(t: T, names: seq<string>, flowLinksOf: (T, string) -> FlowLinks, k: string)
    requires names != []
    ensures OnSomeFlow(t, names, flowLinksOf, k) <==>
      OnSomeFlow(t, names[..|names| - 1], flowLinksOf, k) || k in flowLinksOf(t, names[|names| - 1]).at
  {
    var init := names[..|names| - 1];
    if OnSomeFlow(t, names, flowLinksOf, k) {
      var i :| 0 <= i < |names| && k in flowLinksOf(t, names[i]).at;
      if i < |init| {
        assert init[i] == names[i];
      }
    }
    if OnSomeFlow(t, init, flowLinksOf, k) {
      var i :| 0 <= i < |init| && k in flowLinksOf(t, init[i]).at;
      assert names[i] == init[i];
    }
  }

  /** Processing the flows `names` keeps the known links and adds those in some flow's link map. */
  lemma {:induction false} AddFlowsKeys<T(!new)>(d: Table, traffic: Dict<T, Dict<string, real>>, t: T, names: seq<string>,
                                           flowLinksOf: (T, string) -> FlowLinks)
    requires ProperFlowLinks(flowLinksOf)
    ensures forall k :: k in AddFlows(d, traffic, t, names, flowLinksOf).at <==> k in d.at || OnSomeFlow(t, names, flowLinksOf, k)
  {
    if names != [] {
      var init := names[..|names| - 1];
      var f := names[|names| - 1];
      var fl := flowLinksOf(t, f);
      AddFlowsKeys(d, traffic, t, init, flowLinksOf);
      assert Valid(fl);
      AddFlowKeys(AddFlows(d, traffic, t, init, flowLinksOf), Volume(traffic, t, f), fl, fl.keys);
      forall k {
        OnSomeFlowStep(t, names, flowLinksOf, k);
      }
    }
  }

  /** Processing the flows `names` adds, to every link, the sum of their shares on it. */
  lemma {:induction false} AddFlowsTotals<T(!new)>(d: Table, traffic: Dict<T, Dict<string, real>>, t: T, names: seq<string>,
                                             flowLinksOf: (T, string) -> FlowLinks)
    requires ProperFlowLinks(flowLinksOf)
    ensures var r := AddFlows(d, traffic, t, names, flowLinksOf);
      forall k :: k in r.at ==> r.at[k].totalTraffic == Before(d, k) + TrafficSum(traffic, t, names, flowLinksOf, k)
  {
    if names != [] {
      var init := names[..|names| - 1];
      var f := names[|names| - 1];
      var fl := flowLinksOf(t, f);
      var acc := AddFlows(d, traffic, t, init, flowLinksOf);
      var r := AddFlows(d, traffic, t, names, flowLinksOf);
      AddFlowsTotals(d, traffic, t, init, flowLinksOf);
      AddFlowsKeys(d, traffic, t, init, flowLinksOf);
      assert Valid(fl);
      AddFlowTotals(acc, Volume(traffic, t, f), fl, fl.keys);
      forall k | k in r.at
        ensures r.at[k].totalTraffic == Before(d, k) + TrafficSum(traffic, t, names, flowLinksOf, k)
      {
        if k !in acc.at {
          forall i | 0 <= i < |init| ensures k !in flowLinksOf(t, init[i]).at {
          }
          TrafficSumAbsent(traffic, t, init, flowLinksOf, k);
        }
        assert k in fl.keys <==> k in fl.at;
      }
    }
  }

  /**
   * After a timestamp each link's `totalTraffic` is the sum, over that
   * timestamp's flows whose link map contains it, of `traffic × trafficRatio`;
   * the known links are kept and the links of the flows are added.
   */
  lemma TimestampTotals<T(!new)>(d: Table, traffic: Dict<T, Dict<string, real>>, t: T, names: seq<string>,
                           flowLinksOf: (T, string) -> FlowLinks)
    requires ProperFlowLinks(flowLinksOf)
    ensures var r := Timestamp(d, traffic, t, names, flowLinksOf);
      && (forall k :: k in r.at <==> k in d.at || OnSomeFlow(t, names, flowLinksOf, k))
      && forall k :: k in r.at ==> r.at[k].totalTraffic == TrafficSum(traffic, t, names, flowLinksOf, k)
  {
    AddFlowsKeys(ResetAll(d), traffic, t, names, flowLinksOf);
    AddFlowsTotals(ResetAll(d), traffic, t, names, flowLinksOf);
  }

  /** The keys of the table only grow: old keys keep their place and new ones are appended. */
  lemma {:induction false} AddFlowKeepsKeys(d: Table, volume: real, flowLinks: FlowLinks, ks: seq<string>)
    requires forall i :: 0 <= i < |ks| ==> ks[i] in flowLinks.at
    ensures var r := AddFlow(d, volume, flowLinks, ks);
      |d.keys| <= |r.keys| && r.keys[..|d.keys|] == d.keys
  {
    if ks != [] {
      AddFlowKeepsKeys(d, volume, flowLinks, ks[..|ks| - 1]);
      var acc := AddFlow(d, volume, flowLinks, ks[..|ks| - 1]);
      var r := AddFlow(d, volume, flowLinks, ks);
      assert r.keys[..|d.keys|] == acc.keys[..|d.keys|];
    }
  }

  lemma {:induction false} AddFlowsKeepKeys<T(!new)>(d: Table, traffic: Dict<T, Dict<string, real>>, t: T, names: seq<string>,
                                               flowLinksOf: (T, string) -> FlowLinks)
    requires ProperFlowLinks(flowLinksOf)
    ensures var r := AddFlows(d, traffic, t, names, flowLinksOf);
      |d.keys| <= |r.keys| && r.keys[..|d.keys|] == d.keys
  {
    if names != [] {
      var f := names[|names| - 1];
      var fl := flowLinksOf(t, f);
      var acc := AddFlows(d, traffic, t, names[..|names| - 1], flowLinksOf);
      AddFlowsKeepKeys(d, traffic, t, names[..|names| - 1], flowLinksOf);
      AddFlowKeepsKeys(acc, Volume(traffic, t, f), fl, fl.keys);
      var r := AddFlows(d, traffic, t, names, flowLinksOf);
      assert r.keys[..|d.keys|] == r.keys[..|acc.keys|][..|d.keys|];
    }
  }

  /** Across timestamps, links are never removed and never reordered. */
  lemma {:induction false} KeysOnlyGrow<T(!new)>(d: Table, flows: Dict<T, Dict<string, seq<seq<string>>>>, ts: seq<T>,
                                          traffic: Dict<T, Dict<string, real>>, flowLinksOf: (T, string) -> FlowLinks)
    requires ProperFlowLinks(flowLinksOf)
    requires forall i :: 0 <= i < |ts| ==> ts[i] in flows.at
    ensures var r := AfterTimestamps(d, flows, ts, traffic, flowLinksOf);
      |d.keys| <= |r.keys| && r.keys[..|d.keys|] == d.keys
  {
    if ts != [] {
      var t := ts[|ts| - 1];
      var acc := AfterTimestamps(d, flows, ts[..|ts| - 1], traffic, flowLinksOf);
      KeysOnlyGrow(d, flows, ts[..|ts| - 1], traffic, flowLinksOf);
      AddFlowsKeepKeys(ResetAll(acc), traffic, t, flows.at[t].keys, flowLinksOf);
      var r := AfterTimestamps(d, flows, ts, traffic, flowLinksOf);
      assert r.keys[..|d.keys|] == r.keys[..|acc.keys|][..|d.keys|];
    }
  }

  /** A timestamp keeps the table a dict whose links all have a positive capacity. */
  lemma {:induction false} TimestampKeepsTable<T(!new)>(d: Table, traffic: Dict<T, Dict<string, real>>, t: T, names: seq<string>,
                                                 flowLinksOf: (T, string) -> FlowLinks)
    requires ProperFlowLinks(flowLinksOf)
    requires Valid(d) && PositiveCapacities(d)
    ensures Valid(Timestamp(d, traffic, t, names, flowLinksOf))
    ensures PositiveCapacities(Timestamp(d, traffic, t, names, flowLinksOf))
  {
    AddFlowsKeepTable(ResetAll(d), traffic, t, names, flowLinksOf);
  }

  lemma {:induction false} AddFlowsKeepTable<T(!new)>(d: Table, traffic: Dict<T, Dict<string, real>>, t: T, names: seq<string>,
                                               flowLinksOf: (T, string) -> FlowLinks)
    requires ProperFlowLinks(flowLinksOf)
    requires Valid(d) && PositiveCapacities(d)
    ensures Valid(AddFlows(d, traffic, t, names, flowLinksOf))
    ensures PositiveCapacities(AddFlows(d, traffic, t, names, flowLinksOf))
  {
    if names != [] {
      var f := names[|names| - 1];
      var fl := flowLinksOf(t, f);
      AddFlowsKeepTable(d, traffic, t, names[..|names| - 1], flowLinksOf);
      AddFlowKeepsTable(AddFlows(d, traffic, t, names[..|names| - 1], flowLinksOf), Volume(traffic, t, f), fl, fl.keys);
    }
  }

  lemma {:induction false} AddFlowKeepsTable(d: Table, volume: real, flowLinks: FlowLinks, ks: seq<string>)
    requires forall i :: 0 <= i < |ks| ==> ks[i] in flowLinks.at
    requires forall k :: k in flowLinks.at ==> flowLinks.at[k].capacity > 0.0
    requires Valid(d) && PositiveCapacities(d)
    ensures Valid(AddFlow(d, volume, flowLinks, ks)) && PositiveCapacities(AddFlow(d, volume, flowLinks, ks))
  {
    if ks != [] {
      var key := ks[|ks| - 1];
      AddFlowKeepsTable(d, volume, flowLinks, ks[..|ks| - 1]);
      AddLinkKeepsTable(AddFlow(d, volume, flowLinks, ks[..|ks| - 1]), Contribution(volume, flowLinks.at[key]), key, flowLinks.at[key]);
    }
  }

  lemma AddLinkKeepsTable(d: Table, share: real, key: string, fl: FlowLink)
    requires Valid(d) && PositiveCapacities(d) && fl.capacity > 0.0
    ensures Valid(AddLink(d, share, key, fl)) && PositiveCapacities(AddLink(d, share, key, fl))
  {
    if key in d.at {
      PutValid(d, key, d.at[key].(totalTraffic := d.at[key].totalTraffic + share));
    } else {
      PutValid(d, key, LinkRecord(fl.linkStart, fl.linkEnd, fl.capacity, share));
    }
  }

  /** `calcLinkUtil` keeps the keys and their order, and maps each to `totalTraffic / capacity × 100`. */
  lemma LinkUtilExact(d: Table)
    requires PositiveCapacities(d)
    ensures LinkUtil(d).keys == d.keys
    ensures forall k :: k in LinkUtil(d).at <==> k in d.at
    ensures forall k :: k in d.at ==> LinkUtil(d).at[k] == d.at[k].totalTraffic / d.at[k].capacity * 100.0
  {
  }

  // ----- the loops of main -----

  /** `for linkKey in links: links[linkKey]['totalTraffic'] = 0`. */
  method ResetTraffic(links: Table) returns (reset: Table)
    requires Valid(links)
    ensures reset == ResetAll(links)
  {
    var keys := links.keys;
    reset := links;
    var i := 0;
    while i < |keys|
      invariant 0 <= i <= |keys|
      invariant reset.keys == keys
      invariant forall k :: k in reset.at <==> k in links.at
      invariant forall k :: k in links.at ==> reset.at[k] == if k in keys[..i] then Zeroed(links.at[k]) else links.at[k]
    {
      var key := keys[i];
      assert forall k :: k in keys[..i + 1] <==> k in keys[..i] || k == key;
      reset := Put(reset, key, reset.at[key].(totalTraffic := 0.0));
      i := i + 1;
    }
    assert keys[..i] == keys;
    assert reset.at == ResetAll(links).at;
  }

  /** `for linkKey in flowLinks`: increase a known link, insert an unknown one. */
  method AddFlowTraffic(links: Table, volume: real, flowLinks: FlowLinks) returns (updated: Table)
    requires Listed(flowLinks)
    ensures updated == AddFlow(links, volume, flowLinks, flowLinks.keys)
  {
    var ks := flowLinks.keys;
    updated := links;
    var i := 0;
    while i < |ks|
      invariant 0 <= i <= |ks|
      invariant updated == AddFlow(links, volume, flowLinks, ks[..i])
    {
      AddFlowStep(links, volume, flowLinks, ks, i);
      var key := ks[i];
      var fl := flowLinks.at[key];
      var share := Contribution(volume, fl);
      ghost var before := updated;
      if key in updated.at {
        updated := Put(updated, key, updated.at[key].(totalTraffic := updated.at[key].totalTraffic + share));
      } else {
        updated := Put(updated, key, LinkRecord(fl.linkStart, fl.linkEnd, fl.capacity, share));
      }
      assert updated == AddLink(before, share, key, fl);
      i := i + 1;
    }
    assert ks[..i] == ks;
  }

  /** `calcLinkUtil`. */
  method CalcLinkUtil(links: Table) returns (util: Dict<string, real>)
    requires Valid(links) && PositiveCapacities(links)
    ensures util == LinkUtil(links)
  {
    var keys := links.keys;
    util := Empty();
    var i := 0;
    while i < |keys|
      invariant 0 <= i <= |keys|
      invariant util.keys == keys[..i]
      invariant forall k :: k in util.at <==> k in keys[..i]
      invariant forall k :: k in util.at ==> util.at[k] == Percent(links.at[k])
    {
      var key := keys[i];
      assert key !in keys[..i];
      assert keys[..i + 1] == keys[..i] + [key];
      var link := links.at[key];
      util := Put(util, key, Percent(link));
      i := i + 1;
    }
    assert keys[..i] == keys;
    assert util.at == LinkUtil(links).at;
  }

  /** One iteration of `for timestamp in flows`: reset, accumulate every flow, compute the utilisation. */
  method ProcessTimestamp<T(==,!new)>(links: Table, traffic: Dict<T, Dict<string, real>>, t: T, names: seq<string>,
                                 flowLinksOf: (T, string) -> FlowLinks)
    returns (updated: Table, util: Dict<string, real>)
    requires ProperFlowLinks(flowLinksOf) && TrafficKnown(traffic, t, names, flowLinksOf)
    requires Valid(links) && PositiveCapacities(links)
    ensures updated == Timestamp(links, traffic, t, names, flowLinksOf)
    ensures PositiveCapacities(updated) && util == LinkUtil(updated)
  {
    updated := ResetTraffic(links);
    var i := 0;
    while i < |names|
      invariant 0 <= i <= |names|
      invariant updated == AddFlows(ResetAll(links), traffic, t, names[..i], flowLinksOf)
    {
      assert names[..i + 1][..i] == names[..i];
      var flowLinks := flowLinksOf(t, names[i]);
      assert Valid(flowLinks);
      var volume := 0.0;
      if flowLinks.keys != [] {
        volume := traffic.at[t].at[names[i]];
      }
      updated := AddFlowTraffic(updated, volume, flowLinks);
      i := i + 1;
    }
    assert names[..i] == names;
    TimestampKeepsTable(links, traffic, t, names, flowLinksOf);
    util := CalcLinkUtil(updated);
  }

  /** `util` is what `calcLinkUtil` gives for the table after the first `n` timestamps of `ts`. */
  ghost predicate UtilAfter<T(!new)>(links: Table, flows: Dict<T, Dict<string, seq<seq<string>>>>, ts: seq<T>, n: nat,
                                    traffic: Dict<T, Dict<string, real>>, flowLinksOf: (T, string) -> FlowLinks,
                                    util: Dict<string, real>)
    requires ProperFlowLinks(flowLinksOf)
    requires n <= |ts| && forall j :: 0 <= j < |ts| ==> ts[j] in flows.at
  {
    var after := AfterTimestamps(links, flows, ts[..n], traffic, flowLinksOf);
    PositiveCapacities(after) && util == LinkUtil(after)
  }

  /**
   * The `for timestamp in flows` loop of `main`: the table after all
   * timestamps, and the utilisation `calcLinkUtil` computes after each one.
   */
  method RunBaseline<T(==,!new)>(flows: Dict<T, Dict<string, seq<seq<string>>>>, links: Table,
                            traffic: Dict<T, Dict<string, real>>, flowLinksOf: (T, string) -> FlowLinks)
    returns (final: Table, utils: seq<Dict<string, real>>)
    requires Listed(flows) && ProperFlowLinks(flowLinksOf)
    requires forall t :: t in flows.at ==> TrafficKnown(traffic, t, flows.at[t].keys, flowLinksOf)
    requires Valid(links) && PositiveCapacities(links)
    ensures final == AfterTimestamps(links, flows, flows.keys, traffic, flowLinksOf)
    ensures |utils| == |flows.keys|
    ensures forall i :: 0 <= i < |flows.keys| ==> UtilAfter(links, flows, flows.keys, i + 1, traffic, flowLinksOf, utils[i])
  {
    var ts := flows.keys;
    final, utils := links, [];
    var i := 0;
    while i < |ts|
      invariant 0 <= i <= |ts|
      invariant final == AfterTimestamps(links, flows, ts[..i], traffic, flowLinksOf)
      invariant Valid(final) && PositiveCapacities(final)
      invariant |utils| == i
      invariant forall j :: 0 <= j < i ==> UtilAfter(links, flows, ts, j + 1, traffic, flowLinksOf, utils[j])
    {
      var t := ts[i];
      var util;
      ghost var prev := utils;
      final, util := ProcessTimestamp(final, traffic, t, flows.at[t].keys, flowLinksOf);
      AfterStep(links, flows, ts, i, traffic, flowLinksOf);
      TimestampKeepsTable(AfterTimestamps(links, flows, ts[..i], traffic, flowLinksOf), traffic, t, flows.at[t].keys, flowLinksOf);
      utils := utils + [util];
      forall j | 0 <= j < i + 1
        ensures UtilAfter(links, flows, ts, j + 1, traffic, flowLinksOf, utils[j])
      {
        if j < i {
          assert utils[j] == prev[j];
        }
      }
      i := i + 1;
    }
    assert ts[..i] == ts;
  }
}
