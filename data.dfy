/**
 * The pure transformations the readers apply once pandas has produced its
 * rows: key concatenation, path-string parsing, first-value and
 * list-of-paths grouping, the nesting of grouped entries into
 * `timestamp -> key -> value` dictionaries (keeping only flows with more than
 * one path), and the link table indexed by link name.
 */
module Data {
  import opened Wrappers
  import opened Dicts
  import opened Network

  // ----- keys -----

  /** `pathStart + pathEnd`, `linkStart + linkEnd`, `flowStart + flowEnd`. */
  function JoinKey(start: string, end: string): (r: string)
    ensures |r| == |start| + |end| && r[..|start|] == start && r[|start|..] == end
  {
    start + end
  }

  /**
   * Splitting a concatenated link name after five characters gives back the
   * two endpoints exactly when the start has five characters, or when it is
   * shorter and the end is empty.
   */
  lemma SplitJoinedKey(start: string, end: string)
    ensures SplitLinkKey(JoinKey(start, end)) == (start, end) <==>
      |start| == 5 || (|start| < 5 && end == "")
  {
    var key := JoinKey(start, end);
    var r := SplitLinkKey(key);
    if r == (start, end) {
      assert |start| == if |key| < 5 then |key| else 5;
    }
    if |start| == 5 {
      assert r.0 == key[..5] == start;
    }
  }

  // ----- path strings -----

  /** Number of occurrences of `c` in `s`. */
  function Count(s: string, c: char): nat
  {
    if s == [] then 0 else (if s[0] == c then 1 else 0) + Count(s[1..], c)
  }

  /** Python's `s.split(sep)` for a one-character separator: never empty, `[""]` for `""`. */
  function Split(s: string, sep: char): (r: seq<string>)
    ensures |r| >= 1
  {
    if s == [] then [""]
    else
      var rest := Split(s[1..], sep);
      if s[0] == sep then [""] + rest else [[s[0]] + rest[0]] + rest[1..]
  }

  /** `sep.join(pieces)`. */
  function Join(pieces: seq<string>, sep: char): string
  {
    if pieces == [] then ""
    else if |pieces| == 1 then pieces[0]
    else pieces[0] + [sep] + Join(pieces[1..], sep)
  }

  /** There is one piece more than there are separators. */
  lemma {:induction false} SplitCount(s: string, sep: char)
    ensures |Split(s, sep)| == Count(s, sep) + 1
  {
    if s != [] {
      SplitCount(s[1..], sep);
    }
  }

  /** No piece contains the separator. */
  lemma {:induction false} SplitPiecesFree(s: string, sep: char)
    ensures forall i :: 0 <= i < |Split(s, sep)| ==> sep !in Split(s, sep)[i]
  {
    if s != [] {
      SplitPiecesFree(s[1..], sep);
      var rest := Split(s[1..], sep);
      if s[0] != sep {
        assert sep !in [s[0]] + rest[0];
      }
    }
  }

  /** Joining the pieces with the separator gives the string back. */
  lemma {:induction false} JoinSplit(s: string, sep: char)
    ensures Join(Split(s, sep), sep) == s
  {
    if s != [] {
      JoinSplit(s[1..], sep);
      var rest := Split(s[1..], sep);
      if s[0] == sep {
        assert Join([""] + rest, sep) == "" + [sep] + Join(rest, sep);
      } else {
        var r := [[s[0]] + rest[0]] + rest[1..];
        if |rest| == 1 {
          assert r == [[s[0]] + rest[0]];
        } else {
          assert r[1..] == rest[1..];
          assert Join(rest, sep) == rest[0] + [sep] + Join(rest[1..], sep);
        }
      }
    }
  }

  /** Splitting the join of separator-free pieces gives the pieces back. */
  lemma {:induction false} SplitJoin(pieces: seq<string>, sep: char)
    requires |pieces| >= 1
    requires forall i :: 0 <= i < |pieces| ==> sep !in pieces[i]
    ensures Split(Join(pieces, sep), sep) == pieces
  {
    if |pieces| == 1 {
      SplitFree(pieces[0], sep);
    } else {
      SplitJoin(pieces[1..], sep);
      SplitAfterFree(pieces[0], Join(pieces[1..], sep), sep);
      assert [pieces[0]] + pieces[1..] == pieces;
    }
  }

  lemma {:induction false} SplitFree(s: string, sep: char)
    requires sep !in s
    ensures Split(s, sep) == [s]
  {
    if s != [] {
      SplitFree(s[1..], sep);
      assert [s[0]] + s[1..] == s;
    }
  }

  /** A separator-free prefix followed by a separator becomes the first piece. */
  lemma {:induction false} SplitAfterFree(a: string, b: string, sep: char)
    requires sep !in a
    ensures Split(a + [sep] + b, sep) == [a] + Split(b, sep)
  {
    if a == [] {
      assert a + [sep] + b == [sep] + b;
      assert ([sep] + b)[1..] == b;
    } else {
      assert (a + [sep] + b)[1..] == a[1..] + [sep] + b;
      SplitAfterFree(a[1..], b, sep);
      assert [a[0]] + a[1..] == a;
    }
  }

  /** `path[1:-1]`: the string without its first and last character. */
  function Strip(path: string): (r: string)
    ensures |r| == if |path| < 2 then 0 else |path| - 2
  {
    if |path| < 2 then "" else path[1..|path| - 1]
  }

  /** `path[1:-1].split(';')`. */
  function ParsePath(path: string): Path
  {
    Split(Strip(path), ';')
  }

  /** A parsed path has one node more than the inner string has `;`, and no node contains `;`. */
  lemma ParsePathShape(path: string)
    ensures |ParsePath(path)| == Count(Strip(path), ';') + 1
    ensures forall i :: 0 <= i < |ParsePath(path)| ==> ';' !in ParsePath(path)[i]
  {
    SplitCount(Strip(path), ';');
    SplitPiecesFree(Strip(path), ';');
  }

  /** A bracketed, `;`-separated node list parses back to that list. */
  lemma ParseFormattedPath(open: char, nodes: seq<Node>, close: char)
    requires |nodes| >= 1 && forall i :: 0 <= i < |nodes| ==> ';' !in nodes[i]
    ensures ParsePath([open] + Join(nodes, ';') + [close]) == nodes
  {
    var body := Join(nodes, ';');
    assert Strip([open] + body + [close]) == body;
    SplitJoin(nodes, ';');
  }

  /** The `apply` lambda: every path string of a group, parsed. */
  function ParsePaths(paths: seq<string>): (r: seq<Path>)
    ensures |r| == |paths| && forall i :: 0 <= i < |paths| ==> r[i] == ParsePath(paths[i])
  {
    if paths == [] then [] else ParsePaths(paths[..|paths| - 1]) + [ParsePath(paths[|paths| - 1])]
  }

  // ----- grouping rows by (timestamp, key) -----

  /** One row of `flow-path-day<d>.csv`. */
  datatype PathRow<T> = PathRow(timestamp: T, pathStart: string, pathEnd: string, path: string)

  /** One row of `flow-traffic-day<d>.csv`. */
  datatype TrafficRow<T> = TrafficRow(timestamp: T, flowStart: string, flowEnd: string, traffic: real)

  function PathKey<T>(r: PathRow<T>): (T, string)
  {
    (r.timestamp, JoinKey(r.pathStart, r.pathEnd))
  }

  function TrafficKey<T>(r: TrafficRow<T>): (T, string)
  {
    (r.timestamp, JoinKey(r.flowStart, r.flowEnd))
  }

  /** `groupby(['timestamp', 'pathName'])['path'].apply(...)`: each group's paths parsed, in row order. */
  function GroupPaths<T(==)>(rows: seq<PathRow<T>>): Dict<(T, string), seq<Path>>
  {
    if rows == [] then Empty()
    else
      var acc := GroupPaths(rows[..|rows| - 1]);
      var row := rows[|rows| - 1];
      var k := PathKey(row);
      Put(acc, k, (if k in acc.at then acc.at[k] else []) + [ParsePath(row.path)])
  }

  /** The parsed paths of the rows whose key is `k`, in row order. */
  function PathsWithKey<T(==)>(rows: seq<PathRow<T>>, k: (T, string)): seq<Path>
  {
    if rows == [] then []
    else
      var init := PathsWithKey(rows[..|rows| - 1], k);
      if PathKey(rows[|rows| - 1]) == k then init + [ParsePath(rows[|rows| - 1].path)] else init
  }

  /** The grouped paths are a well-formed dict. */
  lemma {:induction false} GroupPathsValid<T>(rows: seq<PathRow<T>>)
    ensures Valid(GroupPaths(rows))
  {
    if rows != [] {
      var init := rows[..|rows| - 1];
      var acc := GroupPaths(init);
      var k := PathKey(rows[|rows| - 1]);
      GroupPathsValid(init);
      PutValid(acc, k, (if k in acc.at then acc.at[k] else []) + [ParsePath(rows[|rows| - 1].path)]);
    }
  }

  /** A group exists for exactly the keys of the rows. */
  lemma {:induction false} GroupPathsKeys<T>(rows: seq<PathRow<T>>)
    ensures forall k :: k in GroupPaths(rows).at <==> exists i :: 0 <= i < |rows| && PathKey(rows[i]) == k
  {
    if rows != [] {
      var init := rows[..|rows| - 1];
      GroupPathsKeys(init);
      forall k ensures k in GroupPaths(rows).at <==> exists i :: 0 <= i < |rows| && PathKey(rows[i]) == k {
        if exists i :: 0 <= i < |init| && PathKey(init[i]) == k {
          var i :| 0 <= i < |init| && PathKey(init[i]) == k;
          assert rows[i] == init[i];
        }
        if exists i :: 0 <= i < |rows| && PathKey(rows[i]) == k {
          var i :| 0 <= i < |rows| && PathKey(rows[i]) == k;
          if i < |init| {
            assert init[i] == rows[i];
          }
        }
      }
    }
  }

  /** Each group holds the parsed paths of its rows, in row order. */
  lemma {:induction false} GroupPathsValues<T>(rows: seq<PathRow<T>>)
    ensures forall k :: k in GroupPaths(rows).at ==> GroupPaths(rows).at[k] == PathsWithKey(rows, k)
  {
    if rows != [] {
      var init := rows[..|rows| - 1];
      GroupPathsValues(init);
      var acc := GroupPaths(init);
      var k := PathKey(rows[|rows| - 1]);
      if k !in acc.at {
        GroupPathsKeys(init);
        NoKeyNoPaths(init, k);
      }
    }
  }

  lemma {:induction false} NoKeyNoPaths<T>(rows: seq<PathRow<T>>, k: (T, string))
    requires forall i :: 0 <= i < |rows| ==> PathKey(rows[i]) != k
    ensures PathsWithKey(rows, k) == []
  {
    if rows != [] {
      NoKeyNoPaths(rows[..|rows| - 1], k);
    }
  }

  /** `groupby(['timestamp', 'flow'])['traffic'].first()`: the first value seen for each key. */
  function FirstValues<T(==)>(rows: seq<TrafficRow<T>>): Dict<(T, string), real>
  {
    if rows == [] then Empty()
    else
      var acc := FirstValues(rows[..|rows| - 1]);
      var row := rows[|rows| - 1];
      if TrafficKey(row) in acc.at then acc else Put(acc, TrafficKey(row), row.traffic)
  }

  /** Row i is the first row with its key. */
  ghost predicate FirstWithKey<T>(rows: seq<TrafficRow<T>>, i: int)
  {
    0 <= i < |rows| && forall j :: 0 <= j < i ==> TrafficKey(rows[j]) != TrafficKey(rows[i])
  }

  /** The grouped traffic is a well-formed dict. */
  lemma {:induction false} FirstValuesValid<T>(rows: seq<TrafficRow<T>>)
    ensures Valid(FirstValues(rows))
  {
    if rows != [] {
      var init := rows[..|rows| - 1];
      FirstValuesValid(init);
      PutValid(FirstValues(init), TrafficKey(rows[|rows| - 1]), rows[|rows| - 1].traffic);
    }
  }

  /** A key has a value exactly when some row has it. */
  lemma {:induction false} FirstValuesKeys<T>(rows: seq<TrafficRow<T>>)
    ensures forall k :: k in FirstValues(rows).at <==> exists i :: 0 <= i < |rows| && TrafficKey(rows[i]) == k
  {
    if rows != [] {
      var init := rows[..|rows| - 1];
      FirstValuesKeys(init);
      forall k ensures k in FirstValues(rows).at <==> exists i :: 0 <= i < |rows| && TrafficKey(rows[i]) == k {
        if exists i :: 0 <= i < |init| && TrafficKey(init[i]) == k {
          var i :| 0 <= i < |init| && TrafficKey(init[i]) == k;
          assert rows[i] == init[i];
        }
        if exists i :: 0 <= i < |rows| && TrafficKey(rows[i]) == k {
          var i :| 0 <= i < |rows| && TrafficKey(rows[i]) == k;
          if i < |init| {
            assert init[i] == rows[i];
          }
        }
      }
    }
  }

  /** The value kept for a key is the traffic of the first row with that key. */
  lemma {:induction false} FirstValuesFirst<T>(rows: seq<TrafficRow<T>>, i: int)
    requires FirstWithKey(rows, i)
    ensures TrafficKey(rows[i]) in FirstValues(rows).at
    ensures FirstValues(rows).at[TrafficKey(rows[i])] == rows[i].traffic
  {
    var init := rows[..|rows| - 1];
    var k := TrafficKey(rows[i]);
    if i < |init| {
      assert init[i] == rows[i];
      assert FirstWithKey(init, i) by {
        assert forall j :: 0 <= j < i ==> init[j] == rows[j];
      }
      FirstValuesFirst(init, i);
    } else {
      FirstValuesKeys(init);
    }
  }

  // ----- nesting grouped entries by timestamp -----

  ghost predicate NestedValid<T, V>(d: Dict<T, Dict<string, V>>)
  {
    Valid(d) && forall t :: t in d.at ==> Valid(d.at[t])
  }

  /** `if t not in d: d[t] = {}` followed by `d[t][name] = v`. */
  function Nest<T(==), V>(d: Dict<T, Dict<string, V>>, t: T, name: string, v: V): Dict<T, Dict<string, V>>
  {
    var inner := if t in d.at then d.at[t] else Empty();
    Put(d, t, Put(inner, name, v))
  }

  /** Nesting keeps every dictionary, outer and inner, well formed. */
  lemma {:induction false} NestedIsValid<T, V>(g: Dict<(T, string), V>, ks: seq<(T, string)>, keep: V -> bool)
    requires forall i :: 0 <= i < |ks| ==> ks[i] in g.at
    ensures NestedValid(Nested(g, ks, keep))
  {
    if ks != [] {
      var acc := Nested(g, ks[..|ks| - 1], keep);
      NestedIsValid(g, ks[..|ks| - 1], keep);
      var k := ks[|ks| - 1];
      if keep(g.at[k]) {
        NestValid(acc, k.0, k.1, g.at[k]);
      }
    }
  }

  lemma NestValid<T, V>(d: Dict<T, Dict<string, V>>, t: T, name: string, v: V)
    requires NestedValid(d)
    ensures NestedValid(Nest(d, t, name, v))
  {
    var inner := if t in d.at then d.at[t] else Empty();
    PutValid(inner, name, v);
    PutValid(d, t, Put(inner, name, v));
  }

  /** The two assignments of the source loop body perform one `Nest`. */
  lemma NestInPlace<T, V>(d: Dict<T, Dict<string, V>>, t: T, name: string, v: V)
    ensures var d1 := if t in d.at then d else Put(d, t, Empty());
      t in d1.at && Put(d1, t, Put(d1.at[t], name, v)) == Nest(d, t, name, v)
  {
    if t !in d.at {
      var e: Dict<string, V> := Empty();
      var x := Put(e, name, v);
      assert d.at[t := e][t := x] == d.at[t := x];
    }
  }

  /** The nesting loop over the grouped keys `ks`, keeping the entries whose value passes `keep`. */
  function Nested<T(==), V>(g: Dict<(T, string), V>, ks: seq<(T, string)>, keep: V -> bool): Dict<T, Dict<string, V>>
    requires forall i :: 0 <= i < |ks| ==> ks[i] in g.at
  {
    if ks == [] then Empty()
    else
      var acc := Nested(g, ks[..|ks| - 1], keep);
      var k := ks[|ks| - 1];
      if keep(g.at[k]) then Nest(acc, k.0, k.1, g.at[k]) else acc
  }

  /**
   * An entry `d[t][name]` exists exactly for the grouped keys `(t, name)`
   * whose value passes the filter; it holds that value unchanged; and a
   * timestamp appears exactly when one of its keys passes.
   */
  lemma {:induction false} NestedExact<T, V>(g: Dict<(T, string), V>, ks: seq<(T, string)>, keep: V -> bool)
    requires forall i :: 0 <= i < |ks| ==> ks[i] in g.at
    ensures forall k: (T, string) :: k.0 in Nested(g, ks, keep).at && k.1 in Nested(g, ks, keep).at[k.0].at <==>
      k in ks && keep(g.at[k])
    ensures forall k: (T, string) :: k.0 in Nested(g, ks, keep).at && k.1 in Nested(g, ks, keep).at[k.0].at ==>
      Nested(g, ks, keep).at[k.0].at[k.1] == g.at[k]
    ensures forall t :: t in Nested(g, ks, keep).at <==> exists k :: k in ks && k.0 == t && keep(g.at[k])
  {
    if ks != [] {
      var init := ks[..|ks| - 1];
      NestedExact(g, init, keep);
      assert forall k :: k in ks <==> k in init || k == ks[|ks| - 1];
    }
  }

  /** The filter of `readFlows`: only `(timestamp, pathName)` groups with more than one path are kept. */
  function MoreThanOnePath(paths: seq<Path>): bool
  {
    |paths| > 1
  }

  /** The filter of `readTraffic`: every grouped traffic value is kept. */
  function AnyTraffic(value: real): bool
  {
    true
  }

  /** The loop building `flows[timestamp][pathName] = paths`. */
  method NestFlows<T(==)>(grouped: Dict<(T, string), seq<Path>>) returns (flows: Dict<T, Dict<string, seq<Path>>>)
    requires Listed(grouped)
    ensures flows == Nested(grouped, grouped.keys, MoreThanOnePath)
  {
    var ks := grouped.keys;
    flows := Empty();
    var i := 0;
    while i < |ks|
      invariant 0 <= i <= |ks|
      invariant flows == Nested(grouped, ks[..i], MoreThanOnePath)
    {
      assert ks[..i + 1][..i] == ks[..i];
      var timestamp, pathName := ks[i].0, ks[i].1;
      var paths := grouped.at[ks[i]];
      if |paths| > 1 {
        NestInPlace(flows, timestamp, pathName, paths);
        if timestamp !in flows.at {
          flows := Put(flows, timestamp, Empty());
        }
        flows := Put(flows, timestamp, Put(flows.at[timestamp], pathName, paths));
      }
      i := i + 1;
    }
    assert ks[..i] == ks;
  }

  /** The loop building `traffic[timestamp][flow] = traffic_value`. */
  method NestTraffic<T(==)>(grouped: Dict<(T, string), real>) returns (traffic: Dict<T, Dict<string, real>>)
    requires Listed(grouped)
    ensures traffic == Nested(grouped, grouped.keys, AnyTraffic)
  {
    var ks := grouped.keys;
    traffic := Empty();
    var i := 0;
    while i < |ks|
      invariant 0 <= i <= |ks|
      invariant traffic == Nested(grouped, ks[..i], AnyTraffic)
    {
      assert ks[..i + 1][..i] == ks[..i];
      var timestamp, flow := ks[i].0, ks[i].1;
      NestInPlace(traffic, timestamp, flow, grouped.at[ks[i]]);
      if timestamp !in traffic.at {
        traffic := Put(traffic, timestamp, Empty());
      }
      traffic := Put(traffic, timestamp, Put(traffic.at[timestamp], flow, grouped.at[ks[i]]));
      i := i + 1;
    }
    assert ks[..i] == ks;
  }

  /** The `(timestamp, key)` pairs of a nested dictionary. */
  ghost function Entries<T, V>(d: Dict<T, Dict<string, V>>): set<(T, string)>
  {
    set t, name | t in d.at && name in d.at[t].at :: (t, name)
  }

  /** Nesting all grouped traffic keeps one entry per grouped key. */
  lemma NestedTrafficCount<T>(grouped: Dict<(T, string), real>)
    requires Valid(grouped)
    ensures |Entries(Nested(grouped, grouped.keys, AnyTraffic))| == |grouped.keys|
  {
    var ks := grouped.keys;
    var d := Nested(grouped, ks, AnyTraffic);
    var listed := set i | 0 <= i < |ks| :: ks[i];
    NestedExact(grouped, ks, AnyTraffic);
    forall e | e in Entries(d) ensures e in listed {
      assert e in ks;
    }
    forall i | 0 <= i < |ks| ensures ks[i] in Entries(d) {
      assert AnyTraffic(grouped.at[ks[i]]);
      assert (ks[i].0, ks[i].1) == ks[i];
    }
    assert Entries(d) == listed;
    KeySetSize(ks);
  }

  // ----- the link table -----

  function LinkName(row: LinkRow): string
  {
    JoinKey(row.linkStart, row.linkEnd)
  }

  /**
   * `set_index('linkName')` then `to_dict('index')`: the rows indexed by link
   * name, in row order, or `None` when two rows share a name (pandas refuses
   * a non-unique index and the reader exits).
   */
  function IndexLinks(rows: seq<LinkRow>): Option<Links>
  {
    if rows == [] then Some(Empty())
    else
      match IndexLinks(rows[..|rows| - 1])
      case None => None
      case Some(acc) =>
        var row := rows[|rows| - 1];
        if LinkName(row) in acc.at then None else Some(Put(acc, LinkName(row), row))
  }

  ghost predicate DistinctNames(rows: seq<LinkRow>)
  {
    forall i, j :: 0 <= i < j < |rows| ==> LinkName(rows[i]) != LinkName(rows[j])
  }

  /** With distinct link names, the keys are the names in row order and each name maps to its row. */
  lemma {:induction false} IndexLinksSucceeds(rows: seq<LinkRow>)
    requires DistinctNames(rows)
    ensures IndexLinks(rows).Some?
    ensures var links := IndexLinks(rows).value;
      && |links.keys| == |rows|
      && (forall k :: k in links.at <==> k in links.keys)
      && forall i :: 0 <= i < |rows| ==> links.keys[i] == LinkName(rows[i]) && links.at[LinkName(rows[i])] == rows[i]
  {
    if rows != [] {
      var init := rows[..|rows| - 1];
      assert forall i :: 0 <= i < |init| ==> init[i] == rows[i];
      assert DistinctNames(init);
      IndexLinksSucceeds(init);
      var acc := IndexLinks(init).value;
      var name := LinkName(rows[|rows| - 1]);
      assert name !in acc.keys by {
        forall i | 0 <= i < |acc.keys| ensures acc.keys[i] != name {
          assert acc.keys[i] == LinkName(rows[i]);
        }
      }
      var links := Dict(acc.keys + [name], acc.at[name := rows[|rows| - 1]]);
      assert IndexLinks(rows) == Some(links);
      forall i | 0 <= i < |rows|
        ensures links.keys[i] == LinkName(rows[i]) && links.at[LinkName(rows[i])] == rows[i]
      {
        if i < |init| {
          assert links.keys[i] == acc.keys[i];
          assert LinkName(rows[i]) != name;
        }
      }
    }
  }

  /** Two rows with the same link name make indexing fail. */
  lemma {:induction false} IndexLinksFails(rows: seq<LinkRow>)
    requires !DistinctNames(rows)
    ensures IndexLinks(rows) == None
  {
    var init := rows[..|rows| - 1];
    assert forall i :: 0 <= i < |init| ==> init[i] == rows[i];
    if !DistinctNames(init) {
      IndexLinksFails(init);
    } else {
      var i, j :| 0 <= i < j < |rows| && LinkName(rows[i]) == LinkName(rows[j]);
      assert j == |rows| - 1;
      IndexLinksSucceeds(init);
      assert IndexLinks(init).value.keys[i] == LinkName(rows[j]);
    }
  }

  /**
   * Indexing succeeds exactly when the link names are distinct; then the
   * keys are the names in row order and each name maps to its row.
   */
  lemma IndexLinksExact(rows: seq<LinkRow>)
    ensures IndexLinks(rows).Some? <==> DistinctNames(rows)
    ensures IndexLinks(rows).Some? ==>
      && |IndexLinks(rows).value.keys| == |rows|
      && forall i :: 0 <= i < |rows| ==>
           && IndexLinks(rows).value.keys[i] == LinkName(rows[i])
           && LinkName(rows[i]) in IndexLinks(rows).value.at
           && IndexLinks(rows).value.at[LinkName(rows[i])] == rows[i]
  {
    if DistinctNames(rows) {
      IndexLinksSucceeds(rows);
    } else {
      IndexLinksFails(rows);
    }
  }
}
