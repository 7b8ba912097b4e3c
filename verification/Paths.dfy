/** Bounded enumeration of simple paths: what the backtracking search returns, in order and up to its cap. */
module Paths {
  import opened Types
  import opened Sorting
  import opened Registry

  datatype Edge = Edge(link: nat, to: nat)

  datatype PathElement = DeviceElement(device: nat) | LinkElement(link: nat)

  datatype Path = Path(
    id: nat,
    source: nat,
    target: nat,
    direct: bool,
    switchTraversal: bool,
    elements: seq<PathElement>,
    hopCount: nat,
    nvlinkSegments: nat)

  /** Path ids come from a hash of the endpoints and the link ids, of which nothing is assumed. */
  type PathHash = (nat, nat, seq<nat>) -> nat

  function FindLink(links: seq<LinkRecord>, id: nat): Option<LinkRecord>
  {
    if links == [] then None else if links[0].id == id then Some(links[0]) else FindLink(links[1..], id)
  }

  function FindDevice(devices: seq<DeviceRecord>, id: nat): Option<DeviceRecord>
  {
    if devices == [] then None else if devices[0].id == id then Some(devices[0]) else FindDevice(devices[1..], id)
  }

  // ---- Adjacency ----

  function EdgesOf(l: LinkRecord, v: nat): seq<Edge>
  {
    (if l.source == v then [Edge(l.id, l.target)] else []) +
    (if !l.directed && l.target == v then [Edge(l.id, l.source)] else [])
  }

  function EdgesFrom(links: seq<LinkRecord>, v: nat): seq<Edge>
  {
    if links == [] then [] else EdgesFrom(links[..|links| - 1], v) + EdgesOf(links[|links| - 1], v)
  }

  predicate EdgeBefore(a: Edge, b: Edge)
  {
    a.link < b.link || (a.link == b.link && a.to < b.to)
  }

  function Neighbours(links: seq<LinkRecord>, v: nat): seq<Edge>
  {
    StableSort(EdgesFrom(links, v), EdgeBefore)
  }

  function At(adjacency: map<nat, seq<Edge>>, v: nat): seq<Edge>
  {
    if v in adjacency then adjacency[v] else []
  }

  lemma EdgeAppended(adjacency: map<nat, seq<Edge>>, k: nat, e: Edge, v: nat)
    ensures At(adjacency[k := At(adjacency, k) + [e]], v) == At(adjacency, v) + if v == k then [e] else []
  {
  }

  method ListEdges(links: seq<LinkRecord>) returns (adjacency: map<nat, seq<Edge>>)
    ensures forall v :: At(adjacency, v) == EdgesFrom(links, v)
  {
    hide At, EdgesFrom;
    adjacency := map[];
    NoEdges();
    for i := 0 to |links|
      invariant forall v :: At(adjacency, v) == EdgesFrom(links[..i], v)
    {
      var l := links[i];
      ghost var before := adjacency;
      adjacency := adjacency[l.source := At(adjacency, l.source) + [Edge(l.id, l.target)]];
      ghost var between := adjacency;
      if !l.directed {
        adjacency := adjacency[l.target := At(adjacency, l.target) + [Edge(l.id, l.source)]];
      }
      forall v
        ensures At(adjacency, v) == EdgesFrom(links[..i + 1], v)
      {
        EdgeAppended(before, l.source, Edge(l.id, l.target), v);
        EdgeAppended(between, l.target, Edge(l.id, l.source), v);
        EdgesFromOneMore(links, i, v);
        assert At(adjacency, v) == At(before, v) + EdgesOf(l, v);
      }
    }
    assert links[..|links|] == links;
  }

  lemma NoEdges()
    ensures forall v :: At(map[], v) == EdgesFrom([], v)
  {
  }

  lemma EdgesFromOneMore(links: seq<LinkRecord>, i: nat, v: nat)
    requires i < |links|
    ensures EdgesFrom(links[..i + 1], v) == EdgesFrom(links[..i], v) + EdgesOf(links[i], v)
  {
    hide EdgesOf;
    assert links[..i + 1][..i] == links[..i];
  }

  method BuildAdjacency(topology: Topology) returns (adjacency: map<nat, seq<Edge>>)
    ensures forall v :: At(adjacency, v) == Neighbours(topology.links, v)
  {
    hide EdgesFrom;
    var unsorted := ListEdges(topology.links);
    adjacency := unsorted;
    var todo := adjacency.Keys;
    while todo != {}
      invariant todo <= adjacency.Keys == unsorted.Keys
      invariant forall v :: v in unsorted ==>
        adjacency[v] == if v in todo then unsorted[v] else StableSort(unsorted[v], EdgeBefore)
      decreases todo
    {
      var v :| v in todo;
      adjacency := adjacency[v := StableSort(adjacency[v], EdgeBefore)];
      todo := todo - {v};
    }
    forall v
      ensures At(adjacency, v) == Neighbours(topology.links, v)
    {
      assert At(unsorted, v) == EdgesFrom(topology.links, v);
    }
  }

  // ---- Every walk the search goes through, without the cap ----

  function Prefixed(e: Edge, ws: seq<seq<Edge>>): seq<seq<Edge>>
  {
    seq(|ws|, i requires 0 <= i < |ws| => [e] + ws[i])
  }

  /** The walks from `cur` to `target` that enter no visited device and use at most `room` links. */
  function Walks(links: seq<LinkRecord>, cur: nat, visited: set<nat>, target: nat, room: nat): seq<seq<Edge>>
    decreases room, 2, 0
  {
    WalksVia(links, Neighbours(links, cur), visited, target, room)
  }

  function WalksVia(links: seq<LinkRecord>, edges: seq<Edge>, visited: set<nat>, target: nat, room: nat): seq<seq<Edge>>
    decreases room, 1, |edges|
  {
    if edges == [] then []
    else Through(links, edges[0], visited, target, room) + WalksVia(links, edges[1..], visited, target, room)
  }

  function Through(links: seq<LinkRecord>, e: Edge, visited: set<nat>, target: nat, room: nat): seq<seq<Edge>>
    decreases room, 0, 0
  {
    if e.to in visited || room == 0 then []
    else if e.to == target then [[e]]
    else if room == 1 then []
    else Prefixed(e, Walks(links, e.to, visited + {e.to}, target, room - 1))
  }

  // ---- Simple paths, defined without reference to the search ----

  /** Some link with this id leads from `v` to the other end of `e`; undirected links lead both ways. */
  ghost predicate Hop(links: seq<LinkRecord>, v: nat, e: Edge)
  {
    exists i :: 0 <= i < |links| && Crosses(links[i], v, e)
  }

  predicate Crosses(l: LinkRecord, v: nat, e: Edge)
  {
    && l.id == e.link
    && ((l.source == v && l.target == e.to) || (!l.directed && l.target == v && l.source == e.to))
  }

  /** Where edge i of a walk from `cur` starts. */
  function StartOf(cur: nat, w: seq<Edge>, i: nat): nat
    requires i < |w|
  {
    if i == 0 then cur else w[i - 1].to
  }

  /** Consecutive edges of the walk are links that start where the one before ended. */
  ghost predicate Follows(links: seq<LinkRecord>, cur: nat, w: seq<Edge>)
  {
    forall i :: 0 <= i < |w| ==> Hop(links, StartOf(cur, w, i), w[i])
  }

  /** The walk enters no device of `visited`, and none twice. */
  ghost predicate EntersOnce(visited: set<nat>, w: seq<Edge>)
  {
    && (forall i :: 0 <= i < |w| ==> w[i].to !in visited)
    && (forall i, j :: 0 <= i < j < |w| ==> w[i].to != w[j].to)
  }

  /** `w` follows links from `cur` to its only visit of `target`, entering no device twice and none of `visited`. */
  ghost predicate Simple(links: seq<LinkRecord>, cur: nat, visited: set<nat>, target: nat, w: seq<Edge>)
  {
    w != [] && w[|w| - 1].to == target && EntersOnce(visited, w) && Follows(links, cur, w)
  }

  ghost predicate IsSimplePath(links: seq<LinkRecord>, source: nat, target: nat, w: seq<Edge>)
  {
    Simple(links, source, {source}, target, w)
  }

  lemma HopByLast(links: seq<LinkRecord>, v: nat, e: Edge)
    requires links != []
    ensures Hop(links, v, e) <==> Hop(links[..|links| - 1], v, e) || Crosses(links[|links| - 1], v, e)
  {
    hide Crosses;
    var front := links[..|links| - 1];
    if Hop(links, v, e) {
      var i :| 0 <= i < |links| && Crosses(links[i], v, e);
      assert i < |front| ==> Crosses(front[i], v, e);
    }
    if Hop(front, v, e) {
      var i :| 0 <= i < |front| && Crosses(front[i], v, e);
      assert Crosses(links[i], v, e);
    }
  }

  lemma EdgesCross(l: LinkRecord, v: nat, e: Edge)
    ensures e in EdgesOf(l, v) <==> Crosses(l, v, e)
  {
  }

  lemma {:induction false} EdgesFromHops(links: seq<LinkRecord>, v: nat, e: Edge)
    ensures e in EdgesFrom(links, v) <==> Hop(links, v, e)
  {
    if links != [] {
      hide Hop, Crosses, EdgesOf;
      EdgesFromHops(links[..|links| - 1], v, e);
      HopByLast(links, v, e);
      EdgesCross(links[|links| - 1], v, e);
    }
  }

  lemma NeighboursAreHops(links: seq<LinkRecord>, v: nat, e: Edge)
    ensures e in Neighbours(links, v) <==> Hop(links, v, e)
  {
    hide Hop, EdgesFrom;
    var s := EdgesFrom(links, v);
    SortKeepsElements(s, EdgeBefore);
    EdgesFromHops(links, v, e);
    assert e in s <==> e in multiset(s);
    assert e in Neighbours(links, v) <==> e in multiset(Neighbours(links, v));
  }

  /** What `Simple` says of a path, by its first edge. */
  ghost predicate SimpleFrom(links: seq<LinkRecord>, cur: nat, visited: set<nat>, target: nat, e: Edge, rest: seq<Edge>)
  {
    && Hop(links, cur, e)
    && e.to !in visited
    && if e.to == target then rest == [] else Simple(links, e.to, visited + {e.to}, target, rest)
  }

  lemma FollowsByFirst(links: seq<LinkRecord>, cur: nat, w: seq<Edge>)
    requires w != []
    ensures Follows(links, cur, w) <==> Hop(links, cur, w[0]) && Follows(links, w[0].to, w[1..])
  {
    hide Hop;
    var t := w[1..];
    forall i | 0 < i < |w|
      ensures t[i - 1] == w[i] && StartOf(w[0].to, t, i - 1) == StartOf(cur, w, i)
    {
    }
    if Hop(links, cur, w[0]) && Follows(links, w[0].to, t) {
      forall i | 0 <= i < |w|
        ensures Hop(links, StartOf(cur, w, i), w[i])
      {
        assert i > 0 ==> Hop(links, StartOf(w[0].to, t, i - 1), t[i - 1]);
      }
    }
    if Follows(links, cur, w) {
      forall i | 0 <= i < |t|
        ensures Hop(links, StartOf(w[0].to, t, i), t[i])
      {
        assert Hop(links, StartOf(cur, w, i + 1), w[i + 1]);
      }
    }
  }

  lemma EntersOnceByFirst(visited: set<nat>, w: seq<Edge>)
    requires w != []
    ensures EntersOnce(visited, w) <==> w[0].to !in visited && EntersOnce(visited + {w[0].to}, w[1..])
  {
    var t := w[1..];
    assert forall i :: 0 < i < |w| ==> w[i] == t[i - 1];
  }

  lemma SimpleByFirst(links: seq<LinkRecord>, cur: nat, visited: set<nat>, target: nat, w: seq<Edge>)
    requires w != []
    ensures Simple(links, cur, visited, target, w) <==> SimpleFrom(links, cur, visited, target, w[0], w[1..])
  {
    hide Hop, Follows;
    var t := w[1..];
    FollowsByFirst(links, cur, w);
    EntersOnceByFirst(visited, w);
    NoEdgesFollow(links, target);
    if t != [] {
      assert t[|t| - 1] == w[|w| - 1];
    }
  }

  lemma NoEdgesFollow(links: seq<LinkRecord>, cur: nat)
    ensures Follows(links, cur, [])
  {
  }

  lemma PrefixedMember(e: Edge, ws: seq<seq<Edge>>, w: seq<Edge>)
    ensures w in Prefixed(e, ws) <==> w != [] && w[0] == e && w[1..] in ws
  {
    if w in Prefixed(e, ws) {
      var i :| 0 <= i < |ws| && w == [e] + ws[i];
      assert w[1..] == ws[i];
    }
    if w != [] && w[0] == e && w[1..] in ws {
      var i :| 0 <= i < |ws| && ws[i] == w[1..];
      assert Prefixed(e, ws)[i] == w;
    }
  }

  lemma ThroughStarts(links: seq<LinkRecord>, e: Edge, visited: set<nat>, target: nat, room: nat, w: seq<Edge>)
    requires w in Through(links, e, visited, target, room)
    ensures w != [] && w[0] == e
  {
    hide Walks;
  }

  lemma {:induction false} ViaMember(links: seq<LinkRecord>, edges: seq<Edge>, visited: set<nat>, target: nat,
                                     room: nat, w: seq<Edge>)
    ensures w in WalksVia(links, edges, visited, target, room) <==>
              w != [] && w[0] in edges && w in Through(links, w[0], visited, target, room)
    decreases |edges|
  {
    hide Through;
    if edges != [] {
      ViaMember(links, edges[1..], visited, target, room, w);
      if w in Through(links, edges[0], visited, target, room) {
        ThroughStarts(links, edges[0], visited, target, room, w);
      }
    }
  }

  /** The uncapped search finds exactly the simple paths that fit. */
  lemma {:induction false} WalksAreSimplePaths(links: seq<LinkRecord>, cur: nat, visited: set<nat>, target: nat,
                                               room: nat, w: seq<Edge>)
    ensures w in Walks(links, cur, visited, target, room) <==>
              Simple(links, cur, visited, target, w) && |w| <= room
    decreases room
  {
    hide Neighbours, WalksVia, Simple, Hop, Prefixed;
    ViaMember(links, Neighbours(links, cur), visited, target, room, w);
    if w == [] {
      NothingIsNoPath(links, cur, visited, target);
    } else {
      var e, rest := w[0], w[1..];
      NeighboursAreHops(links, cur, e);
      SimpleByFirst(links, cur, visited, target, w);
      assert rest == [] ==> w == [e];
      if e.to !in visited && e.to != target {
        if room > 1 {
          WalksAreSimplePaths(links, e.to, visited + {e.to}, target, room - 1, rest);
          PrefixedMember(e, Walks(links, e.to, visited + {e.to}, target, room - 1), w);
        } else if rest == [] {
          NothingIsNoPath(links, e.to, visited + {e.to}, target);
        }
      }
    }
  }

  lemma NothingIsNoPath(links: seq<LinkRecord>, cur: nat, visited: set<nat>, target: nat)
    ensures !Simple(links, cur, visited, target, [])
  {
  }

  // ---- The order of discovery ----

  /** Lexicographic order of the link ids; neither walk is a prefix of the other. */
  ghost predicate Before(a: seq<Edge>, b: seq<Edge>)
  {
    exists i: nat :: SplitsAt(a, b, i)
  }

  ghost predicate SplitsAt(a: seq<Edge>, b: seq<Edge>, i: nat)
  {
    i < |a| && i < |b| && a[..i] == b[..i] && a[i].link < b[i].link
  }

  ghost predicate InOrder(ws: seq<seq<Edge>>)
  {
    forall i, j :: 0 <= i < j < |ws| ==> Before(ws[i], ws[j])
  }

  /** What the registry guarantees of a snapshot: links in increasing order of id, none from a device to itself. */
  ghost predicate Orderly(links: seq<LinkRecord>)
  {
    Increasing(links, LinkId) && forall i :: 0 <= i < |links| ==> links[i].source != links[i].target
  }

  ghost predicate LinksIncrease(edges: seq<Edge>)
  {
    forall i, j :: 0 <= i < j < |edges| ==> edges[i].link < edges[j].link
  }

  lemma IncreaseJoined(front: seq<Edge>, l: LinkRecord, v: nat, bound: nat)
    requires LinksIncrease(front) && (forall e :: e in front ==> e.link <= bound)
    requires bound < l.id && l.source != l.target
    ensures LinksIncrease(front + EdgesOf(l, v)) && forall e :: e in front + EdgesOf(l, v) ==> e.link <= l.id
  {
    assert forall i :: 0 <= i < |front| ==> front[i] in front;
  }

  lemma {:induction false} EdgesIncrease(links: seq<LinkRecord>, v: nat)
    requires Orderly(links)
    ensures LinksIncrease(EdgesFrom(links, v))
    ensures forall e :: e in EdgesFrom(links, v) ==> links != [] && e.link <= links[|links| - 1].id
  {
    if links != [] {
      hide LinksIncrease, EdgesOf;
      var n := |links| - 1;
      EdgesIncrease(links[..n], v);
      if n > 0 {
        assert LinkId(links[n - 1]) < LinkId(links[n]);
        IncreaseJoined(EdgesFrom(links[..n], v), links[n], v, links[n - 1].id);
      } else {
        OneLinkIncreases(links[n], v);
        assert EdgesFrom(links[..n], v) + EdgesOf(links[n], v) == EdgesOf(links[n], v);
      }
    }
  }

  lemma OneLinkIncreases(l: LinkRecord, v: nat)
    requires l.source != l.target
    ensures LinksIncrease(EdgesOf(l, v)) && forall e :: e in EdgesOf(l, v) ==> e.link <= l.id
  {
  }

  /** In a registry snapshot the edges come out of the scan already sorted. */
  lemma NeighboursIncrease(links: seq<LinkRecord>, v: nat)
    requires Orderly(links)
    ensures Neighbours(links, v) == EdgesFrom(links, v) && LinksIncrease(Neighbours(links, v))
  {
    hide EdgesFrom, Orderly;
    EdgesIncrease(links, v);
    SortedIsFixed(EdgesFrom(links, v), EdgeBefore);
  }

  lemma BeforePrefixed(e: Edge, a: seq<Edge>, b: seq<Edge>)
    requires Before(a, b)
    ensures Before([e] + a, [e] + b)
  {
    var i: nat :| SplitsAt(a, b, i);
    assert ([e] + a)[..i + 1] == [e] + a[..i] == ([e] + b)[..i + 1];
    assert SplitsAt([e] + a, [e] + b, i + 1);
  }

  lemma BeforeByFirst(a: seq<Edge>, b: seq<Edge>)
    requires a != [] && b != [] && a[0].link < b[0].link
    ensures Before(a, b)
  {
    assert SplitsAt(a, b, 0);
  }

  lemma {:induction false} ThroughInOrder(links: seq<LinkRecord>, e: Edge, visited: set<nat>, target: nat, room: nat)
    requires Orderly(links)
    ensures InOrder(Through(links, e, visited, target, room))
    decreases room, 0, 0
  {
    hide Orderly, Before, Walks;
    if e.to !in visited && e.to != target && room > 1 {
      var ws := Walks(links, e.to, visited + {e.to}, target, room - 1);
      WalksInOrder(links, e.to, visited + {e.to}, target, room - 1);
      forall i, j | 0 <= i < j < |ws|
        ensures Before([e] + ws[i], [e] + ws[j])
      {
        BeforePrefixed(e, ws[i], ws[j]);
      }
    }
  }

  lemma {:induction false} ViaInOrder(links: seq<LinkRecord>, edges: seq<Edge>, visited: set<nat>, target: nat,
                                      room: nat)
    requires Orderly(links) && LinksIncrease(edges)
    ensures InOrder(WalksVia(links, edges, visited, target, room))
    decreases room, 1, |edges|
  {
    hide Orderly, Through, Before;
    if edges != [] {
      var first := Through(links, edges[0], visited, target, room);
      var rest := WalksVia(links, edges[1..], visited, target, room);
      ThroughInOrder(links, edges[0], visited, target, room);
      ViaInOrder(links, edges[1..], visited, target, room);
      forall i, j | 0 <= i < |first| && 0 <= j < |rest|
        ensures Before(first[i], rest[j])
      {
        ThroughStarts(links, edges[0], visited, target, room, first[i]);
        assert rest[j] in rest;
        ViaMember(links, edges[1..], visited, target, room, rest[j]);
        var k :| 0 < k < |edges| && edges[k] == rest[j][0];
        BeforeByFirst(first[i], rest[j]);
      }
      InOrderJoined(first, rest);
    }
  }

  lemma InOrderJoined(first: seq<seq<Edge>>, rest: seq<seq<Edge>>)
    requires InOrder(first) && InOrder(rest)
    requires forall i, j :: 0 <= i < |first| && 0 <= j < |rest| ==> Before(first[i], rest[j])
    ensures InOrder(first + rest)
  {
    hide Before;
    var all := first + rest;
    forall i, j | 0 <= i < j < |all|
      ensures Before(all[i], all[j])
    {
      if j < |first| {
        assert all[i] == first[i] && all[j] == first[j];
      } else if i < |first| {
        assert all[i] == first[i] && all[j] == rest[j - |first|];
      } else {
        assert all[i] == rest[i - |first|] && all[j] == rest[j - |first|];
      }
    }
  }

  /** Walks are discovered in strictly increasing lexicographic order of link ids, hence each only once. */
  lemma {:induction false} WalksInOrder(links: seq<LinkRecord>, cur: nat, visited: set<nat>, target: nat, room: nat)
    requires Orderly(links)
    ensures InOrder(Walks(links, cur, visited, target, room))
    decreases room, 2, 0
  {
    hide Orderly, LinksIncrease, InOrder, Neighbours;
    NeighboursIncrease(links, cur);
    ViaInOrder(links, Neighbours(links, cur), visited, target, room);
  }

  lemma AgreeBelow(a: seq<Edge>, b: seq<Edge>, i: nat, k: nat)
    requires SplitsAt(a, b, i) && k < i
    ensures a[k] == b[k]
  {
    assert a[..i][k] == b[..i][k];
  }

  lemma BeforeIsStrict(a: seq<Edge>, b: seq<Edge>)
    requires Before(a, b)
    ensures a != b && !Before(b, a)
  {
    var i: nat :| SplitsAt(a, b, i);
    if Before(b, a) {
      var j: nat :| SplitsAt(b, a, j);
      if i < j {
        AgreeBelow(b, a, j, i);
      } else if j < i {
        AgreeBelow(a, b, i, j);
      }
    }
  }

  // ---- From walks to path records ----

  function Links(w: seq<Edge>): seq<nat>
  {
    seq(|w|, i requires 0 <= i < |w| => w[i].link)
  }

  function ElementsOf(source: nat, w: seq<Edge>): (es: seq<PathElement>)
    ensures |es| == 1 + 2 * |w|
  {
    if w == [] then [DeviceElement(source)]
    else ElementsOf(source, w[..|w| - 1]) + [LinkElement(w[|w| - 1].link), DeviceElement(w[|w| - 1].to)]
  }

  function LinksIn(elements: seq<PathElement>): seq<nat>
  {
    if elements == [] then []
    else
      LinksIn(elements[..|elements| - 1]) +
      if elements[|elements| - 1].LinkElement? then [elements[|elements| - 1].link] else []
  }

  lemma {:induction false} LinksOfWalk(source: nat, w: seq<Edge>)
    ensures LinksIn(ElementsOf(source, w)) == Links(w)
  {
    if w != [] {
      var n := |w| - 1;
      LinksOfWalk(source, w[..n]);
      var es := ElementsOf(source, w[..n]);
      var e1 := es + [LinkElement(w[n].link)];
      assert e1[..|e1| - 1] == es;
      assert ElementsOf(source, w)[..|e1|] == e1;
      assert Links(w) == Links(w[..n]) + [w[n].link];
    } else {
      assert [DeviceElement(source)][..0] == [];
    }
  }

  function IsNvlink(links: seq<LinkRecord>, id: nat): nat
  {
    var l := FindLink(links, id);
    if l.Some? && l.value.technology == Technology.NvLink then 1 else 0
  }

  function NvlinkCount(links: seq<LinkRecord>, ids: seq<nat>): nat
  {
    if ids == [] then 0
    else NvlinkCount(links, ids[..|ids| - 1]) + IsNvlink(links, ids[|ids| - 1])
  }

  predicate IsSwitch(devices: seq<DeviceRecord>, element: PathElement)
  {
    element.DeviceElement? &&
    var d := FindDevice(devices, element.device);
    d.Some? && d.value.kind == NodeKind.Switch
  }

  predicate HasSwitch(devices: seq<DeviceRecord>, elements: seq<PathElement>)
  {
    exists i :: 0 <= i < |elements| && IsSwitch(devices, elements[i])
  }

  /** The record the search makes of a walk, before switches are looked for. */
  function Found(links: seq<LinkRecord>, hash: PathHash, source: nat, target: nat, w: seq<Edge>): Path
  {
    Path(hash(source, target, Links(w)), source, target, |w| == 1, false, ElementsOf(source, w), |w|,
         NvlinkCount(links, Links(w)))
  }

  function PathOf(topology: Topology, hash: PathHash, source: nat, target: nat, w: seq<Edge>): Path
  {
    Found(topology.links, hash, source, target, w)
      .(switchTraversal := HasSwitch(topology.devices, ElementsOf(source, w)))
  }

  function Cap<T>(s: seq<T>, n: nat): seq<T>
  {
    if |s| <= n then s else s[..n]
  }

  function Room(limits: Limits): nat
  {
    Max(1, limits.maxPathDepth)
  }

  function AllWalks(topology: Topology, source: nat, target: nat, limits: Limits): seq<seq<Edge>>
  {
    Walks(topology.links, source, {source}, target, Room(limits))
  }

  /** What enumeration returns. */
  function Enumerated(topology: Topology, hash: PathHash, source: nat, target: nat, limits: Limits): seq<Path>
  {
    if source == 0 || target == 0 || source == target then []
    else
      var ws := Cap(AllWalks(topology, source, target, limits), limits.maxCandidatePaths);
      seq(|ws|, i requires 0 <= i < |ws| => PathOf(topology, hash, source, target, ws[i]))
  }

  /** The walks are exactly the simple paths with at most max(1, maxPathDepth) links, and the candidates are
    * the records of the first of them; below the cap none is missing. */
  lemma EnumerationIsComplete(topology: Topology, hash: PathHash, source: nat, target: nat, limits: Limits)
    requires source != 0 && target != 0 && source != target
    ensures forall w :: w in AllWalks(topology, source, target, limits) <==>
              IsSimplePath(topology.links, source, target, w) && |w| <= Max(1, limits.maxPathDepth)
    ensures var all := AllWalks(topology, source, target, limits);
            var ps := Enumerated(topology, hash, source, target, limits);
            |ps| == (if |all| <= limits.maxCandidatePaths then |all| else limits.maxCandidatePaths) &&
            forall i :: 0 <= i < |ps| ==> ps[i] == PathOf(topology, hash, source, target, all[i])
  {
    hide Walks, Simple, PathOf;
    forall w
      ensures w in AllWalks(topology, source, target, limits) <==>
                IsSimplePath(topology.links, source, target, w) && |w| <= Max(1, limits.maxPathDepth)
    {
      WalksAreSimplePaths(topology.links, source, {source}, target, Room(limits), w);
    }
  }

  /** In an orderly topology they come in strictly increasing lexicographic order of link ids, so none comes twice. */
  lemma EnumerationInOrder(topology: Topology, source: nat, target: nat, limits: Limits)
    requires Orderly(topology.links)
    ensures InOrder(AllWalks(topology, source, target, limits))
    ensures var all := AllWalks(topology, source, target, limits);
            forall i, j :: 0 <= i < j < |all| ==> all[i] != all[j]
  {
    hide Walks, Before, Orderly;
    var all := AllWalks(topology, source, target, limits);
    WalksInOrder(topology.links, source, {source}, target, Room(limits));
    forall i, j | 0 <= i < j < |all|
      ensures all[i] != all[j]
    {
      BeforeIsStrict(all[i], all[j]);
    }
  }

  // ---- The search itself ----

  lemma NvlinkCountOneMore(links: seq<LinkRecord>, elements: seq<PathElement>, i: nat)
    requires i < |elements|
    ensures NvlinkCount(links, LinksIn(elements[..i + 1])) == NvlinkCount(links, LinksIn(elements[..i])) +
              if elements[i].LinkElement? then IsNvlink(links, elements[i].link) else 0
  {
    hide IsNvlink;
    var ids := LinksIn(elements[..i]);
    assert elements[..i + 1][..i] == elements[..i];
    if elements[i].LinkElement? {
      assert (ids + [elements[i].link])[..|ids|] == ids;
    } else {
      assert ids + [] == ids;
    }
  }

  method CountNvlink(topology: Topology, elements: seq<PathElement>) returns (n: nat)
    ensures n == NvlinkCount(topology.links, LinksIn(elements))
  {
    hide NvlinkCount, LinksIn, FindLink;
    n := 0;
    NothingToCount(topology.links);
    for i := 0 to |elements|
      invariant n == NvlinkCount(topology.links, LinksIn(elements[..i]))
    {
      NvlinkCountOneMore(topology.links, elements, i);
      if elements[i].LinkElement? {
        var l := FindLink(topology.links, elements[i].link);
        if l.Some? && l.value.technology == Technology.NvLink {
          n := n + 1;
        }
      }
    }
    assert elements[..|elements|] == elements;
  }

  lemma NothingToCount(links: seq<LinkRecord>)
    ensures NvlinkCount(links, LinksIn([])) == 0
  {
  }

  /** The records of `prefix` continued by each walk. */
  function Continued(links: seq<LinkRecord>, hash: PathHash, source: nat, target: nat, prefix: seq<Edge>,
                     ws: seq<seq<Edge>>): (ps: seq<Path>)
    ensures |ps| == |ws|
  {
    seq(|ws|, i requires 0 <= i < |ws| => Found(links, hash, source, target, prefix + ws[i]))
  }

  lemma ContinuedJoined(links: seq<LinkRecord>, hash: PathHash, source: nat, target: nat, prefix: seq<Edge>,
                        a: seq<seq<Edge>>, b: seq<seq<Edge>>)
    ensures Continued(links, hash, source, target, prefix, a + b)
         == Continued(links, hash, source, target, prefix, a) + Continued(links, hash, source, target, prefix, b)
  {
    hide Found;
  }

  lemma ContinuedPrefixed(links: seq<LinkRecord>, hash: PathHash, source: nat, target: nat, prefix: seq<Edge>, e: Edge,
                          ws: seq<seq<Edge>>)
    ensures Continued(links, hash, source, target, prefix, Prefixed(e, ws))
         == Continued(links, hash, source, target, prefix + [e], ws)
  {
    hide Found;
    assert forall i :: 0 <= i < |ws| ==> prefix + ([e] + ws[i]) == prefix + [e] + ws[i];
  }

  lemma CapJoined<T>(a: seq<T>, b: seq<T>, c: seq<T>, n: nat)
    ensures Cap(Cap(a + b, n) + c, n) == Cap(a + (b + c), n)
  {
    assert a + b + c == a + (b + c);
  }

  lemma FullIsCapped<T>(a: seq<T>, b: seq<T>, n: nat)
    requires |a| == n
    ensures Cap(a + b, n) == a
  {
  }

  lemma NothingToAdd<T>(a: seq<T>, n: nat)
    requires |a| <= n
    ensures Cap(a + [], n) == a
  {
    assert a + [] == a;
  }

  lemma WalkExtended(source: nat, walked: seq<Edge>, e: Edge)
    ensures ElementsOf(source, walked + [e]) == ElementsOf(source, walked) + [LinkElement(e.link), DeviceElement(e.to)]
  {
    assert (walked + [e])[..|walked|] == walked;
  }

  lemma ContinuedByTarget(links: seq<LinkRecord>, hash: PathHash, source: nat, target: nat, walked: seq<Edge>, e: Edge,
                          out: seq<Path>, n: nat)
    requires |out| < n
    ensures Cap(out + Continued(links, hash, source, target, walked, [[e]]), n)
         == out + [Found(links, hash, source, target, walked + [e])]
  {
    hide Found;
    assert Continued(links, hash, source, target, walked, [[e]]) == [Found(links, hash, source, target, walked + [e])];
  }

  /** The search: `elems` and `visited` are its stack, shared by all levels of the recursion. */
  class PathSearch {
    const adjacency: map<nat, seq<Edge>>
    const topology: Topology
    const source: nat
    const target: nat
    const limits: Limits
    const hash: PathHash
    var elems: seq<PathElement>
    var visited: set<nat>
    var out: seq<Path>

    constructor (topology: Topology, adjacency: map<nat, seq<Edge>>, source: nat, target: nat, limits: Limits,
                 hash: PathHash)
      ensures this.topology == topology && this.adjacency == adjacency && this.limits == limits && this.hash == hash
      ensures this.source == source && this.target == target
      ensures elems == [DeviceElement(source)] && visited == {source} && out == []
    {
      this.topology, this.adjacency, this.limits, this.hash := topology, adjacency, limits, hash;
      this.source, this.target := source, target;
      elems, visited, out := [DeviceElement(source)], {source}, [];
    }

    ghost function Records(walked: seq<Edge>, ws: seq<seq<Edge>>): (ps: seq<Path>)
      ensures ws == [] ==> ps == []
    {
      Continued(topology.links, hash, source, target, walked, ws)
    }

    /** The current stack as a path to the target. */
    method Complete(ghost walk: seq<Edge>) returns (p: Path)
      requires elems == ElementsOf(source, walk)
      ensures p == Found(topology.links, hash, source, target, walk)
    {
      var n := CountNvlink(topology, elems);
      LinksOfWalk(source, walk);
      var hops := |elems| / 2;
      p := Path(hash(source, target, LinksIn(elems)), source, target, hops == 1, false, elems, hops, n);
    }

    /** Explores everything beyond `walked`: the stack and the visited set come back as they were, and the
      * output has grown by the records of the walks in order, as far as the cap allows. */
    method Dfs(cur: nat, ghost walked: seq<Edge>)
      requires forall v :: At(adjacency, v) == Neighbours(topology.links, v)
      requires elems == ElementsOf(source, walked) && |walked| < Room(limits)
      requires |out| <= limits.maxCandidatePaths
      modifies this
      ensures elems == old(elems) && visited == old(visited)
      ensures |out| <= limits.maxCandidatePaths
      ensures out == Cap(old(out) + Records(walked, Walks(topology.links, cur, visited, target,
                                                          Room(limits) - |walked|)), limits.maxCandidatePaths)
      decreases Room(limits) - |walked|, 1
    {
      hide Neighbours, Cap, ElementsOf, Records, Through, Room;
      ghost var links, room, max := topology.links, Room(limits) - |walked|, limits.maxCandidatePaths;
      ghost var goal := Cap(out + Records(walked, Walks(links, cur, visited, target, room)), max);
      if |out| >= limits.maxCandidatePaths {
        FullIsCapped(out, Records(walked, Walks(links, cur, visited, target, room)), max);
        return;
      }
      assert At(adjacency, cur) == Neighbours(links, cur);
      if cur !in adjacency {
        NothingToAdd(out, max);
        return;
      }
      var edges := adjacency[cur];
      assert edges[0..] == edges;
      for i := 0 to |edges|
        invariant elems == old(elems) && visited == old(visited)
        invariant |out| <= max
        invariant Cap(out + Records(walked, WalksVia(links, edges[i..], visited, target, room)), max) == goal
      {
        var e := edges[i];
        ghost var here := Through(links, e, visited, target, room);
        ghost var rest := WalksVia(links, edges[i + 1..], visited, target, room);
        assert edges[i..][0] == e && edges[i..][1..] == edges[i + 1..];
        RecordsJoined(walked, here, rest);
        CapJoined(out, Records(walked, here), Records(walked, rest), max);
        if e.to in visited {
          VisitedIsSkipped(links, e, visited, target, room);
          NothingToAdd(out, max);
          continue;
        }
        if |out| >= limits.maxCandidatePaths {
          FullIsCapped(out, Records(walked, here + rest), max);
          return;
        }
        Follow(e, walked);
      }
      assert edges[|edges|..] == [];
      NothingToAdd(out, max);
    }

    /** One edge: push it, take the target or go deeper, pop it. */
    method Follow(e: Edge, ghost walked: seq<Edge>)
      requires forall v :: At(adjacency, v) == Neighbours(topology.links, v)
      requires elems == ElementsOf(source, walked) && |walked| < Room(limits)
      requires e.to !in visited && |out| < limits.maxCandidatePaths
      modifies this
      ensures elems == old(elems) && visited == old(visited)
      ensures |out| <= limits.maxCandidatePaths
      ensures out == Cap(old(out) + Records(walked, Through(topology.links, e, visited, target,
                                                            Room(limits) - |walked|)), limits.maxCandidatePaths)
      decreases Room(limits) - |walked|, 0
    {
      hide Neighbours, Cap, ElementsOf, Found, Continued, Prefixed, Walks, NvlinkCount;
      ghost var links, room := topology.links, Room(limits) - |walked|;
      WalkExtended(source, walked, e);
      elems := elems + [LinkElement(e.link)];
      elems := elems + [DeviceElement(e.to)];
      assert elems == ElementsOf(source, walked + [e]);
      if e.to == target {
        var p := Complete(walked + [e]);
        ContinuedByTarget(links, hash, source, target, walked, e, out, limits.maxCandidatePaths);
        out := out + [p];
      } else if |elems| / 2 < limits.maxPathDepth {
        visited := visited + {e.to};
        Dfs(e.to, walked + [e]);
        ContinuedPrefixed(links, hash, source, target, walked, e, Walks(links, e.to, visited, target, room - 1));
        visited := visited - {e.to};
      } else {
        NothingToAdd(out, limits.maxCandidatePaths);
      }
      elems := elems[..|elems| - 1];
      elems := elems[..|elems| - 1];
    }

    lemma RecordsJoined(walked: seq<Edge>, a: seq<seq<Edge>>, b: seq<seq<Edge>>)
      ensures Records(walked, a + b) == Records(walked, a) + Records(walked, b)
    {
      ContinuedJoined(topology.links, hash, source, target, walked, a, b);
    }
  }

  lemma VisitedIsSkipped(links: seq<LinkRecord>, e: Edge, visited: set<nat>, target: nat, room: nat)
    requires e.to in visited
    ensures Through(links, e, visited, target, room) == []
  {
  }

  method TraversesSwitch(topology: Topology, elements: seq<PathElement>) returns (sw: bool)
    ensures sw == HasSwitch(topology.devices, elements)
  {
    sw := false;
    for i := 0 to |elements|
      invariant sw <==> exists j :: 0 <= j < i && IsSwitch(topology.devices, elements[j])
    {
      if elements[i].DeviceElement? {
        var d := FindDevice(topology.devices, elements[i].device);
        if d.Some? && d.value.kind == NodeKind.Switch {
          assert IsSwitch(topology.devices, elements[i]);
          sw := true;
        }
      }
    }
  }

  method EnumeratePaths(topology: Topology, hash: PathHash, source: nat, target: nat, limits: Limits)
    returns (paths: seq<Path>)
    ensures paths == Enumerated(topology, hash, source, target, limits)
  {
    hide Walks, Cap, Found, HasSwitch;
    if source == 0 || target == 0 || source == target {
      return [];
    }
    var adjacency := BuildAdjacency(topology);
    var search := new PathSearch(topology, adjacency, source, target, limits, hash);
    search.Dfs(source, []);
    paths := search.out;
    ghost var ws := Cap(AllWalks(topology, source, target, limits), limits.maxCandidatePaths);
    FirstRecords(topology, hash, source, target, limits);
    for i := 0 to |paths|
      invariant |paths| == |ws|
      invariant forall j :: 0 <= j < i ==> paths[j] == PathOf(topology, hash, source, target, ws[j])
      invariant forall j :: i <= j < |paths| ==> paths[j] == Found(topology.links, hash, source, target, ws[j])
    {
      FoundElements(topology.links, hash, source, target, ws[i]);
      var sw := TraversesSwitch(topology, paths[i].elements);
      paths := paths[i := paths[i].(switchTraversal := sw)];
    }
  }

  lemma FoundElements(links: seq<LinkRecord>, hash: PathHash, source: nat, target: nat, w: seq<Edge>)
    ensures Found(links, hash, source, target, w).elements == ElementsOf(source, w)
  {
  }

  lemma FirstRecords(topology: Topology, hash: PathHash, source: nat, target: nat, limits: Limits)
    ensures var all, n := AllWalks(topology, source, target, limits), limits.maxCandidatePaths;
            var ps := Cap([] + Continued(topology.links, hash, source, target, [], all), n);
            |ps| == |Cap(all, n)| &&
            forall i :: 0 <= i < |ps| ==> ps[i] == Found(topology.links, hash, source, target, Cap(all, n)[i])
  {
    hide Walks, Found;
    var all := AllWalks(topology, source, target, limits);
    var ps := Continued(topology.links, hash, source, target, [], all);
    assert [] + ps == ps;
    forall i | 0 <= i < |all|
      ensures ps[i] == Found(topology.links, hash, source, target, all[i])
    {
      assert [] + all[i] == all[i];
    }
  }
}
