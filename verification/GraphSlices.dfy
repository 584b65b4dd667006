/** Subsystem slices of the code graph: the focal files, their neighbours, and narrower neighbour
    sets when the slice grows too large. */
module GraphSlices {
  import opened Levels

  /** `path` is the node's source file in normalised form. */
  datatype Node = Node(id: string, path: string)

  datatype Link = Link(source: Option<string>, target: Option<string>)

  type Adjacency = map<string, set<string>>

  const MAX_NODES := 1300

  const ALLOWLIST := ["backend/app/", "backend/tests/", "backend/alembic/", "frontend/src/", "frontend/e2e/", ".claude/commands/"]
  const BACKEND := ["backend/app/", "backend/alembic/"]
  const APP := ["backend/app/"]

  function Ids(nodes: seq<Node>): set<string> {
    set n | n in nodes :: n.id
  }

  predicate Joins(l: Link, a: string, b: string) {
    l == Link(Some(a), Some(b)) || l == Link(Some(b), Some(a))
  }

  predicate Joined(links: seq<Link>, n: nat, a: string, b: string)
    requires n <= |links|
  {
    exists i | 0 <= i < n :: Joins(links[i], a, b)
  }

  /** `b` is a neighbour of `a` when both are known and one of the first `n` links joins them. */
  ghost predicate AdjacentBy(adj: Adjacency, ids: set<string>, links: seq<Link>, n: nat)
    requires n <= |links|
  {
    && adj.Keys == ids
    && forall a, b :: a in ids ==> (b in adj[a] <==> b in ids && Joined(links, n, a, b))
  }

  method BuildAdj(nodes: seq<Node>, links: seq<Link>) returns (adj: Adjacency)
    ensures AdjacentBy(adj, Ids(nodes), links, |links|)
  {
    adj := map id | id in Ids(nodes) :: {};
    for i := 0 to |links|
      invariant AdjacentBy(adj, Ids(nodes), links, i)
    {
      var l := links[i];
      ghost var before := adj;
      if l.source.Some? && l.target.Some? && l.source.value in adj && l.target.value in adj {
        var a, b := l.source.value, l.target.value;
        adj := adj[a := adj[a] + {b}];
        adj := adj[b := adj[b] + {a}];
      }
      forall a, b | a in Ids(nodes)
        ensures b in adj[a] <==> b in Ids(nodes) && Joined(links, i + 1, a, b)
      {
        assert Joined(links, i + 1, a, b) <==> Joined(links, i, a, b) || Joins(l, a, b);
        assert b in adj[a] <==> b in before[a] || (b in Ids(nodes) && Joins(l, a, b));
      }
    }
  }

  /** Adjacency is symmetric and never leaves the known nodes. */
  lemma AdjacencySymmetric(adj: Adjacency, ids: set<string>, links: seq<Link>, a: string, b: string)
    requires AdjacentBy(adj, ids, links, |links|)
    ensures a in adj && b in adj[a] ==> b in adj && a in adj[b]
  {
    if a in adj && b in adj[a] {
      assert Joined(links, |links|, a, b);
      var i :| 0 <= i < |links| && Joins(links[i], a, b);
      assert Joins(links[i], b, a);
      assert Joined(links, |links|, b, a);
    }
  }

  ghost predicate Closed(adj: Adjacency, ids: set<string>) {
    forall a <- adj :: adj[a] <= ids
  }

  /** A later node with the same id replaces the earlier one. */
  function PathsTo(nodes: seq<Node>, n: nat): (m: map<string, string>)
    requires n <= |nodes|
    ensures forall i | 0 <= i < n :: nodes[i].id in m
  {
    if n == 0 then map[] else PathsTo(nodes, n - 1)[nodes[n - 1].id := nodes[n - 1].path]
  }

  function Paths(nodes: seq<Node>): (m: map<string, string>)
    ensures Ids(nodes) <= m.Keys
  {
    PathsTo(nodes, |nodes|)
  }

  predicate Under(path: string, prefixes: seq<string>) {
    exists p <- prefixes :: p <= path
  }

  function Focal(nodes: seq<Node>, files: seq<string>): set<string> {
    set n | n in nodes && n.path in files :: n.id
  }

  /** Neighbours of the focal nodes whose files lie under one of the prefixes. */
  function Neighbours(adj: Adjacency, paths: map<string, string>, focal: set<string>, prefixes: seq<string>): set<string> {
    set f, nb | f in focal && f in adj && nb in adj[f] && nb in paths && Under(paths[nb], prefixes) :: nb
  }

  function Tier(nodes: seq<Node>, adj: Adjacency, focal: set<string>, prefixes: seq<string>): set<string> {
    focal + Neighbours(adj, Paths(nodes), focal, prefixes)
  }

  /** The widest tier of at most 1300 nodes, else the backend tier of at most 1800, else the narrowest. */
  function Slice(nodes: seq<Node>, adj: Adjacency, files: seq<string>, allowlist: seq<string>): set<string> {
    var focal := Focal(nodes, files);
    Choose(Tier(nodes, adj, focal, allowlist), Tier(nodes, adj, focal, BACKEND), Tier(nodes, adj, focal, APP))
  }

  function Choose(wide: set<string>, backend: set<string>, app: set<string>): set<string> {
    if |wide| <= MAX_NODES then wide
    else if |backend| <= MAX_NODES + 500 then backend
    else app
  }

  method IndexPaths(nodes: seq<Node>) returns (paths: map<string, string>)
    ensures paths == Paths(nodes)
  {
    paths := map[];
    for i := 0 to |nodes|
      invariant paths == PathsTo(nodes, i)
    {
      paths := paths[nodes[i].id := nodes[i].path];
    }
  }

  method FindFocal(nodes: seq<Node>, files: seq<string>) returns (focal: set<string>)
    ensures focal == Focal(nodes, files)
  {
    focal := {};
    for i := 0 to |nodes|
      invariant focal == set j | 0 <= j < i && nodes[j].path in files :: nodes[j].id
    {
      if nodes[i].path in files {
        focal := focal + {nodes[i].id};
      }
    }
    forall id
      ensures id in focal <==> id in Focal(nodes, files)
    {
      if id in Focal(nodes, files) {
        var n :| n in nodes && n.path in files && n.id == id;
        var j :| 0 <= j < |nodes| && nodes[j] == n;
      }
    }
  }

  /** One pass over the focal nodes; the lookup of a neighbour's file never misses. */
  method Widen(adj: Adjacency, paths: map<string, string>, focal: set<string>, prefixes: seq<string>)
    returns (selected: set<string>)
    requires Closed(adj, paths.Keys)
    ensures selected == focal + Neighbours(adj, paths, focal, prefixes)
  {
    selected := focal;
    var todo := focal;
    while todo != {}
      invariant todo <= focal
      invariant selected == focal + Neighbours(adj, paths, focal - todo, prefixes)
    {
      var fid :| fid in todo;
      todo := todo - {fid};
      ghost var before, done := selected, {};
      var rest := if fid in adj then adj[fid] else {};
      while rest != {}
        invariant fid in adj ==> rest <= adj[fid] && done == adj[fid] - rest
        invariant fid !in adj ==> rest == done == {}
        invariant selected == before + set nb | nb in done && Under(paths[nb], prefixes)
      {
        var nb :| nb in rest;
        rest, done := rest - {nb}, done + {nb};
        if Under(paths[nb], prefixes) {
          selected := selected + {nb};
        }
      }
      assert focal - todo == (focal - (todo + {fid})) + {fid};
    }
    assert focal - todo == focal;
  }

  method SliceIds(nodes: seq<Node>, adj: Adjacency, files: seq<string>, allowlist: seq<string>) returns (selected: set<string>)
    requires Closed(adj, Ids(nodes))
    ensures selected == Slice(nodes, adj, files, allowlist)
  {
    var paths := IndexPaths(nodes);
    var focal := FindFocal(nodes, files);
    assert Closed(adj, paths.Keys);
    selected := Widen(adj, paths, focal, allowlist);
    if |selected| > MAX_NODES {
      selected := Widen(adj, paths, focal, BACKEND);
    }
    if |selected| > MAX_NODES + 500 {
      selected := Widen(adj, paths, focal, APP);
    }
  }

  ghost predicate WithinOneHop(s: set<string>, adj: Adjacency, focal: set<string>) {
    forall id <- s :: id in focal || exists f :: f in focal && f in adj && id in adj[f]
  }

  lemma NeighboursShrink(adj: Adjacency, paths: map<string, string>, focal: set<string>, few: seq<string>, many: seq<string>)
    requires forall p <- few :: p in many
    ensures Neighbours(adj, paths, focal, few) <= Neighbours(adj, paths, focal, many)
  {
    forall nb <- Neighbours(adj, paths, focal, few)
      ensures nb in Neighbours(adj, paths, focal, many)
    {
      var f :| f in focal && f in adj && nb in adj[f];
      assert Under(paths[nb], many);
    }
  }

  lemma PrefixesNest()
    ensures forall p <- APP :: p in BACKEND
    ensures forall p <- BACKEND :: p in ALLOWLIST
  {
    assert ALLOWLIST[0] == BACKEND[0] && ALLOWLIST[2] == BACKEND[1];
  }

  /** Every fallback tier is part of the tier before it. */
  lemma TiersNest(nodes: seq<Node>, adj: Adjacency, focal: set<string>)
    ensures Tier(nodes, adj, focal, APP) <= Tier(nodes, adj, focal, BACKEND) <= Tier(nodes, adj, focal, ALLOWLIST)
  {
    PrefixesNest();
    NeighboursShrink(adj, Paths(nodes), focal, APP, BACKEND);
    NeighboursShrink(adj, Paths(nodes), focal, BACKEND, ALLOWLIST);
  }

  lemma TierOneHop(nodes: seq<Node>, adj: Adjacency, focal: set<string>, prefixes: seq<string>)
    ensures WithinOneHop(Tier(nodes, adj, focal, prefixes), adj, focal)
  {
  }

  lemma ChooseBounds(adj: Adjacency, focal: set<string>, wide: set<string>, backend: set<string>, app: set<string>)
    requires focal <= app <= backend <= wide && WithinOneHop(wide, adj, focal)
    ensures var s := Choose(wide, backend, app);
            && focal <= s && WithinOneHop(s, adj, focal)
            && app <= s <= wide && (|s| <= MAX_NODES + 500 || s == app)
  {
  }

  /** A slice always holds its focal nodes and stays within one hop of them; it lies between the
      narrowest and the widest tier; and with more than 1800 nodes it is the narrowest there is. */
  lemma SliceBounds(nodes: seq<Node>, adj: Adjacency, files: seq<string>)
    ensures var focal := Focal(nodes, files);
            var s := Slice(nodes, adj, files, ALLOWLIST);
            && focal <= s && WithinOneHop(s, adj, focal)
            && Tier(nodes, adj, focal, APP) <= s <= Tier(nodes, adj, focal, ALLOWLIST)
            && (|s| <= MAX_NODES + 500 || s == Tier(nodes, adj, focal, APP))
  {
    var focal := Focal(nodes, files);
    var app, backend := Tier(nodes, adj, focal, APP), Tier(nodes, adj, focal, BACKEND);
    var wide := Tier(nodes, adj, focal, ALLOWLIST);
    assert focal <= app;
    TiersNest(nodes, adj, focal);
    TierOneHop(nodes, adj, focal, ALLOWLIST);
    ChooseBounds(adj, focal, wide, backend, app);
  }

  lemma {:induction false} LastPath(nodes: seq<Node>, n: nat, i: nat)
    requires i < n <= |nodes| && forall j | i < j < n :: nodes[j].id != nodes[i].id
    ensures nodes[i].id in PathsTo(nodes, n) && PathsTo(nodes, n)[nodes[i].id] == nodes[i].path
  {
    if i != n - 1 {
      LastPath(nodes, n - 1, i);
    }
  }

  /** What is in a tier: the nodes of the given files, and those next to one of them whose own file, by the
      last node that carries the id, starts with one of the prefixes. */
  lemma InTier(nodes: seq<Node>, adj: Adjacency, files: seq<string>, prefixes: seq<string>, i: nat)
    requires i < |nodes| && forall j | i < j < |nodes| :: nodes[j].id != nodes[i].id
    ensures nodes[i].id in Tier(nodes, adj, Focal(nodes, files), prefixes) <==>
              || (exists n :: n in nodes && n.id == nodes[i].id && n.path in files)
              || ((exists p :: p in prefixes && p <= nodes[i].path)
                  && exists n :: n in nodes && n.path in files && n.id in adj && nodes[i].id in adj[n.id])
  {
    LastPath(nodes, |nodes|, i);
    var id, focal := nodes[i].id, Focal(nodes, files);
    assert id in Neighbours(adj, Paths(nodes), focal, prefixes)
      <==> (exists f :: f in focal && f in adj && id in adj[f]) && Under(nodes[i].path, prefixes);
    assert forall n <- nodes | n.path in files :: n.id in focal;
  }

  lemma ChooseIs(wide: set<string>, backend: set<string>, app: set<string>)
    ensures |wide| <= 1300 ==> Choose(wide, backend, app) == wide
    ensures 1300 < |wide| && |backend| <= 1800 ==> Choose(wide, backend, app) == backend
    ensures 1300 < |wide| && 1800 < |backend| ==> Choose(wide, backend, app) == app
    ensures BACKEND == ["backend/app/", "backend/alembic/"] && APP == ["backend/app/"]
  {
  }

  /** Which tier a slice is: the widest of at most 1300 nodes, else the one of application and migrations of
      at most 1800, else the application alone. */
  lemma SliceIs(nodes: seq<Node>, adj: Adjacency, files: seq<string>, allowlist: seq<string>)
    ensures var focal, s := Focal(nodes, files), Slice(nodes, adj, files, allowlist);
            var wide, backend := Tier(nodes, adj, focal, allowlist), Tier(nodes, adj, focal, BACKEND);
            && (|wide| <= 1300 ==> s == wide)
            && (1300 < |wide| && |backend| <= 1800 ==> s == backend)
            && (1300 < |wide| && 1800 < |backend| ==> s == Tier(nodes, adj, focal, APP))
    ensures BACKEND == ["backend/app/", "backend/alembic/"] && APP == ["backend/app/"]
  {
    var focal := Focal(nodes, files);
    ChooseIs(Tier(nodes, adj, focal, allowlist), Tier(nodes, adj, focal, BACKEND), Tier(nodes, adj, focal, APP));
  }
}
