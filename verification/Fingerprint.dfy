/**
  Wallet syndicates learned from co-occurrence (fingerprint/engine.py:54-101, 155-171):
  pairs that appear together often enough are edges, and the connected components of
  those edges become clusters.
*/
module Fingerprint {

  type Wallet = nat

  /** An undirected edge; `a` is the smaller end. */
  datatype Edge = Edge(a: Wallet, b: Wallet)

  type Weights = map<Edge, nat>

  /** How many actor sets contain both wallets. */
  function Together(sets: seq<set<Wallet>>, a: Wallet, b: Wallet): nat {
    if sets == [] then 0
    else
      var last := sets[|sets| - 1];
      Together(sets[..|sets| - 1], a, b) + if a in last && b in last then 1 else 0
  }

  function SetsWith(sets: seq<set<Wallet>>, a: Wallet, b: Wallet): set<int> {
    set i | 0 <= i < |sets| && a in sets[i] && b in sets[i]
  }

  lemma OneMoreSet(sets: seq<set<Wallet>>, a: Wallet, b: Wallet)
    requires sets != []
    ensures |SetsWith(sets, a, b)|
         == |SetsWith(sets[..|sets| - 1], a, b)| + if a in sets[|sets| - 1] && b in sets[|sets| - 1] then 1 else 0
  {
    var n := |sets| - 1;
    assert SetsWith(sets, a, b) == SetsWith(sets[..n], a, b) + if a in sets[n] && b in sets[n] then {n} else {};
  }

  lemma {:induction false} TogetherIs(sets: seq<set<Wallet>>, a: Wallet, b: Wallet)
    ensures Together(sets, a, b) == |SetsWith(sets, a, b)|
  {
    if sets != [] {
      TogetherIs(sets[..|sets| - 1], a, b);
      OneMoreSet(sets, a, b);
      hide SetsWith;
    }
  }

  lemma TogetherCounts(sets: seq<set<Wallet>>, a: Wallet, b: Wallet)
    ensures Together(sets, a, b) == |set i | 0 <= i < |sets| && a in sets[i] && b in sets[i]|
  {
    TogetherIs(sets, a, b);
  }

  function WeightOf(w: Weights, e: Edge): nat {
    if e in w then w[e] else 0
  }

  ghost predicate Proper(w: Weights) {
    forall e :: e in w ==> e.a < e.b && w[e] > 0
  }

  // ---------------------------------------------------------------- co-occurrence graph

  ghost predicate IsSorted(s: seq<Wallet>) {
    forall i, j :: 0 <= i < j < |s| ==> s[i] < s[j]
  }

  ghost function Least(s: set<Wallet>): (m: Wallet)
    requires s != {}
    ensures m in s && forall x :: x in s ==> m <= x
  {
    var y :| y in s;
    var rest := s - {y};
    assert forall x :: x in s ==> x == y || x in rest;
    if rest == {} then y
    else
      var m := Least(rest);
      if y < m then y else m
  }

  lemma AppendLeast(members: seq<Wallet>, rest: set<Wallet>, m: Wallet)
    requires IsSorted(members) && m in rest && forall x :: x in rest ==> m <= x
    requires forall i, y :: 0 <= i < |members| && y in rest ==> members[i] < y
    ensures IsSorted(members + [m])
    ensures forall i, y :: 0 <= i < |members + [m]| && y in rest - {m} ==> (members + [m])[i] < y
  {
  }

  method Sorted(s: set<Wallet>) returns (members: seq<Wallet>)
    ensures IsSorted(members) && forall x :: x in members <==> x in s
  {
    members := [];
    var rest := s;
    while rest != {}
      invariant IsSorted(members) && rest <= s
      invariant forall x :: x in s <==> x in members || x in rest
      invariant forall i, y :: 0 <= i < |members| && y in rest ==> members[i] < y
      decreases rest
    {
      assert Least(rest) in rest;
      var m :| m in rest && forall x :: x in rest ==> m <= x;
      AppendLeast(members, rest, m);
      hide IsSorted;
      members := members + [m];
      rest := rest - {m};
    }
  }

  lemma SliceGrows(members: seq<Wallet>, from: nat, j: nat)
    requires IsSorted(members) && from <= j < |members|
    ensures members[from..j + 1] == members[from..j] + [members[j]] && members[j] !in members[from..j]
  {
  }

  /** One pair more. */
  lemma CountPair(weights: Weights, w: Weights, members: seq<Wallet>, i: nat, j: nat)
    requires Proper(w) && IsSorted(members) && i < j < |members|
    requires forall e :: WeightOf(w, e)
                      == WeightOf(weights, e) + if e.a == members[i] && e.b in members[i + 1..j] then 1 else 0
    ensures var e := Edge(members[i], members[j]);
            var more := w[e := WeightOf(w, e) + 1];
            && Proper(more)
            && forall f :: WeightOf(more, f)
                        == WeightOf(weights, f) + if f.a == members[i] && f.b in members[i + 1..j + 1] then 1 else 0
  {
    SliceGrows(members, i + 1, j);
  }

  /** One member against those after it. */
  method AddRow(weights: Weights, members: seq<Wallet>, i: nat) returns (w: Weights)
    requires Proper(weights) && IsSorted(members) && i < |members|
    ensures Proper(w)
    ensures forall e :: WeightOf(w, e)
                     == WeightOf(weights, e) + if e.a == members[i] && e.b in members[i + 1..] then 1 else 0
  {
    hide Proper, IsSorted;
    w := weights;
    var j := i + 1;
    while j < |members|
      invariant i + 1 <= j <= |members|
      invariant Proper(w)
      invariant forall e :: WeightOf(w, e)
                         == WeightOf(weights, e) + if e.a == members[i] && e.b in members[i + 1..j] then 1 else 0
    {
      var e := Edge(members[i], members[j]);
      CountPair(weights, w, members, i, j);
      if e in w {
        w := w[e := w[e] + 1];
      } else {
        w := w[e := 1];
      }
      j := j + 1;
    }
    assert members[i + 1..j] == members[i + 1..];
  }

  /** Every pair of one actor set, once. */
  method AddSet(weights: Weights, wallets: set<Wallet>) returns (w: Weights)
    requires Proper(weights)
    ensures Proper(w)
    ensures forall e: Edge :: e.a < e.b ==>
              WeightOf(w, e) == WeightOf(weights, e) + if e.a in wallets && e.b in wallets then 1 else 0
  {
    var members := Sorted(wallets);
    w := weights;
    var i := 0;
    while i < |members|
      invariant 0 <= i <= |members|
      invariant Proper(w)
      invariant forall e: Edge :: e.a < e.b ==>
                  WeightOf(w, e) == WeightOf(weights, e) + if e.a in members[0..i] && e.b in members then 1 else 0
    {
      SliceGrows(members, 0, i);
      forall e: Edge | e.a == members[i] && e.a < e.b ensures e.b in members[i + 1..] <==> e.b in members {
        LaterAreGreater(members, i, e.b);
      }
      w := AddRow(w, members, i);
      i := i + 1;
    }
    assert members[0..i] == members;
  }

  lemma LaterAreGreater(members: seq<Wallet>, i: nat, x: Wallet)
    requires IsSorted(members) && i < |members| && members[i] < x
    ensures x in members[i + 1..] <==> x in members
  {
    if x in members {
      var j :| 0 <= j < |members| && members[j] == x;
      assert j > i;
      assert members[i + 1..][j - i - 1] == x;
    }
  }

  /** The weight of a pair is the number of actor sets in which both appear. */
  method CoOccurrence(sets: seq<set<Wallet>>) returns (w: Weights)
    ensures Proper(w)
    ensures forall a, b :: a < b ==> WeightOf(w, Edge(a, b)) == Together(sets, a, b)
  {
    w := map[];
    var i := 0;
    while i < |sets|
      invariant 0 <= i <= |sets|
      invariant Proper(w)
      invariant forall a, b :: a < b ==> WeightOf(w, Edge(a, b)) == Together(sets[..i], a, b)
    {
      assert sets[..i + 1][..i] == sets[..i];
      w := AddSet(w, sets[i]);
      i := i + 1;
    }
    assert sets[..i] == sets;
  }

  /** The frequent edges: both wallets together in at least `least` actor sets, and at all. */
  ghost predicate Frequent(sets: seq<set<Wallet>>, least: int, e: Edge) {
    e.a < e.b && Together(sets, e.a, e.b) >= least && Together(sets, e.a, e.b) > 0
  }

  lemma FrequentMeans(sets: seq<set<Wallet>>, least: int, a: Wallet, b: Wallet)
    requires a < b
    ensures Frequent(sets, least, Edge(a, b)) <==> var n := |set i | 0 <= i < |sets| && a in sets[i] && b in sets[i]|;
                                                   n >= least && n > 0
  {
    TogetherCounts(sets, a, b);
  }

  method FrequentEdges(sets: seq<set<Wallet>>, least: int) returns (edges: set<Edge>)
    ensures forall e :: e in edges <==> Frequent(sets, least, e)
  {
    var w := CoOccurrence(sets);
    edges := set e | e in w && w[e] >= least;
    forall e ensures e in edges <==> Frequent(sets, least, e) {
      if e.a < e.b {
        assert WeightOf(w, Edge(e.a, e.b)) == Together(sets, e.a, e.b);
        assert e == Edge(e.a, e.b);
      }
    }
  }

  // ------------------------------------------------------------------------ components

  predicate Joins(e: Edge, x: Wallet, y: Wallet) {
    (e.a == x && e.b == y) || (e.a == y && e.b == x)
  }

  /** No edge leaves `c`. */
  predicate Closed(edges: set<Edge>, c: set<Wallet>) {
    forall e :: e in edges ==> (e.a in c <==> e.b in c)
  }

  /** Some edge leads from `part` to the rest of `c`. */
  ghost predicate Crossed(edges: set<Edge>, c: set<Wallet>, part: set<Wallet>) {
    exists e :: e in edges && e.a in c && e.b in c && (e.a in part <==> e.b !in part)
  }

  /** However `c` is divided in two, an edge crosses. */
  ghost predicate Connected(edges: set<Edge>, c: set<Wallet>) {
    forall part :: part != {} && part < c ==> Crossed(edges, c, part)
  }

  function Nodes(edges: set<Edge>): set<Wallet> {
    (set e | e in edges :: e.a) + (set e | e in edges :: e.b)
  }

  ghost predicate IsComponent(edges: set<Edge>, c: set<Wallet>) {
    c != {} && c <= Nodes(edges) && Closed(edges, c) && Connected(edges, c)
  }

  lemma OneMoreIsConnected(edges: set<Edge>, c: set<Wallet>, x: Wallet, y: Wallet, e: Edge)
    requires Connected(edges, c) && x in c && y !in c && e in edges && Joins(e, x, y)
    ensures Connected(edges, c + {y})
  {
    var more := c + {y};
    forall part | part != {} && part < more ensures Crossed(edges, more, part) {
      var within := part * c;
      if within != {} && within != c {
        assert within < c;
        assert Crossed(edges, c, within);
        var f :| f in edges && f.a in c && f.b in c && (f.a in within <==> f.b !in within);
        assert f.a in part <==> f.b !in part;
      } else {
        assert x in part <==> y !in part by {
          if within == {} {
            assert part <= {y};
          }
        }
        assert Crossed(edges, more, part);
      }
    }
  }

  lemma OneNodeIsConnected(edges: set<Edge>, x: Wallet)
    ensures Connected(edges, {x})
  {
    forall part: set<Wallet> | part <= {x} ensures part == {} || part == {x} {
      if x in part {
        assert part == {x};
      }
    }
  }

  /** The component of one node, grown edge by edge. */
  method Grow(edges: set<Edge>, start: Wallet) returns (c: set<Wallet>)
    requires start in Nodes(edges)
    ensures IsComponent(edges, c) && start in c
  {
    c := {start};
    OneNodeIsConnected(edges, start);
    while !Closed(edges, c)
      invariant start in c && c <= Nodes(edges) && Connected(edges, c)
      decreases Nodes(edges) - c
    {
      var e :| e in edges && !(e.a in c <==> e.b in c);
      var x, y := if e.a in c then e.a else e.b, if e.a in c then e.b else e.a;
      OneMoreIsConnected(edges, c, x, y, e);
      c := c + {y};
    }
  }

  lemma ComponentContained(edges: set<Edge>, c: set<Wallet>, d: set<Wallet>, x: Wallet)
    requires Connected(edges, c) && Closed(edges, d) && x in c && x in d
    ensures c <= d
  {
    var part := c * d;
    assert x in part;
    assert !Crossed(edges, c, part);
    assert !(part < c);
    assert part == c;
  }

  /** Two components are the same or have nothing in common. */
  lemma ComponentsAreDisjoint(edges: set<Edge>, c: set<Wallet>, d: set<Wallet>)
    requires IsComponent(edges, c) && IsComponent(edges, d)
    ensures c == d || c !! d
  {
    if !(c !! d) {
      var x :| x in c && x in d;
      ComponentContained(edges, c, d, x);
      ComponentContained(edges, d, c, x);
    }
  }

  /** A frequent edge has two different ends, so no component is a single wallet. */
  lemma ComponentHasTwo(sets: seq<set<Wallet>>, least: int, edges: set<Edge>, c: set<Wallet>)
    requires forall e :: e in edges <==> Frequent(sets, least, e)
    requires IsComponent(edges, c)
    ensures |c| >= 2
  {
    var x :| x in c;
    var e :| e in edges && (e.a == x || e.b == x);
    assert {e.a, e.b} <= c && e.a != e.b;
    CardOfSubset({e.a, e.b}, c);
  }

  lemma CardOfSubset(s: set<Wallet>, t: set<Wallet>)
    requires s <= t
    ensures |s| <= |t|
  {
    assert t == s + (t - s);
  }

  /** The components listed so far cover exactly the nodes not left to do. */
  ghost predicate Listed(edges: set<Edge>, cs: seq<set<Wallet>>, todo: set<Wallet>) {
    && (forall c :: c in cs ==> IsComponent(edges, c) && c !! todo)
    && (forall i, j :: 0 <= i < j < |cs| ==> cs[i] !! cs[j])
    && forall x :: x in Nodes(edges) ==> x in todo || exists c :: c in cs && x in c
  }

  lemma OneMoreListed(edges: set<Edge>, cs: seq<set<Wallet>>, todo: set<Wallet>, c: set<Wallet>, x: Wallet)
    requires Listed(edges, cs, todo) && IsComponent(edges, c) && x in c && x in todo
    ensures Listed(edges, cs + [c], todo - c)
  {
    forall d | d in cs ensures d !! c {
      assert x !in d;
      ComponentsAreDisjoint(edges, d, c);
    }
    hide IsComponent;
    assert forall i :: 0 <= i < |cs| ==> cs[i] in cs;
    forall y | y in Nodes(edges) && y !in todo - c ensures exists d :: d in cs + [c] && y in d {
      if y in c {
        assert c in cs + [c];
      } else {
        var d :| d in cs && y in d;
        assert d in cs + [c];
      }
    }
  }

  method Components(edges: set<Edge>) returns (cs: seq<set<Wallet>>)
    ensures Listed(edges, cs, {})
  {
    cs := [];
    var todo := Nodes(edges);
    while todo != {}
      invariant todo <= Nodes(edges) && Listed(edges, cs, todo)
      decreases todo
    {
      var x :| x in todo;
      var c := Grow(edges, x);
      OneMoreListed(edges, cs, todo, c, x);
      cs := cs + [c];
      todo := todo - c;
    }
  }

  // -------------------------------------------------------------------------- learning

  datatype Cluster = Cluster(version: string, members: set<Wallet>)

  predicate Stored(clusters: seq<Cluster>, version: string, c: set<Wallet>) {
    Cluster(version, c) in clusters
  }

  /** What one pass adds: components of the frequent edges that were not stored, each once. */
  ghost predicate Additions(edges: set<Edge>, version: string, before: seq<Cluster>, added: seq<Cluster>) {
    && (forall k :: k in added ==> k.version == version && IsComponent(edges, k.members) && k !in before)
    && forall i, j :: 0 <= i < j < |added| ==> added[i].members !! added[j].members
  }

  class FingerprintEngine {
    var clusters: seq<Cluster>

    constructor ()
      ensures clusters == []
    {
      clusters := [];
    }

    method ClusterExists(version: string, members: set<Wallet>) returns (found: bool)
      ensures found <==> Stored(clusters, version, members)
    {
      found := false;
      var i := 0;
      while i < |clusters| && !found
        invariant 0 <= i <= |clusters|
        invariant found ==> Stored(clusters, version, members)
        invariant !found ==> Cluster(version, members) !in clusters[..i]
      {
        found := clusters[i].version == version && clusters[i].members == members;
        if found {
          assert clusters[i] == Cluster(version, members);
        }
        i := i + 1;
      }
      assert clusters[..|clusters|] == clusters;
    }

    /**
      Afterwards every component of the frequent edges is stored, and nothing else was added. A
      pass that finds all components stored, as a second one over the same sets does, adds nothing.
    */
    method Learn(sets: seq<set<Wallet>>, least: int, version: string) returns (built: nat, ghost edges: set<Edge>)
      modifies this
      ensures forall e :: e in edges <==> Frequent(sets, least, e)
      ensures forall a, b :: a < b ==>
                (Edge(a, b) in edges <==> var n := |set i | 0 <= i < |sets| && a in sets[i] && b in sets[i]|;
                                          n >= least && n > 0)
      ensures built == |clusters| - |old(clusters)|
      ensures exists added :: clusters == old(clusters) + added && Additions(edges, version, old(clusters), added)
      ensures forall c :: IsComponent(edges, c) ==> Stored(clusters, version, c)
      ensures (forall c :: IsComponent(edges, c) ==> Stored(old(clusters), version, c)) ==>
                built == 0 && clusters == old(clusters)
    {
      hide Frequent, IsComponent, Listed, Progress, Additions;
      var frequent := FrequentEdges(sets, least);
      edges := frequent;
      forall a, b | a < b
        ensures Edge(a, b) in edges <==> var n := |set i | 0 <= i < |sets| && a in sets[i] && b in sets[i]|;
                                         n >= least && n > 0
      {
        FrequentMeans(sets, least, a, b);
      }
      var cs := Components(frequent);
      ghost var before := clusters;
      ghost var added: seq<Cluster> := [];
      built := 0;
      assert before + [] == before;
      NoProgressYet(edges, version, before, cs);
      var i := 0;
      while i < |cs|
        invariant 0 <= i <= |cs| && built == |added| && clusters == before + added
        invariant Progress(edges, version, before, added, cs, i)
      {
        var found := ClusterExists(version, cs[i]);
        if !found {
          AddOne(edges, version, before, added, cs, i);
          clusters := clusters + [Cluster(version, cs[i])];
          added := added + [Cluster(version, cs[i])];
          built := built + 1;
        } else {
          SkipOne(edges, version, before, added, cs, i);
        }
        i := i + 1;
      }
      AllStored(edges, version, before, added, cs);
      if forall c :: IsComponent(edges, c) ==> Stored(before, version, c) {
        NothingToAdd(edges, version, before, added);
      }
      hide *;
    }
  }

  /** After the first `i` components each of them is stored, and what was added is among them. */
  ghost predicate Progress(edges: set<Edge>, version: string, before: seq<Cluster>, added: seq<Cluster>,
                           cs: seq<set<Wallet>>, i: nat)
  {
    && i <= |cs|
    && Additions(edges, version, before, added)
    && (forall k :: k in added ==> exists j :: 0 <= j < i && cs[j] == k.members)
    && forall j :: 0 <= j < i ==> Stored(before + added, version, cs[j])
  }

  lemma NoProgressYet(edges: set<Edge>, version: string, before: seq<Cluster>, cs: seq<set<Wallet>>)
    ensures Progress(edges, version, before, [], cs, 0)
  {
  }

  lemma SkipOne(edges: set<Edge>, version: string, before: seq<Cluster>, added: seq<Cluster>, cs: seq<set<Wallet>>,
                i: nat)
    requires Progress(edges, version, before, added, cs, i) && i < |cs| && Stored(before + added, version, cs[i])
    ensures Progress(edges, version, before, added, cs, i + 1)
  {
    hide Additions, Stored;
    forall k | k in added ensures exists j :: 0 <= j < i + 1 && cs[j] == k.members {
      var j :| 0 <= j < i && cs[j] == k.members;
      assert 0 <= j < i + 1;
    }
  }

  lemma AddOne(edges: set<Edge>, version: string, before: seq<Cluster>, added: seq<Cluster>, cs: seq<set<Wallet>>,
               i: nat)
    requires Progress(edges, version, before, added, cs, i) && i < |cs| && Listed(edges, cs, {})
    requires !Stored(before + added, version, cs[i])
    ensures Progress(edges, version, before, added + [Cluster(version, cs[i])], cs, i + 1)
  {
    hide IsComponent;
    var cluster := Cluster(version, cs[i]);
    var more := added + [cluster];
    assert before + more == (before + added) + [cluster];
    forall k | k in added ensures k.members !! cs[i] {
      var j :| 0 <= j < i && cs[j] == k.members;
    }
    assert Additions(edges, version, before, more) by {
      assert forall j :: 0 <= j < |added| ==> added[j] in added;
      assert cs[i] in cs;
    }
    forall k | k in more ensures exists j :: 0 <= j < i + 1 && cs[j] == k.members {
      if k in added {
        var j :| 0 <= j < i && cs[j] == k.members;
        assert 0 <= j < i + 1;
      } else {
        assert cs[i] == k.members;
      }
    }
  }

  /** A listing that covers all nodes with components lists every component. */
  lemma AmongComponents(edges: set<Edge>, cs: seq<set<Wallet>>, c: set<Wallet>) returns (i: nat)
    requires Listed(edges, cs, {}) && IsComponent(edges, c)
    ensures i < |cs| && cs[i] == c
  {
    var x :| x in c;
    assert x in Nodes(edges);
    var d :| d in cs && x in d;
    ComponentsAreDisjoint(edges, c, d);
    hide *;
    i :| 0 <= i < |cs| && cs[i] == d;
  }

  lemma AllStored(edges: set<Edge>, version: string, before: seq<Cluster>, added: seq<Cluster>, cs: seq<set<Wallet>>)
    requires Progress(edges, version, before, added, cs, |cs|) && Listed(edges, cs, {})
    ensures forall c :: IsComponent(edges, c) ==> Stored(before + added, version, c)
    ensures Additions(edges, version, before, added)
  {
    hide IsComponent, Additions, Stored;
    forall c | IsComponent(edges, c) ensures Stored(before + added, version, c) {
      var i := AmongComponents(edges, cs, c);
    }
  }

  /** Where all components are stored there is nothing to add. */
  lemma NothingToAdd(edges: set<Edge>, version: string, stored: seq<Cluster>, added: seq<Cluster>)
    requires forall c :: IsComponent(edges, c) ==> Stored(stored, version, c)
    requires Additions(edges, version, stored, added)
    ensures added == []
  {
    hide IsComponent;
    forall k: Cluster | k.version == version && IsComponent(edges, k.members) ensures k in stored {
      assert Stored(stored, version, k.members);
    }
    FirstIsIn(added);
  }

  lemma FirstIsIn(added: seq<Cluster>)
    ensures added != [] ==> added[0] in added
  {
  }

  /** Learning twice from the same actor sets stores no cluster the second time. */
  method LearnTwice(engine: FingerprintEngine, sets: seq<set<Wallet>>, least: int, version: string) returns (again: nat)
    modifies engine
    ensures again == 0
  {
    hide *;
    var first, edges := engine.Learn(sets, least, version);
    var second, same := engine.Learn(sets, least, version);
    assert same == edges;
    again := second;
  }
}
