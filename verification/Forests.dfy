/**
 Links between numbered bridges, where every link leads up on one side only and
 every bridge has at most one way up: walks that never turn straight back never
 meet a bridge twice.
 */
module Forests {
  import opened CostChains

  /** One end of a link: port p of bridge number b. */
  datatype End = End(b: nat, p: string)

  /** top[b] is the end by which bridge b goes up; heights fall on the way up. */
  datatype Forest = Forest(link: map<End, End>, top: seq<End>, height: seq<nat>) {
    predicate Up(e: End) { e.b < |top| && e == top[e.b] }
  }

  ghost predicate Ranked(f: Forest) {
    && (forall e | e in f.link :: e.b < |f.top| == |f.height|)
    && (forall e | e in f.link :: f.link[e] in f.link && f.link[f.link[e]] == e)
    && (forall e | e in f.link :: f.Up(e) <==> !f.Up(f.link[e]))
    && (forall e | e in f.link :: f.Up(e) ==> f.height[f.link[e].b] < f.height[e.b])
  }

  /** w lists ends left one after the other, never straight back over the link just crossed. */
  ghost predicate Trail(link: map<End, End>, w: seq<End>) {
    && (forall i | 0 <= i < |w| :: w[i] in link)
    && (forall i | 0 <= i < |w| - 1 :: w[i + 1].b == link[w[i]].b && w[i + 1] != link[w[i]])
  }

  /** The i-th bridge a trail visits. */
  function Visited(link: map<End, End>, w: seq<End>, i: nat): nat
    requires 0 < |w| && i <= |w| && w[|w| - 1] in link
  {
    if i < |w| then w[i].b else link[w[|w| - 1]].b
  }

  /** Once a trail goes down it keeps going down. */
  lemma {:induction false} StaysDown(f: Forest, w: seq<End>, i: nat, j: nat)
    requires Ranked(f) && Trail(f.link, w) && i <= j < |w| && !f.Up(w[i])
    ensures !f.Up(w[j])
    ensures f.height[w[i].b] < f.height[f.link[w[j]].b]
    decreases j
  {
    if i < j { StaysDown(f, w, i, j - 1); }
  }

  /** A trail that ends going up went up all along. */
  lemma {:induction false} WasUp(f: Forest, w: seq<End>, i: nat, j: nat)
    requires Ranked(f) && Trail(f.link, w) && i <= j < |w| && f.Up(w[j])
    ensures f.height[f.link[w[j]].b] < f.height[w[i].b]
    decreases j
  {
    if i < j {
      assert f.Up(w[j - 1]);
      WasUp(f, w, i, j - 1);
    }
  }

  lemma {:induction false} NoLoop(f: Forest, w: seq<End>, i: nat, j: nat)
    requires Ranked(f) && Trail(f.link, w) && i < j <= |w|
    ensures Visited(f.link, w, i) != Visited(f.link, w, j)
    decreases j - i
  {
    if !f.Up(w[i]) {
      StaysDown(f, w, i, j - 1);
    } else if f.Up(w[j - 1]) {
      WasUp(f, w, i, j - 1);
    } else if i + 1 < j - 1 {
      // up from i and down into j: if these are one bridge, both links are its one way up
      NoLoop(f, w, i + 1, j - 1);
    }
  }

  /** A trail visits each bridge at most once, so it is shorter than the number of bridges. */
  lemma TrailFacts(f: Forest, w: seq<End>)
    requires Ranked(f) && Trail(f.link, w) && w != []
    ensures forall i: nat, j: nat | i < j <= |w| :: Visited(f.link, w, i) != Visited(f.link, w, j)
    ensures |w| < |f.height|
  {
    forall i: nat, j: nat | i < j <= |w|
      ensures Visited(f.link, w, i) != Visited(f.link, w, j)
    {
      NoLoop(f, w, i, j);
    }
    PathFits(seq(|w| + 1, i requires 0 <= i <= |w| => Visited(f.link, w, i)), |f.height|);
  }

  /** The trail walked back. */
  function Back(link: map<End, End>, w: seq<End>): (r: seq<End>)
    requires forall e <- w :: e in link
    ensures |r| == |w|
  {
    seq(|w|, i requires 0 <= i < |w| => link[w[|w| - 1 - i]])
  }

  /** Two trails that leave one bridge by different ends make a trail through it. */
  lemma JoinedTrail(f: Forest, w: seq<End>, v: seq<End>)
    requires Ranked(f) && Trail(f.link, w) && Trail(f.link, v) && w != [] && v != []
    requires w[0].b == v[0].b && w[0] != v[0]
    ensures Trail(f.link, Back(f.link, w) + v)
  {
    var r := Back(f.link, w);
    forall i | 0 <= i < |w| - 1
      ensures r[i + 1].b == f.link[r[i]].b && r[i + 1] != f.link[r[i]]
    {
      var k := |w| - 2 - i;
      assert w[k + 1].b == f.link[w[k]].b && w[k + 1] != f.link[w[k]];
      assert r[i] == f.link[w[k + 1]] && r[i + 1] == f.link[w[k]];
    }
    assert r[|w| - 1] == f.link[w[0]];
  }

  /** Trails that part at their first bridge end at different ones. */
  lemma ForkedTrails(f: Forest, w: seq<End>, v: seq<End>)
    requires Ranked(f) && Trail(f.link, w) && Trail(f.link, v) && w != [] && v != []
    requires w[0].b == v[0].b && w[0] != v[0]
    ensures Visited(f.link, w, |w|) != Visited(f.link, v, |v|)
  {
    JoinedTrail(f, w, v);
    var all := Back(f.link, w) + v;
    assert all[0] == f.link[w[|w| - 1]] && all[|all| - 1] == v[|v| - 1];
    hide Ranked, Trail;
    NoLoop(f, all, 0, |all|);
  }

  /** Two trails from one bridge to one bridge are the same trail. */
  lemma {:induction false} TrailUnique(f: Forest, w: seq<End>, v: seq<End>)
    requires Ranked(f) && Trail(f.link, w) && Trail(f.link, v) && w != [] && v != []
    requires w[0].b == v[0].b && Visited(f.link, w, |w|) == Visited(f.link, v, |v|)
    ensures w == v
    decreases |w| + |v|
  {
    hide Ranked;
    if w[0] != v[0] {
      ForkedTrails(f, w, v);
    } else if 1 < |w| && 1 < |v| {
      TrailUnique(f, w[1..], v[1..]);
      assert w == [w[0]] + w[1..] && v == [v[0]] + v[1..];
    } else if 1 < |w| {
      NoLoop(f, w, 1, |w|);
    } else if 1 < |v| {
      NoLoop(f, v, 1, |v|);
    }
  }
}
