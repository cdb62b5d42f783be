/**
 Costs that accumulate along parent links with 32-bit addition. When each node's
 share is capped and the caps together stay below the modulus, following
 parents never comes back and the additions never wrap.
 */
module CostChains {
  import opened StpVectors

  /** A node's way up: none, or a parent and the cost of getting there. */
  datatype Up = Top | Via(parent: nat, weight: nat)

  function Total(caps: seq<nat>): nat {
    if caps == [] then 0 else Total(caps[..|caps| - 1]) + caps[|caps| - 1]
  }

  ghost predicate Consistent(ups: seq<Up>, cost: seq<nat>, caps: seq<nat>) {
    && |ups| == |cost| == |caps| && Total(caps) < COST_MODULUS
    && forall b | 0 <= b < |ups| ::
         match ups[b]
         case Top => cost[b] == 0
         case Via(p, w) => p < |ups| && 0 < w <= caps[b] && cost[b] == (cost[p] + w) % COST_MODULUS
  }

  /** Consistency of a single node. */
  ghost predicate Step(ups: seq<Up>, cost: seq<nat>, caps: seq<nat>, b: nat) {
    && b < |ups| && |ups| == |cost| == |caps|
    && match ups[b]
       case Top => cost[b] == 0
       case Via(p, w) => p < |ups| && 0 < w <= caps[b] && cost[b] == (cost[p] + w) % COST_MODULUS
  }

  lemma StepsConsistent(ups: seq<Up>, cost: seq<nat>, caps: seq<nat>)
    requires |ups| == |cost| == |caps| && Total(caps) < COST_MODULUS
    requires forall b: nat | b < |ups| :: Step(ups, cost, caps, b)
    ensures Consistent(ups, cost, caps)
  {
    forall b | 0 <= b < |ups|
      ensures match ups[b]
              case Top => cost[b] == 0
              case Via(p, w) => p < |ups| && 0 < w <= caps[b] && cost[b] == (cost[p] + w) % COST_MODULUS
    {
      assert Step(ups, cost, caps, b);
    }
  }

  /** `path` climbs from node to parent, visiting no node twice. */
  ghost predicate Climbs(ups: seq<Up>, path: seq<nat>) {
    && (forall i | 0 <= i < |path| :: path[i] < |ups|)
    && (forall i | 0 <= i < |path| - 1 :: ups[path[i]].Via? && ups[path[i]].parent == path[i + 1])
    && (forall i, j | 0 <= i < j < |path| :: path[i] != path[j])
  }

  /** What is left of the first n caps outside `used`. */
  function Rest(caps: seq<nat>, used: set<nat>, n: nat): nat
    requires n <= |caps|
  {
    if n == 0 then 0 else Rest(caps, used, n - 1) + if n - 1 in used then 0 else caps[n - 1]
  }

  lemma {:induction false} RestTakes(caps: seq<nat>, used: set<nat>, b: nat, n: nat)
    requires n <= |caps| && b !in used
    ensures Rest(caps, used, n) == Rest(caps, used + {b}, n) + if b < n then caps[b] else 0
  {
    if n > 0 { RestTakes(caps, used, b, n - 1); }
  }

  lemma {:induction false} RestBelowTotal(caps: seq<nat>, used: set<nat>, n: nat)
    requires n <= |caps|
    ensures Rest(caps, used, n) <= Total(caps[..n])
  {
    if n > 0 {
      RestBelowTotal(caps, used, n - 1);
      assert caps[..n][..n - 1] == caps[..n - 1];
    }
  }

  function Members(path: seq<nat>): set<nat> { set b | b in path }

  lemma RestAfter(caps: seq<nat>, path: seq<nat>)
    requires path != [] && path[|path| - 1] < |caps| && path[|path| - 1] !in path[..|path| - 1]
    ensures var m := |path| - 1;
            Rest(caps, Members(path[..m]), |caps|) == Rest(caps, Members(path), |caps|) + caps[path[m]]
    ensures Rest(caps, Members(path), |caps|) <= Total(caps)
    ensures Rest(caps, Members(path[..|path| - 1]), |caps|) <= Total(caps)
  {
    var m := |path| - 1;
    assert path == path[..m] + [path[m]];
    assert Members(path) == Members(path[..m]) + {path[m]};
    RestTakes(caps, Members(path[..m]), path[m], |caps|);
    RestBelowTotal(caps, Members(path[..m]), |caps|);
    assert caps[..|caps|] == caps;
  }

  /** The weights added when climbing from path[i] to path[j]. */
  function Spent(ups: seq<Up>, path: seq<nat>, i: nat, j: nat): nat
    requires i <= j < |path| && forall k | 0 <= k < j :: path[k] < |ups| && ups[path[k]].Via?
  {
    if i == j then 0 else Spent(ups, path, i, j - 1) + ups[path[j - 1]].weight
  }

  /** Costs along a climb differ by what was spent, up to whole wraps. */
  lemma {:induction false} ClimbCost(ups: seq<Up>, cost: seq<nat>, caps: seq<nat>, path: seq<nat>, i: nat, j: nat)
    returns (wraps: nat)
    requires Consistent(ups, cost, caps) && Climbs(ups, path) && i <= j < |path|
    ensures cost[path[i]] + wraps * COST_MODULUS == cost[path[j]] + Spent(ups, path, i, j)
    decreases j
  {
    if i == j {
      wraps := 0;
    } else {
      var below := ClimbCost(ups, cost, caps, path, i, j - 1);
      var sum := cost[path[j]] + ups[path[j - 1]].weight;
      assert cost[path[j - 1]] == sum % COST_MODULUS;
      wraps := below + sum / COST_MODULUS;
    }
  }

  /** What was spent is paid for by the caps of the nodes passed. */
  lemma {:induction false} SpentFits(ups: seq<Up>, cost: seq<nat>, caps: seq<nat>, path: seq<nat>, i: nat, j: nat)
    requires Consistent(ups, cost, caps) && Climbs(ups, path) && i <= j < |path|
    ensures Rest(caps, Members(path[..j]), |caps|) + Spent(ups, path, i, j) <= Total(caps)
    decreases j
  {
    if i == j {
      RestBelowTotal(caps, Members(path[..j]), |caps|);
      assert caps[..|caps|] == caps;
    } else {
      SpentFits(ups, cost, caps, path, i, j - 1);
      assert path[..j][..j - 1] == path[..j - 1];
      RestAfter(caps, path[..j]);
    }
  }

  lemma WholeWraps(x: nat, y: nat, w: nat, spent: nat, wraps: nat)
    requires y == (x + w) % COST_MODULUS && x + wraps * COST_MODULUS == y + spent && 0 < w
    ensures COST_MODULUS <= w + spent
  {
    assert w + spent == ((x + w) / COST_MODULUS + wraps) * COST_MODULUS;
  }

  /** A climb cannot close into a cycle: the cycle's weights would be a multiple of the modulus. */
  lemma NoCycle(ups: seq<Up>, cost: seq<nat>, caps: seq<nat>, path: seq<nat>)
    requires Consistent(ups, cost, caps) && Climbs(ups, path) && path != [] && ups[path[|path| - 1]].Via?
    ensures ups[path[|path| - 1]].parent !in path
  {
    var m := |path| - 1;
    var b := path[m];
    if ups[b].parent in path {
      var i :| 0 <= i < |path| && path[i] == ups[b].parent;
      var wraps := ClimbCost(ups, cost, caps, path, i, m);
      SpentFits(ups, cost, caps, path, i, m);
      RestAfter(caps, path);
      WholeWraps(cost[path[i]], cost[b], ups[b].weight, Spent(ups, path, i, m), wraps);
      assert false;
    }
  }

  /** Distinct numbers below n: at most n of them. */
  lemma {:induction false} PathFits(path: seq<nat>, n: nat)
    requires forall i | 0 <= i < |path| :: path[i] < n
    requires forall i, j | 0 <= i < j < |path| :: path[i] != path[j]
    ensures |path| <= n
    decreases n
  {
    if path != [] {
      var m := |path| - 1;
      // n-1 is used at most once: let the last element take its place
      var front := seq(m, i requires 0 <= i < m => if path[i] == n - 1 then path[m] else path[i]);
      PathFits(front, n - 1);
    }
  }

  lemma {:induction false} CostFits(ups: seq<Up>, cost: seq<nat>, caps: seq<nat>, path: seq<nat>)
    requires Consistent(ups, cost, caps) && Climbs(ups, path) && path != []
    ensures cost[path[|path| - 1]] <= Rest(caps, Members(path[..|path| - 1]), |caps|)
    decreases |ups| - |path|
  {
    var m := |path| - 1;
    var b := path[m];
    RestAfter(caps, path);
    if ups[b].Via? {
      NoCycle(ups, cost, caps, path);
      var longer := path + [ups[b].parent];
      PathFits(longer, |ups|);
      CostFits(ups, cost, caps, longer);
      assert longer[..m + 1] == path;
    }
  }

  /** The additions are exact, so a parent is strictly cheaper than its child. */
  lemma NoWrap(ups: seq<Up>, cost: seq<nat>, caps: seq<nat>, b: nat)
    requires Consistent(ups, cost, caps) && b < |ups| && ups[b].Via?
    ensures cost[b] == cost[ups[b].parent] + ups[b].weight
  {
    var path := [b, ups[b].parent];
    NoCycle(ups, cost, caps, [b]);
    CostFits(ups, cost, caps, path);
    assert path[..1] == [b];
    RestAfter(caps, [b]);
    assert [b][..0] == [];
  }
}
