/**
 Facts about partial matchings. A matching is kept as the scheduler keeps it: `m[v]` is the source
 matched to destination v, or a negative number when v is free.
 */
module Matching {

  /** No source is matched to two destinations outside `vis`. */
  ghost predicate InjectiveOutside(m: seq<int>, vis: seq<bool>)
    requires |m| == |vis|
  {
    forall v, w :: 0 <= v < w < |m| && !vis[v] && !vis[w] && m[v] >= 0 ==> m[v] != m[w]
  }

  ghost predicate Injective(m: seq<int>) {
    forall v, w :: 0 <= v < w < |m| && m[v] >= 0 ==> m[v] != m[w]
  }

  /** Source u is matched at some destination outside `vis`. */
  ghost predicate HasOutside(m: seq<int>, vis: seq<bool>, u: int)
    requires |m| == |vis|
  {
    exists v :: 0 <= v < |m| && !vis[v] && m[v] == u
  }

  ghost predicate Visited(vis: seq<bool>, v: int) { 0 <= v < |vis| && vis[v] }

  ghost predicate IsMatched(m: seq<int>, u: int) {
    exists v :: 0 <= v < |m| && m[v] == u
  }

  /** Matched pairs are edges. */
  ghost predicate UsesEdges(m: seq<int>, adj: seq<seq<int>>) {
    forall v :: 0 <= v < |m| && m[v] >= 0 ==> m[v] < |adj| && v in adj[m[v]]
  }

  /**
   `m'` augments `m` by the source u, touching only destinations outside `vis`: there it matches
   exactly the sources that m matches there, and u.
   */
  ghost predicate Augmented(m: seq<int>, m': seq<int>, vis: seq<bool>, u: int)
    requires |m| == |m'| == |vis|
  {
    && (forall v :: 0 <= v < |m| && vis[v] ==> m'[v] == m[v])
    && InjectiveOutside(m', vis)
    && (forall a :: a >= 0 ==> (HasOutside(m', vis, a) <==> HasOutside(m, vis, a) || a == u))
  }

  /** One step of an augmenting path: v is free, and takes u. */
  lemma TakeFree(m: seq<int>, vis: seq<bool>, now: seq<bool>, v: nat, u: int)
    requires |m| == |vis| == |now| && v < |m| && u >= 0
    requires Injective(m) && m[v] < 0 && !now[v]
    requires forall w :: 0 <= w < |m| && vis[w] ==> now[w]
    requires forall w :: 0 <= w < |m| && m[w] == u ==> vis[w]
    ensures Augmented(m, m[v := u], vis, u)
  {
    var m' := m[v := u];
    forall a | a >= 0
      ensures HasOutside(m', vis, a) <==> HasOutside(m, vis, a) || a == u
    {
      if HasOutside(m', vis, a) {
        var w :| 0 <= w < |m| && !vis[w] && m'[w] == a;
        assert w != v ==> m[w] == a;
      }
      if HasOutside(m, vis, a) {
        var w :| 0 <= w < |m| && !vis[w] && m[w] == a;
        assert m'[w] == a;
      }
      if a == u {
        assert m'[v] == u;
      }
    }
  }

  /** What an augmenting path through v knows before v takes over the source u. */
  ghost predicate PathThrough(m: seq<int>, m1: seq<int>, vis: seq<bool>, now: seq<bool>, v: nat, u: int) {
    && |m| == |m1| == |vis| == |now| && v < |m| && u >= 0
    && Injective(m) && m[v] >= 0 && !now[v]
    && (forall w :: 0 <= w < |m| && vis[w] ==> now[w])
    && (forall w :: 0 <= w < |m| && m[w] == u ==> vis[w])
    && Augmented(m, m1, now[v := true], m[v])
  }

  /** Outside `vis` and v, every source that m1 matches was matched by m outside `vis`. */
  lemma Origin(m: seq<int>, m1: seq<int>, vis: seq<bool>, now: seq<bool>, v: nat, u: int, w: nat) returns (x: nat)
    requires PathThrough(m, m1, vis, now, v, u)
    requires w < |m| && w != v && !vis[w] && m1[w] >= 0
    ensures x < |m| && m[x] == m1[w] && !vis[x]
    ensures if now[w] then x == w else !now[x]
  {
    var seen := now[v := true];
    if now[w] {
      assert seen[w];
      x := w;
    } else {
      assert !seen[w] && HasOutside(m1, seen, m1[w]);
      if m1[w] == m[v] {
        x := v;
      } else {
        assert HasOutside(m, seen, m1[w]);
        x :| 0 <= x < |m| && !seen[x] && m[x] == m1[w];
      }
    }
  }

  lemma TakeOverInjective(m: seq<int>, m1: seq<int>, vis: seq<bool>, now: seq<bool>, v: nat, u: int)
    requires PathThrough(m, m1, vis, now, v, u)
    ensures InjectiveOutside(m1[v := u], vis)
  {
    var m' := m1[v := u];
    forall a, b | 0 <= a < b < |m| && !vis[a] && !vis[b] && m'[a] >= 0
      ensures m'[a] != m'[b]
    {
      if m'[a] == m'[b] {
        if a == v {
          var y := Origin(m, m1, vis, now, v, u, b);
        } else if b == v {
          var x := Origin(m, m1, vis, now, v, u, a);
        } else {
          var x := Origin(m, m1, vis, now, v, u, a);
          var y := Origin(m, m1, vis, now, v, u, b);
        }
      }
    }
  }

  lemma TakeOverSources(m: seq<int>, m1: seq<int>, vis: seq<bool>, now: seq<bool>, v: nat, u: int, a: int)
    requires PathThrough(m, m1, vis, now, v, u) && a >= 0
    ensures HasOutside(m1[v := u], vis, a) <==> HasOutside(m, vis, a) || a == u
  {
    var m', seen := m1[v := u], now[v := true];
    if HasOutside(m', vis, a) && a != u {
      var w :| 0 <= w < |m| && !vis[w] && m'[w] == a;
      var x := Origin(m, m1, vis, now, v, u, w);
    }
    if HasOutside(m, vis, a) {
      var w :| 0 <= w < |m| && !vis[w] && m[w] == a;
      if w != v && seen[w] {
        assert m'[w] == a;
      } else {
        assert w != v ==> HasOutside(m, seen, a);
        assert HasOutside(m1, seen, a);
        var x :| 0 <= x < |m| && !seen[x] && m1[x] == a;
        assert m'[x] == a;
      }
    }
    assert m'[v] == u;
  }

  /** One step of an augmenting path: v gives up its source, which was re-matched further on. */
  lemma TakeOver(m: seq<int>, m1: seq<int>, vis: seq<bool>, now: seq<bool>, v: nat, u: int)
    requires PathThrough(m, m1, vis, now, v, u)
    ensures Augmented(m, m1[v := u], vis, u)
  {
    TakeOverInjective(m, m1, vis, now, v, u);
    forall a | a >= 0
      ensures HasOutside(m1[v := u], vis, a) <==> HasOutside(m, vis, a) || a == u
    {
      TakeOverSources(m, m1, vis, now, v, u, a);
    }
    assert forall w :: 0 <= w < |m| && vis[w] ==> now[v := true][w];
  }
}
