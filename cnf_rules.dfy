/**
 * Pure definitions behind the normalisation passes of the context-free
 * grammar class (5_ChomskyNormalForm/Grammar.py): the rule table, the
 * closed form of what each pass leaves behind, and the lemmas about them.
 * The imperative passes themselves are in cnf_grammar.dfy.
 */
module CnfRules {
  import opened Seqs

  /** A production body; every character is one grammar symbol. */
  type Body = string

  /** The empty-string marker of the rule tables, a body of its own. */
  const Eps: Body := "ε"
  const EpsChar: char := 'ε'

  /** The start symbol the reachability pass seeds its search with. */
  const Start: char := 'S'

  /** A rule table as the source's dict: heads in insertion order and the list of bodies of each head. */
  datatype Rules = Rules(heads: seq<char>, prods: map<char, seq<Body>>)

  /** The dict invariant: every head once, and the heads are exactly the keys of the map. */
  predicate Valid(r: Rules) {
    NoDup(r.heads) && forall k :: k in r.prods <==> k in r.heads
  }

  /** The marker only ever stands alone: no body mentions 'ε' except the body "ε", and 'ε' is no head. */
  predicate MarkerAlone(r: Rules) {
    EpsChar !in r.prods &&
    forall k, p :: k in r.prods && p in r.prods[k] ==> p == Eps || EpsChar !in p
  }

  /** The heads of `hs` that are in `keep`, in order (a dict with the other keys popped). */
  function Only(hs: seq<char>, keep: set<char>): (r: seq<char>)
    ensures forall k :: k in r <==> k in hs && k in keep
    ensures NoDup(hs) ==> NoDup(r)
    ensures |r| <= |hs|
  {
    if hs == [] then []
    else
      var rest := Only(hs[..|hs| - 1], keep);
      assert forall k :: k in hs <==> k in hs[..|hs| - 1] || k == hs[|hs| - 1];
      if hs[|hs| - 1] in keep then rest + [hs[|hs| - 1]] else rest
  }

  /** One more head of the prefix. */
  lemma OnlySnoc(hs: seq<char>, i: nat, keep: set<char>)
    requires i < |hs|
    ensures Only(hs[..i + 1], keep) == Only(hs[..i], keep) + if hs[i] in keep then [hs[i]] else []
  {
    assert hs[..i + 1][..i] == hs[..i];
  }

  /** Only looks at the heads of `hs`. */
  lemma {:induction false} OnlyAgree(hs: seq<char>, A: set<char>, B: set<char>)
    requires forall k :: k in hs ==> (k in A <==> k in B)
    ensures Only(hs, A) == Only(hs, B)
  {
    if hs != [] {
      assert forall k :: k in hs[..|hs| - 1] ==> k in hs;
      OnlyAgree(hs[..|hs| - 1], A, B);
      assert hs[|hs| - 1] in hs;
    }
  }

  lemma {:induction false} OnlyAll(hs: seq<char>, keep: set<char>)
    requires forall k :: k in hs ==> k in keep
    ensures Only(hs, keep) == hs
  {
    if hs != [] {
      OnlyAll(hs[..|hs| - 1], keep);
      assert hs[..|hs| - 1] + [hs[|hs| - 1]] == hs;
    }
  }

  /** The position of `k` among the heads `hs`. */
  function IndexOf(hs: seq<char>, k: char): (i: nat)
    requires k in hs
    ensures i < |hs| && hs[i] == k
    ensures NoDup(hs) ==> forall j :: 0 <= j < |hs| && hs[j] == k ==> j == i
  {
    if hs[0] == k then 0 else 1 + IndexOf(hs[1..], k)
  }

  /** A subset is no larger. */
  lemma {:induction false} SubsetCard<T>(A: set<T>, B: set<T>)
    requires A <= B
    ensures |A| <= |B|
    decreases B
  {
    if A != {} {
      var x :| x in A;
      SubsetCard(A - {x}, B - {x});
    }
  }

  /** A subset of the same size is the whole set (the fixpoint tests at Grammar.py:58 and 78). */
  lemma SubsetSameCard<T>(A: set<T>, B: set<T>)
    requires A <= B && |A| == |B|
    ensures A == B
  {
    if A != B {
      var x :| x in B && x !in A;
      SubsetCard(A, B - {x});
    }
  }

  // ---------------------------------------------------------------------
  // eliminate_empty_string (Grammar.py:8-24)
  // ---------------------------------------------------------------------

  /** `p.replace(v, "")` for a one-character `v`: every occurrence of `v` deleted. */
  function Erase(p: Body, v: char): (r: Body)
    ensures forall c :: c in r <==> c in p && c != v
    ensures v in p ==> |r| < |p|
    ensures |r| <= |p|
  {
    if p == [] then []
    else
      assert forall c :: c in p <==> c == p[0] || c in p[1..];
      (if p[0] == v then [] else [p[0]]) + Erase(p[1..], v)
  }

  /** What one inner loop at Grammar.py:17-19 appends: `p.replace(v, "")` for each body `p` of `ps` mentioning `v`, in order. */
  function Deletions(ps: seq<Body>, v: char): (ds: seq<Body>)
    ensures |ds| <= |ps|
    ensures forall d :: d in ds ==> v !in d
  {
    if ps == [] then []
    else
      var last := ps[|ps| - 1];
      Deletions(ps[..|ps| - 1], v) + (if v in last then [Erase(last, v)] else [])
  }

  /** A shared list after one nullable head `v` has been processed: its bodies followed by their deletions. */
  function Expand(ps: seq<Body>, v: char): seq<Body> {
    ps + Deletions(ps, v)
  }

  /** A shared list after the nullable heads `vs` have been processed in turn. */
  function ExpandAll(ps: seq<Body>, vs: seq<char>): seq<Body> {
    if vs == [] then ps else Expand(ExpandAll(ps, vs[..|vs| - 1]), vs[|vs| - 1])
  }

  /** The deletions of every head of `vs`, each taken of the same list `ps`. */
  function DeletionsAll(ps: seq<Body>, vs: seq<char>): seq<Body> {
    if vs == [] then [] else DeletionsAll(ps, vs[..|vs| - 1]) + Deletions(ps, vs[|vs| - 1])
  }

  /** The heads of `hs` that have an "ε" body, in order. */
  function EpsHeads(r: Rules, hs: seq<char>): (es: seq<char>)
    requires forall k :: k in hs ==> k in r.prods
    ensures forall k :: k in es ==> k in hs && Eps in r.prods[k]
  {
    if hs == [] then []
    else
      var last := hs[|hs| - 1];
      EpsHeads(r, hs[..|hs| - 1]) + (if Eps in r.prods[last] then [last] else [])
  }

  /** `list.remove(x)`: the first occurrence of `x` dropped. */
  function RemoveFirst(ps: seq<Body>, x: Body): seq<Body> {
    if ps == [] then [] else if ps[0] == x then ps[1..] else [ps[0]] + RemoveFirst(ps[1..], x)
  }

  /**
   * The list the head at position `m` has in self.rules when the pass reaches it: its
   * input bodies, extended by every nullable head processed before it (the lists are shared).
   */
  function Base(r: Rules, m: nat): seq<Body>
    requires Valid(r) && m < |r.heads|
  {
    ExpandAll(r.prods[r.heads[m]], EpsHeads(r, r.heads[..m]))
  }

  /**
   * The fresh list a nullable head at position `m` owns once the heads `heads[..j]` have been
   * processed: Base without its first "ε", then the deletions of each nullable head from `m` on,
   * all taken of Base (the loop at Grammar.py:17 iterates the old list, not the fresh one).
   */
  function OwnBodies(r: Rules, m: nat, j: nat): seq<Body>
    requires Valid(r) && m < |r.heads| && m <= j <= |r.heads|
  {
    RemoveFirst(Base(r, m), Eps) + DeletionsAll(Base(r, m), EpsHeads(r, r.heads[m..j]))
  }

  /** The bodies eliminate_empty_string leaves for the head at position `m`. */
  function NewBodies(r: Rules, m: nat): seq<Body>
    requires Valid(r) && m < |r.heads|
  {
    if Eps in r.prods[r.heads[m]] then OwnBodies(r, m, |r.heads|)
    else ExpandAll(r.prods[r.heads[m]], EpsHeads(r, r.heads))
  }

  /** A nullable head left with no body is popped (Grammar.py:21-22). */
  predicate Dropped(r: Rules, m: nat)
    requires Valid(r) && m < |r.heads|
  {
    Eps in r.prods[r.heads[m]] && NewBodies(r, m) == []
  }

  /** The heads eliminate_empty_string keeps: all but the dropped ones. */
  function KeptHeads(r: Rules): set<char>
    requires Valid(r)
  {
    set k | k in r.heads && !Dropped(r, IndexOf(r.heads, k))
  }

  /** The rule table eliminate_empty_string returns, in closed form. */
  function EliminateEmpty(r: Rules): (e: Rules)
    requires Valid(r)
  {
    Rules(Only(r.heads, KeptHeads(r)), map k | k in KeptHeads(r) :: NewBodies(r, IndexOf(r.heads, k)))
  }

  /** The parts of the closed form, one by one. */
  lemma EliminateEmptyShape(r: Rules)
    requires Valid(r)
    ensures EliminateEmpty(r).heads == Only(r.heads, KeptHeads(r))
    ensures EliminateEmpty(r).prods.Keys == KeptHeads(r)
    ensures forall k :: k in KeptHeads(r) ==> EliminateEmpty(r).prods[k] == NewBodies(r, IndexOf(r.heads, k))
  {
  }

  /**
   * What the pass keeps: a head without an "ε" body is never popped, nor is a head with any
   * other body; every body other than "ε" stays in its head's list; and a kept head has an empty
   * list only if it had no body to begin with.
   */
  lemma EliminateEmptyKeeps(r: Rules)
    requires Valid(r)
    ensures forall k :: k in r.prods && Eps !in r.prods[k] ==> k in EliminateEmpty(r).prods
    ensures forall k, p :: k in r.prods && p in r.prods[k] && p != Eps ==>
      k in EliminateEmpty(r).prods && p in EliminateEmpty(r).prods[k]
    ensures forall k :: k in EliminateEmpty(r).prods ==>
      k in r.prods && (EliminateEmpty(r).prods[k] != [] || r.prods[k] == [])
  {
    var e := EliminateEmpty(r);
    forall k | k in r.prods
      ensures Eps !in r.prods[k] ==> k in e.prods
      ensures forall p :: p in r.prods[k] && p != Eps ==> k in e.prods && p in e.prods[k]
      ensures k in e.prods ==> e.prods[k] != [] || r.prods[k] == []
    {
      var m := IndexOf(r.heads, k);
      var ps := r.prods[k];
      forall p | p in ps && p != Eps
        ensures p in NewBodies(r, m)
      {
        ExpandAllHas(ps, EpsHeads(r, r.heads[..m]), p);
        ExpandAllHas(ps, EpsHeads(r, r.heads), p);
        RemoveFirstHas(Base(r, m), Eps, p);
      }
      if ps != [] && Eps !in ps {
        ExpandAllHas(ps, EpsHeads(r, r.heads), ps[0]);
      }
    }
  }

  lemma {:induction false} ExpandAllHas(ps: seq<Body>, vs: seq<char>, p: Body)
    requires p in ps
    ensures p in ExpandAll(ps, vs)
  {
    if vs != [] {
      ExpandAllHas(ps, vs[..|vs| - 1], p);
    }
  }

  lemma {:induction false} RemoveFirstHas(ps: seq<Body>, x: Body, p: Body)
    requires p in ps && p != x
    ensures p in RemoveFirst(ps, x)
  {
    if ps[0] != x && ps[0] != p {
      RemoveFirstHas(ps[1..], x, p);
    }
  }

  /** Bodies obey the marker convention: "ε" alone or no 'ε' at all. */
  predicate MarkerAloneIn(ps: seq<Body>) {
    forall p :: p in ps ==> p == Eps || EpsChar !in p
  }

  lemma {:induction false} DeletionsAppend(a: seq<Body>, b: seq<Body>, v: char)
    ensures Deletions(a + b, v) == Deletions(a, v) + Deletions(b, v)
  {
    if b != [] {
      var ab := a + b;
      assert ab[..|ab| - 1] == a + b[..|b| - 1];
      DeletionsAppend(a, b[..|b| - 1], v);
    } else {
      assert a + b == a;
    }
  }

  /** The deletions of a prefix are a prefix of the deletions. */
  lemma DeletionsPrefix(ps: seq<Body>, i: nat, v: char)
    requires i <= |ps|
    ensures |Deletions(ps[..i], v)| <= |Deletions(ps, v)|
  {
    assert ps == ps[..i] + ps[i..];
    DeletionsAppend(ps[..i], ps[i..], v);
  }

  /** One more body of the prefix adds at most its own deletion. */
  lemma DeletionsStep(ps: seq<Body>, i: nat, v: char)
    requires i < |ps|
    ensures Deletions(ps[..i + 1], v) == Deletions(ps[..i], v) + (if v in ps[i] then [Erase(ps[i], v)] else [])
  {
    assert ps[..i + 1][..i] == ps[..i];
  }

  lemma EpsHeadsSnoc(r: Rules, hs: seq<char>, k: char)
    requires forall x :: x in hs + [k] ==> x in r.prods
    ensures EpsHeads(r, hs + [k]) == EpsHeads(r, hs) + (if Eps in r.prods[k] then [k] else [])
  {
    assert (hs + [k])[..|hs|] == hs;
  }

  lemma DeletionsAllSnoc(ps: seq<Body>, vs: seq<char>, v: char)
    ensures DeletionsAll(ps, vs + [v]) == DeletionsAll(ps, vs) + Deletions(ps, v)
  {
    assert (vs + [v])[..|vs|] == vs;
  }

  lemma ExpandAllSnoc(ps: seq<Body>, vs: seq<char>, v: char)
    ensures ExpandAll(ps, vs + [v]) == Expand(ExpandAll(ps, vs), v)
  {
    assert (vs + [v])[..|vs|] == vs;
  }

  /** Deleting a head other than 'ε' never yields the marker and keeps the convention. */
  lemma {:induction false} DeletionsMarkerFree(ps: seq<Body>, v: char)
    requires MarkerAloneIn(ps) && v != EpsChar
    ensures forall d :: d in Deletions(ps, v) ==> EpsChar !in d
  {
    if ps != [] {
      DeletionsMarkerFree(ps[..|ps| - 1], v);
      var last := ps[|ps| - 1];
      assert last in ps;
      if v in last {
        assert last != Eps;
      }
    }
  }

  /** Processing nullable heads neither adds nor removes an "ε" body of a shared list. */
  lemma {:induction false} ExpandAllMarker(ps: seq<Body>, vs: seq<char>)
    requires MarkerAloneIn(ps) && EpsChar !in vs
    ensures MarkerAloneIn(ExpandAll(ps, vs))
    ensures Eps in ExpandAll(ps, vs) <==> Eps in ps
  {
    if vs != [] {
      var prev := vs[..|vs| - 1];
      assert EpsChar !in prev by {
        assert forall x :: x in prev ==> x in vs;
      }
      ExpandAllMarker(ps, prev);
      var v := vs[|vs| - 1];
      assert v in vs;
      DeletionsMarkerFree(ExpandAll(ps, prev), v);
      assert EpsChar in Eps;
    }
  }

  /** `list.remove` of a present element leaves nothing only for the singleton list. */
  lemma {:induction false} RemoveFirstEmpty(ps: seq<Body>, x: Body)
    requires x in ps && RemoveFirst(ps, x) == []
    ensures ps == [x]
  {
  }

  /** The pass finds no nullable head among heads without an "ε" body. */
  lemma {:induction false} EpsHeadsNone(r: Rules, hs: seq<char>)
    requires forall k :: k in hs ==> k in r.prods && Eps !in r.prods[k]
    ensures EpsHeads(r, hs) == []
  {
    if hs != [] {
      assert forall k :: k in hs[..|hs| - 1] ==> k in hs;
      EpsHeadsNone(r, hs[..|hs| - 1]);
      assert hs[|hs| - 1] in hs;
    }
  }

  /** Without an "ε" body anywhere (Grammar.py:11), eliminate_empty_string returns its input. */
  lemma EliminateEmptyNoEps(r: Rules)
    requires Valid(r) && forall k :: k in r.prods ==> Eps !in r.prods[k]
    ensures EliminateEmpty(r) == r
  {
    EpsHeadsNone(r, r.heads);
    KeptAll(r);
    OnlyAll(r.heads, KeptHeads(r));
    ProdsSame(r);
  }

  lemma ProdsSame(r: Rules)
    requires Valid(r) && EpsHeads(r, r.heads) == [] && forall k :: k in r.prods ==> Eps !in r.prods[k]
    requires forall k :: k in r.heads ==> k in KeptHeads(r)
    ensures EliminateEmpty(r).prods == r.prods
  {
    BodiesAgree(r);
    assert KeptHeads(r) == r.prods.Keys;
  }

  lemma BodiesAgree(r: Rules)
    requires Valid(r) && EpsHeads(r, r.heads) == [] && forall k :: k in r.prods ==> Eps !in r.prods[k]
    ensures forall k :: k in r.prods ==> NewBodies(r, IndexOf(r.heads, k)) == r.prods[k]
  {
    forall k | k in r.prods
      ensures NewBodies(r, IndexOf(r.heads, k)) == r.prods[k]
    {
      NewBodiesSame(r, IndexOf(r.heads, k));
    }
  }

  lemma KeptAll(r: Rules)
    requires Valid(r) && EpsHeads(r, r.heads) == [] && forall k :: k in r.prods ==> Eps !in r.prods[k]
    ensures forall k :: k in r.heads ==> k in KeptHeads(r)
  {
    forall k | k in r.heads
      ensures k in KeptHeads(r)
    {
      assert !Dropped(r, IndexOf(r.heads, k));
    }
  }

  lemma NewBodiesSame(r: Rules, m: nat)
    requires Valid(r) && m < |r.heads| && EpsHeads(r, r.heads) == [] && Eps !in r.prods[r.heads[m]]
    ensures NewBodies(r, m) == r.prods[r.heads[m]]
  {
  }

  lemma NoDupSlice<T>(s: seq<T>, a: nat, b: nat)
    requires NoDup(s) && a <= b <= |s|
    ensures NoDup(s[a..b])
  {
    assert forall i :: 0 <= i < b - a ==> s[a..b][i] == s[a + i];
  }

  /** With `v` the only head of `hs` that has an "ε" body, the pass finds `v` alone. */
  lemma {:induction false} EpsHeadsSingle(r: Rules, hs: seq<char>, v: char)
    requires NoDup(hs) && forall k :: k in hs ==> k in r.prods
    requires forall k :: k in hs && k != v ==> Eps !in r.prods[k]
    requires v in r.prods && Eps in r.prods[v]
    ensures EpsHeads(r, hs) == if v in hs then [v] else []
  {
    if hs != [] {
      var init := hs[..|hs| - 1];
      var last := hs[|hs| - 1];
      NoDupSlice(hs, 0, |hs| - 1);
      assert forall k :: k in hs <==> k in init || k == last;
      EpsHeadsSingle(r, init, v);
      if last == v {
        assert v !in init by {
          forall j | 0 <= j < |init|
            ensures init[j] != v
          {
            assert init[j] == hs[j];
          }
        }
      }
    }
  }

  /**
   * The bodies eliminate_empty_string leaves when the head at position `i` is the only one with
   * an "ε" body: that head loses its "ε", and every list, its own included, gains the bodies
   * that mention the head with every occurrence of it deleted.
   */
  lemma NewBodiesSingle(r: Rules, i: nat, m: nat)
    requires Valid(r) && i < |r.heads| && m < |r.heads|
    requires forall k :: k in r.prods && k != r.heads[i] ==> Eps !in r.prods[k]
    requires Eps in r.prods[r.heads[i]]
    ensures NewBodies(r, m) ==
      if m == i then RemoveFirst(r.prods[r.heads[i]], Eps) + Deletions(r.prods[r.heads[i]], r.heads[i])
      else Expand(r.prods[r.heads[m]], r.heads[i])
  {
    var v := r.heads[i];
    EpsHeadsSingle(r, r.heads, v);
    if m == i {
      NullableSingle(r, i);
    } else {
      assert r.heads[m] != v;
      ExpandAllSnoc(r.prods[r.heads[m]], [], v);
      assert [] + [v] == [v];
    }
  }

  /** The nullable head's own list in NewBodiesSingle. */
  lemma NullableSingle(r: Rules, i: nat)
    requires Valid(r) && i < |r.heads|
    requires forall k :: k in r.prods && k != r.heads[i] ==> Eps !in r.prods[k]
    requires Eps in r.prods[r.heads[i]]
    ensures OwnBodies(r, i, |r.heads|) == RemoveFirst(r.prods[r.heads[i]], Eps) + Deletions(r.prods[r.heads[i]], r.heads[i])
  {
    var v := r.heads[i];
    BeforeSingle(r, i);
    FromSingle(r, i);
    DeletionsAllSnoc(r.prods[v], [], v);
    assert [] + [v] == [v];
  }

  /** No head before the nullable one is nullable, so its list is still its input list. */
  lemma BeforeSingle(r: Rules, i: nat)
    requires Valid(r) && i < |r.heads|
    requires forall k :: k in r.prods && k != r.heads[i] ==> Eps !in r.prods[k]
    requires Eps in r.prods[r.heads[i]]
    ensures Base(r, i) == r.prods[r.heads[i]]
  {
    var v := r.heads[i];
    var pre := r.heads[..i];
    NoDupSlice(r.heads, 0, i);
    assert v !in pre by {
      forall j | 0 <= j < i
        ensures pre[j] != v
      {
        assert pre[j] == r.heads[j];
      }
    }
    assert forall k :: k in pre ==> k in r.heads;
    EpsHeadsSingle(r, pre, v);
  }

  /** From the nullable head on, the pass finds that head alone. */
  lemma FromSingle(r: Rules, i: nat)
    requires Valid(r) && i < |r.heads|
    requires forall k :: k in r.prods && k != r.heads[i] ==> Eps !in r.prods[k]
    requires Eps in r.prods[r.heads[i]]
    ensures EpsHeads(r, r.heads[i..|r.heads|]) == [r.heads[i]]
  {
    var post := r.heads[i..|r.heads|];
    NoDupSlice(r.heads, i, |r.heads|);
    assert post[0] == r.heads[i];
    assert forall k :: k in post ==> k in r.heads;
    EpsHeadsSingle(r, post, r.heads[i]);
  }

  /** The list of `k` in EliminateEmptySingle, `v` being the one nullable head. */
  function SingleBodies(r: Rules, v: char, k: char): seq<Body>
    requires k in r.prods
  {
    if k == v then RemoveFirst(r.prods[k], Eps) + Deletions(r.prods[k], k) else Expand(r.prods[k], v)
  }

  /**
   * eliminate_empty_string on a table whose only "ε" body is one of the head `heads[i]`, which
   * has other bodies too: no head is dropped, and the lists are those of NewBodiesSingle.
   */
  lemma EliminateEmptySingle(r: Rules, i: nat)
    requires Valid(r) && i < |r.heads|
    requires forall k :: k in r.prods && k != r.heads[i] ==> Eps !in r.prods[k]
    requires Eps in r.prods[r.heads[i]] && r.prods[r.heads[i]] != [Eps]
    ensures EliminateEmpty(r) == Rules(r.heads, map k | k in r.prods :: SingleBodies(r, r.heads[i], k))
  {
    var e := EliminateEmpty(r);
    var m := map k | k in r.prods :: SingleBodies(r, r.heads[i], k);
    forall k | k in r.prods
      ensures NewBodies(r, IndexOf(r.heads, k)) == SingleBodies(r, r.heads[i], k)
      ensures k in KeptHeads(r)
    {
      HeadSingle(r, i, k);
    }
    OnlyAll(r.heads, KeptHeads(r));
    assert e.prods.Keys == m.Keys;
    MapsAgree(e.prods, m);
  }

  lemma MapsAgree<K, V>(a: map<K, V>, b: map<K, V>)
    requires a.Keys == b.Keys && forall k :: k in a ==> a[k] == b[k]
    ensures a == b
  {
  }

  lemma HeadSingle(r: Rules, i: nat, k: char)
    requires Valid(r) && i < |r.heads| && k in r.prods
    requires forall k :: k in r.prods && k != r.heads[i] ==> Eps !in r.prods[k]
    requires Eps in r.prods[r.heads[i]] && r.prods[r.heads[i]] != [Eps]
    ensures NewBodies(r, IndexOf(r.heads, k)) == SingleBodies(r, r.heads[i], k)
    ensures k in KeptHeads(r)
  {
    var m := IndexOf(r.heads, k);
    NewBodiesSingle(r, i, m);
    if k == r.heads[i] {
      assert m == i;
      if RemoveFirst(r.prods[k], Eps) == [] {
        RemoveFirstEmpty(r.prods[k], Eps);
      }
    }
    assert !Dropped(r, m);
  }

  /** At most one "ε" body: the single `list.remove` at Grammar.py:13 takes it. */
  predicate SingleEps(ps: seq<Body>) {
    Eps !in RemoveFirst(ps, Eps)
  }

  lemma {:induction false} RemoveFirstAppend(a: seq<Body>, b: seq<Body>, x: Body)
    requires x in a
    ensures RemoveFirst(a + b, x) == RemoveFirst(a, x) + b
  {
    assert (a + b)[0] == a[0] && (a + b)[1..] == a[1..] + b;
    if a[0] != x {
      assert a == [a[0]] + a[1..];
      RemoveFirstAppend(a[1..], b, x);
    }
  }

  /** A shared list after the nullable heads `vs`: its own bodies, then bodies without 'ε'. */
  lemma {:induction false} ExpandAllTail(ps: seq<Body>, vs: seq<char>) returns (tail: seq<Body>)
    requires MarkerAloneIn(ps) && EpsChar !in vs
    ensures ExpandAll(ps, vs) == ps + tail
    ensures forall d :: d in tail ==> EpsChar !in d
  {
    if vs == [] {
      tail := [];
    } else {
      var prev := vs[..|vs| - 1];
      assert EpsChar !in prev by {
        assert forall x :: x in prev ==> x in vs;
      }
      var t := ExpandAllTail(ps, prev);
      ExpandAllMarker(ps, prev);
      var v := vs[|vs| - 1];
      assert v in vs;
      DeletionsMarkerFree(ExpandAll(ps, prev), v);
      tail := t + Deletions(ExpandAll(ps, prev), v);
    }
  }

  lemma {:induction false} DeletionsAllMarkerFree(ps: seq<Body>, vs: seq<char>)
    requires MarkerAloneIn(ps) && EpsChar !in vs
    ensures forall d :: d in DeletionsAll(ps, vs) ==> EpsChar !in d
  {
    if vs != [] {
      var prev := vs[..|vs| - 1];
      assert EpsChar !in prev by {
        assert forall x :: x in prev ==> x in vs;
      }
      DeletionsAllMarkerFree(ps, prev);
      assert vs[|vs| - 1] in vs;
      DeletionsMarkerFree(ps, vs[|vs| - 1]);
    }
  }

  /** No nullable head found among `hs` is the marker itself. */
  lemma EpsHeadsNoMarker(r: Rules, hs: seq<char>)
    requires MarkerAlone(r) && forall k :: k in hs ==> k in r.prods
    ensures EpsChar !in EpsHeads(r, hs)
  {
  }

  /** A head with at most one "ε" body has none left once the pass is over. */
  lemma NewBodiesNoEps(r: Rules, m: nat)
    requires Valid(r) && MarkerAlone(r) && m < |r.heads| && SingleEps(r.prods[r.heads[m]])
    ensures Eps !in NewBodies(r, m)
  {
    var ps := r.prods[r.heads[m]];
    assert MarkerAloneIn(ps);
    if Eps in ps {
      NullableNoEps(r, m);
    } else {
      EpsHeadsNoMarker(r, r.heads);
      ExpandAllMarker(ps, EpsHeads(r, r.heads));
    }
  }

  /** The nullable case: the fresh list holds Base less its one "ε", then deletions. */
  lemma NullableNoEps(r: Rules, m: nat)
    requires Valid(r) && MarkerAlone(r) && m < |r.heads|
    requires SingleEps(r.prods[r.heads[m]]) && Eps in r.prods[r.heads[m]]
    ensures Eps !in OwnBodies(r, m, |r.heads|)
  {
    assert MarkerAloneIn(r.prods[r.heads[m]]);
    assert forall k :: k in r.heads[..m] ==> k in r.heads;
    assert forall k :: k in r.heads[m..|r.heads|] ==> k in r.heads;
    EpsHeadsNoMarker(r, r.heads[..m]);
    EpsHeadsNoMarker(r, r.heads[m..|r.heads|]);
    OwnNoEps(r.prods[r.heads[m]], EpsHeads(r, r.heads[..m]), EpsHeads(r, r.heads[m..|r.heads|]));
  }

  lemma OwnNoEps(ps: seq<Body>, vs: seq<char>, ws: seq<char>)
    requires MarkerAloneIn(ps) && SingleEps(ps) && Eps in ps && EpsChar !in vs && EpsChar !in ws
    ensures Eps !in RemoveFirst(ExpandAll(ps, vs), Eps) + DeletionsAll(ExpandAll(ps, vs), ws)
  {
    assert EpsChar in Eps;
    var tail := ExpandAllTail(ps, vs);
    RemoveFirstAppend(ps, tail, Eps);
    ExpandAllMarker(ps, vs);
    DeletionsAllMarkerFree(ExpandAll(ps, vs), ws);
  }

  /**
   * When every head has at most one "ε" body, eliminate_empty_string leaves none, so a second
   * application returns the first one's result unchanged.
   */
  lemma EliminateEmptyTwice(r: Rules)
    requires Valid(r) && MarkerAlone(r) && forall k :: k in r.prods ==> SingleEps(r.prods[k])
    ensures Valid(EliminateEmpty(r))
    ensures forall k :: k in EliminateEmpty(r).prods ==> Eps !in EliminateEmpty(r).prods[k]
    ensures EliminateEmpty(EliminateEmpty(r)) == EliminateEmpty(r)
  {
    var e := EliminateEmpty(r);
    EliminateEmptyShape(r);
    forall k | k in e.prods
      ensures Eps !in e.prods[k]
    {
      NewBodiesNoEps(r, IndexOf(r.heads, k));
    }
    EliminateEmptyNoEps(e);
  }

  // ---------------------------------------------------------------------
  // eliminate_renaming (Grammar.py:26-44)
  // ---------------------------------------------------------------------

  /** A unit body: one symbol that is a head of the table (Grammar.py:31). */
  predicate IsUnit(r: Rules, p: Body) {
    |p| == 1 && p[0] in r.prods
  }

  /** Each unit body replaced in place by the input bodies of its head, one level only. */
  function Inline(r: Rules, ps: seq<Body>): seq<Body> {
    if ps == [] then []
    else
      var last := ps[|ps| - 1];
      Inline(r, ps[..|ps| - 1]) + (if IsUnit(r, last) then r.prods[last[0]] else [last])
  }

  predicate HasUnit(r: Rules, ps: seq<Body>) {
    exists p :: p in ps && IsUnit(r, p)
  }

  /** Heads whose inlined list still holds a unit body (Grammar.py:37-38). */
  function StillRenaming(r: Rules): set<char> {
    set k | k in r.prods && HasUnit(r, Inline(r, r.prods[k]))
  }

  /** The rule table eliminate_renaming returns. */
  function Renamed(r: Rules): Rules {
    Rules(Only(r.heads, set k | k in r.heads && k !in StillRenaming(r)),
          map k | k in r.prods && k !in StillRenaming(r) :: Inline(r, r.prods[k]))
  }

  /** A body is in the inlined list iff it is a non-unit body of `ps` or a body of the head of a unit body of `ps`. */
  lemma {:induction false} InlineMembers(r: Rules, ps: seq<Body>, p: Body)
    ensures p in Inline(r, ps) <==>
      (p in ps && !IsUnit(r, p)) || exists q :: q in ps && IsUnit(r, q) && p in r.prods[q[0]]
  {
    if ps != [] {
      var init := ps[..|ps| - 1];
      var last := ps[|ps| - 1];
      InlineMembers(r, init, p);
      assert forall q :: q in ps <==> q in init || q == last;
    }
  }

  /** A list without unit bodies is left as it is. */
  lemma {:induction false} InlineNoUnits(r: Rules, ps: seq<Body>)
    requires !HasUnit(r, ps)
    ensures Inline(r, ps) == ps
  {
    if ps != [] {
      var init := ps[..|ps| - 1];
      assert !HasUnit(r, init) by {
        forall q | q in init
          ensures !IsUnit(r, q)
        {
          assert q in ps;
        }
      }
      InlineNoUnits(r, init);
      assert ps[|ps| - 1] in ps;
      assert init + [ps[|ps| - 1]] == ps;
    }
  }

  /** Every list left by eliminate_renaming is free of unit bodies, counted against the input heads. */
  lemma RenamedNoUnits(r: Rules, k: char)
    requires k in Renamed(r).prods
    ensures !HasUnit(r, Renamed(r).prods[k])
    ensures forall p :: p in Renamed(r).prods[k] ==> !IsUnit(Renamed(r), p)
  {
    forall p | p in Renamed(r).prods[k]
      ensures !IsUnit(Renamed(r), p)
    {
      assert !IsUnit(r, p);
    }
  }

  /** Inlining distributes over concatenation. */
  lemma {:induction false} InlineAppend(r: Rules, a: seq<Body>, b: seq<Body>)
    ensures Inline(r, a + b) == Inline(r, a) + Inline(r, b)
  {
    if b != [] {
      var ab := a + b;
      assert ab[..|ab| - 1] == a + b[..|b| - 1];
      InlineAppend(r, a, b[..|b| - 1]);
    } else {
      assert a + b == a;
    }
  }

  /** When no inlined list keeps a unit body, eliminate_renaming pops nothing and only inlines. */
  lemma RenamedNoneLeft(r: Rules)
    requires forall k :: k in r.prods ==> !HasUnit(r, Inline(r, r.prods[k]))
    ensures Renamed(r) == Rules(r.heads, map k | k in r.prods :: Inline(r, r.prods[k]))
  {
    assert StillRenaming(r) == {};
    OnlyAll(r.heads, set k | k in r.heads && k !in StillRenaming(r));
  }

  /** A second eliminate_renaming changes nothing. */
  lemma RenamedIdempotent(r: Rules)
    ensures Renamed(Renamed(r)) == Renamed(r)
  {
    var r1 := Renamed(r);
    forall k | k in r1.prods
      ensures Inline(r1, r1.prods[k]) == r1.prods[k] && !HasUnit(r1, r1.prods[k])
    {
      RenamedNoUnits(r, k);
      InlineNoUnits(r1, r1.prods[k]);
    }
    assert StillRenaming(r1) == {};
    OnlyAll(r1.heads, set k | k in r1.heads && k !in StillRenaming(r1));
  }

  // ---------------------------------------------------------------------
  // eliminate_inaccessible (Grammar.py:46-64)
  // ---------------------------------------------------------------------

  /** Every head a body of a head in `R` mentions is in `R`. */
  ghost predicate ClosedUnderUse(r: Rules, R: set<char>) {
    forall v, p, c :: v in R && v in r.prods && p in r.prods[v] && c in p && c in r.prods ==> c in R
  }

  /** The heads mentioned by the bodies of `ps`. */
  ghost function Uses(r: Rules, ps: seq<Body>): set<char> {
    set p, c | p in ps && c in p && c in r.prods :: c
  }

  /** `R` is the least set containing 'S' closed under use: the reachable symbols. */
  ghost predicate IsReachableSet(r: Rules, R: set<char>) {
    && Start in R
    && ClosedUnderUse(r, R)
    && (forall C :: Start in C && ClosedUnderUse(r, C) ==> R <= C)
  }

  /** The table restricted to the heads in `keep`, bodies and order unchanged. */
  function Restrict(r: Rules, keep: set<char>): Rules {
    Rules(Only(r.heads, keep), map k | k in r.prods && k in keep :: r.prods[k])
  }

  /** The least closed set is unique. */
  lemma ReachableUnique(r: Rules, R1: set<char>, R2: set<char>)
    requires IsReachableSet(r, R1) && IsReachableSet(r, R2)
    ensures R1 == R2
  {
  }

  /** After eliminate_inaccessible every head left is reachable in the new table, and a second pass changes nothing. */
  lemma InaccessibleIdempotent(r: Rules, R: set<char>)
    requires IsReachableSet(r, R)
    ensures IsReachableSet(Restrict(r, R), R)
    ensures Restrict(Restrict(r, R), R) == Restrict(r, R)
  {
    var r1 := Restrict(r, R);
    forall C | Start in C && ClosedUnderUse(r1, C)
      ensures R <= C
    {
      var D := C * R;
      assert ClosedUnderUse(r, D) by {
        forall v, p, c | v in D && v in r.prods && p in r.prods[v] && c in p && c in r.prods
          ensures c in D
        {
          assert v in r1.prods && r1.prods[v] == r.prods[v];
          assert c in R;
          assert c in r1.prods;
        }
      }
    }
    OnlyAll(r1.heads, R);
    assert Restrict(r1, R).prods == r1.prods;
  }

  // ---------------------------------------------------------------------
  // eliminate_nonproductive (Grammar.py:66-92)
  // ---------------------------------------------------------------------

  /** The symbols that occur in some body and are no head (Grammar.py:69-70). */
  function TerminalsOf(r: Rules): set<char> {
    set k, p, c | k in r.prods && p in r.prods[k] && c in p && c !in r.prods :: c
  }

  /** Every symbol of `p` is productive or a terminal (Grammar.py:76, 85). */
  predicate Generates(r: Rules, P: set<char>, p: Body) {
    forall c :: c in p ==> c in P || c in TerminalsOf(r)
  }

  /** Generating from a set keeps generating from any larger set. */
  lemma GeneratesMono(r: Rules, A: set<char>, B: set<char>, p: Body)
    requires A <= B && Generates(r, A, p)
    ensures Generates(r, B, p)
  {
  }

  /** A head with a body made of productive heads and terminals is productive. */
  ghost predicate ClosedUnderGeneration(r: Rules, P: set<char>) {
    forall k, p :: k in r.prods && p in r.prods[k] && Generates(r, P, p) ==> k in P
  }

  /** `P` is the least set closed under generation: the productive heads. */
  ghost predicate IsProductiveSet(r: Rules, P: set<char>) {
    && ClosedUnderGeneration(r, P)
    && (forall C :: ClosedUnderGeneration(r, C) ==> P <= C)
  }

  /** The bodies of `ps` made only of productive heads and terminals, in order. */
  function Generating(r: Rules, P: set<char>, ps: seq<Body>): (qs: seq<Body>)
    ensures forall q :: q in qs <==> q in ps && Generates(r, P, q)
  {
    if ps == [] then []
    else
      var last := ps[|ps| - 1];
      assert forall q :: q in ps <==> q in ps[..|ps| - 1] || q == last;
      Generating(r, P, ps[..|ps| - 1]) + (if Generates(r, P, last) then [last] else [])
  }

  /** The table eliminate_nonproductive returns for productive heads `P`. */
  function Prune(r: Rules, P: set<char>): Rules {
    Rules(Only(r.heads, P), map k | k in r.prods && k in P :: Generating(r, P, r.prods[k]))
  }

  /** The least closed set is unique. */
  lemma ProductiveUnique(r: Rules, P1: set<char>, P2: set<char>)
    requires IsProductiveSet(r, P1) && IsProductiveSet(r, P2)
    ensures P1 == P2
  {
  }

  /** Only heads are productive. */
  lemma ProductiveAreHeads(r: Rules, P: set<char>)
    requires IsProductiveSet(r, P)
    ensures forall k :: k in P ==> k in r.prods
  {
    assert ClosedUnderGeneration(r, r.prods.Keys);
  }

  /** A list whose bodies all generate is kept whole. */
  lemma {:induction false} GeneratingAll(r: Rules, P: set<char>, ps: seq<Body>)
    requires forall q :: q in ps ==> Generates(r, P, q)
    ensures Generating(r, P, ps) == ps
  {
    if ps != [] {
      var init := ps[..|ps| - 1];
      var last := ps[|ps| - 1];
      assert ps == init + [last];
      GeneratingAll(r, P, init);
    }
  }

  /** A terminal of the input that still occurs in a kept body is a terminal of the pruned table. */
  lemma TerminalsKept(r: Rules, P: set<char>, k: char, q: Body, c: char)
    requires k in Prune(r, P).prods && q in Prune(r, P).prods[k] && c in q && c in TerminalsOf(r)
    ensures c in TerminalsOf(Prune(r, P))
  {
    assert c !in r.prods;
    assert c !in Prune(r, P).prods;
  }

  /** A body of the pruned table that generates in the input generates in the pruned table too. */
  lemma GeneratesKept(r: Rules, P: set<char>, C: set<char>, k: char, q: Body)
    requires k in Prune(r, P).prods && q in Prune(r, P).prods[k]
    requires Generates(r, C, q)
    ensures Generates(Prune(r, P), C, q)
  {
    forall c | c in q && c !in C
      ensures c in TerminalsOf(Prune(r, P))
    {
      TerminalsKept(r, P, k, q, c);
    }
  }

  /** After eliminate_nonproductive every head left is productive in the new table, and a second pass changes nothing. */
  lemma NonproductiveIdempotent(r: Rules, P: set<char>)
    requires IsProductiveSet(r, P)
    ensures IsProductiveSet(Prune(r, P), P)
    ensures Prune(Prune(r, P), P) == Prune(r, P)
  {
    var r1 := Prune(r, P);
    ProductiveAreHeads(r, P);
    assert r1.prods.Keys == P;
    forall C | ClosedUnderGeneration(r1, C)
      ensures P <= C
    {
      PrunedLeast(r, P, C);
    }
    forall k | k in r1.prods
      ensures Generating(r1, P, r1.prods[k]) == r1.prods[k]
    {
      PrunedStable(r, P, k);
    }
    OnlyAll(r1.heads, P);
  }

  /** A set closed under generation in the pruned table contains every productive head. */
  lemma PrunedLeast(r: Rules, P: set<char>, C: set<char>)
    requires IsProductiveSet(r, P) && ClosedUnderGeneration(Prune(r, P), C)
    ensures P <= C
  {
    var r1 := Prune(r, P);
    var D := C * P;
    assert ClosedUnderGeneration(r, D) by {
      forall k, p | k in r.prods && p in r.prods[k] && Generates(r, D, p)
        ensures k in D
      {
        GeneratesMono(r, D, P, p);
        assert k in P;
        assert p in r1.prods[k];
        GeneratesMono(r, D, C, p);
        GeneratesKept(r, P, C, k, p);
      }
    }
  }

  /** Pruning keeps every body of the pruned table. */
  lemma PrunedStable(r: Rules, P: set<char>, k: char)
    requires k in Prune(r, P).prods
    ensures Generating(Prune(r, P), P, Prune(r, P).prods[k]) == Prune(r, P).prods[k]
  {
    var r1 := Prune(r, P);
    forall q | q in r1.prods[k]
      ensures Generates(r1, P, q)
    {
      GeneratesKept(r, P, P, k, q);
    }
    GeneratingAll(r1, P, r1.prods[k]);
  }
}
