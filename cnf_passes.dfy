/**
 * The helpers of the normalisation passes of 5_ChomskyNormalForm/Grammar.py: the loops
 * the methods of the Grammar class are made of, each proved against the closed forms of
 * cnf_rules.dfy.
 */
module CnfPasses {
  import opened Seqs
  import opened CnfRules

  /**
   * One inner loop of Grammar.py:17-19 for a head whose updated_grammar entry is still the
   * list of self.rules being walked (the copy at Grammar.py:9 is shallow): every body `p`
   * mentioning `v` gets `p.replace(v, "")` appended to that same list, and the walk goes on
   * over the appended bodies, which no longer mention `v`.
   */
  method AppendShared(prod: seq<Body>, v: char) returns (prod': seq<Body>)
    ensures prod' == Expand(prod, v)
  {
    prod' := prod;
    var i := 0;
    while i < |prod|
      invariant i <= |prod|
      invariant prod' == prod + Deletions(prod[..i], v)
    {
      DeletionsStep(prod, i, v);
      assert prod'[i] == prod[i];
      var p := prod'[i];
      if v in p {
        prod' := prod' + [Erase(p, v)];
      }
      i := i + 1;
    }
    assert prod[..i] == prod;
    while i < |prod'|
      invariant |prod| <= i <= |prod'| && prod' == Expand(prod, v)
    {
      assert prod'[i] in Deletions(prod, v);
      i := i + 1;
    }
  }

  /**
   * The same loop for a head that already owns a fresh list `target` in updated_grammar:
   * the deletions of the bodies of `prod` are appended to `target`.
   */
  method AppendFresh(prod: seq<Body>, v: char, target: seq<Body>) returns (target': seq<Body>)
    ensures target' == target + Deletions(prod, v)
  {
    target' := target;
    var i := 0;
    while i < |prod|
      invariant i <= |prod|
      invariant target' == target + Deletions(prod[..i], v)
    {
      DeletionsStep(prod, i, v);
      var p := prod[i];
      if v in p {
        target' := target' + [Erase(p, v)];
      }
      i := i + 1;
    }
    assert prod[..i] == prod;
  }

  /**
   * The loop at Grammar.py:16-19 for one nullable head `v`: every head's list in self.rules
   * (`src`) is walked, and the deletions go to the head's entry of updated_grammar, which is
   * the shared list itself unless the head already owns a fresh one (`own`). A popped head
   * would raise KeyError, so none may receive a deletion.
   */
  method SpreadNullable(heads: seq<char>, v: char, src: map<char, seq<Body>>, own: map<char, seq<Body>>,
                        ghost popped: set<char>)
    returns (src': map<char, seq<Body>>, own': map<char, seq<Body>>)
    requires NoDup(heads)
    requires forall k :: k in src <==> k in heads
    requires forall k :: k in own ==> k in heads
    requires forall k :: k in popped ==> k in own && Deletions(src[k], v) == []
    ensures src'.Keys == src.Keys && own'.Keys == own.Keys
    ensures forall k :: k in heads && k !in own ==> src'[k] == Expand(src[k], v)
    ensures forall k :: k in heads && k in own ==> src'[k] == src[k] && own'[k] == own[k] + Deletions(src[k], v)
  {
    src', own' := src, own;
    var m := 0;
    while m < |heads|
      invariant Spreading(heads, v, src, own, m, src', own')
    {
      var k := heads[m];
      ghost var s0, o0 := src', own';
      if k !in own' {
        var p2 := AppendShared(src'[k], v);
        src' := src'[k := p2];
      } else {
        assert k in popped ==> Deletions(src'[k], v) == [];
        var t2 := AppendFresh(src'[k], v, own'[k]);
        own' := own'[k := t2];
      }
      SpreadingStep(heads, v, src, own, m, s0, o0, src', own');
      m := m + 1;
    }
    SpreadingDone(heads, v, src, own, src', own');
  }

  /** The invariant of the loop at Grammar.py:16-19 once the first `m` heads are walked. */
  ghost predicate Spreading(heads: seq<char>, v: char, src: map<char, seq<Body>>, own: map<char, seq<Body>>, m: int,
                            src': map<char, seq<Body>>, own': map<char, seq<Body>>) {
    0 <= m <= |heads| && NoDup(heads) &&
    (forall k :: k in src <==> k in heads) && (forall k :: k in own ==> k in heads) &&
    (forall k :: k in src' <==> k in src) && (forall k :: k in own' <==> k in own) &&
    (forall n :: 0 <= n < m && heads[n] !in own ==> src'[heads[n]] == Expand(src[heads[n]], v)) &&
    (forall n :: 0 <= n < m && heads[n] in own ==>
      src'[heads[n]] == src[heads[n]] && own'[heads[n]] == own[heads[n]] + Deletions(src[heads[n]], v)) &&
    (forall n :: m <= n < |heads| ==> src'[heads[n]] == src[heads[n]] && (heads[n] in own ==> own'[heads[n]] == own[heads[n]]))
  }

  lemma SpreadingStep(heads: seq<char>, v: char, src: map<char, seq<Body>>, own: map<char, seq<Body>>, m: int,
                      s0: map<char, seq<Body>>, o0: map<char, seq<Body>>, src': map<char, seq<Body>>, own': map<char, seq<Body>>)
    requires Spreading(heads, v, src, own, m, s0, o0) && m < |heads|
    requires heads[m] !in own ==> src' == s0[heads[m] := Expand(s0[heads[m]], v)] && own' == o0
    requires heads[m] in own ==> src' == s0 && own' == o0[heads[m] := o0[heads[m]] + Deletions(s0[heads[m]], v)]
    ensures Spreading(heads, v, src, own, m + 1, src', own')
  {
    forall n | 0 <= n < |heads| && n != m
      ensures heads[n] != heads[m]
    {
    }
  }

  lemma SpreadingDone(heads: seq<char>, v: char, src: map<char, seq<Body>>, own: map<char, seq<Body>>,
                      src': map<char, seq<Body>>, own': map<char, seq<Body>>)
    requires Spreading(heads, v, src, own, |heads|, src', own')
    ensures src'.Keys == src.Keys && own'.Keys == own.Keys
    ensures forall k :: k in heads && k !in own ==> src'[k] == Expand(src[k], v)
    ensures forall k :: k in heads && k in own ==> src'[k] == src[k] && own'[k] == own[k] + Deletions(src[k], v)
  {
    forall k | k in heads
      ensures k !in own ==> src'[k] == Expand(src[k], v)
      ensures k in own ==> src'[k] == src[k] && own'[k] == own[k] + Deletions(src[k], v)
    {
      var n :| 0 <= n < |heads| && heads[n] == k;
    }
  }


  /**
   * What the pass has done to the head at position `m` once the heads `heads[..j]` have been
   * visited: a nullable head already visited owns a fresh list and is popped iff that list is
   * empty; every other head still shares its list, extended by the nullable heads seen so far.
   */
  ghost predicate VisitedState(r: Rules, m: nat, j: nat, src: map<char, seq<Body>>,
                               own: map<char, seq<Body>>, popped: set<char>)
    requires Valid(r) && m < |r.heads| && j <= |r.heads|
  {
    var k := r.heads[m];
    k in src &&
    if m < j && Eps in r.prods[k] then
      k in own && src[k] == Base(r, m) && own[k] == OwnBodies(r, m, j) && (k in popped <==> own[k] == [])
    else
      k !in own && k !in popped && src[k] == ExpandAll(r.prods[k], EpsHeads(r, r.heads[..j]))
  }

  /** VisitedState for every head. */
  ghost predicate VisitedAll(r: Rules, j: nat, src: map<char, seq<Body>>, own: map<char, seq<Body>>, popped: set<char>)
    requires Valid(r) && j <= |r.heads|
  {
    forall m :: 0 <= m < |r.heads| ==> VisitedState(r, m, j, src, own, popped)
  }

  /**
   * One iteration of the loop at Grammar.py:10-22, for the head `heads[j]`: a head with an
   * "ε" body gets a fresh list without its first "ε" (Grammar.py:12-13), spreads its deletions
   * (Grammar.py:16-19) and is popped when left with nothing (Grammar.py:21-22).
   */
  method VisitHead(ghost r: Rules, heads: seq<char>, j: nat, src: map<char, seq<Body>>,
                   own: map<char, seq<Body>>, popped: set<char>)
    returns (src': map<char, seq<Body>>, own': map<char, seq<Body>>, popped': set<char>)
    requires Valid(r) && MarkerAlone(r) && heads == r.heads && j < |heads|
    requires src.Keys == r.prods.Keys
    requires forall k :: k in own ==> k in heads
    requires popped <= own.Keys
    requires VisitedAll(r, j, src, own, popped)
    ensures src'.Keys == r.prods.Keys
    ensures forall k :: k in own' ==> k in heads
    ensures popped' <= own'.Keys
    ensures VisitedAll(r, j + 1, src', own', popped')
  {
    var v := heads[j];
    VisitEntry(r, j, src, own, popped);
    var productions := src[v];
    if Eps in productions {
      var own1 := own[v := RemoveFirst(productions, Eps)];
      PoppedUntouched(r, j, src, own, popped);
      src', own' := SpreadNullable(heads, v, src, own1, popped);
      popped' := if own'[v] == [] then popped + {v} else popped;
      NullableVisit(r, j, src, own, popped, own1, src', own', popped');
    } else {
      PlainVisit(r, j, src, own, popped);
      src', own', popped' := src, own, popped;
    }
  }


  // ---------------------------------------------------------------------
  // eliminate_renaming (Grammar.py:26-44)
  // ---------------------------------------------------------------------

  /** The loop at Grammar.py:29-34: unit bodies replaced by the input bodies of their head. */
  method InlineUnits(r: Rules, ps: seq<Body>) returns (out: seq<Body>)
    ensures out == Inline(r, ps)
  {
    out := [];
    var i := 0;
    while i < |ps|
      invariant i <= |ps| && out == Inline(r, ps[..i])
    {
      assert ps[..i + 1][..i] == ps[..i];
      var p := ps[i];
      if |p| == 1 && p[0] in r.prods {
        out := out + r.prods[p[0]];
      } else {
        out := out + [p];
      }
      i := i + 1;
    }
    assert ps[..i] == ps;
  }

  /** The loop at Grammar.py:28-35: every head's list inlined, in the copy of the table. */
  method InlineEvery(r: Rules) returns (updated: map<char, seq<Body>>)
    requires Valid(r)
    ensures updated.Keys == r.prods.Keys
    ensures forall k :: k in updated ==> updated[k] == Inline(r, r.prods[k])
  {
    updated := r.prods;
    var i := 0;
    while i < |r.heads|
      invariant Inlining(r, i, updated)
    {
      var k := r.heads[i];
      var ps := InlineUnits(r, r.prods[k]);
      ghost var before := updated;
      updated := updated[k := ps];
      InliningStep(r, i, before, updated);
      i := i + 1;
    }
    InliningDone(r, updated);
  }

  /** The invariant of the loop at Grammar.py:28-39 once the first `i` heads are done. */
  ghost predicate Inlining(r: Rules, i: int, updated: map<char, seq<Body>>) {
    Valid(r) && 0 <= i <= |r.heads| &&
    (forall k :: k in updated <==> k in r.prods) &&
    (forall n :: 0 <= n < i ==> updated[r.heads[n]] == Inline(r, r.prods[r.heads[n]])) &&
    (forall n :: i <= n < |r.heads| ==> updated[r.heads[n]] == r.prods[r.heads[n]])
  }

  lemma InliningStep(r: Rules, i: int, before: map<char, seq<Body>>, updated: map<char, seq<Body>>)
    requires Inlining(r, i, before) && i < |r.heads|
    requires updated == before[r.heads[i] := Inline(r, r.prods[r.heads[i]])]
    ensures Inlining(r, i + 1, updated)
  {
    forall n | 0 <= n < |r.heads| && n != i
      ensures r.heads[n] != r.heads[i]
    {
    }
  }

  lemma InliningDone(r: Rules, updated: map<char, seq<Body>>)
    requires Inlining(r, |r.heads|, updated)
    ensures updated.Keys == r.prods.Keys
    ensures forall k :: k in updated ==> updated[k] == Inline(r, r.prods[k])
  {
    forall k | k in updated
      ensures updated[k] == Inline(r, r.prods[k])
    {
      var n := IndexOf(r.heads, k);
    }
  }


  /** `keys_to_remove` (Grammar.py:37-38): the heads whose inlined list still has a unit body, in order. */
  method KeysStillRenaming(r: Rules, updated: map<char, seq<Body>>) returns (keys: seq<char>)
    requires Valid(r)
    requires updated.Keys == r.prods.Keys
    requires forall k :: k in updated ==> updated[k] == Inline(r, r.prods[k])
    ensures NoDup(keys)
    ensures forall k :: k in keys <==> k in StillRenaming(r)
  {
    keys := [];
    var i := 0;
    while i < |r.heads|
      invariant i <= |r.heads| && NoDup(keys)
      invariant forall k :: k in keys <==> k in r.heads[..i] && k in StillRenaming(r)
    {
      var k := r.heads[i];
      var b := AnyUnit(r, updated[k]);
      assert forall x :: x in r.heads[..i + 1] <==> x in r.heads[..i] || x == k;
      assert k !in r.heads[..i];
      if b {
        keys := keys + [k];
      }
      i := i + 1;
    }
    assert r.heads[..i] == r.heads;
  }

  /** The pops at Grammar.py:40-41; each key is present, so none raises KeyError. */
  method PopAll(m: map<char, seq<Body>>, keys: seq<char>) returns (m': map<char, seq<Body>>)
    requires NoDup(keys) && forall k :: k in keys ==> k in m
    ensures m'.Keys == m.Keys - set k | k in keys
    ensures forall k :: k in m' ==> m'[k] == m[k]
  {
    m' := m;
    var i := 0;
    while i < |keys|
      invariant i <= |keys|
      invariant m'.Keys == m.Keys - set x | x in keys[..i]
      invariant forall k :: k in m' ==> m'[k] == m[k]
    {
      var key := keys[i];
      assert key !in keys[..i];
      m' := m' - {key};
      assert forall x :: x in keys[..i + 1] <==> x in keys[..i] || x == key;
      i := i + 1;
    }
    assert keys[..i] == keys;
  }

  /** The `any` at Grammar.py:38. */
  method AnyUnit(r: Rules, ps: seq<Body>) returns (b: bool)
    ensures b == HasUnit(r, ps)
  {
    var i := 0;
    while i < |ps|
      invariant i <= |ps|
      invariant forall j :: 0 <= j < i ==> !IsUnit(r, ps[j])
    {
      if |ps[i]| == 1 && ps[i][0] in r.prods {
        assert ps[i] in ps;
        return true;
      }
      i := i + 1;
    }
    return false;
  }

  // ---------------------------------------------------------------------
  // eliminate_inaccessible (Grammar.py:46-64)
  // ---------------------------------------------------------------------

  /** The loops at Grammar.py:54-57: every head a body of `ps` mentions joins `reach`. */
  method AddUses(r: Rules, ps: seq<Body>, reach: set<char>) returns (reach': set<char>)
    ensures reach' == reach + Uses(r, ps)
  {
    reach' := reach;
    var i := 0;
    while i < |ps|
      invariant i <= |ps|
      invariant reach' == reach + Uses(r, ps[..i])
    {
      var p := ps[i];
      var j := 0;
      while j < |p|
        invariant j <= |p|
        invariant reach' == reach + Uses(r, ps[..i]) + (set c | c in p[..j] && c in r.prods)
      {
        if p[j] in r.prods {
          reach' := reach' + {p[j]};
        }
        assert p[..j + 1] == p[..j] + [p[j]];
        j := j + 1;
      }
      assert p[..j] == p;
      assert Uses(r, ps[..i + 1]) == Uses(r, ps[..i]) + (set c | c in p && c in r.prods) by {
        assert ps[..i + 1] == ps[..i] + [p];
      }
      i := i + 1;
    }
    assert ps[..i] == ps;
  }

  /** One sweep of the loop at Grammar.py:52-57 over the heads in order. */
  method SweepReachable(r: Rules, reach: set<char>) returns (reach': set<char>)
    requires Valid(r)
    ensures reach <= reach' <= reach + r.prods.Keys
    ensures forall v :: v in reach && v in r.prods ==> Uses(r, r.prods[v]) <= reach'
    ensures forall C :: ClosedUnderUse(r, C) && reach <= C ==> reach' <= C
  {
    reach' := reach;
    var i := 0;
    while i < |r.heads|
      invariant i <= |r.heads|
      invariant reach <= reach' <= reach + r.prods.Keys
      invariant forall m :: 0 <= m < i && r.heads[m] in reach ==> Uses(r, r.prods[r.heads[m]]) <= reach'
      invariant forall C :: ClosedUnderUse(r, C) && reach <= C ==> reach' <= C
    {
      var v := r.heads[i];
      if v in reach' {
        reach' := AddUses(r, r.prods[v], reach');
        UsesClosed(r, v);
      }
      i := i + 1;
    }
    forall v | v in reach && v in r.prods
      ensures Uses(r, r.prods[v]) <= reach'
    {
      var m :| 0 <= m < |r.heads| && r.heads[m] == v;
    }
  }

  /** The loop at Grammar.py:47-59: sweeps from {'S'} until a sweep adds nothing. */
  method Reachable(r: Rules) returns (reachable: set<char>)
    requires Valid(r)
    ensures IsReachableSet(r, reachable)
  {
    reachable := {Start};
    ghost var universe := r.prods.Keys + {Start};
    while true
      invariant Start in reachable && reachable <= universe
      invariant forall C :: Start in C && ClosedUnderUse(r, C) ==> reachable <= C
      decreases |universe| - |reachable|
    {
      SubsetCard(reachable, universe);
      var oldLen := |reachable|;
      ghost var before := reachable;
      reachable := SweepReachable(r, reachable);
      if |reachable| == oldLen {
        SubsetSameCard(before, reachable);
        break;
      }
      SubsetCard(before, reachable);
      SubsetCard(reachable, universe);
    }
  }

  /** The loop at Grammar.py:60-62: the reached heads with their lists, in table order. */
  method KeepReached(r: Rules, reachable: set<char>) returns (r': Rules)
    requires Valid(r)
    ensures r' == Restrict(r, reachable)
  {
    var heads: seq<char> := [];
    var prods: map<char, seq<Body>> := map[];
    var i := 0;
    while i < |r.heads|
      invariant i <= |r.heads|
      invariant heads == Only(r.heads[..i], reachable)
      invariant prods.Keys == set k | k in r.heads[..i] && k in reachable
      invariant forall k :: k in prods ==> prods[k] == r.prods[k]
    {
      var v := r.heads[i];
      OnlySnoc(r.heads, i, reachable);
      if v in reachable {
        heads := heads + [v];
        prods := prods[v := r.prods[v]];
      }
      i := i + 1;
    }
    assert r.heads[..i] == r.heads;
    r' := Rules(heads, prods);
    assert prods == Restrict(r, reachable).prods;
  }

  /** A closed set holds every head used by its members. */
  lemma UsesClosed(r: Rules, v: char)
    requires v in r.prods
    ensures forall C :: ClosedUnderUse(r, C) && v in C ==> Uses(r, r.prods[v]) <= C
  {
  }

  // ---------------------------------------------------------------------
  // eliminate_nonproductive (Grammar.py:66-92)
  // ---------------------------------------------------------------------

  /** One sweep of the loop at Grammar.py:74-77 over the heads in order. */
  method SweepProductive(r: Rules, prod: set<char>) returns (prod': set<char>)
    requires Valid(r)
    ensures prod <= prod' <= prod + r.prods.Keys
    ensures forall k, p :: k in r.prods && p in r.prods[k] && Generates(r, prod, p) ==> k in prod'
    ensures forall C :: ClosedUnderGeneration(r, C) && prod <= C ==> prod' <= C
  {
    prod' := prod;
    var i := 0;
    while i < |r.heads|
      invariant i <= |r.heads|
      invariant prod <= prod' <= prod + r.prods.Keys
      invariant forall m, p :: 0 <= m < i && p in r.prods[r.heads[m]] && Generates(r, prod, p) ==> r.heads[m] in prod'
      invariant forall C :: ClosedUnderGeneration(r, C) && prod <= C ==> prod' <= C
    {
      var k := r.heads[i];
      var ps := r.prods[k];
      var j := 0;
      while j < |ps|
        invariant j <= |ps|
        invariant prod <= prod' <= prod + r.prods.Keys
        invariant forall m, p :: 0 <= m < i && p in r.prods[r.heads[m]] && Generates(r, prod, p) ==> r.heads[m] in prod'
        invariant forall q :: q in ps[..j] && Generates(r, prod, q) ==> k in prod'
        invariant forall C :: ClosedUnderGeneration(r, C) && prod <= C ==> prod' <= C
      {
        if Generates(r, prod', ps[j]) {
          forall C | ClosedUnderGeneration(r, C) && prod <= C
            ensures k in C
          {
            GeneratesMono(r, prod', C, ps[j]);
          }
          prod' := prod' + {k};
        } else {
          forall q | q == ps[j] && Generates(r, prod, q)
            ensures false
          {
            GeneratesMono(r, prod, prod', q);
          }
        }
        assert ps[..j + 1] == ps[..j] + [ps[j]];
        j := j + 1;
      }
      assert ps[..j] == ps;
      i := i + 1;
    }
    forall k, p | k in r.prods && p in r.prods[k] && Generates(r, prod, p)
      ensures k in prod'
    {
      var m :| 0 <= m < |r.heads| && r.heads[m] == k;
    }
  }

  /** The loop at Grammar.py:72-79: sweeps from the empty set until a sweep adds nothing. */
  method Productive(r: Rules) returns (prod: set<char>)
    requires Valid(r)
    ensures IsProductiveSet(r, prod)
  {
    prod := {};
    while true
      invariant prod <= r.prods.Keys
      invariant forall C :: ClosedUnderGeneration(r, C) ==> prod <= C
      decreases |r.prods.Keys| - |prod|
    {
      SubsetCard(prod, r.prods.Keys);
      var oldLen := |prod|;
      ghost var before := prod;
      prod := SweepProductive(r, prod);
      if |prod| == oldLen {
        SubsetSameCard(before, prod);
        break;
      }
      SubsetCard(before, prod);
      SubsetCard(prod, r.prods.Keys);
    }
  }

  /** The loop at Grammar.py:81-89 on the copy of the table: productive heads filtered, the others popped. */
  method KeepProductive(r: Rules, prod: set<char>) returns (r': Rules)
    requires Valid(r)
    ensures r' == Prune(r, prod)
  {
    var updated := r.prods;
    ghost var done: set<char> := {};
    var i := 0;
    while i < |r.heads|
      invariant i <= |r.heads|
      invariant done == set m | 0 <= m < i :: r.heads[m]
      invariant updated.Keys == r.prods.Keys - (done - prod)
      invariant forall k :: k in updated && k in done ==> updated[k] == Generating(r, prod, r.prods[k])
      invariant forall k :: k in updated && k !in done ==> updated[k] == r.prods[k]
    {
      var v := r.heads[i];
      assert v !in done;
      if v in prod {
        var ps := KeepGenerating(r, prod, r.prods[v]);
        updated := updated[v := ps];
      } else {
        updated := updated - {v};
      }
      done := done + {v};
      i := i + 1;
    }
    PruneAssembled(r, prod, updated);
    r' := Rules(Only(r.heads, updated.Keys), updated);
  }

  lemma PruneAssembled(r: Rules, prod: set<char>, updated: map<char, seq<Body>>)
    requires Valid(r)
    requires updated.Keys == r.prods.Keys - ((set m | 0 <= m < |r.heads| :: r.heads[m]) - prod)
    requires forall k :: k in updated ==> updated[k] == Generating(r, prod, r.prods[k])
    ensures Rules(Only(r.heads, updated.Keys), updated) == Prune(r, prod)
  {
    OnlyAgree(r.heads, updated.Keys, prod);
    assert updated == Prune(r, prod).prods;
  }

  /** The list comprehension-like loop at Grammar.py:83-86. */
  method KeepGenerating(r: Rules, P: set<char>, ps: seq<Body>) returns (qs: seq<Body>)
    ensures qs == Generating(r, P, ps)
  {
    qs := [];
    var i := 0;
    while i < |ps|
      invariant i <= |ps| && qs == Generating(r, P, ps[..i])
    {
      assert ps[..i + 1][..i] == ps[..i];
      if Generates(r, P, ps[i]) {
        qs := qs + [ps[i]];
      }
      i := i + 1;
    }
    assert ps[..i] == ps;
  }

  /** The head about to be visited still shares its list, and that list has "ε" iff its input list does. */
  lemma VisitEntry(r: Rules, j: nat, src: map<char, seq<Body>>, own: map<char, seq<Body>>, popped: set<char>)
    requires Valid(r) && MarkerAlone(r) && j < |r.heads|
    requires VisitedAll(r, j, src, own, popped)
    ensures var v := r.heads[j];
      v in src && v !in own && v !in popped && (Eps in src[v] <==> Eps in r.prods[v])
  {
    assert VisitedState(r, j, j, src, own, popped);
    MarkerKept(r, j);
  }

  /** No popped head has a body the visited head's deletions could extend (Grammar.py:19 would raise KeyError). */
  lemma PoppedUntouched(r: Rules, j: nat, src: map<char, seq<Body>>, own: map<char, seq<Body>>, popped: set<char>)
    requires Valid(r) && MarkerAlone(r) && j < |r.heads|
    requires VisitedAll(r, j, src, own, popped)
    requires popped <= own.Keys && forall k :: k in own ==> k in r.heads
    ensures forall k :: k in popped ==> k in src && Deletions(src[k], r.heads[j]) == []
  {
    forall k | k in popped
      ensures k in src && Deletions(src[k], r.heads[j]) == []
    {
      var m :| 0 <= m < |r.heads| && r.heads[m] == k && VisitedState(r, m, j, src, own, popped);
      PoppedGetsNothing(r, m, j, src, own, popped);
    }
  }

  /** Visiting a head without an "ε" body changes nothing. */
  lemma PlainVisit(r: Rules, j: nat, src: map<char, seq<Body>>, own: map<char, seq<Body>>, popped: set<char>)
    requires Valid(r) && j < |r.heads|
    requires Eps !in r.prods[r.heads[j]]
    requires VisitedAll(r, j, src, own, popped)
    ensures VisitedAll(r, j + 1, src, own, popped)
  {
    var next := j + 1;
    forall m | 0 <= m < |r.heads|
      ensures VisitedState(r, m, next, src, own, popped)
    {
      PlainStep(r, m, j, src, own, popped);
    }
  }

  /** Visiting a nullable head, with `own0` holding its entry list fresh from `remove`, establishes the next state. */
  lemma NullableVisit(r: Rules, j: nat, src: map<char, seq<Body>>, own: map<char, seq<Body>>, popped: set<char>,
                      own0: map<char, seq<Body>>, src': map<char, seq<Body>>, own': map<char, seq<Body>>, popped': set<char>)
    requires Valid(r) && MarkerAlone(r) && j < |r.heads|
    requires var v := r.heads[j]; Eps in r.prods[v] && v in src && v !in own
    requires var v := r.heads[j]; own0 == own[v := RemoveFirst(src[v], Eps)]
    requires VisitedAll(r, j, src, own, popped)
    requires src.Keys == r.prods.Keys && src'.Keys == src.Keys && own'.Keys == own0.Keys
    requires forall k :: k in popped ==> k in src && Deletions(src[k], r.heads[j]) == []
    requires forall k :: k in r.heads && k !in own0 ==> src'[k] == Expand(src[k], r.heads[j])
    requires forall k :: k in r.heads && k in own0 ==>
      src'[k] == src[k] && own'[k] == own0[k] + Deletions(src[k], r.heads[j])
    requires popped' == if own'[r.heads[j]] == [] then popped + {r.heads[j]} else popped
    ensures VisitedAll(r, j + 1, src', own', popped')
  {
    var next := j + 1;
    forall m | 0 <= m < |r.heads|
      ensures VisitedState(r, m, next, src', own', popped')
    {
      NullableStep(r, m, j, src, own, popped, src', own', popped');
    }
  }

  /** The list a head shares or owns keeps the "ε" convention, and "ε" in it iff "ε" in the input list. */
  lemma MarkerKept(r: Rules, m: nat)
    requires Valid(r) && MarkerAlone(r) && m < |r.heads|
    ensures forall j :: m <= j <= |r.heads| ==>
      (Eps in ExpandAll(r.prods[r.heads[m]], EpsHeads(r, r.heads[..j])) <==> Eps in r.prods[r.heads[m]])
  {
    forall j | m <= j <= |r.heads|
      ensures Eps in ExpandAll(r.prods[r.heads[m]], EpsHeads(r, r.heads[..j])) <==> Eps in r.prods[r.heads[m]]
    {
      var es := EpsHeads(r, r.heads[..j]);
      assert EpsChar !in es;
      assert MarkerAloneIn(r.prods[r.heads[m]]);
      ExpandAllMarker(r.prods[r.heads[m]], es);
    }
  }

  /** A popped head has the single body "ε" in its shared list, which no deletion touches. */
  lemma PoppedGetsNothing(r: Rules, m: nat, j: nat, src: map<char, seq<Body>>, own: map<char, seq<Body>>,
                          popped: set<char>)
    requires Valid(r) && MarkerAlone(r) && m < |r.heads| && j < |r.heads|
    requires VisitedState(r, m, j, src, own, popped)
    requires r.heads[m] in popped
    ensures Deletions(src[r.heads[m]], r.heads[j]) == []
  {
    var k := r.heads[m];
    MarkerKept(r, m);
    assert Eps in Base(r, m);
    RemoveFirstEmpty(Base(r, m), Eps);
    assert src[k] == [Eps];
    assert r.heads[j] != EpsChar;
    assert src[k][..0] == [];
  }

  lemma PlainStep(r: Rules, m: nat, j: nat, src: map<char, seq<Body>>, own: map<char, seq<Body>>, popped: set<char>)
    requires Valid(r) && j < |r.heads| && m < |r.heads|
    requires Eps !in r.prods[r.heads[j]]
    requires VisitedState(r, m, j, src, own, popped)
    ensures VisitedState(r, m, j + 1, src, own, popped)
  {
    EpsHeadsSkip(r, 0, j);
    assert r.heads[0..j] == r.heads[..j] && r.heads[0..j + 1] == r.heads[..j + 1];
    if m < j {
      EpsHeadsSkip(r, m, j);
      assert OwnBodies(r, m, j + 1) == OwnBodies(r, m, j);
    }
  }

  /** A head without an "ε" body adds nothing to the nullable heads of a stretch of heads. */
  lemma EpsHeadsSkip(r: Rules, m: nat, j: nat)
    requires Valid(r) && m <= j < |r.heads|
    requires Eps !in r.prods[r.heads[j]]
    ensures EpsHeads(r, r.heads[m..j + 1]) == EpsHeads(r, r.heads[m..j])
  {
    var hs := r.heads;
    assert hs[m..j + 1] == hs[m..j] + [hs[j]];
    EpsHeadsSnoc(r, hs[m..j], hs[j]);
  }

  lemma NullableStep(r: Rules, m: nat, j: nat, src: map<char, seq<Body>>, own: map<char, seq<Body>>, popped: set<char>,
                     src': map<char, seq<Body>>, own': map<char, seq<Body>>, popped': set<char>)
    requires Valid(r) && j < |r.heads| && m < |r.heads|
    requires Eps in r.prods[r.heads[j]]
    requires VisitedState(r, m, j, src, own, popped)
    requires forall k :: k in popped ==> k in src && Deletions(src[k], r.heads[j]) == []
    requires src.Keys == r.prods.Keys && src'.Keys == src.Keys
    requires var v := r.heads[j]; own'.Keys == own.Keys + {v}
    requires var v := r.heads[j];
      forall k :: k in r.heads && k !in own && k != v ==> src'[k] == Expand(src[k], v)
    requires var v := r.heads[j];
      forall k :: k in r.heads && k in own ==> src'[k] == src[k] && own'[k] == own[k] + Deletions(src[k], v)
    requires var v := r.heads[j];
      src'[v] == src[v] && own'[v] == RemoveFirst(src[v], Eps) + Deletions(src[v], v)
    requires popped' == if own'[r.heads[j]] == [] then popped + {r.heads[j]} else popped
    ensures VisitedState(r, m, j + 1, src', own', popped')
  {
    var hs := r.heads;
    var v := hs[j];
    var k := hs[m];
    if m < j && Eps in r.prods[k] {
      assert k != v by { assert NoDup(hs); }
      assert k in own;
      VisitedExtend(r, m, j, src, own, popped, src'[k], own'[k], k in popped');
    } else if m == j {
      VisitedNew(r, j, src[v], own'[v], v in popped');
    } else {
      assert k != v by { assert NoDup(hs); }
      VisitedShared(r, m, j, src[k], src'[k]);
    }
  }

  /** A nullable head visited earlier keeps its shared list and gets the new deletions in its own. */
  lemma VisitedExtend(r: Rules, m: nat, j: nat, src: map<char, seq<Body>>, own: map<char, seq<Body>>, popped: set<char>,
                      shared: seq<Body>, ownList: seq<Body>, isPopped: bool)
    requires Valid(r) && m < j < |r.heads|
    requires Eps in r.prods[r.heads[j]] && Eps in r.prods[r.heads[m]]
    requires VisitedState(r, m, j, src, own, popped)
    requires var k := r.heads[m];
      shared == src[k] && ownList == own[k] + Deletions(src[k], r.heads[j])
    requires var k := r.heads[m]; k in popped ==> Deletions(src[k], r.heads[j]) == []
    requires isPopped <==> r.heads[m] in popped
    ensures shared == Base(r, m) && ownList == OwnBodies(r, m, j + 1) && (isPopped <==> ownList == [])
  {
    OwnBodiesStep(r, m, j);
  }

  /** The nullable head being visited gets its fresh list. */
  lemma VisitedNew(r: Rules, j: nat, shared: seq<Body>, ownList: seq<Body>, isPopped: bool)
    requires Valid(r) && j < |r.heads|
    requires Eps in r.prods[r.heads[j]]
    requires shared == ExpandAll(r.prods[r.heads[j]], EpsHeads(r, r.heads[..j]))
    requires ownList == RemoveFirst(shared, Eps) + Deletions(shared, r.heads[j])
    requires isPopped <==> ownList == []
    ensures shared == Base(r, j) && ownList == OwnBodies(r, j, j + 1)
  {
    assert OwnBodies(r, j, j) == RemoveFirst(Base(r, j), Eps) by {
      assert r.heads[j..j] == [];
    }
    OwnBodiesStep(r, j, j);
  }

  /** Every other head's shared list is extended by the deletions of the visited head. */
  lemma VisitedShared(r: Rules, m: nat, j: nat, shared: seq<Body>, shared': seq<Body>)
    requires Valid(r) && j < |r.heads| && m < |r.heads|
    requires Eps in r.prods[r.heads[j]]
    requires shared == ExpandAll(r.prods[r.heads[m]], EpsHeads(r, r.heads[..j]))
    requires shared' == Expand(shared, r.heads[j])
    ensures shared' == ExpandAll(r.prods[r.heads[m]], EpsHeads(r, r.heads[..j + 1]))
  {
    EpsHeadsAdd(r, 0, j);
    assert r.heads[0..j] == r.heads[..j] && r.heads[0..j + 1] == r.heads[..j + 1];
    ExpandAllSnoc(r.prods[r.heads[m]], EpsHeads(r, r.heads[..j]), r.heads[j]);
  }

  /** A head with an "ε" body joins the nullable heads of a stretch of heads. */
  lemma EpsHeadsAdd(r: Rules, m: nat, j: nat)
    requires Valid(r) && m <= j < |r.heads|
    requires Eps in r.prods[r.heads[j]]
    ensures EpsHeads(r, r.heads[m..j + 1]) == EpsHeads(r, r.heads[m..j]) + [r.heads[j]]
  {
    var hs := r.heads;
    assert hs[m..j + 1] == hs[m..j] + [hs[j]];
    EpsHeadsSnoc(r, hs[m..j], hs[j]);
  }

  /** Visiting a nullable head appends its deletions of Base to every fresh list of a nullable head. */
  lemma OwnBodiesStep(r: Rules, m: nat, j: nat)
    requires Valid(r) && m <= j < |r.heads|
    requires Eps in r.prods[r.heads[j]]
    ensures OwnBodies(r, m, j + 1) == OwnBodies(r, m, j) + Deletions(Base(r, m), r.heads[j])
  {
    var b := Base(r, m);
    var es := EpsHeads(r, r.heads[m..j]);
    var first := RemoveFirst(b, Eps);
    EpsHeadsAdd(r, m, j);
    DeletionsAllSnoc(b, es, r.heads[j]);
    assert OwnBodies(r, m, j + 1) == first + (DeletionsAll(b, es) + Deletions(b, r.heads[j]));
    assert OwnBodies(r, m, j) == first + DeletionsAll(b, es);
    AppendAssoc(first, DeletionsAll(b, es), Deletions(b, r.heads[j]));
  }

  lemma AppendAssoc<T>(a: seq<T>, b: seq<T>, c: seq<T>)
    ensures a + (b + c) == (a + b) + c
  {
  }

  /** After every head has been visited, a head is popped iff it is dropped, and its list is the closed form. */
  lemma FinalHead(r: Rules, m: nat, src: map<char, seq<Body>>, own: map<char, seq<Body>>, popped: set<char>)
    requires Valid(r) && m < |r.heads|
    requires VisitedState(r, m, |r.heads|, src, own, popped)
    ensures var k := r.heads[m];
      (k in popped <==> Dropped(r, m)) &&
      (!Dropped(r, m) ==> (if k in own then own[k] else src[k]) == NewBodies(r, m))
  {
    assert r.heads[..|r.heads|] == r.heads;
  }

  /** The table the pass builds from its final state is the closed form. */
  lemma FinalState(r: Rules, src: map<char, seq<Body>>, own: map<char, seq<Body>>, popped: set<char>)
    requires Valid(r)
    requires src.Keys == r.prods.Keys
    requires VisitedAll(r, |r.heads|, src, own, popped)
    ensures var kept := Only(r.heads, set k | k in r.heads && k !in popped);
      Rules(kept, map k | k in kept :: if k in own then own[k] else src[k]) == EliminateEmpty(r)
  {
    var hs := r.heads;
    forall k | k in hs
      ensures k !in popped <==> k in KeptHeads(r)
      ensures k !in popped ==> (if k in own then own[k] else src[k]) == NewBodies(r, IndexOf(hs, k))
    {
      FinalHead(r, IndexOf(hs, k), src, own, popped);
    }
    var e := EliminateEmpty(r);
    EliminateEmptyShape(r);
    Assemble(hs, popped, own, src, KeptHeads(r), e.prods);
  }

  /** Rebuilding a dict from the heads not popped and the lists they hold, stated without the closed form. */
  lemma Assemble(hs: seq<char>, popped: set<char>, own: map<char, seq<Body>>, src: map<char, seq<Body>>,
                 keep: set<char>, bodies: map<char, seq<Body>>)
    requires forall k :: k in hs ==> k in src
    requires forall k :: k in hs ==> (k !in popped <==> k in keep)
    requires keep <= set k | k in hs
    requires bodies.Keys == keep
    requires forall k :: k in keep ==> (if k in own then own[k] else src[k]) == bodies[k]
    ensures var kept := Only(hs, set k | k in hs && k !in popped);
      Rules(kept, map k | k in kept :: if k in own then own[k] else src[k]) == Rules(Only(hs, keep), bodies)
  {
    var keep' := set k | k in hs && k !in popped;
    assert keep' == keep by {
      forall k
        ensures k in keep' <==> k in keep
      {
      }
    }
    var kept := Only(hs, keep);
    var m := map k | k in kept :: if k in own then own[k] else src[k];
    assert m == bodies by {
      forall k
        ensures k in m <==> k in bodies
      {
      }
    }
  }
}
