/**
 * The whole of to_cnf (Grammar.py:114-164) on values: the first phase splits long
 * bodies, the second names the terminals of mixed bodies, the third puts the keys
 * in order. What the result is, body by body, is stated in `Converted`.
 */
module CnfResult {
  import opened Seqs
  import opened CnfRules
  import opened CnfForm
  import opened CnfConvert

  /** The new names: the declared list grows by one-character names, each of a cache entry and none declared before. */
  ghost predicate ConvertedNames(r: Rules, nts0: seq<string>, terminals: seq<string>, nts: seq<string>, cache: map<string, char>) {
    |nts| >= |nts0| && nts[..|nts0|] == nts0 &&
    (forall m :: |nts0| <= m < |nts| ==> |nts[m]| == 1 && nts[m][0] in cache.Values) &&
    (forall key :: key in cache ==>
      [cache[key]] in nts && [cache[key]] !in nts0 && cache[key] !in r.prods && !IsTerminal(terminals, cache[key]))
  }

  /** Grammar.py:159-161: the old heads first, in their order, then every new non-terminal once. */
  ghost predicate ConvertedOrder(r: Rules, t: CnfTable, cache: map<string, char>) {
    |t.heads| >= |r.heads| && t.heads[..|r.heads|] == r.heads && NoDup(t.heads) &&
    (forall k :: k in t.heads <==> k in t.prods) &&
    (forall k :: k in t.prods <==> k in r.prods || k in cache.Values)
  }

  /**
   * The bodies: each old head has its bodies converted; each name of a pair of symbols derives
   * that pair, fixed; each name of a terminal derives that terminal. Every body is shortened
   * all the way by the cache, and every terminal of a mixed body has a name.
   */
  ghost predicate ConvertedBodies(r: Rules, terminals: seq<string>, prods: map<char, set<Body>>, cache: map<string, char>) {
    HeadsConverted(r, terminals, prods, cache) && BodiesCovered(r, terminals, cache) &&
    PairsNamed(terminals, prods, cache) && TerminalsNamed(terminals, prods, cache)
  }

  /** Each old head has its bodies converted. */
  ghost predicate HeadsConverted(r: Rules, terminals: seq<string>, prods: map<char, set<Body>>, cache: map<string, char>) {
    forall k :: k in r.prods ==> k in prods && prods[k] == ConvertSet(cache, terminals, r.prods[k])
  }

  /** Every old body is shortened all the way, and the terminals of a mixed result have names. */
  ghost predicate BodiesCovered(r: Rules, terminals: seq<string>, cache: map<string, char>) {
    forall k, p :: k in r.prods && p in r.prods[k] ==>
      Covered(cache, p) && (Mixed(terminals, Shorten(cache, p)) ==> TerminalsCached(cache, terminals, Shorten(cache, p)))
  }

  /** The name of a pair derives that pair, fixed. */
  ghost predicate PairsNamed(terminals: seq<string>, prods: map<char, set<Body>>, cache: map<string, char>) {
    forall key :: key in cache && |key| == 2 ==>
      cache[key] in prods && prods[cache[key]] == {Fix(cache, terminals, key)} &&
      (Mixed(terminals, key) ==> TerminalsCached(cache, terminals, key))
  }

  /** Every other cached key is a terminal, and its name derives it. */
  ghost predicate TerminalsNamed(terminals: seq<string>, prods: map<char, set<Body>>, cache: map<string, char>) {
    forall key :: key in cache && |key| != 2 ==>
      |key| == 1 && IsTerminal(terminals, key[0]) && cache[key] in prods && prods[cache[key]] == {key}
  }

  /** The converted forms of the bodies `ps`. */
  ghost function ConvertSet(cache: map<string, char>, terminals: seq<string>, ps: seq<Body>): set<Body> {
    set p | p in ps :: Convert(cache, terminals, p)
  }

  /** What to_cnf promises: `t` is the new table, `nts` the new list of non-terminals, `cache` its `rhs_to_non_terminal`. */
  ghost predicate Converted(r: Rules, nts0: seq<string>, terminals: seq<string>, t: CnfTable, nts: seq<string>, cache: map<string, char>) {
    ConvertedNames(r, nts0, terminals, nts, cache) && ConvertedOrder(r, t, cache) && ConvertedBodies(r, terminals, t.prods, cache)
  }

  /** list(set(new_rules) - set(old_non_terminals)) at Grammar.py:160: the keys not among `heads`, in some order. */
  method NewKeys(heads: seq<char>, keys: set<char>) returns (rest: seq<char>)
    ensures NoDup(rest)
    ensures forall k :: k in rest <==> k in keys && k !in heads
  {
    rest := Enumerate(keys - (set h | h in heads));
  }

  /** Python's list() of a set: its elements once each, in an order the language leaves open. */
  method Enumerate<T>(s: set<T>) returns (xs: seq<T>)
    ensures NoDup(xs)
    ensures forall x :: x in xs <==> x in s
  {
    var left := s;
    xs := [];
    while left != {}
      invariant NoDup(xs)
      invariant forall x :: x in xs || x in left <==> x in s
      invariant forall x :: x in xs ==> x !in left
      decreases |left|
    {
      var x :| x in left;
      xs := xs + [x];
      left := left - {x};
    }
  }

  /** `r` lists the bodies of `t`: the same heads in the same order, each set of bodies as a list without repeats. */
  ghost predicate Listed(t: CnfTable, r: Rules) {
    r.heads == t.heads &&
    (forall k :: k in r.prods <==> k in t.prods) &&
    (forall k :: k in r.prods ==> NoDup(r.prods[k]) && forall q :: q in r.prods[k] <==> q in t.prods[k])
  }

  /** The converted table as lists, for the `rules` field of the grammar. */
  method AsRules(t: CnfTable) returns (r: Rules)
    requires forall k :: k in t.heads <==> k in t.prods
    ensures Listed(t, r)
  {
    var prods: map<char, seq<Body>> := map[];
    var i := 0;
    while i < |t.heads|
      invariant 0 <= i <= |t.heads|
      invariant forall k :: k in prods <==> k in t.heads[..i]
      invariant forall k :: k in prods ==> k in t.prods && NoDup(prods[k]) && forall q :: q in prods[k] <==> q in t.prods[k]
    {
      var k := t.heads[i];
      var bodies := Enumerate(t.prods[k]);
      prods := prods[k := bodies];
      assert t.heads[..i + 1] == t.heads[..i] + [k];
      i := i + 1;
    }
    assert t.heads[..|t.heads|] == t.heads;
    r := Rules(t.heads, prods);
  }

  /**
   * Grammar.py:114-164 on the table `r`, the declared non-terminals `nts0` and the terminals:
   * the converted table, the grown list of non-terminals and the cache of new names.
   * The precondition asks that the one-character names create_new_non_terminal hands out for
   * the helpers the conversion may create are none of them a head of `r` or a terminal.
   */
  method ToCnfTable(r: Rules, nts0: seq<string>, terminals: seq<string>)
    returns (t: CnfTable, nts: seq<string>, cache: map<string, char>)
    requires Valid(r) && Room(nts0, Avoid(r.heads, terminals)) >= HeadsExcess(r, r.heads) + |terminals|
    ensures Converted(r, nts0, terminals, t, nts, cache)
  {
    var st1 := SplitLong(r, nts0, terminals);
    var st2 := FixAllMixed(nts0, terminals, st1);
    var rest := NewKeys(r.heads, st2.rules.Keys);
    t := CnfTable(r.heads + rest, st2.rules);
    nts := st2.nts;
    cache := st2.cache;
    FinalNames(r, nts0, terminals, st2);
    FinalOrder(r, nts0, terminals, st1, st2, rest);
    FinalBodies(r, nts0, terminals, st1, st2);
    assert t.prods == st2.rules;
  }

  lemma FinalNames(r: Rules, nts0: seq<string>, terminals: seq<string>, st2: Conversion)
    requires Valid(r) && NamesOk(nts0, terminals, st2) && st2.oldNonTerminals == r.heads
    ensures ConvertedNames(r, nts0, terminals, st2.nts, st2.cache)
  {
    forall key | key in st2.cache
      ensures st2.cache[key] !in r.prods && !IsTerminal(terminals, st2.cache[key])
    {
      assert st2.cache[key] !in r.heads;
    }
  }

  lemma FinalOrder(r: Rules, nts0: seq<string>, terminals: seq<string>, st1: Conversion, st2: Conversion, rest: seq<char>)
    requires Valid(r) && (forall k :: k in st1.rules <==> k in r.prods || k in st1.cache.Values)
    requires Fixing(nts0, terminals, st1, st2)
    requires NoDup(rest) && forall k :: k in rest <==> k in st2.rules && k !in r.heads
    ensures ConvertedOrder(r, CnfTable(r.heads + rest, st2.rules), st2.cache)
  {
    var hs := r.heads + rest;
    assert hs[..|r.heads|] == r.heads;
    forall i, j | 0 <= i < j < |hs|
      ensures hs[i] != hs[j]
    {
      var n := |r.heads|;
      if j < n {
        assert hs[i] == r.heads[i] && hs[j] == r.heads[j];
      } else if i >= n {
        assert hs[i] == rest[i - n] && hs[j] == rest[j - n];
      } else {
        assert hs[i] == r.heads[i] && hs[j] == rest[j - n];
        assert rest[j - n] in rest && r.heads[i] in r.heads;
      }
    }
    forall k
      ensures k in st2.rules <==> k in r.prods || k in st2.cache.Values
    {
      if k in st1.cache.Values {
        var key :| key in st1.cache && st1.cache[key] == k;
        assert st2.cache[key] == k;
      }
    }
  }

  lemma FinalBodies(r: Rules, nts0: seq<string>, terminals: seq<string>, st1: Conversion, st2: Conversion)
    requires Building(nts0, terminals, st1) && forall k :: k in r.prods ==> HeadShortened(st1, k, r.prods[k])
    requires Fixing(nts0, terminals, st1, st2)
    requires forall x :: x in st1.rules ==> MixedFixed(terminals, st1.rules[x], st2, x)
    ensures ConvertedBodies(r, terminals, st2.rules, st2.cache)
  {
    forall k | k in r.prods
      ensures k in st2.rules && st2.rules[k] == ConvertSet(st2.cache, terminals, r.prods[k])
      ensures forall p :: p in r.prods[k] ==>
        Covered(st2.cache, p) && (Mixed(terminals, Shorten(st2.cache, p)) ==> TerminalsCached(st2.cache, terminals, Shorten(st2.cache, p)))
    {
      HeadBodies(terminals, st1, st2, k, r.prods[k]);
    }
    forall key | key in st2.cache && |key| == 2
      ensures st2.cache[key] in st2.rules && st2.rules[st2.cache[key]] == {Fix(st2.cache, terminals, key)}
      ensures Mixed(terminals, key) ==> TerminalsCached(st2.cache, terminals, key)
    {
      assert key in st1.cache;
      var name := st1.cache[key];
      PairBodies(terminals, st1, st2, key, name);
    }
  }

  /** The bodies of an old head after both phases. */
  lemma HeadBodies(terminals: seq<string>, st1: Conversion, st2: Conversion, k: char, ps: seq<Body>)
    requires HeadShortened(st1, k, ps) && SubMap(st1.cache, st2.cache)
    requires MixedFixed(terminals, st1.rules[k], st2, k)
    ensures k in st2.rules && st2.rules[k] == ConvertSet(st2.cache, terminals, ps)
    ensures forall p :: p in ps ==>
      Covered(st2.cache, p) && (Mixed(terminals, Shorten(st2.cache, p)) ==> TerminalsCached(st2.cache, terminals, Shorten(st2.cache, p)))
  {
    ShortSetExtend(st1.cache, st2.cache, ps);
    var c := st2.cache;
    forall p | p in ps
      ensures Covered(c, p) && Shorten(c, p) in st1.rules[k]
    {
      ShortenExtend(st1.cache, c, p);
    }
    assert FixSet(c, terminals, ShortSet(c, ps)) == ConvertSet(c, terminals, ps) by {
      forall q | q in FixSet(c, terminals, ShortSet(c, ps))
        ensures q in ConvertSet(c, terminals, ps)
      {
        var s :| s in ShortSet(c, ps) && q == Fix(c, terminals, s);
        var p :| p in ps && s == Shorten(c, p);
      }
    }
  }

  /** The rule of the name of a pair of symbols after both phases. */
  lemma PairBodies(terminals: seq<string>, st1: Conversion, st2: Conversion, key: string, name: char)
    requires key in st1.cache && st1.cache[key] == name && SubMap(st1.cache, st2.cache)
    requires name in st1.rules && st1.rules[name] == {key} && MixedFixed(terminals, {key}, st2, name)
    ensures st2.cache[key] in st2.rules && st2.rules[st2.cache[key]] == {Fix(st2.cache, terminals, key)}
    ensures Mixed(terminals, key) ==> TerminalsCached(st2.cache, terminals, key)
  {
    assert FixSet(st2.cache, terminals, {key}) == {Fix(st2.cache, terminals, key)};
  }

  /** The table to_cnf returns is in Chomsky normal form: no body is longer than two, and no body of two holds a terminal. */
  lemma ConvertedInCnf(r: Rules, nts0: seq<string>, terminals: seq<string>, t: CnfTable, nts: seq<string>, cache: map<string, char>)
    requires NamesNotTerminals(cache, terminals) && ConvertedOrder(r, t, cache) && ConvertedBodies(r, terminals, t.prods, cache)
    ensures InCnf(t, terminals)
  {
    OrderKeys(r, t, cache);
    BodiesInCnf(r, terminals, t, cache);
  }

  lemma OrderKeys(r: Rules, t: CnfTable, cache: map<string, char>)
    requires ConvertedOrder(r, t, cache)
    ensures forall k :: k in t.prods ==> k in r.prods || k in cache.Values
  {
  }

  lemma BodiesInCnf(r: Rules, terminals: seq<string>, t: CnfTable, cache: map<string, char>)
    requires NamesNotTerminals(cache, terminals) && ConvertedBodies(r, terminals, t.prods, cache)
    requires forall k :: k in t.prods ==> k in r.prods || k in cache.Values
    ensures InCnf(t, terminals)
  {
    forall k, q | k in t.prods && q in t.prods[k]
      ensures NormalBody(terminals, q)
    {
      BodyInCnf(r, terminals, t.prods, cache, k, q);
    }
  }

  lemma BodyInCnf(r: Rules, terminals: seq<string>, prods: map<char, set<Body>>, cache: map<string, char>, k: char, q: Body)
    requires NamesNotTerminals(cache, terminals) && ConvertedBodies(r, terminals, prods, cache)
    requires k in prods && q in prods[k] && (k in r.prods || k in cache.Values)
    ensures NormalBody(terminals, q)
  {
    if k in r.prods {
      HeadInCnf(cache, terminals, r.prods[k], q);
    } else {
      var key :| key in cache && cache[key] == k;
      HelperInCnf(cache, terminals, key, q);
    }
  }

  lemma HeadInCnf(cache: map<string, char>, terminals: seq<string>, ps: seq<Body>, q: Body)
    requires NamesNotTerminals(cache, terminals) && q in ConvertSet(cache, terminals, ps)
    requires forall p :: p in ps ==>
      Covered(cache, p) && (Mixed(terminals, Shorten(cache, p)) ==> TerminalsCached(cache, terminals, Shorten(cache, p)))
    ensures NormalBody(terminals, q)
  {
    var p :| p in ps && q == Convert(cache, terminals, p);
    ConvertShape(cache, terminals, p);
  }

  lemma HelperInCnf(cache: map<string, char>, terminals: seq<string>, key: string, q: Body)
    requires NamesNotTerminals(cache, terminals)
    requires (|key| == 2 && q == Fix(cache, terminals, key) && (Mixed(terminals, key) ==> TerminalsCached(cache, terminals, key))) ||
             (|key| == 1 && q == key)
    ensures NormalBody(terminals, q)
  {
    if |key| == 2 {
      if !Mixed(terminals, key) {
        assert key == [key[0], key[1]];
      }
      FixShape(cache, terminals, key);
    }
  }
}
