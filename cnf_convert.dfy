/**
 * The steps of create_new_non_terminal and to_cnf (5_ChomskyNormalForm/Grammar.py:94-164)
 * as methods on the locals of to_cnf; the Grammar class wraps them.
 */
module CnfConvert {
  import opened Wrappers
  import opened Seqs
  import opened CnfRules
  import opened CnfForm

  // ---------------------------------------------------------------------
  // create_new_non_terminal (Grammar.py:94-112)
  // ---------------------------------------------------------------------

  /**
   * The first name of the alphabet, and then of the alphabet followed by 0 to 99,
   * that is not yet in `nts`, appended to `nts`; an error once all of them are taken.
   */
  method NextNonTerminal(nts: seq<string>) returns (res: Result<string, string>, nts': seq<string>)
    ensures match NewName(nts)
      case Some(name) => res == Ok(name) && nts' == nts + [name]
      case None => res.Err? && nts' == nts
  {
    // Letter(a) is Alphabet[a] (AlphabetLetters)
    var a := 0;
    while a < Singles
      invariant 0 <= a <= Singles && SinglesTaken(nts, 0, a)
    {
      var letter := [Letter(a)];
      if letter !in nts {
        FirstSingleIs(nts, 0, a);
        return Ok(letter), nts + [letter];
      }
      a := a + 1;
    }
    FirstSingleNone(nts, 0);
    a := 0;
    while a < Singles
      invariant 0 <= a <= Singles && NumberedTaken(nts, 0, Rank(a, 0))
    {
      var num := 0;
      while num < 100
        invariant 0 <= num <= 100 && NumberedTaken(nts, 0, Rank(a, num))
      {
        var name := [Letter(a)] + NumStr(num);
        if name !in nts {
          FirstNumberedIs(nts, 0, 0, a, num);
          return Ok(name), nts + [name];
        }
        NumberedTakenStep(nts, a, num);
        num := num + 1;
      }
      a := a + 1;
    }
    FirstNumberedNone(nts, 0, 0);
    return Err("Exhausted all possible non-terminal symbols."), nts;
  }

  lemma NumberedTakenStep(nts: seq<string>, a: nat, num: nat)
    requires a < Singles && num < 100 && Numbered(a, num) in nts && NumberedTaken(nts, 0, Rank(a, num))
    ensures NumberedTaken(nts, 0, Rank(a, num + 1))
  {
    forall p, q | 0 <= p < Singles && 0 <= q < 100 && Rank(p, q) == Rank(a, num)
      ensures Numbered(p, q) in nts
    {
      RankInjective(p, q, a, num);
    }
  }

  // ---------------------------------------------------------------------
  // The locals of to_cnf
  // ---------------------------------------------------------------------

  /**
   * rhs_to_non_terminal, new_rules together with the order its keys were inserted in,
   * self.non_terminals, which create_new_non_terminal extends, and old_non_terminals.
   */
  datatype Conversion = Conversion(cache: map<string, char>, rules: map<char, set<Body>>, order: seq<char>, nts: seq<string>,
                                   oldNonTerminals: seq<char>)

  /**
   * How many more names create_new_non_terminal hands out before the next one would be a
   * head of old_non_terminals or a terminal.
   */
  ghost function Spare(terminals: seq<string>, st: Conversion): nat {
    Room(st.nts, Avoid(st.oldNonTerminals, terminals))
  }

  /**
   * The names handed out since `nts0`: each is a one-character name held in the
   * cache, and the cache holds no other names, none of them declared in `nts0`, an old head or a terminal.
   */
  ghost predicate NamesOk(nts0: seq<string>, terminals: seq<string>, st: Conversion) {
    |st.nts| >= |nts0| && st.nts[..|nts0|] == nts0 &&
    (forall m :: |nts0| <= m < |st.nts| ==> |st.nts[m]| == 1 && st.nts[m][0] in st.cache.Values) &&
    (forall key :: key in st.cache ==> [st.cache[key]] in st.nts && [st.cache[key]] !in nts0) &&
    (forall key :: key in st.cache ==> st.cache[key] !in st.oldNonTerminals) &&
    NamesNotTerminals(st.cache, terminals)
  }

  /** new_rules lists each key once in `order`, the names in the cache are keys, and every key is an old head or a declared name. */
  ghost predicate KeysOk(st: Conversion) {
    NoDup(st.order) && (forall k :: k in st.order <==> k in st.rules) &&
    (forall key :: key in st.cache ==> st.cache[key] in st.rules) &&
    (forall k :: k in st.rules ==> [k] in st.nts || k in st.oldNonTerminals)
  }

  /**
   * A new non-terminal for `key` (Grammar.py:131-133 and 150-152): the name
   * create_new_non_terminal returns becomes the cache entry and the rule for `key`.
   */
  method NewHelper(ghost nts0: seq<string>, terminals: seq<string>, key: string, st: Conversion)
    returns (name: char, st': Conversion)
    requires NamesOk(nts0, terminals, st) && KeysOk(st)
    requires key !in st.cache && Spare(terminals, st) > 0
    ensures NamesOk(nts0, terminals, st') && KeysOk(st')
    ensures st' == Conversion(st.cache[key := name], st.rules[name := {key}], st.order + [name], st.nts + [[name]], st.oldNonTerminals)
    ensures name !in st.rules && [name] !in nts0 && name !in st.oldNonTerminals && !IsTerminal(terminals, name)
    ensures NewName(st.nts) == Some([name]) && [name] !in st.nts
    ensures Spare(terminals, st') == Spare(terminals, st) - 1
  {
    RoomTake(st.nts, Avoid(st.oldNonTerminals, terminals));
    ghost var i := FirstSingle(st.nts, 0).value;
    var res, nts := NextNonTerminal(st.nts);
    name := res.value[0];
    assert res.value == [name] == [Letter(i)];
    assert [name] !in nts0 by {
      assert forall x :: x in nts0 ==> x in st.nts by {
        assert st.nts[..|nts0|] == nts0;
      }
    }
    TerminalCharsMembers(terminals, name);
    st' := Conversion(st.cache[key := name], st.rules[name := {key}], st.order + [name], nts, st.oldNonTerminals);
    NamesAfterNew(nts0, terminals, key, name, st, st');
  }

  lemma NamesAfterNew(nts0: seq<string>, terminals: seq<string>, key: string, name: char, st: Conversion, st': Conversion)
    requires NamesOk(nts0, terminals, st) && KeysOk(st) && key !in st.cache
    requires NewName(st.nts) == Some([name]) && [name] !in st.nts
    requires [name] !in nts0 && name !in st.oldNonTerminals && !IsTerminal(terminals, name)
    requires st' == Conversion(st.cache[key := name], st.rules[name := {key}], st.order + [name], st.nts + [[name]], st.oldNonTerminals)
    ensures NamesOk(nts0, terminals, st') && KeysOk(st')
    ensures name !in st.rules
  {
    NamesPrefix(nts0, st, st', name);
    NamesCreated(nts0, terminals, key, name, st, st');
    NamesCached(nts0, terminals, key, name, st, st');
    KeysAfterNew(key, name, st, st');
  }

  lemma NamesPrefix(nts0: seq<string>, st: Conversion, st': Conversion, name: char)
    requires |st.nts| >= |nts0| && st.nts[..|nts0|] == nts0 && st'.nts == st.nts + [[name]]
    ensures |st'.nts| >= |nts0| && st'.nts[..|nts0|] == nts0
  {
    assert st'.nts[..|nts0|] == st.nts[..|nts0|];
  }

  lemma NamesCreated(nts0: seq<string>, terminals: seq<string>, key: string, name: char, st: Conversion, st': Conversion)
    requires NamesOk(nts0, terminals, st) && key !in st.cache
    requires st'.cache == st.cache[key := name] && st'.nts == st.nts + [[name]]
    ensures forall m :: |nts0| <= m < |st'.nts| ==> |st'.nts[m]| == 1 && st'.nts[m][0] in st'.cache.Values
  {
    var n := |st.nts|;
    forall m | |nts0| <= m < |st'.nts|
      ensures |st'.nts[m]| == 1 && st'.nts[m][0] in st'.cache.Values
    {
      if m < n {
        assert st'.nts[m] == st.nts[m];
        var c := st.nts[m][0];
        var k :| k in st.cache && st.cache[k] == c;
        assert k != key && st'.cache[k] == c;
      } else {
        assert st'.cache[key] == name;
      }
    }
  }

  lemma NamesCached(nts0: seq<string>, terminals: seq<string>, key: string, name: char, st: Conversion, st': Conversion)
    requires NamesOk(nts0, terminals, st) && key !in st.cache
    requires [name] !in nts0 && name !in st.oldNonTerminals && !IsTerminal(terminals, name)
    requires st'.cache == st.cache[key := name] && st'.nts == st.nts + [[name]] && st'.oldNonTerminals == st.oldNonTerminals
    ensures forall k :: k in st'.cache ==> [st'.cache[k]] in st'.nts && [st'.cache[k]] !in nts0
    ensures forall k :: k in st'.cache ==> st'.cache[k] !in st'.oldNonTerminals
    ensures NamesNotTerminals(st'.cache, terminals)
  {
    forall k | k in st'.cache
      ensures [st'.cache[k]] in st'.nts && [st'.cache[k]] !in nts0 && !IsTerminal(terminals, st'.cache[k])
      ensures st'.cache[k] !in st'.oldNonTerminals
    {
      if k != key {
        assert st'.cache[k] == st.cache[k];
      }
    }
  }

  lemma KeysAfterNew(key: string, name: char, st: Conversion, st': Conversion)
    requires KeysOk(st) && [name] !in st.nts && name !in st.oldNonTerminals
    requires st' == Conversion(st.cache[key := name], st.rules[name := {key}], st.order + [name], st.nts + [[name]], st.oldNonTerminals)
    ensures KeysOk(st') && name !in st.rules
  {
    assert name !in st.order;
    assert NoDup(st'.order) by {
      forall i, j | 0 <= i < j < |st'.order|
        ensures st'.order[i] != st'.order[j]
      {
        if j == |st.order| {
          assert st'.order[i] == st.order[i] && st.order[i] in st.order;
        } else {
          assert st'.order[i] == st.order[i] && st'.order[j] == st.order[j];
        }
      }
    }
  }


  // ---------------------------------------------------------------------
  // to_cnf, first phase: long bodies (Grammar.py:120-137)
  // ---------------------------------------------------------------------

  /** Each cached pair names the rule created for it (Grammar.py:132). */
  ghost predicate PairRules(st: Conversion) {
    forall key :: key in st.cache ==> |key| == 2 && st.cache[key] in st.rules && st.rules[st.cache[key]] == {key}
  }

  /** What holds of the locals of to_cnf throughout its first phase. */
  ghost predicate Building(nts0: seq<string>, terminals: seq<string>, st: Conversion) {
    NamesOk(nts0, terminals, st) && KeysOk(st) && PairRules(st)
  }

  /**
   * `st'` only adds keys to new_rules, each of them a name in the cache or one of
   * `extra`, leaves the rules of the old keys alone, and grows the cache.
   */
  ghost predicate Grown(st: Conversion, st': Conversion, extra: set<char>) {
    st'.oldNonTerminals == st.oldNonTerminals && SubMap(st.cache, st'.cache) &&
    (forall k :: k in st.rules ==> k in st'.rules && st'.rules[k] == st.rules[k]) &&
    (forall k :: k in st'.rules && k !in st.rules ==> k in extra || k in st'.cache.Values)
  }

  lemma GrownTrans(a: Conversion, b: Conversion, c: Conversion, extra: set<char>)
    requires Grown(a, b, extra) && Grown(b, c, {})
    ensures Grown(a, c, extra)
  {
    forall k | k in c.rules && k !in a.rules
      ensures k in extra || k in c.cache.Values
    {
      if k in b.rules && k !in extra {
        var x :| x in b.cache && b.cache[x] == k;
        assert c.cache[x] == k;
      }
    }
  }

  /** Setting the rule of `k`, which `a` did not have, keeps `a`'s rules. */
  lemma GrownSetHead(a: Conversion, b: Conversion, c: Conversion, k: char)
    requires Grown(a, b, {k}) && k !in a.rules && k in b.rules
    requires c.cache == b.cache && c.oldNonTerminals == b.oldNonTerminals && forall x :: x in c.rules <==> x in b.rules
    requires forall x :: x in b.rules && x != k ==> c.rules[x] == b.rules[x]
    ensures Grown(a, c, {k})
  {
  }

  /** The shortened forms of the bodies `ps`. */
  ghost function ShortSet(cache: map<string, char>, ps: seq<Body>): set<Body> {
    set p | p in ps :: Shorten(cache, p)
  }

  lemma ShortSetExtend(c1: map<string, char>, c2: map<string, char>, ps: seq<Body>)
    requires SubMap(c1, c2) && forall p :: p in ps ==> Covered(c1, p)
    ensures (forall p :: p in ps ==> Covered(c2, p)) && ShortSet(c2, ps) == ShortSet(c1, ps)
  {
    forall p | p in ps
      ensures Covered(c2, p) && Shorten(c2, p) == Shorten(c1, p)
    {
      ShortenExtend(c1, c2, p);
    }
  }

  lemma PairRulesAfterNew(key: string, name: char, st: Conversion, st': Conversion)
    requires PairRules(st) && |key| == 2 && key !in st.cache && name !in st.rules
    requires st'.cache == st.cache[key := name] && st'.rules == st.rules[name := {key}]
    ensures PairRules(st')
  {
    forall k | k in st'.cache
      ensures |k| == 2 && st'.cache[k] in st'.rules && st'.rules[st'.cache[k]] == {k}
    {
      if k != key {
        assert st'.cache[k] == st.cache[k] != name;
      }
    }
  }

  lemma GrownAfterNew(key: string, name: char, st0: Conversion, st: Conversion, st': Conversion, extra: set<char>)
    requires Grown(st0, st, extra) && key !in st.cache && name !in st.rules
    requires st'.cache == st.cache[key := name] && st'.rules == st.rules[name := {key}] && st'.oldNonTerminals == st.oldNonTerminals
    ensures Grown(st0, st', extra)
  {
    assert SubMap(st0.cache, st'.cache) by {
      forall k | k in st0.cache
        ensures k in st'.cache && st'.cache[k] == st0.cache[k]
      {
        assert k in st.cache;
      }
    }
    forall k | k in st'.rules && k !in st0.rules
      ensures k in extra || k in st'.cache.Values
    {
      if k == name {
        assert st'.cache[key] == name;
      } else {
        if k !in extra {
          var x :| x in st.cache && st.cache[x] == k;
          assert x != key && st'.cache[x] == k;
        }
      }
    }
  }

  /**
   * The while loop at Grammar.py:124-135 on one production: the leading pair is
   * replaced by its cached name, a new one being created when the pair is new.
   */
  method ShortenBody(ghost nts0: seq<string>, terminals: seq<string>, p: Body, st: Conversion, ghost need: nat)
    returns (cur: Body, st': Conversion)
    requires Building(nts0, terminals, st)
    requires Spare(terminals, st) >= Excess(p) + need
    ensures Building(nts0, terminals, st') && Grown(st, st', {})
    ensures Covered(st'.cache, p) && cur == Shorten(st'.cache, p)
    ensures Spare(terminals, st') >= need
  {
    cur, st' := p, st;
    while |cur| > 2
      invariant Building(nts0, terminals, st') && Grown(st, st', {})
      invariant Chain(st'.cache, p, cur)
      invariant Spare(terminals, st') >= Excess(cur) + need
      decreases |cur|
    {
      cur, st' := ShortenStep(nts0, terminals, p, cur, st, st', need);
    }
    ChainDone(st'.cache, p, cur);
  }

  /** One iteration of the loop at Grammar.py:124-135. */
  method ShortenStep(ghost nts0: seq<string>, terminals: seq<string>, ghost p: Body, cur: Body,
                     ghost st0: Conversion, st: Conversion, ghost need: nat)
    returns (cur': Body, st': Conversion)
    requires Building(nts0, terminals, st) && Grown(st0, st, {})
    requires Chain(st.cache, p, cur) && |cur| > 2
    requires Spare(terminals, st) >= Excess(cur) + need
    ensures Building(nts0, terminals, st') && Grown(st0, st', {})
    ensures Chain(st'.cache, p, cur') && |cur'| == |cur| - 1
    ensures Spare(terminals, st') >= Excess(cur') + need
  {
    var first := cur[..2];
    var name: char;
    if first in st.cache {
      name := st.cache[first];
      st' := st;
    } else {
      name, st' := NewHelper(nts0, terminals, first, st);
      PairRulesAfterNew(first, name, st, st');
      GrownAfterNew(first, name, st0, st, st', {});
      SubMapUpdate(st.cache, first, name);
      ChainExtend(st.cache, st'.cache, p, cur);
    }
    ChainStep(st'.cache, p, cur);
    cur' := [name] + cur[2..];
  }

  /** new_rules[k] holds the shortened forms of `ps`, and the cache covers all of them. */
  ghost predicate HeadShortened(st: Conversion, k: char, ps: seq<Body>) {
    k in st.rules && (forall p :: p in ps ==> Covered(st.cache, p)) && st.rules[k] == ShortSet(st.cache, ps)
  }

  lemma HeadShortenedExtend(st: Conversion, st': Conversion, k: char, ps: seq<Body>)
    requires HeadShortened(st, k, ps) && SubMap(st.cache, st'.cache)
    requires k in st'.rules && st'.rules[k] == st.rules[k]
    ensures HeadShortened(st', k, ps)
  {
    ShortSetExtend(st.cache, st'.cache, ps);
  }

  /** Grammar.py:122-137 for one non-terminal `k` with the productions `bodies`. */
  method ShortenHead(ghost nts0: seq<string>, terminals: seq<string>, k: char, bodies: seq<Body>,
                     st: Conversion, ghost need: nat)
    returns (st': Conversion)
    requires Building(nts0, terminals, st)
    requires k !in st.rules && k in st.oldNonTerminals
    requires Spare(terminals, st) >= BodiesExcess(bodies) + need
    ensures Building(nts0, terminals, st') && Grown(st, st', {k})
    ensures HeadShortened(st', k, bodies)
    ensures Spare(terminals, st') >= need
  {
    st' := Conversion(st.cache, st.rules[k := {}], st.order + [k], st.nts, st.oldNonTerminals);
    KeysAddHead(k, st, st');
    var b := 0;
    while b < |bodies|
      invariant 0 <= b <= |bodies|
      invariant Building(nts0, terminals, st') && Grown(st, st', {k})
      invariant HeadShortened(st', k, bodies[..b])
      invariant Spare(terminals, st') >= BodiesExcess(bodies[b..]) + need
    {
      st' := ShortenOne(nts0, terminals, k, bodies, b, st, st', need);
      b := b + 1;
    }
    assert bodies[..b] == bodies;
  }

  /** Grammar.py:121: the head becomes a key of new_rules with no productions yet. */
  lemma KeysAddHead(k: char, st: Conversion, st': Conversion)
    requires KeysOk(st) && k !in st.rules && k in st.oldNonTerminals
    requires st' == Conversion(st.cache, st.rules[k := {}], st.order + [k], st.nts, st.oldNonTerminals)
    ensures KeysOk(st')
  {
    assert k !in st.order;
    assert NoDup(st'.order) by {
      forall i, j | 0 <= i < j < |st'.order|
        ensures st'.order[i] != st'.order[j]
      {
        if j == |st.order| {
          assert st'.order[i] == st.order[i] && st.order[i] in st.order;
        } else {
          assert st'.order[i] == st.order[i] && st'.order[j] == st.order[j];
        }
      }
    }
  }

  /** Grammar.py:125-137 for the production `bodies[b]` of `k`. */
  method ShortenOne(ghost nts0: seq<string>, terminals: seq<string>, k: char, bodies: seq<Body>, b: nat,
                    ghost st0: Conversion, st: Conversion, ghost need: nat)
    returns (st': Conversion)
    requires b < |bodies| && k in st.oldNonTerminals && k !in st0.rules
    requires Building(nts0, terminals, st)
    requires Grown(st0, st, {k}) && HeadShortened(st, k, bodies[..b])
    requires Spare(terminals, st) >= BodiesExcess(bodies[b..]) + need
    ensures Building(nts0, terminals, st') && Grown(st0, st', {k})
    ensures HeadShortened(st', k, bodies[..b + 1])
    ensures Spare(terminals, st') >= BodiesExcess(bodies[b + 1..]) + need
  {
    var production := bodies[b];
    TakeSnoc(bodies, b);
    var cur, mid := ShortenBody(nts0, terminals, production, st, BodiesExcess(bodies[b + 1..]) + need);
    st' := mid.(rules := mid.rules[k := mid.rules[k] + {cur}]);
    AddShortened(nts0, terminals, k, bodies[..b], production, cur, st0, st, mid, st');
  }

  /** The invariants of the loop at Grammar.py:123-137 once `cur` has been added to new_rules[k]. */
  lemma AddShortened(nts0: seq<string>, terminals: seq<string>, k: char, done: seq<Body>, p: Body, cur: Body,
                     st0: Conversion, st: Conversion, mid: Conversion, st': Conversion)
    requires k in st.oldNonTerminals && k !in st0.rules
    requires Grown(st0, st, {k}) && HeadShortened(st, k, done)
    requires Building(nts0, terminals, mid) && Grown(st, mid, {})
    requires Covered(mid.cache, p) && cur == Shorten(mid.cache, p)
    requires st' == mid.(rules := mid.rules[k := mid.rules[k] + {cur}])
    ensures Building(nts0, terminals, st') && Grown(st0, st', {k})
    ensures HeadShortened(st', k, done + [p])
  {
    GrownTrans(st0, st, mid, {k});
    HeadShortenedExtend(st, mid, k, done);
    NotCached(nts0, terminals, mid, k);
    GrownSetHead(st0, mid, st', k);
    NamesSameCache(nts0, terminals, mid, st');
    KeysSameKeys(mid, st');
    PairRulesOther(mid, st', k);
    HeadShortenedSnoc(mid, st', k, done, p, cur);
  }

  /** An old head is never one the cache hands out. */
  lemma NotCached(nts0: seq<string>, terminals: seq<string>, st: Conversion, k: char)
    requires NamesOk(nts0, terminals, st) && k in st.oldNonTerminals
    ensures k !in st.cache.Values
  {
    forall key | key in st.cache
      ensures st.cache[key] != k
    {
      assert st.cache[key] !in st.oldNonTerminals;
    }
  }

  lemma HeadShortenedSnoc(st: Conversion, st': Conversion, k: char, ps: seq<Body>, p: Body, cur: Body)
    requires HeadShortened(st, k, ps) && Covered(st.cache, p) && cur == Shorten(st.cache, p)
    requires st' == st.(rules := st.rules[k := st.rules[k] + {cur}])
    ensures HeadShortened(st', k, ps + [p])
  {
    ShortSetSnoc(st.cache, ps, p);
  }

  lemma NamesSameCache(nts0: seq<string>, terminals: seq<string>, st: Conversion, st': Conversion)
    requires NamesOk(nts0, terminals, st) && st'.cache == st.cache && st'.nts == st.nts && st'.oldNonTerminals == st.oldNonTerminals
    ensures NamesOk(nts0, terminals, st')
  {
  }

  lemma KeysSameKeys(st: Conversion, st': Conversion)
    requires KeysOk(st) && st'.cache == st.cache && st'.nts == st.nts && st'.order == st.order && st'.oldNonTerminals == st.oldNonTerminals
    requires forall x :: x in st'.rules <==> x in st.rules
    ensures KeysOk(st')
  {
  }

  /** Changing the rule of a key that names no cached pair keeps the pairs' rules. */
  lemma PairRulesOther(st: Conversion, st': Conversion, k: char)
    requires PairRules(st) && st'.cache == st.cache && k !in st.cache.Values
    requires forall x :: x in st.rules && x != k ==> x in st'.rules && st'.rules[x] == st.rules[x]
    ensures PairRules(st')
  {
    forall key | key in st'.cache
      ensures st'.cache[key] in st'.rules && st'.rules[st'.cache[key]] == {key}
    {
      assert st.cache[key] != k;
    }
  }

  lemma ShortSetSnoc(cache: map<string, char>, ps: seq<Body>, p: Body)
    ensures ShortSet(cache, ps + [p]) == ShortSet(cache, ps) + {Shorten(cache, p)}
  {
    assert forall q :: q in ps + [p] <==> q in ps || q == p;
  }

  /** The keys of new_rules after the first `i` heads: those heads and the fresh names. */
  ghost predicate SplitKeys(heads: seq<char>, i: nat, st: Conversion)
    requires i <= |heads|
  {
    forall k :: k in st.rules <==> k in heads[..i] || k in st.cache.Values
  }

  /** The heads done so far have their shortened productions. */
  ghost predicate SplitDone(r: Rules, heads: seq<char>, i: nat, st: Conversion)
    requires i <= |heads| && forall k :: k in heads ==> k in r.prods
  {
    forall k :: k in heads[..i] ==> HeadShortened(st, k, r.prods[k])
  }

  /** The first loop of to_cnf (Grammar.py:120-137), over the heads in order. */
  method SplitLong(r: Rules, nts0: seq<string>, terminals: seq<string>) returns (st: Conversion)
    requires Valid(r) && Room(nts0, Avoid(r.heads, terminals)) >= HeadsExcess(r, r.heads) + |terminals|
    ensures Building(nts0, terminals, st) && st.oldNonTerminals == r.heads
    ensures forall k :: k in st.rules <==> k in r.prods || k in st.cache.Values
    ensures forall k :: k in r.prods ==> HeadShortened(st, k, r.prods[k])
    ensures Spare(terminals, st) >= |terminals|
  {
    st := Conversion(map[], map[], [], nts0, r.heads);
    StartBuilding(nts0, terminals, st);
    var heads := r.heads;
    var i := 0;
    while i < |heads|
      invariant 0 <= i <= |heads| && st.oldNonTerminals == heads
      invariant Building(nts0, terminals, st) && SplitKeys(heads, i, st) && SplitDone(r, heads, i, st)
      invariant Spare(terminals, st) >= HeadsExcess(r, heads[i..]) + |terminals|
    {
      st := SplitHead(r, nts0, terminals, i, st);
      i := i + 1;
    }
    SplitFinal(r, st);
  }

  lemma StartBuilding(nts0: seq<string>, terminals: seq<string>, st: Conversion)
    requires st == Conversion(map[], map[], [], nts0, st.oldNonTerminals)
    ensures Building(nts0, terminals, st)
  {
    assert st.nts[..|nts0|] == nts0;
  }

  lemma SplitFinal(r: Rules, st: Conversion)
    requires Valid(r) && SplitKeys(r.heads, |r.heads|, st) && SplitDone(r, r.heads, |r.heads|, st)
    ensures forall k :: k in st.rules <==> k in r.prods || k in st.cache.Values
    ensures forall k :: k in r.prods ==> HeadShortened(st, k, r.prods[k])
  {
    assert r.heads[..|r.heads|] == r.heads;
  }

  /** One iteration of the loop at Grammar.py:120-137. */
  method SplitHead(r: Rules, ghost nts0: seq<string>, terminals: seq<string>, i: nat, st: Conversion)
    returns (st': Conversion)
    requires Valid(r) && st.oldNonTerminals == r.heads && i < |r.heads|
    requires Building(nts0, terminals, st) && SplitKeys(r.heads, i, st) && SplitDone(r, r.heads, i, st)
    requires Spare(terminals, st) >= HeadsExcess(r, r.heads[i..]) + |terminals|
    ensures Building(nts0, terminals, st') && SplitKeys(r.heads, i + 1, st') && SplitDone(r, r.heads, i + 1, st')
    ensures Spare(terminals, st') >= HeadsExcess(r, r.heads[i + 1..]) + |terminals|
    ensures st'.oldNonTerminals == st.oldNonTerminals
  {
    var k := r.heads[i];
    TakeSnoc(r.heads, i);
    NotCached(nts0, terminals, st, k);
    assert k !in r.heads[..i] by {
      forall j | 0 <= j < i
        ensures r.heads[j] != k
      {
        assert r.heads[j] == r.heads[..i][j];
      }
    }
    st' := ShortenHead(nts0, terminals, k, r.prods[k], st, HeadsExcess(r, r.heads[i + 1..]) + |terminals|);
    SplitAfterHead(r, nts0, terminals, i, st, st');
  }

  lemma SplitAfterHead(r: Rules, nts0: seq<string>, terminals: seq<string>, i: nat, st: Conversion, st': Conversion)
    requires Valid(r) && i < |r.heads| && r.heads[..i + 1] == r.heads[..i] + [r.heads[i]]
    requires SplitKeys(r.heads, i, st) && SplitDone(r, r.heads, i, st) && r.heads[i] !in st.rules
    requires Building(nts0, terminals, st') && Grown(st, st', {r.heads[i]}) && HeadShortened(st', r.heads[i], r.prods[r.heads[i]])
    ensures SplitKeys(r.heads, i + 1, st') && SplitDone(r, r.heads, i + 1, st')
  {
    var k := r.heads[i];
    forall x | x in r.heads[..i + 1]
      ensures HeadShortened(st', x, r.prods[x])
    {
      if x != k {
        assert x in r.heads[..i];
        HeadShortenedExtend(st, st', x, r.prods[x]);
      }
    }
    forall x
      ensures x in st'.rules <==> x in r.heads[..i + 1] || x in st'.cache.Values
    {
      if x in st.cache.Values {
        var key :| key in st.cache && st.cache[key] == x;
        assert st'.cache[key] == x;
      }
    }
  }

  // ---------------------------------------------------------------------
  // to_cnf, second phase: mixed bodies (Grammar.py:140-157)
  // ---------------------------------------------------------------------

  /** The bodies of `S` after the second phase. */
  ghost function FixSet(cache: map<string, char>, terminals: seq<string>, S: set<Body>): set<Body> {
    set q | q in S :: Fix(cache, terminals, q)
  }

  /** The one-character terminals that have no name in the cache yet. */
  ghost function Pending(terminals: seq<string>, cache: map<string, char>): set<char> {
    set c | c in TerminalChars(terminals) && [c] !in cache
  }

  /** Each entry the second phase adds to the cache is a terminal naming the rule made of it alone. */
  ghost predicate TerminalRules(terminals: seq<string>, st1: Conversion, st: Conversion) {
    forall key :: key in st.cache && key !in st1.cache ==>
      |key| == 1 && IsTerminal(terminals, key[0]) && st.cache[key] !in st1.rules &&
      st.cache[key] in st.rules && st.rules[st.cache[key]] == {key}
  }

  /** What holds of the locals of to_cnf throughout its second phase, which starts from `st1`. */
  ghost predicate Fixing(nts0: seq<string>, terminals: seq<string>, st1: Conversion, st: Conversion) {
    NamesOk(nts0, terminals, st) && KeysOk(st) && st.oldNonTerminals == st1.oldNonTerminals &&
    (forall key :: key in st1.cache ==> |key| == 2) &&
    SubMap(st1.cache, st.cache) && TerminalRules(terminals, st1, st) &&
    (forall x :: x in st.rules <==> x in st1.rules || x in st.cache.Values) &&
    (forall x :: x in st1.cache.Values ==> x in st1.rules) &&
    Spare(terminals, st) >= |Pending(terminals, st.cache)|
  }

  /** `st'` keeps every rule of `st` and adds rules only for fresh names. */
  ghost predicate Grows(st: Conversion, st': Conversion) {
    SubMap(st.cache, st'.cache) &&
    (forall x :: x in st.rules ==> x in st'.rules && st'.rules[x] == st.rules[x]) &&
    (forall x :: x in st'.rules && x !in st.rules ==> x in st'.cache.Values && x !in st.cache.Values)
  }

  lemma GrowsTrans(a: Conversion, b: Conversion, c: Conversion)
    requires Grows(a, b) && Grows(b, c)
    ensures Grows(a, c)
  {
    SubMapTrans(a.cache, b.cache, c.cache);
    forall x | x in c.rules && x !in a.rules
      ensures x in c.cache.Values && x !in a.cache.Values
    {
      if x in b.rules {
        var k :| k in b.cache && b.cache[k] == x;
        assert c.cache[k] == x;
      } else {
        forall k | k in a.cache
          ensures a.cache[k] != x
        {
          assert b.cache[k] == a.cache[k];
        }
      }
    }
  }

  /** A terminal of one character is pending until it has a name. */
  lemma PendingHas(terminals: seq<string>, cache: map<string, char>, t: char)
    requires IsTerminal(terminals, t) && [t] !in cache
    ensures t in Pending(terminals, cache) && |Pending(terminals, cache)| >= 1
  {
    TerminalCharsMembers(terminals, t);
  }

  /** Naming a pending terminal takes it off the pending set. */
  lemma PendingTake(terminals: seq<string>, cache: map<string, char>, t: char, name: char)
    requires IsTerminal(terminals, t) && [t] !in cache
    ensures Pending(terminals, cache[[t] := name]) == Pending(terminals, cache) - {t}
  {
    TerminalCharsMembers(terminals, t);
  }

  /**
   * The loop at Grammar.py:145-155 on a mixed production: every terminal becomes its
   * cached name, a new name being created for a terminal met for the first time.
   */
  method ReplaceTerminals(ghost nts0: seq<string>, terminals: seq<string>, q: Body, ghost st1: Conversion, st: Conversion)
    returns (q': Body, st': Conversion)
    requires |q| == 2 && Fixing(nts0, terminals, st1, st)
    ensures Fixing(nts0, terminals, st1, st') && Grows(st, st')
    ensures TerminalsCached(st'.cache, terminals, q)
    ensures q' == [MixSym(st'.cache, terminals, q[0]), MixSym(st'.cache, terminals, q[1])]
  {
    var newProduction: seq<char> := [];
    st' := st;
    var i := 0;
    while i < |q|
      invariant Fixing(nts0, terminals, st1, st')
      invariant Replacing(terminals, q, st, i, newProduction, st')
    {
      var prev := st';
      var sym;
      sym, st' := ReplaceSymbol(nts0, terminals, q[i], st1, st');
      ReplacingStep(terminals, q, st, i, newProduction, prev, sym, st');
      newProduction := newProduction + [sym];
      i := i + 1;
    }
    q' := newProduction;
    ReplacedAll(terminals, q, st, q', st');
  }

  lemma ReplacedAll(terminals: seq<string>, q: Body, st: Conversion, q': Body, st': Conversion)
    requires Replacing(terminals, q, st, |q|, q', st') && |q| == 2
    ensures Grows(st, st') && TerminalsCached(st'.cache, terminals, q)
    ensures q' == [MixSym(st'.cache, terminals, q[0]), MixSym(st'.cache, terminals, q[1])]
  {
    forall c | c in q && IsTerminal(terminals, c)
      ensures [c] in st'.cache
    {
      var m :| 0 <= m < |q| && q[m] == c;
    }
  }

  /** The invariant of the loop at Grammar.py:145-155 after `i` symbols of `q`. */
  ghost predicate Replacing(terminals: seq<string>, q: Body, st: Conversion, i: int, done: seq<char>, st': Conversion) {
    0 <= i <= |q| && |done| == i && Grows(st, st') &&
    (forall m :: 0 <= m < i ==> done[m] == MixSym(st'.cache, terminals, q[m])) &&
    (forall m :: 0 <= m < i && IsTerminal(terminals, q[m]) ==> [q[m]] in st'.cache)
  }

  lemma ReplacingStep(terminals: seq<string>, q: Body, st: Conversion, i: int, done: seq<char>,
                      prev: Conversion, sym: char, st': Conversion)
    requires Replacing(terminals, q, st, i, done, prev) && i < |q| && Grows(prev, st')
    requires sym == MixSym(st'.cache, terminals, q[i])
    requires IsTerminal(terminals, q[i]) ==> [q[i]] in st'.cache
    ensures Replacing(terminals, q, st, i + 1, done + [sym], st')
  {
    GrowsTrans(st, prev, st');
    MixSymsExtend(prev.cache, st'.cache, terminals, q, i, done);
  }

  /** One turn of the loop at Grammar.py:146-155: the symbol to put in place of `symbol`. */
  method ReplaceSymbol(ghost nts0: seq<string>, terminals: seq<string>, symbol: char, ghost st1: Conversion, st: Conversion)
    returns (sym: char, st': Conversion)
    requires Fixing(nts0, terminals, st1, st)
    ensures Fixing(nts0, terminals, st1, st') && Grows(st, st')
    ensures sym == MixSym(st'.cache, terminals, symbol)
    ensures IsTerminal(terminals, symbol) ==> [symbol] in st'.cache
  {
    st' := st;
    sym := symbol;
    if [symbol] in terminals {
      if [symbol] in st.cache {
        sym := st.cache[[symbol]];
      } else {
        sym, st' := NewTerminalName(nts0, terminals, symbol, st1, st);
      }
    }
  }

  /** Grammar.py:150-152: a new name for the terminal `t`, whose rule is `t` alone. */
  method NewTerminalName(ghost nts0: seq<string>, terminals: seq<string>, t: char, ghost st1: Conversion, st: Conversion)
    returns (name: char, st': Conversion)
    requires Fixing(nts0, terminals, st1, st) && IsTerminal(terminals, t) && [t] !in st.cache
    ensures Fixing(nts0, terminals, st1, st')
    ensures st' == Conversion(st.cache[[t] := name], st.rules[name := {[t]}], st.order + [name], st.nts + [[name]], st.oldNonTerminals)
    ensures name !in st.rules && Grows(st, st')
  {
    PendingHas(terminals, st.cache, t);
    name, st' := NewHelper(nts0, terminals, [t], st);
    PendingTake(terminals, st.cache, t, name);
    FixingAfterNew(nts0, terminals, t, name, st1, st, st');
    GrowsAfterNew(st, st', [t], name);
  }

  lemma FixingAfterNew(nts0: seq<string>, terminals: seq<string>, t: char, name: char, st1: Conversion, st: Conversion, st': Conversion)
    requires Fixing(nts0, terminals, st1, st) && IsTerminal(terminals, t) && [t] !in st.cache
    requires NamesOk(nts0, terminals, st') && KeysOk(st') && name !in st.rules
    requires st' == Conversion(st.cache[[t] := name], st.rules[name := {[t]}], st.order + [name], st.nts + [[name]], st.oldNonTerminals)
    requires Spare(terminals, st') == Spare(terminals, st) - 1
    requires Pending(terminals, st'.cache) == Pending(terminals, st.cache) - {t} && t in Pending(terminals, st.cache)
    ensures Fixing(nts0, terminals, st1, st')
  {
    SubMapUpdate(st.cache, [t], name);
    SubMapTrans(st1.cache, st.cache, st'.cache);
    forall key | key in st'.cache && key !in st1.cache
      ensures |key| == 1 && IsTerminal(terminals, key[0]) && st'.cache[key] !in st1.rules
      ensures st'.cache[key] in st'.rules && st'.rules[st'.cache[key]] == {key}
    {
      if key != [t] {
        assert st'.cache[key] == st.cache[key] != name;
      }
    }
    forall x
      ensures x in st'.rules <==> x in st1.rules || x in st'.cache.Values
    {
      if x in st.cache.Values {
        var key :| key in st.cache && st.cache[key] == x;
        assert st'.cache[key] == x;
      }
      if x == name {
        assert st'.cache[[t]] == name;
      }
    }
  }

  lemma GrowsAfterNew(st: Conversion, st': Conversion, key: string, name: char)
    requires key !in st.cache && name !in st.rules
    requires forall x :: x in st.cache.Values ==> x in st.rules
    requires st'.cache == st.cache[key := name] && st'.rules == st.rules[name := {key}]
    ensures Grows(st, st')
  {
    SubMapUpdate(st.cache, key, name);
    assert st'.cache[key] == name;
  }

  /** The symbols replaced so far keep their replacement when the cache grows. */
  lemma MixSymsExtend(c1: map<string, char>, c2: map<string, char>, terminals: seq<string>, q: Body, i: nat, done: seq<char>)
    requires SubMap(c1, c2) && i <= |q| && |done| == i
    requires forall m :: 0 <= m < i ==> done[m] == MixSym(c1, terminals, q[m])
    requires forall m :: 0 <= m < i && IsTerminal(terminals, q[m]) ==> [q[m]] in c1
    ensures forall m :: 0 <= m < i ==> done[m] == MixSym(c2, terminals, q[m])
    ensures forall m :: 0 <= m < i && IsTerminal(terminals, q[m]) ==> [q[m]] in c2
  {
  }

  /** `st'` keeps the rules of `st` except the one of `nt`, and adds rules only for fresh names. */
  ghost predicate Kept(st: Conversion, st': Conversion, nt: char) {
    SubMap(st.cache, st'.cache) && nt in st'.rules &&
    (forall x :: x in st.rules && x != nt ==> x in st'.rules && st'.rules[x] == st.rules[x]) &&
    (forall x :: x in st'.rules && x !in st.rules ==> x in st'.cache.Values && x !in st.cache.Values)
  }

  /** After Grammar.py:142-157 for `nt`: its bodies are those of `S` fixed, each mixed one with its terminals named. */
  ghost predicate MixedFixed(terminals: seq<string>, S: set<Body>, st: Conversion, nt: char) {
    nt in st.rules && st.rules[nt] == FixSet(st.cache, terminals, S) &&
    forall p :: p in S && Mixed(terminals, p) ==> TerminalsCached(st.cache, terminals, p)
  }

  /**
   * The invariant of the loop at Grammar.py:142-157: the bodies of `S` already visited
   * (those not in `temp`) are fixed in `productions`, the others are still there as they were.
   */
  ghost predicate Mixing(terminals: seq<string>, S: set<Body>, st: Conversion, temp: set<Body>, productions: set<Body>, st': Conversion) {
    Grows(st, st') && temp <= S &&
    productions == FixSet(st'.cache, terminals, S - temp) + temp &&
    forall p :: p in S - temp && Mixed(terminals, p) ==> TerminalsCached(st'.cache, terminals, p)
  }

  /** Grammar.py:141-157 for one non-terminal `nt`: every mixed body of `nt` gets its terminals replaced. */
  method FixMixed(ghost nts0: seq<string>, terminals: seq<string>, nt: char, ghost st1: Conversion, st: Conversion)
    returns (st': Conversion)
    requires Fixing(nts0, terminals, st1, st) && nt in st1.rules
    ensures Fixing(nts0, terminals, st1, st') && Kept(st, st', nt)
    ensures MixedFixed(terminals, st.rules[nt], st', nt)
  {
    assert nt in st.rules;
    ghost var S := st.rules[nt];
    var productions := st.rules[nt];
    var temp := productions;
    st' := st;
    while temp != {}
      invariant Fixing(nts0, terminals, st1, st')
      invariant Mixing(terminals, S, st, temp, productions, st')
      decreases |temp|
    {
      var production :| production in temp;
      ghost var prev := st';
      ghost var before := productions;
      ghost var visiting := temp;
      temp := temp - {production};
      if |production| == 2 && ([production[0]] in terminals || [production[1]] in terminals) {
        var newProduction;
        newProduction, st' := ReplaceTerminals(nts0, terminals, production, st1, st');
        productions := productions - {production} + {newProduction};
        MixingReplaced(terminals, S, st, visiting, before, prev, production, newProduction, st');
      } else {
        MixingKept(terminals, S, st, visiting, before, st', production);
      }
    }
    ghost var last := st';
    st' := st'.(rules := st'.rules[nt := productions]);
    FixMixedDone(nts0, terminals, nt, S, st1, st, last, productions, st');
  }

  /** No visited body's fixed form is a mixed body. */
  lemma NotAmongFixed(terminals: seq<string>, cache: map<string, char>, done: set<Body>, p: Body)
    requires NamesNotTerminals(cache, terminals) && Mixed(terminals, p) && p !in done
    requires forall d :: d in done && Mixed(terminals, d) ==> TerminalsCached(cache, terminals, d)
    ensures p !in FixSet(cache, terminals, done)
  {
    forall d | d in done
      ensures Fix(cache, terminals, d) != p
    {
      if Mixed(terminals, d) {
        FixShape(cache, terminals, d);
      }
    }
  }

  /** The fixed forms of visited bodies do not change while the cache grows. */
  lemma FixSetExtend(terminals: seq<string>, c1: map<string, char>, c2: map<string, char>, done: set<Body>)
    requires SubMap(c1, c2)
    requires forall d :: d in done && Mixed(terminals, d) ==> TerminalsCached(c1, terminals, d)
    ensures FixSet(c2, terminals, done) == FixSet(c1, terminals, done)
    ensures forall d :: d in done && Mixed(terminals, d) ==> TerminalsCached(c2, terminals, d)
  {
    forall d | d in done
      ensures Fix(c2, terminals, d) == Fix(c1, terminals, d)
      ensures Mixed(terminals, d) ==> TerminalsCached(c2, terminals, d)
    {
      if Mixed(terminals, d) {
        FixExtend(c1, c2, terminals, d);
      }
    }
  }

  lemma MixingReplaced(terminals: seq<string>, S: set<Body>, st: Conversion, temp: set<Body>, productions: set<Body>,
                       prev: Conversion, p: Body, p': Body, st': Conversion)
    requires Mixing(terminals, S, st, temp, productions, prev) && p in temp
    requires NamesNotTerminals(prev.cache, terminals) && Mixed(terminals, p)
    requires Grows(prev, st') && TerminalsCached(st'.cache, terminals, p)
    requires p' == [MixSym(st'.cache, terminals, p[0]), MixSym(st'.cache, terminals, p[1])]
    ensures Mixing(terminals, S, st, temp - {p}, productions - {p} + {p'}, st')
  {
    var done := S - temp;
    assert S - (temp - {p}) == done + {p};
    NotAmongFixed(terminals, prev.cache, done, p);
    FixSetExtend(terminals, prev.cache, st'.cache, done);
    GrowsTrans(st, prev, st');
    assert FixSet(st'.cache, terminals, done + {p}) == FixSet(st'.cache, terminals, done) + {p'};
  }

  lemma MixingKept(terminals: seq<string>, S: set<Body>, st: Conversion, temp: set<Body>, productions: set<Body>,
                   st': Conversion, p: Body)
    requires Mixing(terminals, S, st, temp, productions, st') && p in temp
    requires !(|p| == 2 && (IsTerminal(terminals, p[0]) || IsTerminal(terminals, p[1])))
    ensures Mixing(terminals, S, st, temp - {p}, productions, st')
  {
    var done := S - temp;
    assert S - (temp - {p}) == done + {p};
    assert FixSet(st'.cache, terminals, done + {p}) == FixSet(st'.cache, terminals, done) + {p};
  }

  lemma FixMixedDone(nts0: seq<string>, terminals: seq<string>, nt: char, S: set<Body>, st1: Conversion, st: Conversion,
                     last: Conversion, productions: set<Body>, st': Conversion)
    requires Fixing(nts0, terminals, st1, st) && nt in st1.rules && S == st.rules[nt]
    requires Fixing(nts0, terminals, st1, last) && Mixing(terminals, S, st, {}, productions, last)
    requires st' == last.(rules := last.rules[nt := productions])
    ensures Fixing(nts0, terminals, st1, st') && Kept(st, st', nt)
    ensures MixedFixed(terminals, S, st', nt)
  {
    FixingSetRule(nts0, terminals, st1, last, nt, productions, st');
    KeptSetRule(st, last, nt, productions, st');
    MixingDone(terminals, S, st, last, productions, nt, st');
  }

  /** With nothing left to visit, the bodies collected are the fixed set. */
  lemma MixingDone(terminals: seq<string>, S: set<Body>, st: Conversion, last: Conversion, productions: set<Body>,
                   nt: char, st': Conversion)
    requires Mixing(terminals, S, st, {}, productions, last)
    requires st' == last.(rules := last.rules[nt := productions])
    ensures MixedFixed(terminals, S, st', nt)
  {
    assert S - {} == S;
  }

  /** Replacing the bodies of a non-terminal of the input keeps the invariant of the second phase. */
  lemma FixingSetRule(nts0: seq<string>, terminals: seq<string>, st1: Conversion, st: Conversion, nt: char, S: set<Body>, st': Conversion)
    requires Fixing(nts0, terminals, st1, st) && nt in st1.rules
    requires st' == st.(rules := st.rules[nt := S])
    ensures Fixing(nts0, terminals, st1, st')
  {
    assert nt in st.rules;
    assert NamesOk(nts0, terminals, st');
    assert KeysOk(st');
    TerminalRulesSetRule(terminals, st1, st, nt, S, st');
  }

  lemma TerminalRulesSetRule(terminals: seq<string>, st1: Conversion, st: Conversion, nt: char, S: set<Body>,
                             st': Conversion)
    requires TerminalRules(terminals, st1, st) && nt in st1.rules
    requires st' == st.(rules := st.rules[nt := S])
    ensures TerminalRules(terminals, st1, st')
  {
  }

  lemma KeptSetRule(st: Conversion, last: Conversion, nt: char, S: set<Body>, st': Conversion)
    requires Grows(st, last) && nt in st.rules
    requires st' == last.(rules := last.rules[nt := S])
    ensures Kept(st, st', nt)
  {
  }

  /** Where the loop at Grammar.py:140-157 stands after the first `j` entries of the snapshot `order1`. */
  ghost predicate FixedUpTo(terminals: seq<string>, st1: Conversion, order1: seq<char>, j: int, st: Conversion) {
    0 <= j <= |order1| &&
    (forall m :: 0 <= m < j ==> order1[m] in st1.rules && MixedFixed(terminals, st1.rules[order1[m]], st, order1[m])) &&
    (forall m :: j <= m < |order1| ==> order1[m] in st1.rules && order1[m] in st.rules && st.rules[order1[m]] == st1.rules[order1[m]])
  }

  /** A non-terminal already handled stays handled while others are. */
  lemma MixedFixedKept(terminals: seq<string>, S: set<Body>, prev: Conversion, st: Conversion, x: char, nt: char)
    requires MixedFixed(terminals, S, prev, x) && Kept(prev, st, nt) && x != nt
    ensures MixedFixed(terminals, S, st, x)
  {
    FixSetExtend(terminals, prev.cache, st.cache, S);
  }

  lemma FixedUpToStep(terminals: seq<string>, st1: Conversion, order1: seq<char>, j: int, prev: Conversion, st: Conversion)
    requires FixedUpTo(terminals, st1, order1, j, prev) && j < |order1| && NoDup(order1)
    requires Kept(prev, st, order1[j]) && MixedFixed(terminals, prev.rules[order1[j]], st, order1[j])
    ensures FixedUpTo(terminals, st1, order1, j + 1, st)
  {
    forall m | 0 <= m < j
      ensures MixedFixed(terminals, st1.rules[order1[m]], st, order1[m])
    {
      MixedFixedKept(terminals, st1.rules[order1[m]], prev, st, order1[m], order1[j]);
    }
  }

  /** The start of the second phase: the first has left the invariant of the second in place. */
  lemma StartFixing(nts0: seq<string>, terminals: seq<string>, st1: Conversion)
    requires Building(nts0, terminals, st1) && Spare(terminals, st1) >= |terminals|
    ensures Fixing(nts0, terminals, st1, st1)
  {
    TerminalCharsCard(terminals);
    SubsetCard(Pending(terminals, st1.cache), TerminalChars(terminals));
  }

  /** Grammar.py:140-157: the mixed bodies of every rule, helpers of the first phase included, are fixed. */
  method FixAllMixed(ghost nts0: seq<string>, terminals: seq<string>, st1: Conversion) returns (st: Conversion)
    requires Building(nts0, terminals, st1) && Spare(terminals, st1) >= |terminals|
    ensures Fixing(nts0, terminals, st1, st)
    ensures forall x :: x in st1.rules ==> MixedFixed(terminals, st1.rules[x], st, x)
  {
    StartFixing(nts0, terminals, st1);
    var order1 := st1.order;
    st := st1;
    var j := 0;
    while j < |order1|
      invariant Fixing(nts0, terminals, st1, st)
      invariant FixedUpTo(terminals, st1, order1, j, st)
    {
      var nt := order1[j];
      ghost var prev := st;
      st := FixMixed(nts0, terminals, nt, st1, st);
      FixedUpToStep(terminals, st1, order1, j, prev, st);
      j := j + 1;
    }
    FixedAll(terminals, st1, st);
  }

  lemma FixedAll(terminals: seq<string>, st1: Conversion, st: Conversion)
    requires KeysOk(st1) && FixedUpTo(terminals, st1, st1.order, |st1.order|, st)
    ensures forall x :: x in st1.rules ==> MixedFixed(terminals, st1.rules[x], st, x)
  {
    forall x | x in st1.rules
      ensures MixedFixed(terminals, st1.rules[x], st, x)
    {
      var m := IndexOf(st1.order, x);
    }
  }
}
