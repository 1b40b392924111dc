/**
 * 2_FiniteAutomata/3_Conversion.py: the automaton of variant 12 and its conversion from an NFA
 * to a DFA by the subset construction, composite states being sorted tuples of NFA states.
 */
module SubsetConstruction {
  import opened Wrappers
  import opened Seqs

  /** NFA transitions: (state, symbol) to the set of next states. */
  type Table = map<(string, string), set<string>>

  /** A composite DFA state: the tuple of its NFA states. */
  type Composite = seq<string>

  // ---- Python's order on str, and sorted tuples ----

  /** Python's `a < b` on strings: lexicographic on code points, a proper prefix first. */
  predicate Below(a: string, b: string)
    decreases |a|
  {
    |b| > 0 && (|a| == 0 || a[0] < b[0] || (a[0] == b[0] && Below(a[1..], b[1..])))
  }

  lemma {:induction false} BelowIrreflexive(a: string)
    ensures !Below(a, a)
    decreases |a|
  {
    if |a| > 0 {
      BelowIrreflexive(a[1..]);
    }
  }

  lemma {:induction false} BelowTransitive(a: string, b: string, c: string)
    requires Below(a, b) && Below(b, c)
    ensures Below(a, c)
    decreases |a|
  {
    if |a| > 0 && a[0] == b[0] && b[0] == c[0] {
      BelowTransitive(a[1..], b[1..], c[1..]);
    }
  }

  lemma {:induction false} BelowTotal(a: string, b: string)
    requires a != b
    ensures Below(a, b) || Below(b, a)
    decreases |a|
  {
    if |a| > 0 && |b| > 0 && a[0] == b[0] {
      assert a == [a[0]] + a[1..] && b == [b[0]] + b[1..];
      BelowTotal(a[1..], b[1..]);
    }
  }

  /** Strictly ascending: sorted and free of duplicates. */
  predicate Increasing(s: seq<string>)
  {
    forall i, j :: 0 <= i < j < |s| ==> Below(s[i], s[j])
  }

  lemma IncreasingNoDup(s: seq<string>)
    requires Increasing(s)
    ensures NoDup(s)
  {
    forall i, j | 0 <= i < j < |s|
      ensures s[i] != s[j]
    {
      BelowIrreflexive(s[i]);
    }
  }

  /** A set has one sorted tuple: composite states equal as sets are equal as tuples. */
  lemma {:induction false} IncreasingUnique(s: seq<string>, s': seq<string>)
    requires Increasing(s) && Increasing(s') && Elems(s) == Elems(s')
    ensures s == s'
    decreases |s|
  {
    ElemsEmpty(s);
    ElemsEmpty(s');
    if s != [] {
      assert s[0] in Elems(s');
      assert s'[0] in Elems(s);
      if s[0] != s'[0] {
        var i :| 0 <= i < |s| && s[i] == s'[0];
        var j :| 0 <= j < |s'| && s'[j] == s[0];
        BelowTransitive(s[0], s'[0], s[0]);
        BelowIrreflexive(s[0]);
      }
      IncreasingNoDup(s);
      IncreasingNoDup(s');
      assert Elems(s[1..]) == Elems(s) - {s[0]} by {
        assert s == [s[0]] + s[1..];
      }
      assert Elems(s'[1..]) == Elems(s') - {s'[0]} by {
        assert s' == [s'[0]] + s'[1..];
      }
      IncreasingUnique(s[1..], s'[1..]);
      assert s == [s[0]] + s[1..] && s' == [s'[0]] + s'[1..];
    }
  }

  lemma ElemsEmpty<T>(s: seq<T>)
    ensures Elems(s) == {} <==> s == []
  {
    if s != [] {
      assert s[0] in Elems(s);
    }
  }

  /** `x` put into its place in an ascending tuple. */
  function Insert(s: seq<string>, x: string): (r: seq<string>)
    requires Increasing(s) && x !in s
    ensures Increasing(r) && Elems(r) == Elems(s) + {x}
    decreases |s|
  {
    if s == [] then [x]
    else if Below(x, s[0]) then
      InsertFront(s, x);
      [x] + s
    else
      BelowTotal(x, s[0]);
      var rest := Insert(s[1..], x);
      InsertLater(s, x, rest);
      [s[0]] + rest
  }

  lemma InsertFront(s: seq<string>, x: string)
    requires Increasing(s) && s != [] && Below(x, s[0])
    ensures Increasing([x] + s) && Elems([x] + s) == Elems(s) + {x}
  {
    forall j | 0 < j < |s|
      ensures Below(x, s[j])
    {
      BelowTransitive(x, s[0], s[j]);
    }
    assert forall j :: 0 < j < |[x] + s| ==> ([x] + s)[j] == s[j - 1];
  }

  lemma InsertLater(s: seq<string>, x: string, rest: seq<string>)
    requires Increasing(s) && s != [] && Below(s[0], x)
    requires Increasing(rest) && Elems(rest) == Elems(s[1..]) + {x}
    ensures Increasing([s[0]] + rest) && Elems([s[0]] + rest) == Elems(s) + {x}
  {
    forall y | y in Elems(rest)
      ensures Below(s[0], y)
    {
      if y != x {
        var j :| 0 <= j < |s[1..]| && s[1..][j] == y;
        assert s[j + 1] == y;
      }
    }
    assert forall j :: 0 < j < |[s[0]] + rest| ==> ([s[0]] + rest)[j] == rest[j - 1];
    assert forall j :: 0 < j < |[s[0]] + rest| ==> ([s[0]] + rest)[j] in Elems(rest);
    assert Elems(s) == {s[0]} + Elems(s[1..]) by {
      assert s == [s[0]] + s[1..];
    }
    assert Elems([s[0]] + rest) == {s[0]} + Elems(rest);
  }

  /** `tuple(sorted(S))` (3_Conversion.py:51): the ascending tuple of the members of `S`. */
  method SortedTuple(S: set<string>) returns (r: seq<string>)
    ensures Increasing(r) && Elems(r) == S
  {
    r := [];
    var todo := S;
    while todo != {}
      invariant todo <= S && Increasing(r) && Elems(r) == S - todo
      decreases |todo|
    {
      var x :| x in todo;
      r := Insert(r, x);
      todo := todo - {x};
    }
  }

  // ---- The NFA semantics ----

  function Targets(t: Table, s: string, a: string): set<string>
  {
    if (s, a) in t then t[(s, a)] else {}
  }

  /** The union of the targets of the states of `S` on `a`. */
  ghost function Step(t: Table, S: set<string>, a: string): set<string>
  {
    set s, x | s in S && x in Targets(t, s, a) :: x
  }

  /** The next set of a composite state on `a` (3_Conversion.py:46-48). */
  ghost function Union(t: Table, c: Composite, a: string): set<string>
  {
    Step(t, Elems(c), a)
  }

  lemma UnionSnoc(t: Table, c: Composite, k: nat, a: string)
    requires k < |c|
    ensures Union(t, c[..k + 1], a) == Union(t, c[..k], a) + Targets(t, c[k], a)
  {
    assert Elems(c[..k + 1]) == Elems(c[..k]) + {c[k]} by {
      assert c[..k + 1] == c[..k] + [c[k]];
    }
    forall x | x in Targets(t, c[k], a)
      ensures x in Union(t, c[..k + 1], a)
    {
      assert c[k] in Elems(c[..k + 1]);
    }
  }

  lemma UnionOne(t: Table, s: string, a: string)
    ensures Union(t, [s], a) == Targets(t, s, a)
  {
    assert Elems([s]) == {s};
    forall x | x in Targets(t, s, a)
      ensures x in Union(t, [s], a)
    {
      assert s in Elems([s]);
    }
  }

  /** The NFA states reached from `S` reading the symbols of `w`. */
  ghost function NReach(t: Table, S: set<string>, w: seq<string>): set<string>
    decreases |w|
  {
    if w == [] then S else NReach(t, Step(t, S, w[0]), w[1..])
  }

  lemma {:induction false} NReachDead(t: Table, w: seq<string>)
    ensures NReach(t, {}, w) == {}
    decreases |w|
  {
    if w != [] {
      assert Step(t, {}, w[0]) == {};
      NReachDead(t, w[1..]);
    }
  }

  /** Every state the NFA can be in: the start state and every target of the table. */
  ghost function Universe(t: Table, start: string): set<string>
  {
    {start} + set k, x | k in t && x in t[k] :: x
  }

  lemma UnionInUniverse(t: Table, start: string, c: Composite, a: string)
    ensures Union(t, c, a) <= Universe(t, start)
  {
    forall x | x in Union(t, c, a)
      ensures x in Universe(t, start)
    {
      var s :| s in Elems(c) && x in Targets(t, s, a);
      assert (s, a) in t && x in t[(s, a)];
    }
  }

  ghost function Powerset(U: set<string>): set<set<string>>
  {
    set S: set<string> | S <= U
  }

  ghost function ElemSets(states: set<Composite>): set<set<string>>
  {
    set st | st in states :: Elems(st)
  }

  // ---- The DFA the construction builds ----

  /** A composite state holding an NFA accept state. */
  predicate Meets(st: Composite, accept: set<string>)
  {
    exists m :: 0 <= m < |st| && st[m] in accept
  }

  ghost predicate StatesOk(start: string, U: set<string>, states: set<Composite>)
  {
    [start] in states && forall st :: st in states ==> Increasing(st) && st != [] && Elems(st) <= U
  }

  /** Each recorded transition goes to a known state: the sorted tuple of the non-empty union. */
  ghost predicate TransOk(t: Table, alphabet: set<string>, states: set<Composite>,
                          trans: map<(Composite, string), Composite>)
  {
    forall k :: k in trans ==>
      k.0 in states && k.1 in alphabet && trans[k] in states
      && Elems(trans[k]) == Union(t, k.0, k.1) && Union(t, k.0, k.1) != {}
  }

  /** Every symbol of `A` with a non-empty union from `st` has its transition recorded. */
  ghost predicate DoneWith(t: Table, trans: map<(Composite, string), Composite>, st: Composite, A: set<string>)
  {
    forall a :: a in A && Union(t, st, a) != {} ==> (st, a) in trans
  }

  ghost predicate AllDone(t: Table, alphabet: set<string>, states: set<Composite>,
                          trans: map<(Composite, string), Composite>)
  {
    forall st :: st in states ==> DoneWith(t, trans, st, alphabet)
  }

  /** Accepting: discovered after the start, holding an NFA accept state (3_Conversion.py:53-57). */
  ghost predicate AcceptOk(accept: set<string>, start: string, states: set<Composite>, acc: set<Composite>)
  {
    forall st :: st in acc <==> st in states && st != [start] && Meets(st, accept)
  }

  /** The worklist and the record of every entry into it, each without repetition. */
  ghost predicate Listed(pending: seq<Composite>, entered: seq<Composite>, states: set<Composite>)
  {
    NoDup(pending) && NoDup(entered) && (forall st :: st in entered <==> st in states)
      && forall st :: st in pending ==> st in states
  }

  /** What nfa_to_dfa returns. */
  ghost predicate IsSubsetAutomaton(t: Table, start: string, accept: set<string>, alphabet: set<string>,
                                    states: set<Composite>, trans: map<(Composite, string), Composite>,
                                    dstart: Composite, acc: set<Composite>)
  {
    dstart == [start] && StatesOk(start, Universe(t, start), states) && TransOk(t, alphabet, states, trans)
    && AllDone(t, alphabet, states, trans) && AcceptOk(accept, start, states, acc)
  }

  /** No state but the start is there without a transition that discovered it (3_Conversion.py:45-57). */
  ghost predicate Discovered(start: string, states: set<Composite>, trans: map<(Composite, string), Composite>)
  {
    states == {[start]} + trans.Values
  }

  /** The invariant of the worklist loop (3_Conversion.py:42-57). */
  ghost predicate Work(t: Table, start: string, accept: set<string>, alphabet: set<string>,
                       states: set<Composite>, trans: map<(Composite, string), Composite>, acc: set<Composite>,
                       pending: seq<Composite>, entered: seq<Composite>, seen: set<set<string>>)
  {
    StatesOk(start, Universe(t, start), states) && TransOk(t, alphabet, states, trans)
    && AcceptOk(accept, start, states, acc)
    && Listed(pending, entered, states) && seen == ElemSets(states) && Discovered(start, states, trans)
    && (forall k :: k in trans ==> k.0 !in pending)
    && forall st :: st in states && st !in pending ==> DoneWith(t, trans, st, alphabet)
  }

  /** The invariant of the symbol loop for the composite `current` just popped. */
  ghost predicate Inner(t: Table, start: string, accept: set<string>, alphabet: set<string>,
                        states: set<Composite>, trans: map<(Composite, string), Composite>, acc: set<Composite>,
                        pending: seq<Composite>, entered: seq<Composite>, seen: set<set<string>>,
                        current: Composite, symbols: set<string>)
  {
    StatesOk(start, Universe(t, start), states) && TransOk(t, alphabet, states, trans)
    && AcceptOk(accept, start, states, acc)
    && Listed(pending, entered, states) && seen == ElemSets(states) && Discovered(start, states, trans)
    && current in states && current !in pending
    && OpenKeys(trans, pending, current, symbols)
    && OthersDone(t, alphabet, states, trans, pending, current)
    && DoneWith(t, trans, current, alphabet - symbols)
  }

  /** No recorded transition leaves a pending composite, or `current` on a symbol still to be handled. */
  ghost predicate OpenKeys(trans: map<(Composite, string), Composite>, pending: seq<Composite>,
                           current: Composite, symbols: set<string>)
  {
    forall k :: k in trans ==> k.0 !in pending && (k.0 == current ==> k.1 !in symbols)
  }

  /** Every handled composite but `current` has all its transitions recorded. */
  ghost predicate OthersDone(t: Table, alphabet: set<string>, states: set<Composite>,
                             trans: map<(Composite, string), Composite>, pending: seq<Composite>, current: Composite)
  {
    forall st :: st in states && st !in pending && st != current ==> DoneWith(t, trans, st, alphabet)
  }

  lemma WorkInit(t: Table, start: string, accept: set<string>, alphabet: set<string>)
    ensures Work(t, start, accept, alphabet, {[start]}, map[], {}, [[start]], [[start]], {{start}})
  {
    assert Elems([start]) == {start};
    assert ElemSets({[start]}) == {{start}};
  }

  lemma PopStep(t: Table, start: string, accept: set<string>, alphabet: set<string>,
                states: set<Composite>, trans: map<(Composite, string), Composite>, acc: set<Composite>,
                pending: seq<Composite>, entered: seq<Composite>, seen: set<set<string>>)
    requires Work(t, start, accept, alphabet, states, trans, acc, pending, entered, seen) && pending != []
    ensures Inner(t, start, accept, alphabet, states, trans, acc, pending[..|pending| - 1], entered, seen,
                  pending[|pending| - 1], alphabet)
  {
    var n := |pending| - 1;
    var p' := pending[..n];
    var current := pending[n];
    assert pending == p' + [current];
    assert current !in p';
    assert forall st :: st in p' ==> st in pending;
  }

  /** A symbol whose union is empty records nothing. */
  lemma EmptyStep(t: Table, start: string, accept: set<string>, alphabet: set<string>,
                  states: set<Composite>, trans: map<(Composite, string), Composite>, acc: set<Composite>,
                  pending: seq<Composite>, entered: seq<Composite>, seen: set<set<string>>,
                  current: Composite, symbols: set<string>, symbol: string)
    requires Inner(t, start, accept, alphabet, states, trans, acc, pending, entered, seen, current, symbols)
    requires Union(t, current, symbol) == {}
    ensures Inner(t, start, accept, alphabet, states, trans, acc, pending, entered, seen, current, symbols - {symbol})
  {
  }

  /** A transition to a composite already known. */
  lemma KnownStep(t: Table, start: string, accept: set<string>, alphabet: set<string>,
                  states: set<Composite>, trans: map<(Composite, string), Composite>, acc: set<Composite>,
                  pending: seq<Composite>, entered: seq<Composite>, seen: set<set<string>>,
                  current: Composite, symbols: set<string>, symbol: string, n: Composite)
    requires Inner(t, start, accept, alphabet, states, trans, acc, pending, entered, seen, current, symbols)
    requires symbol in symbols && symbols <= alphabet
    requires Increasing(n) && Elems(n) == Union(t, current, symbol) && Union(t, current, symbol) != {}
    requires n in states
    ensures Inner(t, start, accept, alphabet, states, trans[(current, symbol) := n], acc, pending, entered, seen,
                  current, symbols - {symbol})
  {
    TransAdd(t, alphabet, states, trans, (current, symbol), n);
    DiscoveredAdd(start, states, trans, pending, current, symbols, symbol, n);
    KeysAdd(trans, pending, current, symbols, symbol, n);
    OthersAdd(t, alphabet, states, trans, pending, current, (current, symbol), n);
    DoneRemove(t, trans, current, alphabet, symbols, symbol, n);
  }

  /** Recording the transition of `current` on a symbol still to be handled discovers its target. */
  lemma DiscoveredAdd(start: string, states: set<Composite>, trans: map<(Composite, string), Composite>,
                      pending: seq<Composite>, current: Composite, symbols: set<string>, symbol: string, n: Composite)
    requires Discovered(start, states, trans) && OpenKeys(trans, pending, current, symbols) && symbol in symbols
    ensures Discovered(start, states + {n}, trans[(current, symbol) := n])
  {
    ValuesAdd(trans, (current, symbol), n);
  }

  /** A fresh key adds its target to the discovered ones and keeps the others. */
  lemma ValuesAdd(trans: map<(Composite, string), Composite>, key: (Composite, string), n: Composite)
    requires key !in trans
    ensures trans[key := n].Values == trans.Values + {n}
  {
    forall v | v in trans.Values
      ensures v in trans[key := n].Values
    {
      var k :| k in trans && trans[k] == v;
      assert trans[key := n][k] == v;
    }
    assert trans[key := n][key] == n;
  }

  lemma KeysAdd(trans: map<(Composite, string), Composite>, pending: seq<Composite>,
                current: Composite, symbols: set<string>, symbol: string, n: Composite)
    requires OpenKeys(trans, pending, current, symbols) && current !in pending
    ensures OpenKeys(trans[(current, symbol) := n], pending, current, symbols - {symbol})
  {
  }

  lemma DoneRemove(t: Table, trans: map<(Composite, string), Composite>, current: Composite,
                   alphabet: set<string>, symbols: set<string>, symbol: string, n: Composite)
    requires DoneWith(t, trans, current, alphabet - symbols) && symbol in symbols && symbols <= alphabet
    ensures DoneWith(t, trans[(current, symbol) := n], current, alphabet - (symbols - {symbol}))
  {
    DoneAdd(t, trans, current, alphabet - symbols, symbol, n);
    assert alphabet - (symbols - {symbol}) == (alphabet - symbols) + {symbol};
  }

  lemma TransAdd(t: Table, alphabet: set<string>, states: set<Composite>,
                 trans: map<(Composite, string), Composite>, key: (Composite, string), n: Composite)
    requires TransOk(t, alphabet, states, trans)
    requires key.0 in states && key.1 in alphabet && n in states
    requires Elems(n) == Union(t, key.0, key.1) && Union(t, key.0, key.1) != {}
    ensures TransOk(t, alphabet, states, trans[key := n])
  {
  }

  lemma OthersAdd(t: Table, alphabet: set<string>, states: set<Composite>,
                  trans: map<(Composite, string), Composite>, pending: seq<Composite>, current: Composite,
                  key: (Composite, string), n: Composite)
    requires OthersDone(t, alphabet, states, trans, pending, current)
    ensures OthersDone(t, alphabet, states, trans[key := n], pending, current)
  {
    forall st | st in states && st !in pending && st != current
      ensures DoneWith(t, trans[key := n], st, alphabet)
    {
      DoneGrows(t, trans, st, alphabet, key, n);
    }
  }

  lemma DoneGrows(t: Table, trans: map<(Composite, string), Composite>, st: Composite, A: set<string>,
                  key: (Composite, string), n: Composite)
    requires DoneWith(t, trans, st, A)
    ensures DoneWith(t, trans[key := n], st, A)
  {
  }

  lemma DoneAdd(t: Table, trans: map<(Composite, string), Composite>, st: Composite, A: set<string>,
                a: string, n: Composite)
    requires DoneWith(t, trans, st, A)
    ensures DoneWith(t, trans[(st, a) := n], st, A + {a})
  {
  }

  /** Discovering a new composite leaves fewer subsets of the universe to discover. */
  lemma Shrinks(U: set<string>, seen: set<set<string>>, E: set<string>)
    requires E !in seen && E <= U
    ensures |Powerset(U) - (seen + {E})| < |Powerset(U) - seen|
  {
    assert E in Powerset(U) - seen;
    assert Powerset(U) - (seen + {E}) == (Powerset(U) - seen) - {E};
  }

  lemma ElemSetsAdd(states: set<Composite>, n: Composite)
    ensures ElemSets(states + {n}) == ElemSets(states) + {Elems(n)}
  {
  }

  /** A transition to a composite not seen before: it becomes a state and joins the worklist. */
  lemma NewStep(t: Table, start: string, accept: set<string>, alphabet: set<string>,
                states: set<Composite>, trans: map<(Composite, string), Composite>, acc: set<Composite>,
                pending: seq<Composite>, entered: seq<Composite>, seen: set<set<string>>,
                current: Composite, symbols: set<string>, symbol: string, n: Composite)
    requires Inner(t, start, accept, alphabet, states, trans, acc, pending, entered, seen, current, symbols)
    requires symbol in symbols && symbols <= alphabet
    requires Increasing(n) && Elems(n) == Union(t, current, symbol) && Union(t, current, symbol) != {}
    requires n !in states
    ensures Inner(t, start, accept, alphabet, states + {n}, trans[(current, symbol) := n],
                  if Meets(n, accept) then acc + {n} else acc, pending + [n], entered + [n],
                  seen + {Elems(n)}, current, symbols - {symbol})
    ensures Elems(n) !in seen && Elems(n) <= Universe(t, start)
  {
    UnionInUniverse(t, start, current, symbol);
    NewListed(pending, entered, states, n);
    NewAccepts(accept, start, states, acc, n);
    NewTrans(t, alphabet, states, trans, current, symbol, n);
    DiscoveredAdd(start, states, trans, pending, current, symbols, symbol, n);
    NewDone(t, alphabet, states, trans, pending, current, symbols, symbol, n);
    ElemSetsAdd(states, n);
    if Elems(n) in seen {
      var st :| st in states && Elems(st) == Elems(n);
      IncreasingUnique(st, n);
    }
  }

  lemma NewListed(pending: seq<Composite>, entered: seq<Composite>, states: set<Composite>, n: Composite)
    requires Listed(pending, entered, states) && n !in states
    ensures Listed(pending + [n], entered + [n], states + {n})
  {
  }

  lemma NewAccepts(accept: set<string>, start: string, states: set<Composite>, acc: set<Composite>, n: Composite)
    requires AcceptOk(accept, start, states, acc) && [start] in states && n !in states
    ensures AcceptOk(accept, start, states + {n}, if Meets(n, accept) then acc + {n} else acc)
  {
  }

  lemma NewTrans(t: Table, alphabet: set<string>, states: set<Composite>, trans: map<(Composite, string), Composite>,
                 current: Composite, symbol: string, n: Composite)
    requires TransOk(t, alphabet, states, trans) && current in states && symbol in alphabet
    requires Elems(n) == Union(t, current, symbol) != {}
    ensures TransOk(t, alphabet, states + {n}, trans[(current, symbol) := n])
  {
  }

  lemma NewDone(t: Table, alphabet: set<string>, states: set<Composite>, trans: map<(Composite, string), Composite>,
                pending: seq<Composite>, current: Composite, symbols: set<string>, symbol: string, n: Composite)
    requires forall k :: k in trans ==> k.0 in states
    requires forall k :: k in trans ==> k.0 !in pending && (k.0 == current ==> k.1 !in symbols)
    requires forall st :: st in states && st !in pending && st != current ==> DoneWith(t, trans, st, alphabet)
    requires DoneWith(t, trans, current, alphabet - symbols)
    requires current in states && current !in pending && n !in states
    requires symbol in symbols && symbols <= alphabet
    ensures forall k :: k in trans[(current, symbol) := n] ==>
      k.0 !in pending + [n] && (k.0 == current ==> k.1 !in symbols - {symbol})
    ensures forall st :: st in states + {n} && st !in pending + [n] && st != current ==>
      DoneWith(t, trans[(current, symbol) := n], st, alphabet)
    ensures DoneWith(t, trans[(current, symbol) := n], current, alphabet - (symbols - {symbol}))
  {
    forall st | st in states + {n} && st !in pending + [n] && st != current
      ensures DoneWith(t, trans[(current, symbol) := n], st, alphabet)
    {
      DoneGrows(t, trans, st, alphabet, (current, symbol), n);
    }
    DoneAdd(t, trans, current, alphabet - symbols, symbol, n);
    assert alphabet - (symbols - {symbol}) == (alphabet - symbols) + {symbol};
  }

  lemma InnerDone(t: Table, start: string, accept: set<string>, alphabet: set<string>,
                  states: set<Composite>, trans: map<(Composite, string), Composite>, acc: set<Composite>,
                  pending: seq<Composite>, entered: seq<Composite>, seen: set<set<string>>, current: Composite)
    requires Inner(t, start, accept, alphabet, states, trans, acc, pending, entered, seen, current, {})
    ensures Work(t, start, accept, alphabet, states, trans, acc, pending, entered, seen)
  {
    assert alphabet - {} == alphabet;
  }

  lemma WorkDone(t: Table, start: string, accept: set<string>, alphabet: set<string>,
                 states: set<Composite>, trans: map<(Composite, string), Composite>, acc: set<Composite>,
                 entered: seq<Composite>, seen: set<set<string>>)
    requires Work(t, start, accept, alphabet, states, trans, acc, [], entered, seen)
    ensures IsSubsetAutomaton(t, start, accept, alphabet, states, trans, [start], acc)
  {
  }

  /** The transitions of variant 12 (3_Conversion.py:20-27). */
  function VariantTable(): Table
  {
    map[("q0", "b") := {"q0"}, ("q0", "a") := {"q1"}, ("q1", "c") := {"q1"}, ("q1", "a") := {"q2"},
        ("q3", "a") := {"q1", "q3"}, ("q2", "a") := {"q3"}]
  }

  /** The DFA of 3_Conversion.py: the same class as the NFA, its states now tuples. */
  class SubsetAutomaton {
    var states: set<Composite>
    var alphabet: set<string>
    var transitions: map<(Composite, string), Composite>
    var startState: Composite
    var acceptStates: set<Composite>

    /** 3_Conversion.py:33-38. */
    constructor (alphabet: set<string>, start: string)
      ensures this.alphabet == alphabet && startState == [start] && states == {[start]}
      ensures transitions == map[] && acceptStates == {}
    {
      this.alphabet := alphabet;
      startState := [start];
      states := {[start]};
      transitions := map[];
      acceptStates := {};
    }
  }

  class FiniteAutomaton {
    var states: set<string>
    var alphabet: set<string>
    var transitions: Table
    var startState: string
    var acceptStates: set<string>

    /** 3_Conversion.py:17-30. */
    constructor ()
      ensures states == {"q0", "q1", "q2", "q3"} && alphabet == {"a", "b", "c"}
      ensures transitions == VariantTable() && startState == "q0" && acceptStates == {"q2"}
    {
      states := {"q0", "q1", "q2", "q3"};
      alphabet := {"a", "b", "c"};
      transitions := VariantTable();
      startState := "q0";
      acceptStates := {"q2"};
    }

    /**
     * 3_Conversion.py:32-59. Pops composites off the worklist; for each symbol, records the
     * sorted tuple of the non-empty union of the members' targets, and a tuple not seen before
     * becomes a state, joins the worklist and is marked accepting if it holds an accept state.
     * `entered` lists the composites in the order they joined the worklist.
     */
    method NfaToDfa() returns (dfa: SubsetAutomaton, ghost entered: seq<Composite>)
      ensures fresh(dfa) && dfa.alphabet == alphabet
      ensures IsSubsetAutomaton(transitions, startState, acceptStates, alphabet, dfa.states,
                                dfa.transitions, dfa.startState, dfa.acceptStates)
      ensures dfa.states == {dfa.startState} + dfa.transitions.Values
      ensures NoDup(entered) && forall st :: st in entered <==> st in dfa.states
    {
      // The growing fields of the new automaton are kept in locals while the worklist runs
      // and stored once it is empty; nothing else refers to the automaton meanwhile.
      var dstates: set<Composite>, dtrans: map<(Composite, string), Composite>, dacc: set<Composite>
        := {[startState]}, map[], {};
      ghost var U := Universe(transitions, startState);
      var unprocessed := [[startState]];
      entered := [[startState]];
      ghost var seen: set<set<string>> := {{startState}};
      WorkInit(transitions, startState, acceptStates, alphabet);
      while unprocessed != []
        invariant Work(transitions, startState, acceptStates, alphabet, dstates, dtrans, dacc,
                       unprocessed, entered, seen)
        decreases |Powerset(U) - seen|, |unprocessed|
      {
        PopStep(transitions, startState, acceptStates, alphabet, dstates, dtrans, dacc,
                unprocessed, entered, seen);
        var current := unprocessed[|unprocessed| - 1];
        unprocessed := unprocessed[..|unprocessed| - 1];
        dstates, dtrans, dacc, unprocessed, entered, seen :=
          Explore(current, dstates, dtrans, dacc, unprocessed, entered, seen);
        InnerDone(transitions, startState, acceptStates, alphabet, dstates, dtrans, dacc,
                  unprocessed, entered, seen, current);
      }
      WorkDone(transitions, startState, acceptStates, alphabet, dstates, dtrans, dacc, entered, seen);
      dfa := new SubsetAutomaton(alphabet, startState);
      dfa.states, dfa.transitions, dfa.acceptStates := dstates, dtrans, dacc;
    }

    /** 3_Conversion.py:45-57: the symbol loop for the composite `current` just popped. */
    method Explore(current: Composite, states0: set<Composite>, trans0: map<(Composite, string), Composite>,
                   acc0: set<Composite>, pending0: seq<Composite>, ghost entered0: seq<Composite>,
                   ghost seen0: set<set<string>>)
      returns (states: set<Composite>, trans: map<(Composite, string), Composite>, acc: set<Composite>,
               pending: seq<Composite>, ghost entered: seq<Composite>, ghost seen: set<set<string>>)
      requires Inner(transitions, startState, acceptStates, alphabet, states0, trans0, acc0,
                     pending0, entered0, seen0, current, alphabet)
      ensures Inner(transitions, startState, acceptStates, alphabet, states, trans, acc,
                    pending, entered, seen, current, {})
      ensures (seen == seen0 && |pending| == |pending0|)
        || |Powerset(Universe(transitions, startState)) - seen| < |Powerset(Universe(transitions, startState)) - seen0|
    {
      ghost var U := Universe(transitions, startState);
      states, trans, acc, pending, entered, seen := states0, trans0, acc0, pending0, entered0, seen0;
      var symbols := alphabet;
      while symbols != {}
        invariant symbols <= alphabet
        invariant Inner(transitions, startState, acceptStates, alphabet, states, trans, acc,
                        pending, entered, seen, current, symbols)
        invariant (seen == seen0 && |pending| == |pending0|) || |Powerset(U) - seen| < |Powerset(U) - seen0|
        decreases |symbols|
      {
        var symbol :| symbol in symbols;
        ghost var seen1, pending1 := seen, pending;
        states, trans, acc, pending, entered, seen := Visit(current, symbols, symbol, states, trans, acc, pending, entered, seen);
        if |pending| != |pending1| {
          Shrinks(U, seen1, Elems(pending[|pending1|]));
        }
        symbols := symbols - {symbol};
      }
    }

    /** 3_Conversion.py:46-57: records the transition of `current` on `symbol`. */
    method Visit(current: Composite, symbols: set<string>, symbol: string, states0: set<Composite>,
                 trans0: map<(Composite, string), Composite>, acc0: set<Composite>, pending0: seq<Composite>,
                 ghost entered0: seq<Composite>, ghost seen0: set<set<string>>)
      returns (states: set<Composite>, trans: map<(Composite, string), Composite>, acc: set<Composite>,
               pending: seq<Composite>, ghost entered: seq<Composite>, ghost seen: set<set<string>>)
      requires symbol in symbols && symbols <= alphabet
      requires Inner(transitions, startState, acceptStates, alphabet, states0, trans0, acc0,
                     pending0, entered0, seen0, current, symbols)
      ensures Inner(transitions, startState, acceptStates, alphabet, states, trans, acc,
                    pending, entered, seen, current, symbols - {symbol})
      ensures (seen == seen0 && pending == pending0)
        || (|pending| == |pending0| + 1 && seen == seen0 + {Elems(pending[|pending0|])}
            && Elems(pending[|pending0|]) !in seen0 && Elems(pending[|pending0|]) <= Universe(transitions, startState))
    {
      states, trans, acc, pending, entered, seen := states0, trans0, acc0, pending0, entered0, seen0;
      var nextStates := UnionOf(current, symbol);
      if nextStates != {} {
        var nextState := SortedTuple(nextStates);
        if nextState !in states {
          NewStep(transitions, startState, acceptStates, alphabet, states, trans, acc,
                  pending, entered, seen, current, symbols, symbol, nextState);
          trans := trans[(current, symbol) := nextState];
          states := states + {nextState};
          pending := pending + [nextState];
          entered := entered + [nextState];
          seen := seen + {Elems(nextState)};
          if exists m :: 0 <= m < |nextState| && nextState[m] in acceptStates {
            acc := acc + {nextState};
          }
        } else {
          KnownStep(transitions, startState, acceptStates, alphabet, states, trans, acc,
                    pending, entered, seen, current, symbols, symbol, nextState);
          trans := trans[(current, symbol) := nextState];
        }
      } else {
        EmptyStep(transitions, startState, acceptStates, alphabet, states, trans, acc,
                  pending, entered, seen, current, symbols, symbol);
      }
    }

    /** 3_Conversion.py:46-48: the union of the targets of the members of `current` on `symbol`. */
    method UnionOf(current: Composite, symbol: string) returns (nextStates: set<string>)
      ensures nextStates == Union(transitions, current, symbol)
    {
      nextStates := {};
      var k := 0;
      while k < |current|
        invariant k <= |current| && nextStates == Union(transitions, current[..k], symbol)
      {
        UnionSnoc(transitions, current, k, symbol);
        nextStates := nextStates + Targets(transitions, current[k], symbol);
        k := k + 1;
      }
      assert current[..k] == current;
    }
  }

  // ---- What the construction guarantees ----

  /** The run of the DFA from `st` over `w`; None once a transition is missing. */
  ghost function DRun(trans: map<(Composite, string), Composite>, st: Composite, w: seq<string>): Option<Composite>
    decreases |w|
  {
    if w == [] then Some(st)
    else if (st, w[0]) in trans then DRun(trans, trans[(st, w[0])], w[1..])
    else None
  }

  /** The DFA tracks the NFA: its run over `w` ends in the composite of the reached NFA states. */
  lemma {:induction false} Simulates(t: Table, alphabet: set<string>, states: set<Composite>,
                                     trans: map<(Composite, string), Composite>, st: Composite, w: seq<string>)
    requires TransOk(t, alphabet, states, trans) && AllDone(t, alphabet, states, trans)
    requires forall s :: s in states ==> s != []
    requires st in states && forall a :: a in w ==> a in alphabet
    ensures DRun(trans, st, w).Some? <==> NReach(t, Elems(st), w) != {}
    ensures DRun(trans, st, w).Some? ==>
      DRun(trans, st, w).value in states && Elems(DRun(trans, st, w).value) == NReach(t, Elems(st), w)
    decreases |w|
  {
    if w == [] {
      assert st[0] in Elems(st);
    } else if Union(t, st, w[0]) != {} {
      assert DoneWith(t, trans, st, alphabet);
      var next := trans[(st, w[0])];
      Simulates(t, alphabet, states, trans, next, w[1..]);
    } else {
      assert (st, w[0]) !in trans;
      NReachDead(t, w[1..]);
    }
  }

  /** A word the DFA accepts is accepted by the NFA. */
  lemma AcceptedSound(t: Table, start: string, accept: set<string>, alphabet: set<string>,
                      states: set<Composite>, trans: map<(Composite, string), Composite>,
                      acc: set<Composite>, w: seq<string>)
    requires IsSubsetAutomaton(t, start, accept, alphabet, states, trans, [start], acc)
    requires forall a :: a in w ==> a in alphabet
    requires DRun(trans, [start], w).Some? && DRun(trans, [start], w).value in acc
    ensures exists s :: s in NReach(t, {start}, w) && s in accept
  {
    var last := DRun(trans, [start], w).value;
    assert AcceptOk(accept, start, states, acc);
    assert Meets(last, accept);
    assert Elems([start]) == {start};
    RunMeets(t, accept, alphabet, states, trans, [start], w);
  }

  /** A run of the DFA ending in a composite that meets `accept` reaches an NFA state of `accept`. */
  lemma RunMeets(t: Table, accept: set<string>, alphabet: set<string>, states: set<Composite>,
                 trans: map<(Composite, string), Composite>, st: Composite, w: seq<string>)
    requires TransOk(t, alphabet, states, trans) && AllDone(t, alphabet, states, trans)
    requires forall s :: s in states ==> s != []
    requires st in states && forall a :: a in w ==> a in alphabet
    requires DRun(trans, st, w).Some? && Meets(DRun(trans, st, w).value, accept)
    ensures exists s :: s in NReach(t, Elems(st), w) && s in accept
  {
    Simulates(t, alphabet, states, trans, st, w);
    var s := MeetsMember(DRun(trans, st, w).value, accept);
  }

  /**
   * A word the NFA accepts is accepted by the DFA unless its run ends in the start composite,
   * which the construction never marks accepting.
   */
  lemma AcceptedComplete(t: Table, start: string, accept: set<string>, alphabet: set<string>,
                         states: set<Composite>, trans: map<(Composite, string), Composite>,
                         acc: set<Composite>, w: seq<string>)
    requires IsSubsetAutomaton(t, start, accept, alphabet, states, trans, [start], acc)
    requires forall a :: a in w ==> a in alphabet
    requires exists s :: s in NReach(t, {start}, w) && s in accept
    ensures DRun(trans, [start], w).Some?
    ensures DRun(trans, [start], w).value != [start] ==> DRun(trans, [start], w).value in acc
    ensures [start] !in acc
  {
    Simulates(t, alphabet, states, trans, [start], w);
    assert Elems([start]) == {start};
    var s :| s in NReach(t, {start}, w) && s in accept;
    MeetsWitness(DRun(trans, [start], w).value, accept, s);
  }

  lemma MeetsMember(st: Composite, accept: set<string>) returns (s: string)
    requires Meets(st, accept)
    ensures s in Elems(st) && s in accept
  {
    var m :| 0 <= m < |st| && st[m] in accept;
    s := st[m];
  }

  lemma MeetsWitness(st: Composite, accept: set<string>, s: string)
    requires s in Elems(st) && s in accept
    ensures Meets(st, accept)
  {
    var m :| 0 <= m < |st| && st[m] == s;
  }

  /**
   * With the table of variant 12, ('q0',) -a-> ('q1',) -a-> ('q2',), which accepts,
   * and ('q3',) -a-> ('q1', 'q3').
   */
  lemma VariantDfa(states: set<Composite>, trans: map<(Composite, string), Composite>, acc: set<Composite>)
    requires IsSubsetAutomaton(VariantTable(), "q0", {"q2"}, {"a", "b", "c"}, states, trans, ["q0"], acc)
    ensures (["q0"], "a") in trans && trans[(["q0"], "a")] == ["q1"]
    ensures (["q1"], "a") in trans && trans[(["q1"], "a")] == ["q2"] && ["q2"] in acc
    ensures (["q3"], "a") in trans && trans[(["q3"], "a")] == ["q1", "q3"]
  {
    VariantChain(states, trans);
    assert Meets(["q2"], {"q2"});
    assert ["q2"] != ["q0"] by {
      assert ["q2"][0] != ["q0"][0];
    }
  }

  lemma VariantChain(states: set<Composite>, trans: map<(Composite, string), Composite>)
    requires TransOk(VariantTable(), {"a", "b", "c"}, states, trans) && AllDone(VariantTable(), {"a", "b", "c"}, states, trans)
    requires ["q0"] in states && forall s :: s in states ==> Increasing(s)
    ensures (["q0"], "a") in trans && trans[(["q0"], "a")] == ["q1"]
    ensures (["q1"], "a") in trans && trans[(["q1"], "a")] == ["q2"] && ["q2"] in states
    ensures (["q3"], "a") in trans && trans[(["q3"], "a")] == ["q1", "q3"]
  {
    var t := VariantTable();
    VariantUnions();
    At(t, states, trans, ["q0"], "a", ["q1"]);
    At(t, states, trans, ["q1"], "a", ["q2"]);
    At(t, states, trans, ["q2"], "a", ["q3"]);
    VariantPair();
    At(t, states, trans, ["q3"], "a", ["q1", "q3"]);
  }

  /** The unions of the singleton composites of variant 12 on 'a'. */
  lemma VariantUnions()
    ensures Union(VariantTable(), ["q0"], "a") == Elems(["q1"]) && Union(VariantTable(), ["q1"], "a") == Elems(["q2"])
    ensures Union(VariantTable(), ["q2"], "a") == Elems(["q3"]) && Union(VariantTable(), ["q3"], "a") == {"q1", "q3"}
  {
    var t := VariantTable();
    UnionOne(t, "q0", "a");
    UnionOne(t, "q1", "a");
    UnionOne(t, "q2", "a");
    UnionOne(t, "q3", "a");
    assert Elems(["q1"]) == {"q1"} && Elems(["q2"]) == {"q2"} && Elems(["q3"]) == {"q3"};
  }

  lemma VariantPair()
    ensures Increasing(["q1", "q3"]) && Elems(["q1", "q3"]) == {"q1", "q3"}
  {
    assert Below("q1", "q3") by {
      assert "q1"[1..] == "1" && "q3"[1..] == "3";
    }
  }

  /** A composite reached from a known one is the recorded target, and is a state. */
  lemma At(t: Table, states: set<Composite>, trans: map<(Composite, string), Composite>,
           st: Composite, a: string, n: Composite)
    requires TransOk(t, {"a", "b", "c"}, states, trans) && (forall s :: s in states ==> Increasing(s))
    requires st in states && AllDone(t, {"a", "b", "c"}, states, trans)
    requires a in {"a", "b", "c"} && Increasing(n) && Union(t, st, a) == Elems(n) != {}
    ensures (st, a) in trans && trans[(st, a)] == n && n in states
  {
    assert DoneWith(t, trans, st, {"a", "b", "c"});
    IncreasingUnique(trans[(st, a)], n);
  }
}
