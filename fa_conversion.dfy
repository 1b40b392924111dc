/**
 * 2_FiniteAutomata/2_Conversion.py: the right-linear grammar read off a finite automaton,
 * and the determinism test of the automaton of variant 12.
 */
module GrammarConversion {
  import opened Wrappers
  import opened Seqs

  /** Transitions: (state, symbol) to the set of next states. */
  type Table = map<(string, string), set<string>>

  // ---- The productions dict ----

  /** The dict `P`: heads in insertion order and the list of bodies of each head. */
  datatype Productions = Productions(order: seq<string>, bodies: map<string, seq<string>>)

  /** The dict invariant: every head once, and the heads are exactly the keys. */
  ghost predicate Ordered(p: Productions)
  {
    NoDup(p.order) && forall q :: q in p.bodies <==> q in p.order
  }

  /** The list of `q`, empty while `q` has none. */
  function BodiesOf(p: Productions, q: string): seq<string>
  {
    if q in p.bodies then p.bodies[q] else []
  }

  /** `add_production` (2_Conversion.py:8-11) on the dict value. */
  function AddTo(p: Productions, left: string, right: string): Productions
  {
    if left in p.bodies then Productions(p.order, p.bodies[left := p.bodies[left] + [right]])
    else Productions(p.order + [left], p.bodies[left := [right]])
  }

  /**
   * `right` goes to the end of the list of `left`, a new head goes to the end of the order,
   * and no other head's list changes; the dict invariant is kept.
   */
  lemma AddToBodies(p: Productions, left: string, right: string)
    ensures BodiesOf(AddTo(p, left, right), left) == BodiesOf(p, left) + [right]
    ensures forall q :: q != left ==> BodiesOf(AddTo(p, left, right), q) == BodiesOf(p, q)
    ensures AddTo(p, left, right).bodies.Keys == p.bodies.Keys + {left}
    ensures AddTo(p, left, right).order == if left in p.bodies then p.order else p.order + [left]
    ensures Ordered(p) ==> Ordered(AddTo(p, left, right))
  {
  }

  /** The productions after `add_production` of each (head, body) of `items` in turn. */
  function AddAll(p: Productions, items: seq<(string, string)>): Productions
    decreases |items|
  {
    if items == [] then p
    else
      var last := items[|items| - 1];
      AddTo(AddAll(p, items[..|items| - 1]), last.0, last.1)
  }

  /** The bodies of `items` whose head is `q`, in order. */
  function BodiesFor(items: seq<(string, string)>, q: string): seq<string>
    decreases |items|
  {
    if items == [] then []
    else
      var last := items[|items| - 1];
      BodiesFor(items[..|items| - 1], q) + (if last.0 == q then [last.1] else [])
  }

  /** Adding a run of productions appends to each head's list exactly that head's bodies, in order. */
  lemma {:induction false} AddAllBodies(p: Productions, items: seq<(string, string)>, q: string)
    ensures BodiesOf(AddAll(p, items), q) == BodiesOf(p, q) + BodiesFor(items, q)
    ensures Ordered(p) ==> Ordered(AddAll(p, items))
    decreases |items|
  {
    if items != [] {
      var last := items[|items| - 1];
      AddAllBodies(p, items[..|items| - 1], q);
      AddToBodies(AddAll(p, items[..|items| - 1]), last.0, last.1);
    }
  }

  // ---- What convert_from_finite_automaton appends ----

  /** The body for a move on `c` to `t`: the bare symbol when `t` accepts (2_Conversion.py:28-37). */
  function Body(c: string, t: string, accept: set<string>): (b: string)
    ensures t in accept ==> b == c
    ensures t !in accept ==> b == c + t && |b| == |c| + |t|
  {
    if t in accept then c else c + t
  }

  /** The productions of one transition entry, its targets taken in the order `targets`. */
  function EntryItems(key: (string, string), targets: seq<string>, accept: set<string>): seq<(string, string)>
  {
    seq(|targets|, j requires 0 <= j < |targets| => (key.0, Body(key.1, targets[j], accept)))
  }

  /** The productions of the entries `keys`, the targets of each taken in the matching order. */
  function Emitted(keys: seq<(string, string)>, orders: seq<seq<string>>, accept: set<string>): seq<(string, string)>
    requires |orders| == |keys|
    decreases |keys|
  {
    if keys == [] then []
    else
      var n := |keys| - 1;
      Emitted(keys[..n], orders[..n], accept) + EntryItems(keys[n], orders[n], accept)
  }

  /** `q -> b` is read off some move of `q`. */
  ghost predicate Produces(T: Table, accept: set<string>, q: string, b: string)
  {
    exists c, t :: (q, c) in T && t in T[(q, c)] && b == Body(c, t, accept)
  }

  /** `orders` lists the targets of each entry of `keys` once each. */
  ghost predicate Enumerates(T: Table, keys: seq<(string, string)>, orders: seq<seq<string>>)
  {
    |orders| == |keys| && (forall i :: 0 <= i < |keys| ==> keys[i] in T)
    && forall i :: 0 <= i < |keys| ==> NoDup(orders[i]) && Elems(orders[i]) == T[keys[i]]
  }

  /** A head's bodies are the bodies paired with it. */
  lemma {:induction false} BodiesForMember(items: seq<(string, string)>, q: string, b: string)
    ensures b in BodiesFor(items, q) <==> (q, b) in items
    decreases |items|
  {
    if items != [] {
      var n := |items| - 1;
      BodiesForMember(items[..n], q, b);
      assert items == items[..n] + [items[n]];
    }
  }

  /** The productions emitted are those of the listed entries. */
  lemma {:induction false} EmittedMember(keys: seq<(string, string)>, orders: seq<seq<string>>,
                                         accept: set<string>, x: (string, string))
    requires |orders| == |keys|
    ensures x in Emitted(keys, orders, accept)
      <==> exists i :: 0 <= i < |keys| && x in EntryItems(keys[i], orders[i], accept)
    decreases |keys|
  {
    if keys != [] {
      var n := |keys| - 1;
      var front := Emitted(keys[..n], orders[..n], accept);
      assert Emitted(keys, orders, accept) == front + EntryItems(keys[n], orders[n], accept);
      EmittedMember(keys[..n], orders[..n], accept, x);
      if x in front {
        var i :| 0 <= i < n && x in EntryItems(keys[..n][i], orders[..n][i], accept);
        assert keys[..n][i] == keys[i] && orders[..n][i] == orders[i];
      }
      if exists i :: 0 <= i < |keys| && x in EntryItems(keys[i], orders[i], accept) {
        var i :| 0 <= i < |keys| && x in EntryItems(keys[i], orders[i], accept);
        if i < n {
          assert keys[..n][i] == keys[i] && orders[..n][i] == orders[i];
          assert x in front;
        }
      }
    }
  }

  /**
   * With every entry of the table listed once, the bodies emitted for `q` are exactly the
   * bodies of `q`'s moves: the bare symbol for an accepting target, symbol and target otherwise.
   */
  lemma EmittedProduces(T: Table, keys: seq<(string, string)>, orders: seq<seq<string>>,
                        accept: set<string>, q: string, b: string)
    requires Enumerates(T, keys, orders) && forall k :: k in T ==> k in keys
    ensures b in BodiesFor(Emitted(keys, orders, accept), q) <==> Produces(T, accept, q, b)
  {
    BodiesForMember(Emitted(keys, orders, accept), q, b);
    EmittedMember(keys, orders, accept, (q, b));
    if Produces(T, accept, q, b) {
      var c, t :| (q, c) in T && t in T[(q, c)] && b == Body(c, t, accept);
      var i :| 0 <= i < |keys| && keys[i] == (q, c);
      assert t in Elems(orders[i]);
      var j :| 0 <= j < |orders[i]| && orders[i][j] == t;
      assert EntryItems(keys[i], orders[i], accept)[j] == (q, b);
    }
    if (q, b) in Emitted(keys, orders, accept) {
      var i :| 0 <= i < |keys| && (q, b) in EntryItems(keys[i], orders[i], accept);
      var j :| 0 <= j < |orders[i]| && EntryItems(keys[i], orders[i], accept)[j] == (q, b);
      assert orders[i][j] in Elems(orders[i]);
    }
  }

  /**
   * Read off into an empty grammar, the list of each head `q` holds exactly the bodies of
   * `q`'s moves, and the dict invariant holds.
   */
  lemma ConvertedProductions(T: Table, keys: seq<(string, string)>, orders: seq<seq<string>>,
                             accept: set<string>, q: string, b: string)
    requires Enumerates(T, keys, orders) && forall k :: k in T ==> k in keys
    ensures b in BodiesOf(AddAll(Productions([], map[]), Emitted(keys, orders, accept)), q)
      <==> Produces(T, accept, q, b)
    ensures Ordered(AddAll(Productions([], map[]), Emitted(keys, orders, accept)))
  {
    AddAllBodies(Productions([], map[]), Emitted(keys, orders, accept), q);
    EmittedProduces(T, keys, orders, accept, q, b);
    assert BodiesOf(Productions([], map[]), q) == [];
  }

  /** Every singleton target set emptied by `pop()`, the others as they were (2_Conversion.py:26-27). */
  function Emptied(T: Table, K: set<(string, string)>): (r: Table)
    ensures r.Keys == T.Keys
    ensures forall k :: k in T ==> (|T[k]| == 1 && k in K ==> r[k] == {}) && (|T[k]| != 1 || k !in K ==> r[k] == T[k])
  {
    map k | k in T :: if |T[k]| == 1 && k in K then {} else T[k]
  }

  // ---- The automaton and the grammar ----

  /** The NFA of variant 12 (2_Conversion.py:49-56). */
  function VariantTable(): Table
  {
    map[("q0", "b") := {"q0"}, ("q0", "a") := {"q1"}, ("q1", "c") := {"q1"}, ("q1", "a") := {"q2"},
        ("q3", "a") := {"q1", "q3"}, ("q2", "a") := {"q3"}]
  }

  /** The entries of the table in the order the dict literal lists them. */
  function VariantKeys(): seq<(string, string)>
  {
    [("q0", "b"), ("q0", "a"), ("q1", "c"), ("q1", "a"), ("q3", "a"), ("q2", "a")]
  }

  predicate Deterministic(states: set<string>, alphabet: set<string>, T: Table)
  {
    forall s, a :: s in states && a in alphabet ==> (s, a) in T && |T[(s, a)]| == 1
  }

  class FiniteAutomaton {
    var states: set<string>
    var alphabet: set<string>
    var keys: seq<(string, string)>
    var transitions: Table
    var startState: string
    var acceptStates: set<string>

    /** The dict invariant of `transitions`: `keys` lists each entry once, in insertion order. */
    ghost predicate Valid()
      reads this
    {
      NoDup(keys) && forall k :: k in transitions <==> k in keys
    }

    /** 2_Conversion.py:46-58; the accept set is `{''}`. */
    constructor ()
      ensures states == {"q0", "q1", "q2", "q3"} && alphabet == {"a", "b", "c"}
      ensures keys == VariantKeys() && transitions == VariantTable()
      ensures startState == "q0" && acceptStates == {""}
      ensures Valid()
    {
      states := {"q0", "q1", "q2", "q3"};
      alphabet := {"a", "b", "c"};
      keys := VariantKeys();
      transitions := VariantTable();
      startState := "q0";
      acceptStates := {""};
      VariantKeysListed();
    }

    /**
     * 2_Conversion.py:60-66. False as soon as a (state, symbol) pair has no entry or an entry
     * whose target set is not a single state.
     */
    method IsDeterministic() returns (b: bool)
      ensures b <==> Deterministic(states, alphabet, transitions)
    {
      var todo := states;
      while todo != {}
        invariant todo <= states
        invariant forall s, a :: s in states - todo && a in alphabet ==>
          (s, a) in transitions && |transitions[(s, a)]| == 1
        decreases |todo|
      {
        var state :| state in todo;
        var symbols := alphabet;
        while symbols != {}
          invariant symbols <= alphabet
          invariant forall a :: a in alphabet - symbols ==> (state, a) in transitions && |transitions[(state, a)]| == 1
          decreases |symbols|
        {
          var symbol :| symbol in symbols;
          if (state, symbol) !in transitions || |transitions[(state, symbol)]| != 1 {
            return false;
          }
          symbols := symbols - {symbol};
        }
        todo := todo - {state};
      }
      return true;
    }
  }

  lemma VariantKeysListed()
    ensures NoDup(VariantKeys()) && forall k :: k in VariantTable() <==> k in VariantKeys()
  {
    assert "q0" != "q1" && "q0" != "q2" && "q0" != "q3" && "q1" != "q2" && "q1" != "q3" && "q2" != "q3" by {
      assert "q0"[1] == '0' && "q1"[1] == '1' && "q2"[1] == '2' && "q3"[1] == '3';
    }
    assert "a" != "b" && "a" != "c" && "b" != "c" by {
      assert "a"[0] == 'a' && "b"[0] == 'b' && "c"[0] == 'c';
    }
  }

  /** The automaton of variant 12 is not deterministic: ('q0', 'c') has no entry. */
  lemma VariantNotDeterministic()
    ensures !Deterministic({"q0", "q1", "q2", "q3"}, {"a", "b", "c"}, VariantTable())
  {
    assert ("q0", "c") !in VariantTable() by {
      assert "c" != "b" && "c" != "a" by {
        assert "c"[0] == 'c';
      }
    }
  }

  /** No target of variant 12 is the empty state name, so under the accept set {''} none accepts. */
  lemma VariantNoneAccepting()
    ensures forall k, t :: k in VariantTable() && t in VariantTable()[k] ==> t !in {""}
  {
    forall k, t | k in VariantTable() && t in VariantTable()[k]
      ensures t != ""
    {
      assert |t| == 2;
    }
  }

  /** So every production read off it is symbol followed by state. */
  lemma VariantBodies(q: string, b: string)
    requires Produces(VariantTable(), {""}, q, b)
    ensures exists c, t :: (q, c) in VariantTable() && t in VariantTable()[(q, c)] && b == c + t
  {
    VariantNoneAccepting();
  }

  class RegularGrammar {
    var VN: set<string>
    var VT: set<string>
    var P: Productions
    var S: Option<string>

    /** 2_Conversion.py:2-6. */
    constructor ()
      ensures VN == {} && VT == {} && P == Productions([], map[]) && S == None
    {
      VN := {};
      VT := {};
      P := Productions([], map[]);
      S := None;
    }

    /** 2_Conversion.py:8-11: appends `right` to the list of `left`, creating it first if needed. */
    method AddProduction(left: string, right: string)
      modifies this`P
      ensures P == AddTo(old(P), left, right)
    {
      if left !in P.bodies {
        P := Productions(P.order + [left], P.bodies[left := []]);
      }
      P := Productions(P.order, P.bodies[left := P.bodies[left] + [right]]);
      assert [] + [right] == [right];
    }

    /**
     * 2_Conversion.py:13-37. Adds the states to VN, takes the alphabet as VT and the start state
     * as S, then walks the entries of the transitions in order and appends one body per target.
     * `orders` records the order each entry's targets were read in.
     */
    method ConvertFromFiniteAutomaton(fa: FiniteAutomaton) returns (ghost orders: seq<seq<string>>)
      requires fa.Valid()
      modifies this`VN, this`VT, this`S, this`P, fa`transitions
      ensures VN == old(VN) + fa.states && VT == fa.alphabet && S == Some(fa.startState)
      ensures Enumerates(old(fa.transitions), fa.keys, orders)
      ensures P == AddAll(old(P), Emitted(fa.keys, orders, fa.acceptStates))
      ensures fa.transitions == Emptied(old(fa.transitions), old(fa.transitions).Keys)
    {
      VN := VN + fa.states;
      VT := fa.alphabet;
      S := Some(fa.startState);
      ghost var T := fa.transitions;
      ghost var P0 := P;
      ghost var keys := fa.keys;
      orders := [];
      var i := 0;
      WalkedInit(T, P0, keys, fa.acceptStates);
      while i < |fa.keys|
        invariant VN == old(VN) + fa.states && VT == fa.alphabet && S == Some(fa.startState)
        invariant 0 <= i <= |keys| && keys == fa.keys && NoDup(keys) && forall k :: k in T <==> k in keys
        invariant Walked(T, P0, keys, orders, i, fa.acceptStates, P, fa.transitions)
      {
        var key := fa.keys[i];
        WalkedAt(T, P0, keys, orders, i, fa.acceptStates, P, fa.transitions);
        ghost var P1, trans1 := P, fa.transitions;
        ghost var order := ConvertEntry(fa, key);
        WalkedStep(T, P0, keys, orders, i, fa.acceptStates, P1, trans1, order, P, fa.transitions);
        orders := orders + [order];
        i := i + 1;
      }
      WalkedDone(T, P0, keys, orders, fa.acceptStates, P, fa.transitions);
    }

    /**
     * 2_Conversion.py:26-37 for the entry `key`: a singleton target set is emptied by `pop()`,
     * a larger one is read in its iteration order, returned as `order`; one body per target.
     */
    method ConvertEntry(fa: FiniteAutomaton, key: (string, string)) returns (ghost order: seq<string>)
      requires key in fa.transitions
      modifies this`P, fa`transitions
      ensures NoDup(order) && Elems(order) == old(fa.transitions[key])
      ensures P == AddAll(old(P), EntryItems(key, order, fa.acceptStates))
      ensures fa.transitions == old(fa.transitions)[key := if |old(fa.transitions[key])| == 1 then {} else old(fa.transitions[key])]
    {
      var nextStates := fa.transitions[key];
      ghost var P0 := P;
      if |nextStates| == 1 {
        var nextState :| nextState in nextStates;
        SingletonMembers(nextStates, nextState);
        assert nextStates - {nextState} == {};
        fa.transitions := fa.transitions[key := nextStates - {nextState}];
        AddProduction(key.0, Body(key.1, nextState, fa.acceptStates));
        order := [nextState];
        assert EntryItems(key, order, fa.acceptStates) == [(key.0, Body(key.1, nextState, fa.acceptStates))];
        assert AddAll(P0, EntryItems(key, order, fa.acceptStates))
          == AddTo(AddAll(P0, []), key.0, Body(key.1, nextState, fa.acceptStates));
      } else {
        order := AddTargets(key, nextStates, fa.acceptStates);
        CardElems(order);
      }
    }

    /**
     * 2_Conversion.py:33-37: one body per member of `nextStates`, in the set's iteration
     * order, returned as `order`.
     */
    method AddTargets(key: (string, string), nextStates: set<string>, accept: set<string>)
      returns (ghost order: seq<string>)
      modifies this`P
      ensures NoDup(order) && Elems(order) == nextStates
      ensures P == AddAll(old(P), EntryItems(key, order, accept))
    {
      var todo := nextStates;
      order := [];
      while todo != {}
        invariant todo <= nextStates && NoDup(order) && Elems(order) == nextStates - todo
        invariant P == AddAll(old(P), EntryItems(key, order, accept))
        decreases |todo|
      {
        var nextState :| nextState in todo;
        AddProduction(key.0, Body(key.1, nextState, accept));
        TargetSnoc(old(P), key, order, nextState, accept);
        order := order + [nextState];
        todo := todo - {nextState};
      }
    }
  }

  lemma SingletonMembers(S: set<string>, x: string)
    requires |S| == 1 && x in S
    ensures S == {x}
  {
    assert |S - {x}| == 0;
  }

  lemma {:induction false} CardElems(s: seq<string>)
    requires NoDup(s)
    ensures |Elems(s)| == |s|
    decreases |s|
  {
    if s != [] {
      var n := |s| - 1;
      assert Elems(s) == Elems(s[..n]) + {s[n]} by {
        assert s == s[..n] + [s[n]];
      }
      assert s[n] !in Elems(s[..n]);
      CardElems(s[..n]);
    }
  }

  /** The state of convert_from_finite_automaton once the first `i` entries are done. */
  ghost predicate Walked(T: Table, P0: Productions, keys: seq<(string, string)>, orders: seq<seq<string>>,
                         i: nat, accept: set<string>, P: Productions, trans: Table)
  {
    i <= |keys| && Enumerates(T, keys[..i], orders)
    && P == AddAll(P0, Emitted(keys[..i], orders, accept))
    && trans == Emptied(T, Elems(keys[..i]))
  }

  lemma WalkedInit(T: Table, P0: Productions, keys: seq<(string, string)>, accept: set<string>)
    ensures Walked(T, P0, keys, [], 0, accept, P0, T)
  {
    assert keys[..0] == [];
    assert Elems(keys[..0]) == {};
    assert Emptied(T, {}) == T;
  }

  lemma WalkedDone(T: Table, P0: Productions, keys: seq<(string, string)>, orders: seq<seq<string>>,
                   accept: set<string>, P: Productions, trans: Table)
    requires Walked(T, P0, keys, orders, |keys|, accept, P, trans) && forall k :: k in T <==> k in keys
    ensures Enumerates(T, keys, orders) && P == AddAll(P0, Emitted(keys, orders, accept))
    ensures trans == Emptied(T, T.Keys)
  {
    assert keys[..|keys|] == keys;
    assert Elems(keys) == T.Keys;
  }

  lemma WalkedAt(T: Table, P0: Productions, keys: seq<(string, string)>, orders: seq<seq<string>>,
                 i: nat, accept: set<string>, P: Productions, trans: Table)
    requires Walked(T, P0, keys, orders, i, accept, P, trans) && i < |keys| && NoDup(keys) && keys[i] in T
    ensures keys[i] in trans && trans[keys[i]] == T[keys[i]]
  {
    assert keys[i] !in Elems(keys[..i]) by {
      assert forall j :: 0 <= j < i ==> keys[j] != keys[i];
    }
    EmptiedAt(T, Elems(keys[..i]), keys[i]);
  }

  lemma WalkedStep(T: Table, P0: Productions, keys: seq<(string, string)>, orders: seq<seq<string>>,
                   i: nat, accept: set<string>, P: Productions, trans: Table,
                   order: seq<string>, P': Productions, trans': Table)
    requires Walked(T, P0, keys, orders, i, accept, P, trans) && i < |keys| && keys[i] in T
    requires keys[i] in trans && trans[keys[i]] == T[keys[i]]
    requires NoDup(order) && Elems(order) == T[keys[i]]
    requires P' == AddAll(P, EntryItems(keys[i], order, accept))
    requires trans' == trans[keys[i] := if |T[keys[i]]| == 1 then {} else T[keys[i]]]
    ensures Walked(T, P0, keys, orders + [order], i + 1, accept, P', trans')
  {
    assert keys[..i + 1] == keys[..i] + [keys[i]];
    EnumeratesSnoc(T, keys[..i], orders, keys[i], order);
    WalkedProductions(P0, keys[..i], orders, keys[i], order, accept, P, P');
    WalkedEmptied(T, keys[..i], keys[i], trans, trans');
  }

  lemma WalkedProductions(P0: Productions, done: seq<(string, string)>, orders: seq<seq<string>>,
                          key: (string, string), order: seq<string>, accept: set<string>, P: Productions, P': Productions)
    requires |orders| == |done| && P == AddAll(P0, Emitted(done, orders, accept))
    requires P' == AddAll(P, EntryItems(key, order, accept))
    ensures P' == AddAll(P0, Emitted(done + [key], orders + [order], accept))
  {
    EmittedSnoc(done, orders, key, order, accept);
    AddAllConcat(P0, Emitted(done, orders, accept), EntryItems(key, order, accept));
  }

  lemma WalkedEmptied(T: Table, done: seq<(string, string)>, key: (string, string), trans: Table, trans': Table)
    requires key in T && trans == Emptied(T, Elems(done))
    requires trans' == trans[key := if |T[key]| == 1 then {} else T[key]]
    ensures trans' == Emptied(T, Elems(done + [key]))
  {
    EmptiedAdd(T, Elems(done), key);
    assert Elems(done + [key]) == Elems(done) + {key};
  }

  lemma EmittedSnoc(keys: seq<(string, string)>, orders: seq<seq<string>>, key: (string, string),
                    order: seq<string>, accept: set<string>)
    requires |orders| == |keys|
    ensures Emitted(keys + [key], orders + [order], accept) == Emitted(keys, orders, accept) + EntryItems(key, order, accept)
  {
    assert (keys + [key])[..|keys|] == keys;
    assert (orders + [order])[..|keys|] == orders;
  }

  lemma EnumeratesSnoc(T: Table, keys: seq<(string, string)>, orders: seq<seq<string>>, key: (string, string),
                       order: seq<string>)
    requires Enumerates(T, keys, orders) && key in T && NoDup(order) && Elems(order) == T[key]
    ensures Enumerates(T, keys + [key], orders + [order])
  {
  }

  lemma EmptiedAt(T: Table, K: set<(string, string)>, key: (string, string))
    requires key in T && key !in K
    ensures key in Emptied(T, K) && Emptied(T, K)[key] == T[key]
  {
  }

  lemma EmptiedAdd(T: Table, K: set<(string, string)>, key: (string, string))
    requires key in T
    ensures Emptied(T, K + {key}) == Emptied(T, K)[key := if |T[key]| == 1 then {} else T[key]]
  {
  }

  lemma TargetSnoc(p: Productions, key: (string, string), order: seq<string>, t: string, accept: set<string>)
    ensures Elems(order + [t]) == Elems(order) + {t}
    ensures AddAll(p, EntryItems(key, order + [t], accept))
      == AddTo(AddAll(p, EntryItems(key, order, accept)), key.0, Body(key.1, t, accept))
  {
    assert EntryItems(key, order + [t], accept) == EntryItems(key, order, accept) + [(key.0, Body(key.1, t, accept))];
    AddAllSnoc(p, EntryItems(key, order, accept), (key.0, Body(key.1, t, accept)));
  }

  lemma AddAllSnoc(p: Productions, items: seq<(string, string)>, x: (string, string))
    ensures AddAll(p, items + [x]) == AddTo(AddAll(p, items), x.0, x.1)
  {
    assert (items + [x])[..|items|] == items;
  }

  lemma {:induction false} AddAllConcat(p: Productions, a: seq<(string, string)>, b: seq<(string, string)>)
    ensures AddAll(p, a + b) == AddAll(AddAll(p, a), b)
    decreases |b|
  {
    if b != [] {
      var n := |b| - 1;
      assert (a + b)[..|a + b| - 1] == a + b[..n];
      assert (a + b)[|a + b| - 1] == b[n];
      assert AddAll(p, a + b) == AddTo(AddAll(p, a + b[..n]), b[n].0, b[n].1);
      AddAllConcat(p, a, b[..n]);
    } else {
      assert a + b == a;
    }
  }
}
