/**
 * 2_FiniteAutomata/1_ChomskyHierarchy.py: the automaton of variant 12 with its multi-state
 * membership test, and the grammar of the same variant with its Chomsky classification and
 * its translation into an automaton.
 */
module ChomskyHierarchy {

  /** A transition table: (state, input symbol) to the set of next states. */
  type Table = map<(string, string), set<string>>

  /** The targets of (s, c); a missing entry contributes nothing. */
  function Targets(t: Table, s: string, c: char): set<string>
  {
    if (s, [c]) in t then t[(s, [c])] else {}
  }

  /** One step of the simulation: the union of the targets of every current state. */
  ghost function Step(t: Table, S: set<string>, c: char): set<string>
  {
    set s, x | s in S && x in Targets(t, s, c) :: x
  }

  /** The set of states reached from `S` by reading `w` one character at a time. */
  ghost function Reach(t: Table, S: set<string>, w: string): set<string>
    decreases |w|
  {
    if w == [] then S else Reach(t, Step(t, S, w[0]), w[1..])
  }

  /** `w` is accepted when the states reached from the start state meet the accept states. */
  ghost predicate Accepts(t: Table, start: string, accept: set<string>, w: string)
  {
    exists s :: s in Reach(t, {start}, w) && s in accept
  }

  lemma StepAdd(t: Table, A: set<string>, s: string, c: char)
    ensures Step(t, A + {s}, c) == Step(t, A, c) + Targets(t, s, c)
  {
    forall x | x in Targets(t, s, c)
      ensures x in Step(t, A + {s}, c)
    {
      assert s in A + {s};
    }
  }

  lemma StepSingle(t: Table, s: string, c: char)
    ensures Step(t, {s}, c) == Targets(t, s, c)
  {
    StepAdd(t, {}, s, c);
    assert {} + {s} == {s};
  }

  /** The empty string is accepted exactly when the start state accepts. */
  lemma AcceptsEmpty(t: Table, start: string, accept: set<string>)
    ensures Accepts(t, start, accept, "") <==> start in accept
  {
    assert Reach(t, {start}, "") == {start};
  }

  /** Once no state is current, none ever is again. */
  lemma {:induction false} ReachDead(t: Table, w: string)
    ensures Reach(t, {}, w) == {}
    decreases |w|
  {
    if w != [] {
      assert Step(t, {}, w[0]) == {};
      ReachDead(t, w[1..]);
    }
  }

  /** Reading `u + v` is reading `u`, then `v` from where `u` left off. */
  lemma {:induction false} ReachAppend(t: Table, S: set<string>, u: string, v: string)
    ensures Reach(t, S, u + v) == Reach(t, Reach(t, S, u), v)
    decreases |u|
  {
    if u != [] {
      assert (u + v)[0] == u[0] && (u + v)[1..] == u[1..] + v;
      ReachAppend(t, Step(t, S, u[0]), u[1..], v);
    } else {
      assert u + v == v;
    }
  }

  /** A prefix that empties the current set rejects every extension of it. */
  lemma DeadPrefixRejects(t: Table, start: string, accept: set<string>, u: string, v: string)
    requires Reach(t, {start}, u) == {}
    ensures !Accepts(t, start, accept, u + v)
  {
    ReachAppend(t, {start}, u, v);
    ReachDead(t, v);
  }

  /** The transitions of variant 12 (1_ChomskyHierarchy.py:20-28). */
  function VariantTable(): Table
  {
    map[("S", "a") := {"F"}, ("S", "b") := {"S"}, ("F", "b") := {"F"}, ("F", "c") := {"D"},
        ("F", "a") := {"end"}, ("D", "c") := {"S"}, ("D", "a") := {"end"}]
  }

  lemma ReachCons(t: Table, S: set<string>, c: char, w: string)
    ensures Reach(t, S, [c] + w) == Reach(t, Step(t, S, c), w)
  {
    assert ([c] + w)[0] == c && ([c] + w)[1..] == w;
  }

  /** One step of the variant automaton from a single state with a single target. */
  lemma VariantStep(s: string, c: char, x: string, w: string)
    requires (s, [c]) in VariantTable() && VariantTable()[(s, [c])] == {x}
    ensures Reach(VariantTable(), {s}, [c] + w) == Reach(VariantTable(), {x}, w)
  {
    StepSingle(VariantTable(), s, c);
    ReachCons(VariantTable(), {s}, c, w);
  }

  /** "aa" is accepted by the variant automaton: S, F, end. */
  lemma VariantAcceptsAa()
    ensures Accepts(VariantTable(), "S", {"end"}, "aa")
  {
    VariantStep("F", 'a', "end", "");
    VariantStep("S", 'a', "F", "a");
    assert "aa" == ['a'] + "a" && "a" == ['a'] + "";
    assert "end" in Reach(VariantTable(), {"S"}, "aa");
  }

  /** "abca" is accepted by the variant automaton: S, F, F, D, end. */
  lemma VariantAcceptsAbca()
    ensures Accepts(VariantTable(), "S", {"end"}, "abca")
  {
    VariantStep("D", 'a', "end", "");
    VariantStep("F", 'c', "D", "a");
    VariantStep("F", 'b', "F", "ca");
    VariantStep("S", 'a', "F", "bca");
    assert "abca" == ['a'] + "bca" && "bca" == ['b'] + "ca" && "ca" == ['c'] + "a" && "a" == ['a'] + "";
    assert "end" in Reach(VariantTable(), {"S"}, "abca");
  }

  /** "bbaa" is accepted by the variant automaton: S, S, S, F, end. */
  lemma VariantAcceptsBbaa()
    ensures Accepts(VariantTable(), "S", {"end"}, "bbaa")
  {
    VariantAcceptsAa();
    VariantStep("S", 'b', "S", "aa");
    VariantStep("S", 'b', "S", "baa");
    assert "bbaa" == ['b'] + "baa" && "baa" == ['b'] + "aa";
    assert Reach(VariantTable(), {"S"}, "bbaa") == Reach(VariantTable(), {"S"}, "aa");
  }

  /** "ab" is rejected by the variant automaton: it stops in F. */
  lemma VariantRejectsAb()
    ensures !Accepts(VariantTable(), "S", {"end"}, "ab")
  {
    VariantStep("F", 'b', "F", "");
    VariantStep("S", 'a', "F", "b");
    assert "ab" == ['a'] + "b" && "b" == ['b'] + "";
    assert Reach(VariantTable(), {"S"}, "ab") == {"F"};
    RejectsAt(VariantTable(), "S", {"end"}, "ab", "F");
  }

  /** A word whose run ends in the single state `x` is rejected when `x` does not accept. */
  lemma RejectsAt(t: Table, start: string, accept: set<string>, w: string, x: string)
    requires Reach(t, {start}, w) == {x} && x !in accept
    ensures !Accepts(t, start, accept, w)
  {
  }

  /** The empty word is rejected by the variant automaton: S is not accepting. */
  lemma VariantRejectsEmpty()
    ensures !Accepts(VariantTable(), "S", {"end"}, "")
  {
    AcceptsEmpty(VariantTable(), "S", {"end"});
  }

  class FiniteAutomaton {
    var states: set<string>
    var alphabet: set<string>
    var transitions: Table
    var startState: string
    var acceptStates: set<string>

    /** 1_ChomskyHierarchy.py:17-30. */
    constructor ()
      ensures states == {"S", "F", "D", "end"} && alphabet == {"a", "b", "c"}
      ensures transitions == VariantTable() && startState == "S" && acceptStates == {"end"}
    {
      states := {"S", "F", "D", "end"};
      alphabet := {"a", "b", "c"};
      transitions := VariantTable();
      startState := "S";
      acceptStates := {"end"};
    }

    /**
     * 1_ChomskyHierarchy.py:32-40. Keeps the set of current states; each character replaces it by
     * the union of the current states' targets, in whatever order the set is walked.
     */
    method StringBelongsToLanguage(input: string) returns (b: bool)
      ensures b <==> Accepts(transitions, startState, acceptStates, input)
    {
      var current := {startState};
      var i := 0;
      while i < |input|
        invariant i <= |input|
        invariant Reach(transitions, {startState}, input) == Reach(transitions, current, input[i..])
      {
        var c := input[i];
        var next: set<string> := {};
        var todo := current;
        while todo != {}
          invariant todo <= current
          invariant next == Step(transitions, current - todo, c)
        {
          var state :| state in todo;
          StepAdd(transitions, current - todo, state, c);
          assert current - (todo - {state}) == (current - todo) + {state};
          if (state, [c]) in transitions {
            next := next + transitions[(state, [c])];
          }
          todo := todo - {state};
        }
        assert current - todo == current;
        assert input[i..][0] == c && input[i..][1..] == input[i + 1..];
        current := next;
        i := i + 1;
      }
      assert Reach(transitions, current, input[i..]) == current;
      b := current * acceptStates != {};
      if b {
        var s :| s in current * acceptStates;
        assert s in Reach(transitions, {startState}, input);
      } else {
        forall s | s in Reach(transitions, {startState}, input)
          ensures s !in acceptStates
        {
          assert s !in current * acceptStates;
        }
      }
    }
  }

  /** The productions of a grammar as one (head, body) pair per body, in dict and list order. */
  function Pairs(nt: string, ps: seq<string>): (w: seq<(string, string)>)
    ensures |w| == |ps| && forall m :: 0 <= m < |ps| ==> w[m] == (nt, ps[m])
  {
    seq(|ps|, m requires 0 <= m < |ps| => (nt, ps[m]))
  }

  function Flat(P: seq<(string, seq<string>)>): seq<(string, string)>
  {
    if P == [] then [] else Flat(P[..|P| - 1]) + Pairs(P[|P| - 1].0, P[|P| - 1].1)
  }

  lemma FlatStep(P: seq<(string, seq<string>)>, i: nat)
    requires i < |P|
    ensures Flat(P[..i + 1]) == Flat(P[..i]) + Pairs(P[i].0, P[i].1)
  {
    assert P[..i + 1][..i] == P[..i];
  }

  lemma PairsStep(nt: string, ps: seq<string>, j: nat)
    requires j < |ps|
    ensures Pairs(nt, ps[..j + 1]) == Pairs(nt, ps[..j]) + [(nt, ps[j])]
  {
  }

  /** 1_ChomskyHierarchy.py:60-61: the body does not break regularity. */
  ghost predicate RegularBody(vn: set<string>, p: string)
  {
    !(|p| > 2 || (|p| == 2 && [p[0]] in vn))
  }

  /** 1_ChomskyHierarchy.py:64-65: the body does not break context-freeness. */
  ghost predicate ContextFreeBody(s: string, nt: string, p: string)
  {
    !(nt != s && |p| > 1)
  }

  /** 1_ChomskyHierarchy.py:68-73: short bodies and bodies of the start symbol are skipped. */
  ghost predicate ContextSensitiveBody(vn: set<string>, s: string, nt: string, p: string)
  {
    |p| < 2 || nt == s || forall m :: 1 <= m < |p| ==> [p[m]] !in vn
  }

  ghost predicate AllRegular(vn: set<string>, w: seq<(string, string)>)
  {
    forall k :: 0 <= k < |w| ==> RegularBody(vn, w[k].1)
  }

  ghost predicate AllContextFree(s: string, w: seq<(string, string)>)
  {
    forall k :: 0 <= k < |w| ==> ContextFreeBody(s, w[k].0, w[k].1)
  }

  ghost predicate AllContextSensitive(vn: set<string>, s: string, w: seq<(string, string)>)
  {
    forall k :: 0 <= k < |w| ==> ContextSensitiveBody(vn, s, w[k].0, w[k].1)
  }

  lemma FlagsSnoc(vn: set<string>, s: string, w: seq<(string, string)>, x: (string, string))
    ensures AllRegular(vn, w + [x]) == (AllRegular(vn, w) && RegularBody(vn, x.1))
    ensures AllContextFree(s, w + [x]) == (AllContextFree(s, w) && ContextFreeBody(s, x.0, x.1))
    ensures AllContextSensitive(vn, s, w + [x])
      == (AllContextSensitive(vn, s, w) && ContextSensitiveBody(vn, s, x.0, x.1))
  {
    assert forall k :: 0 <= k < |w| ==> (w + [x])[k] == w[k];
    assert (w + [x])[|w|] == x;
  }

  /** 1_ChomskyHierarchy.py:75-82: the flags decide by priority. */
  function Verdict(cs: bool, cf: bool, regular: bool): string
  {
    if cs then "Type-1 (Context-sensitive) Grammar"
    else if cf then "Type-2 (Context-free) Grammar"
    else if regular then "Type-3 (Regular) Grammar"
    else "Type-0 (Unrestricted) Grammar"
  }

  /** The productions of variant 12 (1_ChomskyHierarchy.py:46-50). */
  function VariantProductions(): seq<(string, seq<string>)>
  {
    [("S", ["aF", "bS"]), ("F", ["bF", "cD", "a"]), ("D", ["cS", "a"])]
  }

  /** 1_ChomskyHierarchy.py:97-109: the entry one body writes. */
  function Write(vt: set<string>, t: Table, nt: string, p: string): Table
  {
    if |p| == 2 then t[(nt, [p[0]]) := {[p[1]]}]
    else if |p| == 1 then
      if p in vt then t[(nt, p) := {"end"}] else t[(nt, "") := {p}]
    else t
  }

  /** The bodies written one after another, as the loops of to_finite_automaton do. */
  function Apply(vt: set<string>, t: Table, w: seq<(string, string)>): Table
  {
    if w == [] then t else Write(vt, Apply(vt, t, w[..|w| - 1]), w[|w| - 1].0, w[|w| - 1].1)
  }

  /** The key a body of `nt` writes, if it writes one. */
  predicate Writes(vt: set<string>, nt: string, p: string, k: (string, string))
  {
    (|p| == 2 && k == (nt, [p[0]])) || (|p| == 1 && p in vt && k == (nt, p))
      || (|p| == 1 && p !in vt && k == (nt, ""))
  }

  /** The target set a body writes: its next state, 'end' for a terminal, the state itself. */
  function Target(vt: set<string>, p: string): set<string>
  {
    if |p| == 2 then {[p[1]]} else if p in vt then {"end"} else {p}
  }

  lemma WriteEffect(vt: set<string>, t: Table, nt: string, p: string, k: (string, string))
    ensures Writes(vt, nt, p, k) ==> k in Write(vt, t, nt, p) && Write(vt, t, nt, p)[k] == Target(vt, p)
    ensures !Writes(vt, nt, p, k) ==>
      (k in Write(vt, t, nt, p) <==> k in t) && (k in t ==> Write(vt, t, nt, p)[k] == t[k])
  {
  }

  /** A key no body writes keeps its constructor entry, or stays absent. */
  lemma {:induction false} ApplyUnwritten(vt: set<string>, t: Table, w: seq<(string, string)>, k: (string, string))
    requires forall m :: 0 <= m < |w| ==> !Writes(vt, w[m].0, w[m].1, k)
    ensures (k in Apply(vt, t, w) <==> k in t) && (k in t ==> Apply(vt, t, w)[k] == t[k])
    decreases |w|
  {
    if w != [] {
      var n := |w| - 1;
      ApplyUnwritten(vt, t, w[..n], k);
      WriteEffect(vt, Apply(vt, t, w[..n]), w[n].0, w[n].1, k);
    }
  }

  /** The last body writing a key decides its entry: later writes overwrite earlier ones. */
  lemma {:induction false} ApplyLastWins(vt: set<string>, t: Table, w: seq<(string, string)>, m: nat, k: (string, string))
    requires m < |w| && Writes(vt, w[m].0, w[m].1, k)
    requires forall m' :: m < m' < |w| ==> !Writes(vt, w[m'].0, w[m'].1, k)
    ensures k in Apply(vt, t, w) && Apply(vt, t, w)[k] == Target(vt, w[m].1)
    decreases |w|
  {
    var n := |w| - 1;
    WriteEffect(vt, Apply(vt, t, w[..n]), w[n].0, w[n].1, k);
    if m < n {
      ApplyLastWins(vt, t, w[..n], m, k);
    }
  }

  class Grammar {
    var nonTerminals: set<string>
    var terminals: set<string>
    var productions: seq<(string, seq<string>)>   // P.items(), in insertion order
    var start: string

    /** 1_ChomskyHierarchy.py:43-51. */
    constructor ()
      ensures nonTerminals == {"S", "F", "D"} && terminals == {"a", "b", "c"}
      ensures productions == VariantProductions() && start == "S"
    {
      nonTerminals := {"S", "F", "D"};
      terminals := {"a", "b", "c"};
      productions := VariantProductions();
      start := "S";
    }

    /** 1_ChomskyHierarchy.py:60-74: the checks on one body, each clearing the flag it fails. */
    method InspectBody(nonTerminal: string, production: string, regular0: bool, contextFree0: bool,
                       contextSensitive0: bool) returns (regular: bool, contextFree: bool, contextSensitive: bool)
      ensures regular == (regular0 && RegularBody(nonTerminals, production))
      ensures contextFree == (contextFree0 && ContextFreeBody(start, nonTerminal, production))
      ensures contextSensitive == (contextSensitive0 && ContextSensitiveBody(nonTerminals, start, nonTerminal, production))
    {
      regular, contextFree, contextSensitive := regular0, contextFree0, contextSensitive0;
      if |production| > 2 || (|production| == 2 && [production[0]] in nonTerminals) {
        regular := false;
      }
      if nonTerminal != start && |production| > 1 {
        contextFree := false;
      }
      ghost var before := contextSensitive;
      if !(|production| < 2 || nonTerminal == start) {
        var m := 1;
        while m < |production|
          invariant 1 <= m <= |production| && contextSensitive == before
          invariant forall m' :: 1 <= m' < m ==> [production[m']] !in nonTerminals
        {
          if [production[m]] in nonTerminals {
            assert !ContextSensitiveBody(nonTerminals, start, nonTerminal, production);
            contextSensitive := false;
            break;
          }
          m := m + 1;
        }
      }
      assert contextSensitive == (before && ContextSensitiveBody(nonTerminals, start, nonTerminal, production));
    }

    /**
     * 1_ChomskyHierarchy.py:53-83. Three flags start true and each body may clear some of them;
     * the verdict is the flag of highest priority still set.
     */
    method ChomskyClassification() returns (r: string)
      ensures r == Verdict(AllContextSensitive(nonTerminals, start, Flat(productions)),
                           AllContextFree(start, Flat(productions)),
                           AllRegular(nonTerminals, Flat(productions)))
    {
      var contextFree := true;
      var contextSensitive := true;
      var regular := true;
      ghost var done: seq<(string, string)> := [];
      var i := 0;
      while i < |productions|
        invariant i <= |productions| && done == Flat(productions[..i])
        invariant regular == AllRegular(nonTerminals, done)
        invariant contextFree == AllContextFree(start, done)
        invariant contextSensitive == AllContextSensitive(nonTerminals, start, done)
      {
        var (nonTerminal, bodies) := productions[i];
        var j := 0;
        while j < |bodies|
          invariant j <= |bodies| && done == Flat(productions[..i]) + Pairs(nonTerminal, bodies[..j])
          invariant regular == AllRegular(nonTerminals, done)
          invariant contextFree == AllContextFree(start, done)
          invariant contextSensitive == AllContextSensitive(nonTerminals, start, done)
        {
          var production := bodies[j];
          regular, contextFree, contextSensitive := InspectBody(nonTerminal, production, regular, contextFree,
                                                                contextSensitive);
          PairsStep(nonTerminal, bodies, j);
          FlagsSnoc(nonTerminals, start, done, (nonTerminal, production));
          done := done + [(nonTerminal, production)];
          j := j + 1;
        }
        assert bodies[..j] == bodies;
        FlatStep(productions, i);
        i := i + 1;
      }
      assert productions[..i] == productions;
      if contextSensitive {
        r := "Type-1 (Context-sensitive) Grammar";
      } else if contextFree {
        r := "Type-2 (Context-free) Grammar";
      } else if regular {
        r := "Type-3 (Regular) Grammar";
      } else {
        r := "Type-0 (Unrestricted) Grammar";
      }
    }

    /** 1_ChomskyHierarchy.py:98-109: the entries the bodies of one non-terminal write, in order. */
    method WriteBodies(fa: FiniteAutomaton, nonTerminal: string, bodies: seq<string>, ghost done: seq<(string, string)>)
      requires fa.transitions == Apply(terminals, VariantTable(), done)
      modifies fa`transitions
      ensures fa.transitions == Apply(terminals, VariantTable(), done + Pairs(nonTerminal, bodies))
    {
      ghost var written := done;
      var j := 0;
      while j < |bodies|
        invariant j <= |bodies| && written == done + Pairs(nonTerminal, bodies[..j])
        invariant fa.transitions == Apply(terminals, VariantTable(), written)
      {
        var production := bodies[j];
        if |production| == 2 {
          fa.transitions := fa.transitions[(nonTerminal, [production[0]]) := {[production[1]]}];
        } else if |production| == 1 {
          if production in terminals {
            fa.transitions := fa.transitions[(nonTerminal, production) := {"end"}];
          } else {
            fa.transitions := fa.transitions[(nonTerminal, "") := {production}];
          }
        }
        PairsStep(nonTerminal, bodies, j);
        assert (written + [(nonTerminal, production)])[..|written|] == written;
        written := written + [(nonTerminal, production)];
        j := j + 1;
      }
      assert bodies[..j] == bodies;
    }

    /**
     * 1_ChomskyHierarchy.py:95-110. A fresh automaton of variant 12 whose table gets one entry
     * written per body of length 1 or 2, overwriting what was there.
     */
    method ToFiniteAutomaton() returns (fa: FiniteAutomaton)
      ensures fresh(fa)
      ensures fa.states == {"S", "F", "D", "end"} && fa.alphabet == {"a", "b", "c"}
      ensures fa.startState == "S" && fa.acceptStates == {"end"}
      ensures fa.transitions == Apply(terminals, VariantTable(), Flat(productions))
    {
      fa := new FiniteAutomaton();
      ghost var done: seq<(string, string)> := [];
      var i := 0;
      while i < |productions|
        invariant i <= |productions| && done == Flat(productions[..i])
        invariant fa.states == {"S", "F", "D", "end"} && fa.alphabet == {"a", "b", "c"}
        invariant fa.startState == "S" && fa.acceptStates == {"end"}
        invariant fa.transitions == Apply(terminals, VariantTable(), done)
      {
        var (nonTerminal, bodies) := productions[i];
        WriteBodies(fa, nonTerminal, bodies, done);
        done := done + Pairs(nonTerminal, bodies);
        FlatStep(productions, i);
        i := i + 1;
      }
      assert productions[..i] == productions;
    }
  }

  lemma VariantFlat()
    ensures Flat(VariantProductions())
      == [("S", "aF"), ("S", "bS"), ("F", "bF"), ("F", "cD"), ("F", "a"), ("D", "cS"), ("D", "a")]
  {
    var P := VariantProductions();
    assert P[..2][..1] == P[..1] && P[..1][..0] == [];
    assert Flat(P[..1]) == Pairs("S", ["aF", "bS"]);
    assert Flat(P[..2]) == Flat(P[..1]) + Pairs("F", ["bF", "cD", "a"]);
    assert Flat(P) == Flat(P[..2]) + Pairs("D", ["cS", "a"]);
  }

  /** The variant grammar is classified "Type-3 (Regular) Grammar". */
  lemma VariantIsRegular()
    ensures Verdict(AllContextSensitive({"S", "F", "D"}, "S", Flat(VariantProductions())),
                    AllContextFree("S", Flat(VariantProductions())),
                    AllRegular({"S", "F", "D"}, Flat(VariantProductions())))
      == "Type-3 (Regular) Grammar"
  {
    var vn := {"S", "F", "D"};
    var w := Flat(VariantProductions());
    VariantFlat();
    assert w[2] == ("F", "bF") && ["bF"[1]] == "F";
    assert !ContextSensitiveBody(vn, "S", w[2].0, w[2].1);
    assert !ContextFreeBody("S", w[2].0, w[2].1);
    forall k | 0 <= k < |w|
      ensures RegularBody(vn, w[k].1)
    {
      var p := w[k].1;
      assert |p| == 1 || [p[0]] in {"a", "b", "c"};
    }
  }
}
