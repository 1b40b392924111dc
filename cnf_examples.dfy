/**
 * The rule table of 5_ChomskyNormalForm/UnitTests.py and the tables its tests expect
 * after each pass, with the passes' closed forms evaluated on them.
 */
module CnfExamples {
  import opened Seqs
  import opened CnfRules
  import opened CnfForm

  /**
   * The table of setUp (UnitTests.py:6-15), with the marker of 'X' read as "ε". The file itself
   * holds the two characters "Îµ" there, the UTF-8 bytes of "ε" decoded as Latin-1; see
   * TestRulesAsWritten.
   */
  function TestRules(): Rules {
    Rules(['S', 'A', 'X', 'B', 'D', 'C'],
          map['S' := ["A"], 'A' := ["aX", "bX"], 'X' := ["BX", Eps, "b"], 'B' := ["AD"], 'D' := ["aD"], 'C' := ["Ca"]])
  }

  /** What test_eliminate_empty_string expects (UnitTests.py:20-27). */
  function TestEmptyFree(): Rules {
    Rules(['S', 'A', 'X', 'B', 'D', 'C'],
          map['S' := ["A"], 'A' := ["aX", "bX", "a", "b"], 'X' := ["BX", "b", "B"], 'B' := ["AD"], 'D' := ["aD"], 'C' := ["Ca"]])
  }

  lemma TestValid()
    ensures Valid(TestRules()) && Valid(TestEmptyFree())
  {
  }

  /** test_eliminate_empty_string: the first call gives the expected table, and the second call, which the test compares, keeps it. */
  lemma TestEliminateEmpty()
    ensures EliminateEmpty(TestRules()) == TestEmptyFree()
    ensures EliminateEmpty(EliminateEmpty(TestRules())) == TestEmptyFree()
  {
    TestEmptyOnce();
    TestValid();
    TestNoEps();
    EliminateEmptyNoEps(TestEmptyFree());
  }

  lemma TestEmptyOnce()
    ensures EliminateEmpty(TestRules()) == TestEmptyFree()
  {
    TestValid();
    TestOnlyX();
    TestSingleAll();
    SingleIs(TestRules(), 2, TestEmptyFree());
  }

  /** The table of setUp character for character: the body of 'X' at UnitTests.py:11 is "Îµ", not "ε". */
  function TestRulesAsWritten(): Rules {
    Rules(['S', 'A', 'X', 'B', 'D', 'C'],
          map['S' := ["A"], 'A' := ["aX", "bX"], 'X' := ["BX", "Îµ", "b"], 'B' := ["AD"], 'D' := ["aD"], 'C' := ["Ca"]])
  }

  /**
   * Read literally, the table has no "ε" body, so eliminate_empty_string returns it unchanged,
   * and the result differs from what test_eliminate_empty_string expects.
   */
  lemma TestMarkerAsWritten()
    ensures EliminateEmpty(TestRulesAsWritten()) == TestRulesAsWritten()
    ensures EliminateEmpty(TestRulesAsWritten()) != TestEmptyFree()
  {
    var r := TestRulesAsWritten();
    forall k | k in r.prods
      ensures Eps !in r.prods[k]
    {
      AsWrittenNoEps(k);
    }
    EliminateEmptyNoEps(r);
    assert |r.prods['A']| != |TestEmptyFree().prods['A']|;
  }

  lemma AsWrittenNoEps(k: char)
    requires k in TestRulesAsWritten().prods
    ensures Eps !in TestRulesAsWritten().prods[k]
  {
    assert |"Îµ"| == 2 && |Eps| == 1;
    if k != 'X' {
      assert forall p :: p in TestRulesAsWritten().prods[k] ==> |p| == 2 || p == "A";
    }
  }

  /** EliminateEmptySingle with the resulting table given in full. */
  lemma SingleIs(r: Rules, i: nat, e: Rules)
    requires Valid(r) && i < |r.heads|
    requires forall k :: k in r.prods && k != r.heads[i] ==> Eps !in r.prods[k]
    requires Eps in r.prods[r.heads[i]] && r.prods[r.heads[i]] != [Eps]
    requires e.heads == r.heads && r.prods.Keys == e.prods.Keys
    requires forall k :: k in r.prods ==> k in e.prods && SingleBodies(r, r.heads[i], k) == e.prods[k]
    ensures EliminateEmpty(r) == e
  {
    EliminateEmptySingle(r, i);
    MapsAgree(map k | k in r.prods :: SingleBodies(r, r.heads[i], k), e.prods);
  }

  /** 'X' is the one head of the test table with an "ε" body, and it has other bodies too. */
  lemma TestOnlyX()
    ensures TestRules().heads[2] == 'X'
    ensures forall k :: k in TestRules().prods && k != 'X' ==> Eps !in TestRules().prods[k]
    ensures Eps in TestRules().prods['X'] && TestRules().prods['X'] != [Eps]
  {
  }

  lemma TestNoEps()
    ensures forall k :: k in TestEmptyFree().prods ==> Eps !in TestEmptyFree().prods[k]
  {
  }

  lemma TestSingleAll()
    ensures forall k :: k in TestRules().prods ==> k in TestEmptyFree().prods && SingleBodies(TestRules(), 'X', k) == TestEmptyFree().prods[k]
    ensures TestRules().prods.Keys == TestEmptyFree().prods.Keys
  {
    forall k | k in TestRules().prods
      ensures k in TestEmptyFree().prods && SingleBodies(TestRules(), 'X', k) == TestEmptyFree().prods[k]
    {
      TestSingle(k);
    }
  }

  lemma TestSingle(k: char)
    requires k in TestRules().prods
    ensures k in TestEmptyFree().prods && SingleBodies(TestRules(), 'X', k) == TestEmptyFree().prods[k]
  {
    if k == 'A' {
      TestBodiesA();
    } else if k == 'X' {
      TestBodiesX();
    } else {
      TestBodiesOther(k);
    }
  }

  lemma TestBodiesA()
    ensures SingleBodies(TestRules(), 'X', 'A') == ["aX", "bX", "a", "b"]
  {
    assert TestRules().prods['A'] == ["aX", "bX"];
    DeletionsPair("aX", "bX", 'X');
    DeletionsOne("aX", 'X');
    DeletionsOne("bX", 'X');
    assert 'X' in "aX" && 'X' in "bX";
    assert Erase("aX", 'X') == "a" && Erase("bX", 'X') == "b";
  }

  lemma TestBodiesX()
    ensures SingleBodies(TestRules(), 'X', 'X') == ["BX", "b", "B"]
  {
    assert TestRules().prods['X'] == ["BX", Eps, "b"];
    DeletionsTriple("BX", Eps, "b", 'X');
    DeletionsOne("BX", 'X');
    DeletionsOne(Eps, 'X');
    DeletionsOne("b", 'X');
    assert 'X' in "BX" && 'X' !in Eps && 'X' !in "b";
    assert Erase("BX", 'X') == "B";
    assert RemoveFirst(["BX", Eps, "b"], Eps) == ["BX", "b"];
  }

  lemma TestBodiesOther(k: char)
    requires k in TestRules().prods && k != 'A' && k != 'X'
    ensures k in TestEmptyFree().prods && SingleBodies(TestRules(), 'X', k) == TestEmptyFree().prods[k]
  {
    var ps := TestRules().prods[k];
    assert |ps| == 1 && 'X' !in ps[0];
    DeletionsOne(ps[0], 'X');
    assert [ps[0]] == ps;
  }

  lemma DeletionsOne(p: Body, v: char)
    ensures Deletions([p], v) == if v in p then [Erase(p, v)] else []
  {
    assert [p][..0] == [];
  }

  lemma DeletionsPair(p: Body, q: Body, v: char)
    ensures Deletions([p, q], v) == Deletions([p], v) + Deletions([q], v)
  {
    DeletionsAppend([p], [q], v);
    assert [p] + [q] == [p, q];
  }

  lemma DeletionsTriple(p: Body, q: Body, u: Body, v: char)
    ensures Deletions([p, q, u], v) == Deletions([p], v) + Deletions([q], v) + Deletions([u], v)
  {
    DeletionsPair(p, q, v);
    DeletionsAppend([p, q], [u], v);
    assert [p, q] + [u] == [p, q, u];
  }

  /** What test_eliminate_renaming expects (UnitTests.py:33-40). */
  function TestRenamed(): Rules {
    Rules(['S', 'A', 'X', 'B', 'D', 'C'],
          map['S' := ["aX", "bX", "a", "b"], 'A' := ["aX", "bX", "a", "b"], 'X' := ["BX", "b", "AD"],
              'B' := ["AD"], 'D' := ["aD"], 'C' := ["Ca"]])
  }

  /** test_eliminate_renaming: eliminate_renaming on the table left by eliminate_empty_string. */
  lemma TestEliminateRenaming()
    ensures Renamed(EliminateEmpty(TestRules())) == TestRenamed()
  {
    TestEmptyOnce();
    TestInlineAll();
    RenamedIs(TestEmptyFree(), TestRenamed());
  }

  /** RenamedNoneLeft with the resulting table given in full. */
  lemma RenamedIs(r: Rules, e: Rules)
    requires e.heads == r.heads && r.prods.Keys == e.prods.Keys
    requires forall k :: k in r.prods ==> k in e.prods && Inline(r, r.prods[k]) == e.prods[k] && !HasUnit(r, e.prods[k])
    ensures Renamed(r) == e
  {
    RenamedNoneLeft(r);
    MapsAgree(map k | k in r.prods :: Inline(r, r.prods[k]), e.prods);
  }

  lemma TestInlineAll()
    ensures TestEmptyFree().prods.Keys == TestRenamed().prods.Keys
    ensures forall k :: k in TestEmptyFree().prods ==>
      k in TestRenamed().prods && Inline(TestEmptyFree(), TestEmptyFree().prods[k]) == TestRenamed().prods[k] &&
      !HasUnit(TestEmptyFree(), TestRenamed().prods[k])
  {
    forall k | k in TestEmptyFree().prods
      ensures k in TestRenamed().prods && Inline(TestEmptyFree(), TestEmptyFree().prods[k]) == TestRenamed().prods[k]
      ensures !HasUnit(TestEmptyFree(), TestRenamed().prods[k])
    {
      TestInline(k);
    }
  }

  lemma TestInline(k: char)
    requires k in TestEmptyFree().prods
    ensures k in TestRenamed().prods && Inline(TestEmptyFree(), TestEmptyFree().prods[k]) == TestRenamed().prods[k]
    ensures !HasUnit(TestEmptyFree(), TestRenamed().prods[k])
  {
    TestNoUnits();
    if k == 'S' {
      TestInlineS();
    } else if k == 'X' {
      TestInlineX();
    } else {
      InlineNoUnits(TestEmptyFree(), TestEmptyFree().prods[k]);
    }
  }

  lemma TestInlineS()
    ensures Inline(TestEmptyFree(), TestEmptyFree().prods['S']) == TestRenamed().prods['S']
  {
    var r := TestEmptyFree();
    assert r.prods['S'] == ["A"];
    InlineOne(r, "A");
  }

  lemma TestInlineX()
    ensures Inline(TestEmptyFree(), TestEmptyFree().prods['X']) == TestRenamed().prods['X']
  {
    var r := TestEmptyFree();
    assert r.prods['X'] == ["BX", "b"] + ["B"];
    InlineAppend(r, ["BX", "b"], ["B"]);
    InlineOne(r, "B");
    TestNoUnits();
    InlineNoUnits(r, ["BX", "b"]);
  }

  /** No list of the expected table, nor the lists left as they are, holds a unit body. */
  lemma TestNoUnits()
    ensures forall k :: k in TestRenamed().prods ==> !HasUnit(TestEmptyFree(), TestRenamed().prods[k])
    ensures !HasUnit(TestEmptyFree(), ["BX", "b"])
    ensures forall k :: k in TestEmptyFree().prods && k != 'S' && k != 'X' ==> !HasUnit(TestEmptyFree(), TestEmptyFree().prods[k])
  {
  }

  lemma InlineOne(r: Rules, p: Body)
    ensures Inline(r, [p]) == if IsUnit(r, p) then r.prods[p[0]] else [p]
  {
    assert [p][..0] == [];
  }

  /** What test_eliminate_inaccessible expects (UnitTests.py:47-53): 'C' is gone. */
  function TestReached(): Rules {
    Rules(['S', 'A', 'X', 'B', 'D'],
          map['S' := ["aX", "bX", "a", "b"], 'A' := ["aX", "bX", "a", "b"], 'X' := ["BX", "b", "AD"],
              'B' := ["AD"], 'D' := ["aD"]])
  }

  /**
   * test_eliminate_inaccessible: the heads reachable from 'S' in the renamed table are all but
   * 'C', so whatever set the pass computes, it leaves the expected table.
   */
  lemma TestEliminateInaccessible()
    ensures IsReachableSet(TestRenamed(), {'S', 'A', 'X', 'B', 'D'})
    ensures forall R :: IsReachableSet(TestRenamed(), R) ==> Restrict(TestRenamed(), R) == TestReached()
  {
    var R := {'S', 'A', 'X', 'B', 'D'};
    TestReachClosed();
    TestReachLeast();
    TestRestrict();
    forall R' | IsReachableSet(TestRenamed(), R')
      ensures Restrict(TestRenamed(), R') == TestReached()
    {
      ReachableUnique(TestRenamed(), R, R');
    }
  }

  lemma TestReachClosed()
    ensures ClosedUnderUse(TestRenamed(), {'S', 'A', 'X', 'B', 'D'})
  {
    var r := TestRenamed();
    forall v, p, c | v in {'S', 'A', 'X', 'B', 'D'} && v in r.prods && p in r.prods[v] && c in p && c in r.prods
      ensures c in {'S', 'A', 'X', 'B', 'D'}
    {
      TestNoC(v, p);
    }
  }

  lemma TestNoC(v: char, p: Body)
    requires v in TestRenamed().prods && v != 'C' && p in TestRenamed().prods[v]
    ensures 'C' !in p
  {
  }

  lemma TestReachLeast()
    ensures forall C :: Start in C && ClosedUnderUse(TestRenamed(), C) ==> {'S', 'A', 'X', 'B', 'D'} <= C
  {
    var r := TestRenamed();
    forall C | Start in C && ClosedUnderUse(r, C)
      ensures {'S', 'A', 'X', 'B', 'D'} <= C
    {
      assert "aX" in r.prods['S'] && 'X' in "aX";
      assert "BX" in r.prods['X'] && 'B' in "BX";
      assert "AD" in r.prods['X'] && 'A' in "AD" && 'D' in "AD";
    }
  }

  /** Restrict keeps a table's heads in `keep` when the last head is the only other one. */
  lemma RestrictLast(r: Rules, keep: set<char>, e: Rules)
    requires |r.heads| > 0 && r.heads[..|r.heads| - 1] == e.heads
    requires r.heads[|r.heads| - 1] !in keep && forall k :: k in e.heads ==> k in keep
    requires forall k :: k in r.prods && k in keep <==> k in e.prods
    requires forall k :: k in e.prods ==> r.prods[k] == e.prods[k]
    ensures Restrict(r, keep) == e
  {
    OnlyAll(e.heads, keep);
    MapsAgree(Restrict(r, keep).prods, e.prods);
  }

  lemma TestRestrict()
    ensures Restrict(TestRenamed(), {'S', 'A', 'X', 'B', 'D'}) == TestReached()
  {
    assert TestRenamed().heads[..5] == TestReached().heads;
    RestrictLast(TestRenamed(), {'S', 'A', 'X', 'B', 'D'}, TestReached());
  }

  /** What test_eliminate_nonproductive expects (UnitTests.py:61-65). */
  function TestProductive(): Rules {
    Rules(['S', 'A', 'X'], map['S' := ["aX", "bX", "a", "b"], 'A' := ["aX", "bX", "a", "b"], 'X' := ["b"]])
  }

  /**
   * test_eliminate_nonproductive: the productive heads of the reached table are 'S', 'A' and 'X'
   * ('D' only derives itself, and 'B' needs 'D'), so whatever set the pass computes, it leaves the
   * expected table.
   */
  lemma TestEliminateNonproductive()
    ensures IsProductiveSet(TestReached(), {'S', 'A', 'X'})
    ensures forall P :: IsProductiveSet(TestReached(), P) ==> Prune(TestReached(), P) == TestProductive()
  {
    var P := {'S', 'A', 'X'};
    TestTerminals();
    TestProductiveClosed();
    TestProductiveLeast();
    TestPrune();
    forall P' | IsProductiveSet(TestReached(), P')
      ensures Prune(TestReached(), P') == TestProductive()
    {
      ProductiveUnique(TestReached(), P, P');
    }
  }

  /** The terminals the pass collects: 'a' and 'b', and no head. */
  lemma TestTerminals()
    ensures 'a' in TerminalsOf(TestReached()) && 'b' in TerminalsOf(TestReached())
    ensures forall c :: c in TestReached().prods ==> c !in TerminalsOf(TestReached())
  {
    var r := TestReached();
    assert "a" in r.prods['S'] && 'a' in "a" && 'a' !in r.prods;
    assert "b" in r.prods['S'] && 'b' in "b" && 'b' !in r.prods;
  }

  lemma TestProductiveClosed()
    ensures ClosedUnderGeneration(TestReached(), {'S', 'A', 'X'})
  {
    var r := TestReached();
    TestTerminals();
    forall k, p | k in r.prods && p in r.prods[k] && Generates(r, {'S', 'A', 'X'}, p)
      ensures k in {'S', 'A', 'X'}
    {
      if k == 'B' || k == 'D' {
        assert 'D' in p;
      }
    }
  }

  lemma TestProductiveLeast()
    ensures forall C :: ClosedUnderGeneration(TestReached(), C) ==> {'S', 'A', 'X'} <= C
  {
    var r := TestReached();
    TestTerminals();
    forall C | ClosedUnderGeneration(r, C)
      ensures {'S', 'A', 'X'} <= C
    {
      assert Generates(r, C, "a") && Generates(r, C, "b");
      assert "a" in r.prods['S'] && "a" in r.prods['A'] && "b" in r.prods['X'];
    }
  }

  lemma GeneratingSnoc(r: Rules, P: set<char>, ps: seq<Body>, p: Body)
    ensures Generating(r, P, ps + [p]) == Generating(r, P, ps) + if Generates(r, P, p) then [p] else []
  {
    assert (ps + [p])[..|ps|] == ps;
  }

  /** Prune with the resulting table given in full. */
  lemma PruneIs(r: Rules, P: set<char>, e: Rules)
    requires e.heads == Only(r.heads, P)
    requires forall k :: k in r.prods && k in P <==> k in e.prods
    requires forall k :: k in e.prods ==> Generating(r, P, r.prods[k]) == e.prods[k]
    ensures Prune(r, P) == e
  {
    MapsAgree(Prune(r, P).prods, e.prods);
  }

  lemma TestPrune()
    ensures Prune(TestReached(), {'S', 'A', 'X'}) == TestProductive()
  {
    TestPruneHeads();
    TestPruneBodies();
    PruneIs(TestReached(), {'S', 'A', 'X'}, TestProductive());
  }

  lemma TestPruneBodies()
    ensures forall k :: k in TestReached().prods && k in {'S', 'A', 'X'} <==> k in TestProductive().prods
    ensures forall k :: k in TestProductive().prods ==>
      Generating(TestReached(), {'S', 'A', 'X'}, TestReached().prods[k]) == TestProductive().prods[k]
  {
    TestPruneKeys();
    forall k | k in TestProductive().prods
      ensures Generating(TestReached(), {'S', 'A', 'X'}, TestReached().prods[k]) == TestProductive().prods[k]
    {
      TestPruneKey(k);
    }
  }

  /** The pruned table keeps exactly the productive heads. */
  lemma TestPruneKeys()
    ensures forall k :: k in TestReached().prods && k in {'S', 'A', 'X'} <==> k in TestProductive().prods
  {
    assert TestReached().prods.Keys == {'S', 'A', 'X', 'B', 'D'};
    assert TestProductive().prods.Keys == {'S', 'A', 'X'};
  }

  /** One head of the pruned table. */
  lemma TestPruneKey(k: char)
    requires k in TestProductive().prods
    ensures k in TestReached().prods
    ensures Generating(TestReached(), {'S', 'A', 'X'}, TestReached().prods[k]) == TestProductive().prods[k]
  {
    if k == 'X' {
      TestPruneX();
    } else {
      TestPruneSA();
    }
  }

  /** The bodies of 'S' and 'A' all generate. */
  lemma TestPruneSA()
    ensures Generating(TestReached(), {'S', 'A', 'X'}, ["aX", "bX", "a", "b"]) == ["aX", "bX", "a", "b"]
  {
    var r := TestReached();
    TestTerminals();
    assert forall q :: q in ["aX", "bX", "a", "b"] ==> Generates(r, {'S', 'A', 'X'}, q);
    GeneratingAll(r, {'S', 'A', 'X'}, ["aX", "bX", "a", "b"]);
  }

  lemma OnlyLastOut(hs: seq<char>, keep: set<char>)
    requires |hs| > 0 && hs[|hs| - 1] !in keep
    ensures Only(hs, keep) == Only(hs[..|hs| - 1], keep)
  {
  }

  lemma TestPruneHeads()
    ensures Only(TestReached().heads, {'S', 'A', 'X'}) == ['S', 'A', 'X']
  {
    var P := {'S', 'A', 'X'};
    var hs := TestReached().heads;
    assert hs[..4] == ['S', 'A', 'X', 'B'] && hs[..4][..3] == ['S', 'A', 'X'];
    OnlyLastOut(hs, P);
    OnlyLastOut(hs[..4], P);
    OnlyAll(['S', 'A', 'X'], P);
  }

  lemma TestPruneX()
    ensures Generating(TestReached(), {'S', 'A', 'X'}, ["BX", "b", "AD"]) == ["b"]
  {
    var r := TestReached();
    var P := {'S', 'A', 'X'};
    TestTerminals();
    assert 'B' in "BX" && 'B' in r.prods && 'D' in "AD" && 'D' in r.prods;
    assert !Generates(r, P, "BX") && Generates(r, P, "b") && !Generates(r, P, "AD");
    GeneratingSnoc(r, P, [], "BX");
    GeneratingSnoc(r, P, ["BX"], "b");
    GeneratingSnoc(r, P, ["BX", "b"], "AD");
    assert [] + ["BX"] == ["BX"] && ["BX"] + ["b"] == ["BX", "b"] && ["BX", "b"] + ["AD"] == ["BX", "b", "AD"];
  }

  /**
   * test_to_cnf and the demo of Grammar.py:172-200 call to_cnf on the pruned table, with the
   * declared names of UnitTests.py:6 and Grammar.py:172 and the terminals 'a' and 'b'. In both
   * cases '0' and '1' are free and are neither heads nor terminals, and no body is longer than
   * two, so the conversion's precondition holds although 'X' (and, in the demo, 'D') was never
   * declared.
   */
  lemma TestToCnfRoom()
    ensures Valid(TestProductive())
    ensures HeadsExcess(TestProductive(), TestProductive().heads) == 0
    ensures Room(["S", "A", "B", "C", "D", "X"], Avoid(TestProductive().heads, ["a", "b"])) >= 2
    ensures Room(["S", "A", "B", "C", "E"], Avoid(TestProductive().heads, ["a", "b"])) >= 2
  {
    var r := TestProductive();
    assert r.heads[1..][1..][1..] == [];
    assert BodiesExcess(r.prods['X']) == 0;
    RoomPrefix(["S", "A", "B", "C", "D", "X"], Avoid(r.heads, ["a", "b"]));
    RoomPrefix(["S", "A", "B", "C", "E"], Avoid(r.heads, ["a", "b"]));
  }

  /** With '0' and '1' free and outside `avoid`, the allocator has room for two names. */
  lemma RoomPrefix(nts: seq<string>, avoid: set<char>)
    requires "0" !in nts && "1" !in nts && '0' !in avoid && '1' !in avoid
    ensures Room(nts, avoid) >= 2
  {
    assert Letter(0) == '0' && Letter(1) == '1';
  }
}
