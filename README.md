# Formal languages toolkit: a verified Dafny model

This project models, in Dafny, the algorithmic core of a small formal-languages course
repository written in Python. The core has three groups:

- **Context-free grammar normalisation** (`5_ChomskyNormalForm/Grammar.py`). The `Grammar`
  class and its passes:
  - removal of empty-string bodies, of renamings (unit bodies), of inaccessible symbols and
    of non-productive symbols;
  - the first-fit allocator of fresh non-terminal names;
  - conversion to Chomsky normal form;
  - each pass as a method that updates the rule table in place, proved against a closed-form
    function of the input table.
- **Finite automata** (`2_FiniteAutomata/*.py`):
  - the multi-state membership test;
  - the flag-based Chomsky classifier and the grammar-to-automaton translation;
  - the subset construction (NFA to DFA) driven by a worklist;
  - the automaton-to-regular-grammar conversion and the determinism test.
- **The mail DSL front end**:
  - the character-by-character scanner `Lexer` (`3_LexerScanner/Lexer.py`);
  - the token-to-AST grouping `parse` with `AST.insert` and `ASTNode.add_child`
    (`6_ParserASTBuild/ParserASTBuild.py`).

Files:

- `wrappers.dfy` and `seqs.dfy`: `Option`/`Result` and sequence helpers (`NoDup`, `Elems`).
- `cnf_rules.dfy`: the rule table, the closed forms of the four elimination passes and their lemmas.
- `cnf_passes.dfy`: the loops of those passes.
- `cnf_form.dfy`, `cnf_convert.dfy` and `cnf_result.dfy`: fresh names, and `to_cnf`'s two phases
  with their result.
- `cnf_grammar.dfy`: the `Grammar` class.
- `cnf_examples.dfy`: the table of `UnitTests.py` and the tables its tests expect after each pass.
- `fa_hierarchy.dfy`: `1_ChomskyHierarchy.py`.
- `fa_subset.dfy`: `3_Conversion.py`.
- `fa_conversion.dfy`: `2_Conversion.py`.
- `lexer.dfy` and `parser.dfy`: the front end.

How the source is modelled:

- Rule tables keep Python's dict insertion order: a sequence of heads and a map from head to
  its list of bodies.
- A body is a string. Each character is one grammar symbol.
- Python sets are Dafny sets. Where the source iterates over a set, the order is an arbitrary
  choice made inside the method, and the contracts hold for every such order.
- Integers are unbounded, as in Python.
- Exceptions become `Result` values. The "Invalid character" error of the lexer and the
  `ValueError` of the name allocator are both modelled this way.

## Model

| member | source | states |
|---|---|---|
| CnfGrammar.Grammar.constructor | 5_ChomskyNormalForm/Grammar.py:2-6 | The grammar holds exactly the non-terminals, terminals and rule table it was given. |
| CnfGrammar.Grammar.EliminateEmptyString | 5_ChomskyNormalForm/Grammar.py:8-24 | The new table is `EliminateEmpty` of the old one. This closed form follows the aliasing of the shallow copy: every nullable head appends the `replace` deletions to the lists it shares with `self.rules`, and loses one "ε" from its fresh list. A head left with no bodies is popped. |
| CnfRules.EliminateEmptyKeeps | 5_ChomskyNormalForm/Grammar.py:8-24 | A head with no "ε" body, or with any other body, is never popped. Every body other than "ε" stays in its head's list. A kept head has an empty list only if it had no body to begin with. |
| CnfRules.ExpandAllMarker | 5_ChomskyNormalForm/Grammar.py:16-19 | Appending deletions keeps the rule that "ε" stands only alone, and never adds or removes an "ε" body. |
| CnfRules.DeletionsMarkerFree | 5_ChomskyNormalForm/Grammar.py:17-19 | `p.replace(v, "")` of a head `v` never produces the marker. |
| CnfRules.EliminateEmptyNoEps | 5_ChomskyNormalForm/Grammar.py:11-22 | With no "ε" body anywhere, eliminate_empty_string returns its input unchanged. |
| CnfRules.EliminateEmptyTwice | 5_ChomskyNormalForm/Grammar.py:8-24 | When every head has at most one "ε" body, the result has none, is a valid table, and a second application returns it unchanged. This is what the unit test relies on when it calls the pass twice. |
| CnfRules.NewBodiesNoEps | 5_ChomskyNormalForm/Grammar.py:12-19 | A head with at most one "ε" body has no "ε" body after the pass, whether or not it was nullable. |
| CnfGrammar.Grammar.EliminateRenaming | 5_ChomskyNormalForm/Grammar.py:26-44 | The new table is `Renamed` of the old one. Every unit body is replaced in place by its head's input bodies, one level deep. A head whose new list still holds a unit body is removed. Order is kept. |
| CnfRules.InlineMembers | 5_ChomskyNormalForm/Grammar.py:28-35 | A body is in the inlined list iff it is a non-unit body of the original list, or a body of the head of one of its unit bodies. |
| CnfRules.InlineNoUnits | 5_ChomskyNormalForm/Grammar.py:28-35 | A list without unit bodies is left exactly as it was. |
| CnfRules.RenamedNoUnits | 5_ChomskyNormalForm/Grammar.py:37-41 | No surviving head has a unit body, neither with respect to the input table nor to the output table. |
| CnfRules.RenamedIdempotent | 5_ChomskyNormalForm/Grammar.py:26-44 | Applying eliminate_renaming to its own result changes nothing. |
| CnfRules.EliminateEmptySingle | 5_ChomskyNormalForm/Grammar.py:8-24 | When the only nullable head is `r.heads[i]`, the pass gives every head the closed form `SingleBodies`: the nullable head loses one "ε" and gains the deletions of itself, and every other head gets the deletions of that head appended. |
| CnfRules.RenamedNoneLeft | 5_ChomskyNormalForm/Grammar.py:26-44 | When no inlined list still has a unit body, eliminate_renaming removes no head, and each head gets its inlined list. |
| CnfGrammar.Grammar.EliminateInaccessible | 5_ChomskyNormalForm/Grammar.py:46-64 | The swept set is the least set containing 'S' that is closed under "a head occurring in a body of a reached head". The new table is the input restricted to it, with bodies and order unchanged. |
| CnfRules.ReachableUnique | 5_ChomskyNormalForm/Grammar.py:47-59 | The least closed set is unique, so the result does not depend on sweep order. |
| CnfRules.InaccessibleIdempotent | 5_ChomskyNormalForm/Grammar.py:46-64 | The reachable set of the restricted table is the same set, and restricting again changes nothing. |
| CnfGrammar.Grammar.EliminateNonproductive | 5_ChomskyNormalForm/Grammar.py:66-92 | The swept set is the least set closed under "has a body made only of productive heads and terminals", where terminals are the body symbols that are not heads. The new table keeps only productive heads, each with only its generating bodies, in order. |
| CnfRules.ProductiveUnique | 5_ChomskyNormalForm/Grammar.py:72-79 | The least productive set is unique. |
| CnfRules.ProductiveAreHeads | 5_ChomskyNormalForm/Grammar.py:72-79 | Every productive symbol is a head of the table. |
| CnfRules.NonproductiveIdempotent | 5_ChomskyNormalForm/Grammar.py:66-92 | The pruned table has the same productive set, and pruning it again changes nothing. |
| CnfRules.PrunedLeast | 5_ChomskyNormalForm/Grammar.py:72-89 | Any set closed under generation in the pruned table contains the productive set. |
| CnfRules.PrunedStable | 5_ChomskyNormalForm/Grammar.py:81-89 | Every body kept for a head still generates in the pruned table. |
| CnfExamples.TestMarkerAsWritten | 5_ChomskyNormalForm/UnitTests.py:6-15 | Read character for character, the test's table has no "ε" body, so eliminate_empty_string returns it unchanged, and that differs from the table the test expects. |
| CnfExamples.TestEliminateEmpty | 5_ChomskyNormalForm/UnitTests.py:18-28 | On the test's table with its marker read as "ε", eliminate_empty_string gives exactly the expected table, including list order, and the second call the test compares keeps it. |
| CnfExamples.TestEliminateRenaming | 5_ChomskyNormalForm/UnitTests.py:30-41 | After eliminate_empty_string, eliminate_renaming gives exactly the expected table. |
| CnfExamples.TestEliminateInaccessible | 5_ChomskyNormalForm/UnitTests.py:43-54 | On the renamed table, the reachable heads are S, A, X, B and D. Whatever reachable set the sweep computes, the restricted table is exactly the expected one. |
| CnfExamples.TestEliminateNonproductive | 5_ChomskyNormalForm/UnitTests.py:56-66 | On the reached table, the productive heads are S, A and X. Whatever productive set the sweep computes, the pruned table is exactly the expected one. |
| CnfExamples.TestToCnfRoom | 5_ChomskyNormalForm/UnitTests.py:68-74 | On the pruned test table, with the test's declared names and those of the demo at Grammar.py:172-180, two free names are available and no body is longer than two, so `ToCnf`'s precondition holds. |
| CnfGrammar.Grammar.CreateNewNonTerminal | 5_ChomskyNormalForm/Grammar.py:94-112 | When `NewName` finds a free name, that name is returned and appended to the non-terminals. Otherwise the call fails with an error and the list is unchanged. |
| CnfForm.FirstSingleIs | 5_ChomskyNormalForm/Grammar.py:95-101 | The search over '0'..'9', 'A'..'Z' returns the first free one-character name. |
| CnfForm.FirstSingleNone | 5_ChomskyNormalForm/Grammar.py:95-101 | It finds none only when all 36 are taken. |
| CnfForm.FirstSingleSpec | 5_ChomskyNormalForm/Grammar.py:95-101 | Whatever the search returns is free and every earlier candidate is taken; if it returns nothing, every candidate is taken. |
| CnfForm.FirstNumberedIs | 5_ChomskyNormalForm/Grammar.py:103-109 | The letter+number search returns the first free name in the order letter-major, 0..99. |
| CnfForm.FirstNumberedNone | 5_ChomskyNormalForm/Grammar.py:103-112 | It finds none only when every letter+number name is taken: the `ValueError` case. |
| CnfForm.RankInjective | 5_ChomskyNormalForm/Grammar.py:103-109 | Supporting lemma for `FirstNumberedIs`: distinct (letter, number) candidates have distinct positions in the search order. |
| CnfForm.RoomTake | 5_ChomskyNormalForm/Grammar.py:94-100 | While the room before the names to avoid is positive, the allocator returns a free one-character name outside them, and the room drops by exactly one. |
| CnfGrammar.Grammar.ToCnf | 5_ChomskyNormalForm/Grammar.py:114-164 | The result satisfies `Converted`: original heads first, in order, then the new names once each, with every body shortened and fixed through the shared cache. The result is in normal form. The table is reassigned with each set listed. |
| CnfResult.ToCnfTable | 5_ChomskyNormalForm/Grammar.py:114-164 | The two phases and the key listing yield a table, a name list and a cache that satisfy `Converted`. |
| CnfResult.ConvertedInCnf | 5_ChomskyNormalForm/Grammar.py:124-161 | Every body of a converted table has length at most 2, and a length-2 body contains no terminal. |
| CnfResult.PairBodies | 5_ChomskyNormalForm/Grammar.py:124-137 | A pair helper derives exactly its fixed pair `{pair}`. |
| CnfResult.HeadBodies | 5_ChomskyNormalForm/Grammar.py:120-157 | An original head's bodies are exactly the converted forms of its input bodies. |
| CnfResult.FinalOrder | 5_ChomskyNormalForm/Grammar.py:159-161 | The original heads come first in their order, followed by each new key once. |
| CnfResult.FinalNames | 5_ChomskyNormalForm/Grammar.py:94-112 | The non-terminal list only grows by cached one-character names that are neither declared names, heads nor terminals. |
| CnfConvert.SplitLong | 5_ChomskyNormalForm/Grammar.py:119-137 | Every body is shortened to at most two symbols. A repeated pair reuses its cached helper, and each helper derives exactly its pair. |
| CnfConvert.FixAllMixed | 5_ChomskyNormalForm/Grammar.py:140-157 | Every mixed length-2 body of every head gets its terminals replaced by their cached helper names. |
| CnfConvert.ReplaceTerminals | 5_ChomskyNormalForm/Grammar.py:144-157 | Both symbols of a length-2 body are looked up or added in the cache, and the body becomes the helper names of its terminals. |
| CnfConvert.NewHelper | 5_ChomskyNormalForm/Grammar.py:131-133 | A new helper gets the allocator's name, a cache entry and the single rule `{key}`. |
| CnfForm.ShortenLength | 5_ChomskyNormalForm/Grammar.py:124-135 | A body shortened by the cache has length min(|p|, 2). |
| CnfForm.FixShape | 5_ChomskyNormalForm/Grammar.py:142-157 | Fixing keeps the length, and a fixed pair holds no terminal. |
| CnfForm.ConvertShape | 5_ChomskyNormalForm/Grammar.py:124-157 | A converted input body is in Chomsky normal form. |
| CnfPasses.SpreadNullable | 5_ChomskyNormalForm/Grammar.py:16-19 | One nullable head's deletions are distributed. A head with a fresh list gets them appended to that list. A head still sharing its list with `self.rules` gets them appended to the shared list, which `Expand` describes. |
| CnfPasses.VisitHead | 5_ChomskyNormalForm/Grammar.py:10-22 | Visiting one more head keeps the loop invariant: the state equals the closed form of the pass over a prefix one head longer. |
| CnfPasses.InlineUnits | 5_ChomskyNormalForm/Grammar.py:29-34 | The loop over one list yields `Inline`: unit bodies are replaced by their head's input bodies, and the rest are kept in order. |
| CnfPasses.InlineEvery | 5_ChomskyNormalForm/Grammar.py:28-35 | Every head gets its inlined list, and there are no other keys. |
| CnfPasses.KeysStillRenaming | 5_ChomskyNormalForm/Grammar.py:37-38 | The list to remove holds, once each, exactly the heads whose new list still has a unit body. |
| CnfPasses.PopAll | 5_ChomskyNormalForm/Grammar.py:40-41 | The listed keys are removed, and every other entry is unchanged. |
| CnfPasses.AddUses | 5_ChomskyNormalForm/Grammar.py:54-57 | The heads occurring in the bodies are added, and nothing else is. |
| CnfPasses.SweepReachable | 5_ChomskyNormalForm/Grammar.py:52-57 | One sweep grows the set only by heads. Everything used by an already reached head is reached afterwards. The sweep stays inside every closed superset. |
| CnfPasses.Reachable | 5_ChomskyNormalForm/Grammar.py:47-59 | The loop ends with the least closed set containing 'S'. |
| CnfPasses.KeepReached | 5_ChomskyNormalForm/Grammar.py:60-62 | The table restricted to the reached heads, in order. |
| CnfPasses.SweepProductive | 5_ChomskyNormalForm/Grammar.py:74-77 | One sweep adds every head that has a body generating from the current set. It adds only heads, and stays inside every closed superset. |
| CnfPasses.Productive | 5_ChomskyNormalForm/Grammar.py:72-79 | The loop ends with the least set closed under generation. |
| CnfPasses.KeepProductive | 5_ChomskyNormalForm/Grammar.py:81-89 | The pruned table: productive heads in order, each with its generating bodies. |
| CnfPasses.KeepGenerating | 5_ChomskyNormalForm/Grammar.py:83-86 | A body is kept iff it is in the list and generates. The order is kept. |
| CnfRules.Only | 5_ChomskyNormalForm/Grammar.py:60-62 | Filtering heads keeps exactly those in the set, without duplicates. |
| CnfRules.Erase | 5_ChomskyNormalForm/Grammar.py:19 | `p.replace(v, "")` contains exactly the characters of p other than v, and is shorter when v occurs. |
| CnfRules.Deletions | 5_ChomskyNormalForm/Grammar.py:17-19 | At most one deletion per body, and none contains the erased symbol. |
| CnfRules.Generating | 5_ChomskyNormalForm/Grammar.py:83-86 | Exactly the bodies of the list that generate. |
| CnfConvert.NextNonTerminal | 5_ChomskyNormalForm/Grammar.py:94-112 | When `NewName` gives a name, it is returned and appended. Otherwise an error is returned and the list is unchanged. |
| CnfConvert.ShortenBody | 5_ChomskyNormalForm/Grammar.py:124-135 | The `while len(production) > 2` loop leaves the body that `Shorten` describes under the grown cache, with every pair it used cached. |
| CnfConvert.ShortenHead | 5_ChomskyNormalForm/Grammar.py:121-137 | A head's set holds exactly the shortened forms of its bodies. The state only grows. |
| CnfConvert.SplitHead | 5_ChomskyNormalForm/Grammar.py:120-137 | One more original head is done, and the free-name budget for the rest is kept. |
| CnfConvert.FixMixed | 5_ChomskyNormalForm/Grammar.py:141-157 | Every mixed pair of the head is replaced by its fixed form. Other heads are kept, apart from new helper rules. |
| CnfResult.FinalBodies | 5_ChomskyNormalForm/Grammar.py:120-157 | After both phases, each original head's set is the fixed shortened form of its bodies, and each helper holds its pair or terminal. |
| CnfResult.NewKeys | 5_ChomskyNormalForm/Grammar.py:160-161 | `list(set(new_rules) - set(old))`: the new keys, once each. |
| CnfForm.FirstSingle | 5_ChomskyNormalForm/Grammar.py:98-101 | A found candidate position lies in the remaining part of the alphabet. |
| CnfForm.FirstNumbered | 5_ChomskyNormalForm/Grammar.py:104-109 | A found (letter, number) pair is within the alphabet and below 100. |
| ChomskyHierarchy.RejectsAt | 2_FiniteAutomata/1_ChomskyHierarchy.py:33-40 | A word whose run ends in one non-accepting state is rejected. |
| ChomskyHierarchy.VariantFlat | 2_FiniteAutomata/1_ChomskyHierarchy.py:46-50 | Supporting evaluation for the classification lemmas: the variant's productions flattened into (head, body) pairs in the order the loop visits them. |
| SubsetConstruction.VariantUnions | 2_FiniteAutomata/3_Conversion.py:20-48 | Supporting evaluation for the lemma about the variant's run: the unions on 'a' of {q0}, {q1}, {q2} and {q3} are {q1}, {q2}, {q3} and {q1, q3}. |
| Lexer.DecimalDigits | 3_LexerScanner/Lexer.py:51-56 | Supporting function for the round-trip lemma on `Integer`: the decimal spelling of n is non-empty, all digits, with no leading zero. |
| ChomskyHierarchy.FiniteAutomaton.constructor | 2_FiniteAutomata/1_ChomskyHierarchy.py:17-30 | The automaton of variant 12: its states, alphabet, table, start 'S' and accept set {'end'}. |
| ChomskyHierarchy.FiniteAutomaton.StringBelongsToLanguage | 2_FiniteAutomata/1_ChomskyHierarchy.py:32-40 | True iff the state set reached by stepwise union of the targets meets the accept states. A missing entry contributes nothing. |
| ChomskyHierarchy.AcceptsEmpty | 2_FiniteAutomata/1_ChomskyHierarchy.py:33-40 | The empty string is accepted iff the start state accepts. |
| ChomskyHierarchy.ReachDead | 2_FiniteAutomata/1_ChomskyHierarchy.py:34-39 | Once the current set is empty it stays empty. |
| ChomskyHierarchy.ReachAppend | 2_FiniteAutomata/1_ChomskyHierarchy.py:34-39 | Reading u+v is reading u, then v from where u left off. |
| ChomskyHierarchy.DeadPrefixRejects | 2_FiniteAutomata/1_ChomskyHierarchy.py:33-40 | A prefix that empties the current set rejects every extension of it. |
| ChomskyHierarchy.VariantAcceptsAa | 2_FiniteAutomata/1_ChomskyHierarchy.py:20-40 | "aa" is accepted by the variant automaton. |
| ChomskyHierarchy.VariantAcceptsAbca | 2_FiniteAutomata/1_ChomskyHierarchy.py:20-40 | "abca" is accepted. |
| ChomskyHierarchy.VariantAcceptsBbaa | 2_FiniteAutomata/1_ChomskyHierarchy.py:20-40 | "bbaa" is accepted. |
| ChomskyHierarchy.VariantRejectsAb | 2_FiniteAutomata/1_ChomskyHierarchy.py:20-40 | "ab" is rejected: its run stops in F. |
| ChomskyHierarchy.VariantRejectsEmpty | 2_FiniteAutomata/1_ChomskyHierarchy.py:29-40 | "" is rejected, because 'S' is not accepting. |
| ChomskyHierarchy.Grammar.constructor | 2_FiniteAutomata/1_ChomskyHierarchy.py:43-51 | The grammar of variant 12. |
| ChomskyHierarchy.Grammar.InspectBody | 2_FiniteAutomata/1_ChomskyHierarchy.py:60-74 | Each flag becomes false exactly when the body breaks its class. Flags never go from false to true. |
| ChomskyHierarchy.Grammar.ChomskyClassification | 2_FiniteAutomata/1_ChomskyHierarchy.py:53-83 | The verdict is chosen by priority (context-sensitive, context-free, regular, unrestricted) from "every body meets the class's condition". |
| ChomskyHierarchy.VariantIsRegular | 2_FiniteAutomata/1_ChomskyHierarchy.py:44-83 | The variant grammar is classified "Type-3 (Regular) Grammar". |
| ChomskyHierarchy.Grammar.ToFiniteAutomaton | 2_FiniteAutomata/1_ChomskyHierarchy.py:95-110 | A fresh automaton with the constructor's states, alphabet, start and accept set. Its table is the constructor's table with the writes of all bodies applied in order. |
| ChomskyHierarchy.Grammar.WriteBodies | 2_FiniteAutomata/1_ChomskyHierarchy.py:98-109 | The bodies of one non-terminal write their entries in order, and nothing else changes. |
| ChomskyHierarchy.WriteEffect | 2_FiniteAutomata/1_ChomskyHierarchy.py:98-109 | A length-2 body A→xY writes {Y} at (A,x). A terminal body writes {'end'}. A non-terminal body B writes {B} at (A,''). Any other key, and any other length, leaves the table alone. |
| ChomskyHierarchy.ApplyLastWins | 2_FiniteAutomata/1_ChomskyHierarchy.py:96-109 | The last body writing a key decides its entry. |
| ChomskyHierarchy.ApplyUnwritten | 2_FiniteAutomata/1_ChomskyHierarchy.py:96-109 | A key no body writes keeps its constructor entry, or stays absent. |
| SubsetConstruction.FiniteAutomaton.constructor | 2_FiniteAutomata/3_Conversion.py:17-30 | The NFA of variant 12. |
| SubsetConstruction.SubsetAutomaton.constructor | 2_FiniteAutomata/3_Conversion.py:33-38 | The DFA starts as the singleton tuple (start,), with only that state, no transitions and no accepting state. |
| SubsetConstruction.FiniteAutomaton.NfaToDfa | 2_FiniteAutomata/3_Conversion.py:32-59 | The DFA is a subset automaton of the NFA: each state is a sorted, duplicate-free tuple; each recorded target is the sorted tuple of the non-empty union; every state has all its non-empty transitions; targets are in the state set; accepting means discovered after the start and holding an NFA accept state. The states are exactly the start tuple and the recorded targets, so no state is there that no transition discovered. Each state entered the worklist once. |
| SubsetConstruction.FiniteAutomaton.Explore | 2_FiniteAutomata/3_Conversion.py:45-57 | After all symbols of the popped state are handled, the loop invariant holds again. Either nothing new was seen, or fewer subsets remain undiscovered: the termination measure, bounded by 2^|Q|. |
| SubsetConstruction.FiniteAutomaton.Visit | 2_FiniteAutomata/3_Conversion.py:46-57 | One symbol records at most one transition. A new state is added to the worklist at most once, with its acceptance decided then, and in the same step as the transition that discovers it. |
| SubsetConstruction.FiniteAutomaton.UnionOf | 2_FiniteAutomata/3_Conversion.py:46-48 | The union of the members' targets on the symbol. |
| SubsetConstruction.SortedTuple | 2_FiniteAutomata/3_Conversion.py:51 | `tuple(sorted(S))`: an increasing sequence with exactly the elements of S. |
| SubsetConstruction.IncreasingUnique | 2_FiniteAutomata/3_Conversion.py:51 | Two increasing sequences with the same elements are equal, so a set has one sorted tuple. |
| SubsetConstruction.Insert | 2_FiniteAutomata/3_Conversion.py:51 | Inserting into an increasing sequence keeps it increasing and adds exactly the new element. |
| SubsetConstruction.Simulates | 2_FiniteAutomata/3_Conversion.py:42-57 | The DFA run over a word exists iff the NFA's reached set is non-empty, and then ends in the tuple of that set. |
| SubsetConstruction.AcceptedSound | 2_FiniteAutomata/3_Conversion.py:53-57 | A word the DFA accepts is accepted by the NFA. |
| SubsetConstruction.AcceptedComplete | 2_FiniteAutomata/3_Conversion.py:53-57 | A word the NFA accepts has a DFA run, which accepts unless it ends in the start tuple. The start tuple is never accepting. |
| SubsetConstruction.VariantDfa | 2_FiniteAutomata/3_Conversion.py:20-57 | For the variant table: ('q0',) -a-> ('q1',) -a-> ('q2',), with ('q2',) accepting, and ('q3',) -a-> ('q1','q3'). |
| GrammarConversion.RegularGrammar.constructor | 2_FiniteAutomata/2_Conversion.py:2-6 | An empty grammar with no start symbol. |
| GrammarConversion.RegularGrammar.AddProduction | 2_FiniteAutomata/2_Conversion.py:8-11 | The productions become `AddTo` of the old ones. |
| GrammarConversion.AddToBodies | 2_FiniteAutomata/2_Conversion.py:8-11 | `right` is appended to the bodies of `left`, and `left` becomes a key, last in order if new. No other entry changes. |
| GrammarConversion.AddAllBodies | 2_FiniteAutomata/2_Conversion.py:8-11 | A sequence of additions appends, per head, exactly that head's bodies in order. |
| GrammarConversion.RegularGrammar.ConvertFromFiniteAutomaton | 2_FiniteAutomata/2_Conversion.py:13-37 | The states are added to VN, VT is the alphabet and S the start state. The productions get one body per target of each entry, in dict order. Every singleton target set of the input automaton is emptied. |
| GrammarConversion.RegularGrammar.ConvertEntry | 2_FiniteAutomata/2_Conversion.py:26-37 | One entry adds one body per target and empties a singleton target set. |
| GrammarConversion.RegularGrammar.AddTargets | 2_FiniteAutomata/2_Conversion.py:33-37 | Each target adds exactly one body, in some order of the set. |
| GrammarConversion.EmittedProduces | 2_FiniteAutomata/2_Conversion.py:25-37 | A body is emitted for q iff some (q, c) has a target t whose body is it. |
| GrammarConversion.ConvertedProductions | 2_FiniteAutomata/2_Conversion.py:13-37 | The productions built from an empty grammar hold exactly those bodies, with each head listed once. |
| GrammarConversion.FiniteAutomaton.constructor | 2_FiniteAutomata/2_Conversion.py:46-58 | The automaton of this file, with accept set {''}. |
| GrammarConversion.FiniteAutomaton.IsDeterministic | 2_FiniteAutomata/2_Conversion.py:60-66 | True iff every (state, symbol) pair has an entry with exactly one target. |
| GrammarConversion.VariantNotDeterministic | 2_FiniteAutomata/2_Conversion.py:47-66 | The shipped automaton is not deterministic. |
| GrammarConversion.VariantNoneAccepting | 2_FiniteAutomata/2_Conversion.py:49-58 | With accept set {''}, no target accepts. |
| GrammarConversion.VariantBodies | 2_FiniteAutomata/2_Conversion.py:28-58 | So every production of the shipped automaton has the form char+state. |
| GrammarConversion.VariantKeysListed | 2_FiniteAutomata/2_Conversion.py:49-56 | The insertion order of the dict literal, which the constructor stores in the field `keys`, lists each key of the table once and no other key, so the shipped automaton meets `Valid()`. |
| Lexer.Lexer.constructor | 3_LexerScanner/Lexer.py:31-35 | The cursor starts at 0 on the first character, with the keyword list. Text must be non-empty. |
| Lexer.Lexer.Advance | 3_LexerScanner/Lexer.py:40-45 | The position moves by one, and the current character is the one there or None past the end. |
| Lexer.Lexer.SkipWhitespace | 3_LexerScanner/Lexer.py:47-49 | The cursor stops at the end of the maximal whitespace run. |
| Lexer.Lexer.Integer | 3_LexerScanner/Lexer.py:51-56 | Consumes the maximal digit run and returns its decimal value. |
| Lexer.Lexer.StringLiteral | 3_LexerScanner/Lexer.py:58-64 | Returns the characters up to the next '"' and consumes it. When there is none, returns the rest of the text. |
| Lexer.Lexer.Variable | 3_LexerScanner/Lexer.py:66-71 | Consumes and returns the maximal alphanumeric run. |
| Lexer.Lexer.GetNextToken | 3_LexerScanner/Lexer.py:73-123 | Returns the token and position given by `Scan` of the text from the old position, and keeps the cursor invariant. |
| Lexer.Lexer.Dispatch | 3_LexerScanner/Lexer.py:79-121 | At a non-space character, returns the token and position given by `TokenAt`. |
| Lexer.RunEnd | 3_LexerScanner/Lexer.py:47-71 | The end of the maximal run of a class from i: every character before it is in the class, and the one at it is not. |
| Lexer.DecimalRoundTrip | 3_LexerScanner/Lexer.py:51-56 | Reading back the decimal digits of n gives n. |
| Lexer.ScanSkips | 3_LexerScanner/Lexer.py:74-77 | Scanning skips the whitespace run first, then dispatches on the next character or returns EOF. |
| Lexer.ScanProgress | 3_LexerScanner/Lexer.py:73-123 | The position never moves back. Every non-EOF token strictly advances it. EOF is returned exactly when only whitespace is left. |
| Lexer.EofRepeats | 3_LexerScanner/Lexer.py:73-123 | After EOF, scanning again returns EOF at the same position. |
| Lexer.ScanError | 3_LexerScanner/Lexer.py:107-121 | An error is returned iff the first non-space character starts no token, and it is "Invalid character" at that position. |
| Lexer.NeverNewline | 3_LexerScanner/Lexer.py:75-105 | '\n' is skipped as whitespace, so NEWLINE is never produced. |
| Lexer.Punctuation | 3_LexerScanner/Lexer.py:79-101 | Each of = , ( ) [ ] gives a token whose value is that character and advances one position. |
| Lexer.KeywordTokens | 3_LexerScanner/Lexer.py:114-117 | A KEYWORD value is a keyword, and it is the lowercase form of the identifier just read. |
| Lexer.VariableTokens | 3_LexerScanner/Lexer.py:114-119 | A VARIABLE value is the identifier as spelled: it starts with a letter, is all alphanumeric, and its lowercase form is no keyword. |
| Lexer.Literals | 3_LexerScanner/Lexer.py:107-112 | A NUMBER is the value of the maximal digit run ending at the new position. A STRING holds no '"'. |
| ParserAst.TrimStart | 6_ParserASTBuild/ParserASTBuild.py:109 | The longest suffix that does not start with a stripped character. |
| ParserAst.TrimEnd | 6_ParserASTBuild/ParserASTBuild.py:109 | The longest prefix that does not end with a stripped character. |
| ParserAst.StripSlice | 6_ParserASTBuild/ParserASTBuild.py:109 | A stripped value is a contiguous slice of the original. |
| ParserAst.StripSurround | 6_ParserASTBuild/ParserASTBuild.py:109 | Only characters of `"`, `'`, `,` and space lie before and after that slice. |
| ParserAst.StripEnds | 6_ParserASTBuild/ParserASTBuild.py:109 | A non-empty stripped value neither starts nor ends with one of them. |
| ParserAst.CollectStack | 6_ParserASTBuild/ParserASTBuild.py:103-105 | The keyword stack records every KEYWORD token, in input order. |
| ParserAst.CollectCurrent | 6_ParserASTBuild/ParserASTBuild.py:103-104 | The current keyword is the last keyword seen, or none. |
| ParserAst.CollectKeys | 6_ParserASTBuild/ParserASTBuild.py:110-119 | Only keywords that were seen have value lists. |
| ParserAst.CollectValues | 6_ParserASTBuild/ParserASTBuild.py:106-119 | A keyword's list holds, in order, the non-empty stripped STRING/VARIABLE values and the non-empty NUMBER values that came after an occurrence of it and before the next keyword. EQUALS and other tokens add nothing. |
| ParserAst.NoKeywordNoValues | 6_ParserASTBuild/ParserASTBuild.py:110-119 | Values before the first keyword are dropped. |
| ParserAst.ClassifyKind | 6_ParserASTBuild/ParserASTBuild.py:126-137 | A value node is NUMBER iff the value is all digits and non-empty, and STRING otherwise. |
| ParserAst.StrippedKeepsValue | 6_ParserASTBuild/ParserASTBuild.py:109-137 | A stripped value has no surrounding quotes, so the quote branches keep it as it is. |
| ParserAst.OfferedKeepsValue | 6_ParserASTBuild/ParserASTBuild.py:106-137 | So every value `parse` collects becomes a node with the value unchanged. |
| ParserAst.ASTNode.constructor | 6_ParserASTBuild/ParserASTBuild.py:45-48 | A node with its kind and value and no children. |
| ParserAst.ASTNode.AddChild | 6_ParserASTBuild/ParserASTBuild.py:50-51 | The child is appended to the children. |
| ParserAst.AST.constructor | 6_ParserASTBuild/ParserASTBuild.py:54-55 | An empty tree. |
| ParserAst.AST.Insert | 6_ParserASTBuild/ParserASTBuild.py:57-61 | The first node becomes the root. Later nodes are appended to the root's children. |
| ParserAst.BuildKeywordNode | 6_ParserASTBuild/ParserASTBuild.py:123-138 | A fresh KEYWORD node whose children are fresh value nodes for the keyword's values, in order. |
| ParserAst.InsertKeywordNodes | 6_ParserASTBuild/ParserASTBuild.py:122-139 | One keyword node per stack entry is inserted, in order. A repeated keyword gets its full value list each time. |
| ParserAst.Parse | 6_ParserASTBuild/ParserASTBuild.py:96-141 | The root is None iff there is no keyword. Otherwise the root is the first keyword's node. Its children are the first keyword's value nodes followed by one node per later keyword (|stack| - 1 of them), each carrying that keyword's value nodes. |

## Left out

- Random string generation (`Grammar.generate_string` and the `4_RegularExpressions` scripts): sampling with no stated contract.
- Visualisation and printing (`visualize`, `_visualize`, `__str__`, `print_grammar`, `Token.__str__`): output sinks over foreign libraries.
- The module-level demo code (example mails, `input()` prompts, prints, `test()` calls): I/O. The sample mail is not scanned in the model.
- `lex` in `ParserASTBuild.py`: it depends on Python regular-expression semantics. `Parse` takes the token sequence as its input instead. A `None` token value is written as the empty string, which `parse` treats the same way.
- ParserAst.Parse: its values are strings. The `isinstance(value, int)` branch cannot fire for values `parse` collects and is not modelled.
- Unicode character classes: `isspace`, `isdigit`, `isalpha`, `isalnum` and `lower` are restricted to ASCII.
- Lexer.Lexer.constructor: it requires non-empty text, because the source raises `IndexError` on `text[0]` otherwise.
- Lexer.Lexer.Integer: it requires a digit at the cursor. `int('')` would raise otherwise, and the source only calls it at a digit.
- The exceptions themselves are not modelled: the lexer's error and the allocator's `ValueError` are `Err` results.
- CnfGrammar.Grammar.EliminateEmptyString: it requires that "ε" occurs only as a whole body and that 'ε' is no head. The closed form relies on this; the source's tables satisfy it.
- CnfGrammar.Grammar.ToCnf: it requires that the first `HeadsExcess(rules, rules.heads) + |terminals|` one-character names the allocator would hand out, in '0'-'9', 'A'-'Z' order, are neither heads of the table nor terminals (`Room`). The allocator only checks the declared non-terminals, so otherwise a fresh name can collide with an undeclared head or a terminal, or a multi-character "A0"-style name gets concatenated into a body. Heads need not be declared: the demo of `Grammar.py` leaves the heads 'X' and 'D' undeclared, and its pruned table meets the condition, as does the pruned table of `UnitTests.py` with that file's declared names (`CnfExamples.TestToCnfRoom`).
- CnfResult.ToCnfTable: the same `Room` requirement as `CnfGrammar.Grammar.ToCnf`, for the same reason.
- CnfConvert.SplitLong: the same `Room` requirement as `CnfGrammar.Grammar.ToCnf`, for the same reason; it is the phase that hands out the first of those names.
- CnfGrammar.Grammar.ToCnf: it does not state which free names are used. Set iteration order decides them, and the model leaves that order unspecified.
- The table of `UnitTests.py` holds the marker of 'X' as the two characters "Îµ" (line 11), the UTF-8 bytes of "ε" decoded as Latin-1. `CnfExamples.TestRules` and the four test lemmas read it as "ε", as the tests evidently intend. `CnfExamples.TestMarkerAsWritten` covers the literal reading (see Findings).
- test_to_cnf (`UnitTests.py:68-81`) is not evaluated. Which terminal gets '0' and which gets '1' depends on the order Python iterates over the set {"aX", "bX"}, which the model leaves open (see the set-order line below). `CnfExamples.TestToCnfRoom` shows that the precondition of the first call holds on the test's table.
- `SubsetConstruction.FiniteAutomaton.NfaToDfa`: the DFA's fields are built in locals and stored in a fresh object at the end. The `FiniteAutomaton()` object the source creates first and then overwrites is not modelled.
- The order in which Python iterates over sets (targets, alphabet, composite members) is an unspecified choice. The key order of `fa.transitions` in `2_Conversion.py` is kept in the field `keys`, which lists the dict's keys in insertion order; `Valid()` ties it to `transitions`.

## Findings

| source | as written | input that shows it | evidently intended | confidence | as-written member | corrected member |
|---|---|---|---|---|---|---|
| 5_ChomskyNormalForm/UnitTests.py:11 | The body of 'X' is `'Îµ'`, the UTF-8 bytes of "ε" read as Latin-1, so `"ε" in productions` (Grammar.py:11) never fires and eliminate_empty_string returns the table unchanged, which is not the table the test expects. | The table of setUp, UnitTests.py:6-15 | The marker "ε", with which the expected table at UnitTests.py:20-27 is what the pass returns | not executed | CnfExamples.TestMarkerAsWritten | CnfExamples.TestEliminateEmpty |
