/**
 * The context-free grammar class of 5_ChomskyNormalForm/Grammar.py and its
 * normalisation passes, each proved against the closed forms of cnf_rules.dfy.
 */
module CnfGrammar {
  import opened Wrappers
  import opened CnfRules
  import opened CnfPasses
  import opened CnfForm
  import opened CnfConvert
  import opened CnfResult

  class Grammar {
    var nonTerminals: seq<string>
    var terminals: seq<string>
    var rules: Rules

    constructor (nonTerminals: seq<string>, terminals: seq<string>, rules: Rules)
      ensures this.nonTerminals == nonTerminals && this.terminals == terminals && this.rules == rules
    {
      this.nonTerminals := nonTerminals;
      this.terminals := terminals;
      this.rules := rules;
    }

    /**
     * Grammar.py:8-24. Each head with an "ε" body loses one "ε" and every body mentioning it
     * gets a copy with it deleted; the deletions land in lists shared with self.rules, so later
     * nullable heads see them; a nullable head left with no body is popped.
     */
    method EliminateEmptyString() returns (result: Rules)
      requires Valid(rules) && MarkerAlone(rules)
      modifies this`rules
      ensures rules == EliminateEmpty(old(rules)) && result == rules
    {
      ghost var r0 := rules;
      var heads := rules.heads;
      var src := rules.prods;                   // the lists of self.rules, extended through sharing
      var own: map<char, seq<Body>> := map[];   // heads whose updated_grammar entry is a fresh list
      var popped: set<char> := {};
      var j := 0;
      while j < |heads|
        invariant 0 <= j <= |heads| && heads == r0.heads
        invariant src.Keys == r0.prods.Keys
        invariant forall k :: k in own ==> k in heads
        invariant popped <= own.Keys
        invariant VisitedAll(r0, j, src, own, popped)
      {
        src, own, popped := VisitHead(r0, heads, j, src, own, popped);
        j := j + 1;
      }
      var kept := Only(heads, set k | k in heads && k !in popped);
      var prods := map k | k in kept :: if k in own then own[k] else src[k];
      FinalState(r0, src, own, popped);
      rules := Rules(kept, prods);
      result := rules;
    }

    /**
     * Grammar.py:26-44. Every unit body is replaced by the bodies its head has in the input
     * table, one level deep; a head whose new list still holds a unit body is removed.
     */
    method EliminateRenaming() returns (result: Rules)
      requires Valid(rules)
      modifies this`rules
      ensures rules == Renamed(old(rules)) && result == rules
    {
      var r := rules;
      var updated := InlineEvery(r);
      var keysToRemove := KeysStillRenaming(r, updated);
      updated := PopAll(updated, keysToRemove);
      assert updated.Keys == set k | k in r.heads && k !in StillRenaming(r);
      assert updated == Renamed(r).prods;
      rules := Rules(Only(r.heads, updated.Keys), updated);
      result := rules;
    }

    /**
     * Grammar.py:46-64. Sweeps the heads until no sweep adds a symbol, starting from 'S'
     * and adding every head a body of a reached head mentions; then keeps the reached heads.
     */
    method EliminateInaccessible() returns (result: Rules, ghost reach: set<char>)
      requires Valid(rules)
      modifies this`rules
      ensures IsReachableSet(old(rules), reach)
      ensures rules == Restrict(old(rules), reach) && result == rules
    {
      var reachable := Reachable(rules);
      reach := reachable;
      rules := KeepReached(rules, reachable);
      result := rules;
    }

    /**
     * Grammar.py:66-92. Sweeps the heads until no sweep adds a head, marking a head productive
     * once one of its bodies consists of productive heads and terminals; then keeps the productive
     * heads with their generating bodies.
     */
    method EliminateNonproductive() returns (result: Rules, ghost productive: set<char>)
      requires Valid(rules)
      modifies this`rules
      ensures IsProductiveSet(old(rules), productive)
      ensures rules == Prune(old(rules), productive) && result == rules
    {
      var prod := Productive(rules);
      productive := prod;
      rules := KeepProductive(rules, prod);
      result := rules;
    }

    /**
     * Grammar.py:94-112. The first name not yet among the non-terminals, single characters
     * '0'-'9', 'A'-'Z' first, then a character followed by a number below 100; the name is
     * appended to the non-terminals. When every such name is taken the source raises ValueError,
     * modelled as Err with its message.
     */
    method CreateNewNonTerminal() returns (res: Result<string, string>)
      modifies this`nonTerminals
      ensures match NewName(old(nonTerminals))
        case Some(name) => res == Ok(name) && nonTerminals == old(nonTerminals) + [name]
        case None => res.Err? && nonTerminals == old(nonTerminals)
    {
      var nts;
      res, nts := NextNonTerminal(nonTerminals);
      nonTerminals := nts;
    }

    /**
     * Grammar.py:114-164. Converts the table to Chomsky normal form; `rules` becomes the
     * result, each set of bodies listed, and the non-terminals grow by the names created.
     * `cache` is the local rhs_to_non_terminal of the source.
     */
    method ToCnf() returns (result: CnfTable, ghost cache: map<string, char>)
      requires Valid(rules) && Room(nonTerminals, Avoid(rules.heads, terminals)) >= HeadsExcess(rules, rules.heads) + |terminals|
      modifies this`nonTerminals, this`rules
      ensures Converted(old(rules), old(nonTerminals), terminals, result, nonTerminals, cache)
      ensures InCnf(result, terminals) && Listed(result, rules)
    {
      var t, nts, c := ToCnfTable(rules, nonTerminals, terminals);
      ConvertedInCnf(rules, nonTerminals, terminals, t, nts, c);
      nonTerminals := nts;
      cache := c;
      result := t;
      rules := AsRules(t);
    }
  }
}
