/**
 * Pure definitions behind create_new_non_terminal and to_cnf of the context-free
 * grammar class (5_ChomskyNormalForm/Grammar.py:94-164): the order in which fresh
 * names are tried, the effect of the two rewriting phases on one body, and the
 * shape of the result.
 */
module CnfForm {
  import opened Wrappers
  import opened CnfRules

  // ---------------------------------------------------------------------
  // create_new_non_terminal (Grammar.py:94-112)
  // ---------------------------------------------------------------------

  /** The names are drawn from `string.digits + string.ascii_uppercase`. */
  const Alphabet: string := "0123456789ABCDEFGHIJKLMNOPQRSTUVWXYZ"
  const Digits: string := "0123456789"

  const Singles: nat := 36

  /** `Alphabet[a]`, written as arithmetic on character codes. */
  function Letter(a: nat): char
    requires a < Singles
  {
    if a < 10 then (48 + a) as char else (55 + a) as char
  }

  /** `Digits[d]`, written as arithmetic on character codes. */
  function Digit(d: nat): char
    requires d < 10
  {
    (48 + d) as char
  }

  lemma AlphabetLetters()
    ensures |Alphabet| == Singles && |Digits| == 10
    ensures forall a :: 0 <= a < Singles ==> Alphabet[a] == Letter(a)
    ensures forall d :: 0 <= d < 10 ==> Digits[d] == Digit(d)
  {
  }

  /** The decimal digits of `n`, as `f'{num}'` writes them. */
  function NumStr(n: nat): (s: string)
    requires n < 100
    ensures 1 <= |s| <= 2
  {
    if n < 10 then [Digit(n)] else [Digit(n / 10), Digit(n % 10)]
  }

  /** `f'{letter}{num}'`, tried once every one-character name is taken. */
  function Numbered(a: nat, num: nat): (s: string)
    requires a < Singles && num < 100
    ensures 2 <= |s| <= 3
  {
    [Letter(a)] + NumStr(num)
  }

  /** The position of `f'{letter}{num}'` in the order the nested loops try them. */
  function Rank(a: nat, num: nat): nat {
    a * 100 + num
  }

  /** The first letter at index `a` or later whose one-character name is not yet a non-terminal. */
  function FirstSingle(nts: seq<string>, a: nat): (r: Option<nat>)
    requires a <= Singles
    ensures r.Some? ==> a <= r.value < Singles
    decreases Singles - a
  {
    if a == Singles then None
    else if [Letter(a)] !in nts then Some(a)
    else FirstSingle(nts, a + 1)
  }

  /** The first letter and number from (`a`, `num`) on whose name is not yet a non-terminal. */
  function FirstNumbered(nts: seq<string>, a: nat, num: nat): (r: Option<(nat, nat)>)
    requires a <= Singles && num <= 100
    ensures r.Some? ==> r.value.0 < Singles && r.value.1 < 100
    decreases Singles - a, 100 - num
  {
    if a == Singles then None
    else if num == 100 then FirstNumbered(nts, a + 1, 0)
    else if Numbered(a, num) !in nts then Some((a, num))
    else FirstNumbered(nts, a, num + 1)
  }

  /** The name create_new_non_terminal returns, or None when it raises ValueError. */
  function NewName(nts: seq<string>): Option<string> {
    match FirstSingle(nts, 0)
    case Some(a) => Some([Letter(a)])
    case None =>
      match FirstNumbered(nts, 0, 0)
      case Some((a, num)) => Some(Numbered(a, num))
      case None => None
  }

  /** Every one-character name from index `i` up to `a` is taken. */
  ghost predicate SinglesTaken(nts: seq<string>, i: nat, a: nat) {
    forall j :: i <= j < a && j < Singles ==> [Letter(j)] in nts
  }

  /** Every numbered name ranked from `lo` up to `hi` is taken. */
  ghost predicate NumberedTaken(nts: seq<string>, lo: nat, hi: nat) {
    forall p, q :: 0 <= p < Singles && 0 <= q < 100 && lo <= Rank(p, q) < hi ==> Numbered(p, q) in nts
  }

  /** The loop over the alphabet stops at the first letter whose name is free. */
  lemma {:induction false} FirstSingleIs(nts: seq<string>, i: nat, a: nat)
    requires i <= a < Singles && [Letter(a)] !in nts && SinglesTaken(nts, i, a)
    ensures FirstSingle(nts, i) == Some(a)
    decreases a - i
  {
    if i < a {
      assert [Letter(i)] in nts;
      FirstSingleIs(nts, i + 1, a);
    }
  }

  /** The loop over the alphabet finds nothing when every one-character name is taken. */
  lemma {:induction false} FirstSingleNone(nts: seq<string>, i: nat)
    requires i <= Singles && SinglesTaken(nts, i, Singles)
    ensures FirstSingle(nts, i).None?
    decreases Singles - i
  {
    if i < Singles {
      assert [Letter(i)] in nts;
      FirstSingleNone(nts, i + 1);
    }
  }

  /** A free one-character name is found, and it is the first free one. */
  lemma {:induction false} FirstSingleSpec(nts: seq<string>, i: nat)
    requires i <= Singles
    ensures FirstSingle(nts, i).Some? ==>
      [Letter(FirstSingle(nts, i).value)] !in nts && SinglesTaken(nts, i, FirstSingle(nts, i).value)
    ensures FirstSingle(nts, i).None? ==> SinglesTaken(nts, i, Singles)
    decreases Singles - i
  {
    if i < Singles && [Letter(i)] in nts {
      FirstSingleSpec(nts, i + 1);
    }
  }

  lemma RankInjective(p: nat, q: nat, a: nat, num: nat)
    requires q < 100 && num < 100 && Rank(p, q) == Rank(a, num)
    ensures p == a && q == num
  {
  }

  /** The nested loops stop at the first pair whose name is free. */
  lemma {:induction false} FirstNumberedIs(nts: seq<string>, x: nat, y: nat, a: nat, num: nat)
    requires x <= Singles && y <= 100 && a < Singles && num < 100
    requires Rank(x, y) <= Rank(a, num) && Numbered(a, num) !in nts
    requires NumberedTaken(nts, Rank(x, y), Rank(a, num))
    ensures FirstNumbered(nts, x, y) == Some((a, num))
    decreases Singles - x, 100 - y
  {
    if x == Singles {
      assert false;
    } else if y == 100 {
      FirstNumberedIs(nts, x + 1, 0, a, num);
    } else if Numbered(x, y) !in nts {
      if Rank(x, y) < Rank(a, num) {
        assert false;
      }
      RankInjective(x, y, a, num);
    } else {
      if Rank(x, y) == Rank(a, num) {
        RankInjective(x, y, a, num);
      }
      FirstNumberedIs(nts, x, y + 1, a, num);
    }
  }

  /** The nested loops find nothing when every numbered name is taken. */
  lemma {:induction false} FirstNumberedNone(nts: seq<string>, x: nat, y: nat)
    requires x <= Singles && y <= 100 && NumberedTaken(nts, Rank(x, y), Rank(Singles, 0))
    ensures FirstNumbered(nts, x, y).None?
    decreases Singles - x, 100 - y
  {
    if x < Singles {
      if y == 100 {
        FirstNumberedNone(nts, x + 1, 0);
      } else {
        assert Numbered(x, y) in nts;
        FirstNumberedNone(nts, x, y + 1);
      }
    }
  }

  /**
   * How many one-character names create_new_non_terminal hands out, trying the letters from
   * index `a` on, before the next one it would hand out is a character of `avoid`.
   */
  function RoomFrom(nts: seq<string>, avoid: set<char>, a: nat): nat
    requires a <= Singles
    decreases Singles - a
  {
    if a == Singles then 0
    else if [Letter(a)] in nts then RoomFrom(nts, avoid, a + 1)
    else if Letter(a) in avoid then 0
    else 1 + RoomFrom(nts, avoid, a + 1)
  }

  function Room(nts: seq<string>, avoid: set<char>): nat {
    RoomFrom(nts, avoid, 0)
  }

  /** The characters a fresh name of to_cnf must not be: the heads it starts from and the terminals. */
  function Avoid(heads: seq<char>, terminals: seq<string>): set<char> {
    (set k | k in heads) + TerminalChars(terminals)
  }

  lemma LetterInjective(a: nat, b: nat)
    requires a < Singles && b < Singles && a != b
    ensures Letter(a) != Letter(b)
  {
  }

  /** Taking a name below `a` does not change what is left from `a` on. */
  lemma {:induction false} RoomFromSame(nts: seq<string>, avoid: set<char>, a: nat, v: nat)
    requires v < a <= Singles
    ensures RoomFrom(nts + [[Letter(v)]], avoid, a) == RoomFrom(nts, avoid, a)
    decreases Singles - a
  {
    if a < Singles {
      LetterInjective(a, v);
      assert [Letter(a)] in nts + [[Letter(v)]] <==> [Letter(a)] in nts;
      RoomFromSame(nts, avoid, a + 1, v);
    }
  }

  /** While there is room, the first free name from `a` on avoids `avoid`, and taking it uses up one. */
  lemma {:induction false} RoomFromTake(nts: seq<string>, avoid: set<char>, a: nat)
    requires a <= Singles && RoomFrom(nts, avoid, a) > 0
    ensures FirstSingle(nts, a).Some? && Letter(FirstSingle(nts, a).value) !in avoid
    ensures RoomFrom(nts + [[Letter(FirstSingle(nts, a).value)]], avoid, a) == RoomFrom(nts, avoid, a) - 1
    decreases Singles - a
  {
    if [Letter(a)] in nts {
      RoomFromTake(nts, avoid, a + 1);
      assert [Letter(a)] in nts + [[Letter(FirstSingle(nts, a).value)]];
    } else {
      assert FirstSingle(nts, a) == Some(a);
      assert [Letter(a)] in nts + [[Letter(a)]];
      RoomFromSame(nts, avoid, a + 1, a);
    }
  }

  /** While there is room, create_new_non_terminal hands out a free one-character name outside `avoid`. */
  lemma RoomTake(nts: seq<string>, avoid: set<char>)
    requires Room(nts, avoid) > 0
    ensures FirstSingle(nts, 0).Some? && [Letter(FirstSingle(nts, 0).value)] !in nts
    ensures Letter(FirstSingle(nts, 0).value) !in avoid
    ensures NewName(nts) == Some([Letter(FirstSingle(nts, 0).value)])
    ensures Room(nts + [[Letter(FirstSingle(nts, 0).value)]], avoid) == Room(nts, avoid) - 1
  {
    RoomFromTake(nts, avoid, 0);
    FirstSingleSpec(nts, 0);
  }

  // ---------------------------------------------------------------------
  // to_cnf (Grammar.py:114-164)
  // ---------------------------------------------------------------------

  /** The table to_cnf leaves in self.rules: heads in order, a set of bodies each. */
  datatype CnfTable = CnfTable(heads: seq<char>, prods: map<char, set<Body>>)

  /** `symbol in self.terminals` for a one-character symbol. */
  predicate IsTerminal(terminals: seq<string>, c: char) {
    [c] in terminals
  }

  /** The one-character terminals. */
  function TerminalChars(terminals: seq<string>): set<char> {
    set i | 0 <= i < |terminals| && |terminals[i]| == 1 :: terminals[i][0]
  }

  lemma TerminalCharsMembers(terminals: seq<string>, c: char)
    ensures c in TerminalChars(terminals) <==> IsTerminal(terminals, c)
  {
    if IsTerminal(terminals, c) {
      var i :| 0 <= i < |terminals| && terminals[i] == [c];
      assert terminals[i][0] == c;
    }
    if c in TerminalChars(terminals) {
      var i :| 0 <= i < |terminals| && |terminals[i]| == 1 && terminals[i][0] == c;
      assert terminals[i] == [c];
    }
  }

  lemma {:induction false} TerminalCharsCard(terminals: seq<string>)
    ensures |TerminalChars(terminals)| <= |terminals|
  {
    if terminals != [] {
      var init := terminals[..|terminals| - 1];
      TerminalCharsCard(init);
      var last := terminals[|terminals| - 1];
      var extra: set<char> := if |last| == 1 then {last[0]} else {};
      assert TerminalChars(terminals) <= TerminalChars(init) + extra by {
        forall c | c in TerminalChars(terminals)
          ensures c in TerminalChars(init) + extra
        {
          var i :| 0 <= i < |terminals| && |terminals[i]| == 1 && terminals[i][0] == c;
          if i < |init| {
            assert init[i] == terminals[i];
          }
        }
      }
      SubsetCard(TerminalChars(terminals), TerminalChars(init) + extra);
    }
  }

  /** The symbols a body has above two: the iterations of the loop at Grammar.py:124-135. */
  function Excess(p: Body): nat {
    if |p| > 2 then |p| - 2 else 0
  }

  function BodiesExcess(ps: seq<Body>): nat {
    if ps == [] then 0 else Excess(ps[0]) + BodiesExcess(ps[1..])
  }

  function HeadsExcess(r: Rules, hs: seq<char>): nat
    requires forall k :: k in hs ==> k in r.prods
  {
    if hs == [] then 0 else BodiesExcess(r.prods[hs[0]]) + HeadsExcess(r, hs[1..])
  }

  /** A cache that agrees with `c2` wherever it is defined. */
  predicate SubMap(c1: map<string, char>, c2: map<string, char>) {
    forall k :: k in c1 ==> k in c2 && c2[k] == c1[k]
  }

  lemma TakeSnoc<T>(s: seq<T>, b: nat)
    requires b < |s|
    ensures s[..b + 1] == s[..b] + [s[b]]
    ensures s[b..][1..] == s[b + 1..]
  {
  }

  /** A new cache entry keeps every old one. */
  lemma SubMapUpdate(c: map<string, char>, key: string, name: char)
    requires key !in c
    ensures SubMap(c, c[key := name])
  {
  }

  lemma SubMapTrans(c1: map<string, char>, c2: map<string, char>, c3: map<string, char>)
    requires SubMap(c1, c2) && SubMap(c2, c3)
    ensures SubMap(c1, c3)
  {
  }

  /** A body after the loop at Grammar.py:124-135, with the names the cache holds for its leading pairs. */
  function Shorten(cache: map<string, char>, p: Body): Body
    decreases |p|
  {
    if |p| <= 2 || p[..2] !in cache then p else Shorten(cache, [cache[p[..2]]] + p[2..])
  }

  /** The cache holds a name for every leading pair the loop meets. */
  predicate Covered(cache: map<string, char>, p: Body)
    decreases |p|
  {
    |p| <= 2 || (p[..2] in cache && Covered(cache, [cache[p[..2]]] + p[2..]))
  }

  /** `cur` is what the loop has made of `p` so far, each step replacing the leading pair by its cached name. */
  predicate Chain(cache: map<string, char>, p: Body, cur: Body)
    decreases |p|
  {
    p == cur || (|p| > 2 && p[..2] in cache && Chain(cache, [cache[p[..2]]] + p[2..], cur))
  }

  /** One more iteration of the loop. */
  lemma {:induction false} ChainStep(cache: map<string, char>, p: Body, cur: Body)
    requires Chain(cache, p, cur) && |cur| > 2 && cur[..2] in cache
    ensures Chain(cache, p, [cache[cur[..2]]] + cur[2..])
    decreases |p|
  {
    if p != cur {
      ChainStep(cache, [cache[p[..2]]] + p[2..], cur);
    }
  }

  /** A chain stays valid when the cache grows. */
  lemma {:induction false} ChainExtend(c1: map<string, char>, c2: map<string, char>, p: Body, cur: Body)
    requires SubMap(c1, c2) && Chain(c1, p, cur)
    ensures Chain(c2, p, cur)
    decreases |p|
  {
    if p != cur {
      ChainExtend(c1, c2, [c1[p[..2]]] + p[2..], cur);
    }
  }

  /** When the loop stops, the body is covered and `cur` is its shortened form. */
  lemma {:induction false} ChainDone(cache: map<string, char>, p: Body, cur: Body)
    requires Chain(cache, p, cur) && |cur| <= 2
    ensures Covered(cache, p) && Shorten(cache, p) == cur
    decreases |p|
  {
    if p != cur {
      ChainDone(cache, [cache[p[..2]]] + p[2..], cur);
    }
  }

  /** A covered body is shortened to at most two symbols, and never lengthened. */
  lemma {:induction false} ShortenLength(cache: map<string, char>, p: Body)
    requires Covered(cache, p)
    ensures |Shorten(cache, p)| == if |p| <= 2 then |p| else 2
    decreases |p|
  {
    if |p| > 2 {
      ShortenLength(cache, [cache[p[..2]]] + p[2..]);
    }
  }

  /** Growing the cache does not change a covered body's shortened form. */
  lemma {:induction false} ShortenExtend(c1: map<string, char>, c2: map<string, char>, p: Body)
    requires SubMap(c1, c2) && Covered(c1, p)
    ensures Covered(c2, p) && Shorten(c2, p) == Shorten(c1, p)
    decreases |p|
  {
    if |p| > 2 {
      ShortenExtend(c1, c2, [c1[p[..2]]] + p[2..]);
    }
  }

  /** A body of two symbols at least one of which is a terminal (Grammar.py:143). */
  predicate Mixed(terminals: seq<string>, q: Body) {
    |q| == 2 && (IsTerminal(terminals, q[0]) || IsTerminal(terminals, q[1]))
  }

  /** A symbol of a mixed body after Grammar.py:145-155: a terminal becomes its cached name. */
  function MixSym(cache: map<string, char>, terminals: seq<string>, c: char): char {
    if IsTerminal(terminals, c) && [c] in cache then cache[[c]] else c
  }

  /** A body after the loop at Grammar.py:142-157. */
  function Fix(cache: map<string, char>, terminals: seq<string>, q: Body): Body {
    if Mixed(terminals, q) then [MixSym(cache, terminals, q[0]), MixSym(cache, terminals, q[1])] else q
  }

  /** Every terminal of `q` has its name in the cache. */
  predicate TerminalsCached(cache: map<string, char>, terminals: seq<string>, q: Body) {
    forall c :: c in q && IsTerminal(terminals, c) ==> [c] in cache
  }

  /** What to_cnf makes of a body of the input table. */
  function Convert(cache: map<string, char>, terminals: seq<string>, p: Body): Body {
    Fix(cache, terminals, Shorten(cache, p))
  }

  /** No fresh name is a terminal. */
  predicate NamesNotTerminals(cache: map<string, char>, terminals: seq<string>) {
    forall key :: key in cache ==> !IsTerminal(terminals, cache[key])
  }

  /** Growing the cache does not change a fixed body once its terminals are cached. */
  lemma FixExtend(c1: map<string, char>, c2: map<string, char>, terminals: seq<string>, q: Body)
    requires SubMap(c1, c2) && TerminalsCached(c1, terminals, q)
    ensures TerminalsCached(c2, terminals, q) && Fix(c2, terminals, q) == Fix(c1, terminals, q)
  {
    if Mixed(terminals, q) {
      assert q[0] in q && q[1] in q;
    }
  }

  /** A fixed body keeps its length and, with two symbols, holds no terminal. */
  lemma FixShape(cache: map<string, char>, terminals: seq<string>, q: Body)
    requires NamesNotTerminals(cache, terminals) && TerminalsCached(cache, terminals, q)
    ensures |Fix(cache, terminals, q)| == |q|
    ensures |q| == 2 ==> !IsTerminal(terminals, Fix(cache, terminals, q)[0]) && !IsTerminal(terminals, Fix(cache, terminals, q)[1])
  {
    if Mixed(terminals, q) {
      assert q[0] in q && q[1] in q;
    }
  }

  /** Chomsky normal form as to_cnf leaves it: at most two symbols, and two only when both are non-terminals. */
  predicate InCnf(t: CnfTable, terminals: seq<string>) {
    forall k, q :: k in t.prods && q in t.prods[k] ==> NormalBody(terminals, q)
  }

  /** At most two symbols, and a pair holds no terminal. */
  predicate NormalBody(terminals: seq<string>, q: Body) {
    |q| <= 2 && (|q| == 2 ==> !IsTerminal(terminals, q[0]) && !IsTerminal(terminals, q[1]))
  }

  /** A body of the input the conversion leaves in normal form. */
  lemma ConvertShape(cache: map<string, char>, terminals: seq<string>, p: Body)
    requires Covered(cache, p) && NamesNotTerminals(cache, terminals)
    requires TerminalsCached(cache, terminals, Shorten(cache, p)) || !Mixed(terminals, Shorten(cache, p))
    ensures var q := Convert(cache, terminals, p);
      |q| <= 2 && (|q| == 2 ==> !IsTerminal(terminals, q[0]) && !IsTerminal(terminals, q[1]))
  {
    ShortenLength(cache, p);
    var s := Shorten(cache, p);
    if Mixed(terminals, s) {
      FixShape(cache, terminals, s);
    } else if |s| == 2 {
      assert !IsTerminal(terminals, s[0]) && !IsTerminal(terminals, s[1]);
    }
  }
}
