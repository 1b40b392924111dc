/**
 * 3_LexerScanner/Lexer.py: the hand-written scanner of the mail language. A cursor walks the
 * text; each call of `get_next_token` skips whitespace and yields one token. Every method is
 * proved against a function of the text and the cursor position: `RunEnd` for the runs of one
 * character class and `Scan` for a whole token.
 */
module Lexer {
  import opened Wrappers

  /** The token types of Lexer.py:4-15. */
  datatype Kind = Keyword | Variable | Str | Number | Equals | Comma | LParen | RParen
                | LBracket | RBracket | Newline | Eof

  /** A token's value: the text it carries, the value of a number, or None (for EOF). */
  datatype Value = Text(s: string) | Int(n: nat) | NoValue

  datatype Token = Token(kind: Kind, value: Value)

  /** The keyword list set up by the constructor (Lexer.py:35). */
  const Keywords: seq<string> := ["send", "attach", "template", "cc", "bcc", "subject", "body"]

  /** The message of the exception raised by `error` (Lexer.py:37-38). */
  const InvalidCharacter: string := "Invalid character"

  // ---- Python's character tests, on ASCII ----

  /** `str.isspace`: tab, line feed, vertical tab, form feed, carriage return, the four
      separators 0x1c-0x1f, and space. */
  predicate IsSpace(c: char)
  {
    c == ' ' || 9 <= c as int <= 13 || 28 <= c as int <= 31
  }

  predicate IsDigit(c: char)
  {
    '0' <= c <= '9'
  }

  predicate IsAlpha(c: char)
  {
    'a' <= c <= 'z' || 'A' <= c <= 'Z'
  }

  predicate IsAlnum(c: char)
  {
    IsAlpha(c) || IsDigit(c)
  }

  /** `str.lower` on one character. */
  function LowerChar(c: char): char
  {
    if 'A' <= c <= 'Z' then (c as int + 32) as char else c
  }

  /** `str.lower`. */
  function Lower(s: string): string
  {
    seq(|s|, i requires 0 <= i < |s| => LowerChar(s[i]))
  }

  /** The value of one decimal digit. */
  function DigitValue(c: char): nat
    requires IsDigit(c)
  {
    c as int - '0' as int
  }

  /** `int` of a string of decimal digits, most significant first. */
  function Decimal(s: string): nat
    requires forall c :: c in s ==> IsDigit(c)
    decreases |s|
  {
    if s == [] then 0
    else
      assert forall c :: c in s[..|s| - 1] ==> c in s;
      Decimal(s[..|s| - 1]) * 10 + DigitValue(s[|s| - 1])
  }

  /** The decimal digits of `n` without leading zeros, a reference inverse of `Decimal`. */
  function DecimalDigits(n: nat): (s: string)
    ensures s != [] && forall c :: c in s ==> IsDigit(c)
    ensures |s| > 1 ==> s[0] != '0'
    decreases n
  {
    var d := ['0' + (n % 10) as char];
    if n < 10 then d else DecimalDigits(n / 10) + d
  }

  /** Reading back the digits of a number gives the number. */
  lemma {:induction false} DecimalRoundTrip(n: nat)
    ensures Decimal(DecimalDigits(n)) == n
    decreases n
  {
    if n >= 10 {
      DecimalRoundTrip(n / 10);
      var s := DecimalDigits(n);
      assert s[..|s| - 1] == DecimalDigits(n / 10);
    }
  }

  // ---- Runs ----

  /** The classes of the characters that `skip_whitespace`, `integer`, `string` and `variable`
      consume. */
  datatype Class = Whitespace | Digits | Alnums | NotQuote

  predicate In(cl: Class, c: char)
  {
    match cl
    case Whitespace => IsSpace(c)
    case Digits => IsDigit(c)
    case Alnums => IsAlnum(c)
    case NotQuote => c != '"'
  }

  /**
   * The end of the longest run of `cl` characters that starts at `i`: every character before the
   * end belongs to `cl`, and the end is the end of the text or a character outside `cl`.
   */
  function RunEnd(text: string, i: nat, cl: Class): (j: nat)
    ensures i <= j && (j <= |text| || j == i)
    ensures forall k :: i <= k < j ==> In(cl, text[k])
    ensures j < |text| ==> !In(cl, text[j])
    decreases |text| - i
  {
    if i < |text| && In(cl, text[i]) then RunEnd(text, i + 1, cl) else i
  }

  /** The characters from `i` to `j`; nothing when `i` is past the end. */
  function Slice(text: string, i: nat, j: nat): string
    requires i <= |text| ==> i <= j <= |text|
  {
    if i <= |text| then text[i..j] else []
  }

  // ---- One token ----

  /**
   * The loop of `get_next_token` (Lexer.py:74-77, 123) from position `pos`: the token or the
   * error, and the position of the cursor afterwards. Whitespace is skipped, the end of the text
   * is EOF, and any other character is dispatched by `TokenAt`.
   */
  function Scan(text: string, pos: nat): (Result<Token, string>, nat)
    decreases |text| - pos
  {
    if pos >= |text| then (Ok(Token(Eof, NoValue)), pos)
    else if IsSpace(text[pos]) then Scan(text, RunEnd(text, pos, Whitespace))
    else TokenAt(text, pos)
  }

  /** The tests of Lexer.py:79-121 on the character at `pos`, in the source's order. */
  function TokenAt(text: string, pos: nat): (Result<Token, string>, nat)
    requires pos < |text|
  {
    var c := text[pos];
    var next := pos + 1;
    if c == '=' then (Ok(Token(Equals, Text("="))), next)
    else if c == ',' then (Ok(Token(Comma, Text(","))), next)
    else if c == '(' then (Ok(Token(LParen, Text("("))), next)
    else if c == ')' then (Ok(Token(RParen, Text(")"))), next)
    else if c == '[' then (Ok(Token(LBracket, Text("["))), next)
    else if c == ']' then (Ok(Token(RBracket, Text("]"))), next)
    else if c == '\n' then (Ok(Token(Newline, Text("\n"))), next)
    else if IsDigit(c) then
      var e := RunEnd(text, pos, Digits);
      (Ok(Token(Number, Int(Decimal(text[pos..e])))), e)
    else if c == '"' then
      var e := RunEnd(text, next, NotQuote);
      (Ok(Token(Str, Text(text[next..e]))), e + 1)
    else if IsAlpha(c) then
      var e := RunEnd(text, pos, Alnums);
      var v := text[pos..e];
      if Lower(v) in Keywords then (Ok(Token(Keyword, Text(Lower(v)))), e)
      else (Ok(Token(Variable, Text(v))), e)
    else (Err(InvalidCharacter), pos)
  }

  /** The whitespace at `pos` is skipped in one go; then the end of the text is EOF and any other
      character is dispatched. */
  lemma ScanSkips(text: string, pos: nat)
    ensures var q := RunEnd(text, pos, Whitespace);
      Scan(text, pos) == if q < |text| then TokenAt(text, q) else (Ok(Token(Eof, NoValue)), q)
  {
    if pos < |text| && IsSpace(text[pos]) {
      var q := RunEnd(text, pos, Whitespace);
      assert RunEnd(text, q, Whitespace) == q;
    }
  }

  /** A character no branch of `get_next_token` accepts. */
  predicate Invalid(c: char)
  {
    !IsSpace(c) && c !in "=,()[]\n\"" && !IsDigit(c) && !IsAlpha(c)
  }

  /**
   * Every token follows the whitespace at `pos`: the cursor never moves back, a token other than
   * EOF moves it forward, and EOF comes exactly when only whitespace is left.
   */
  lemma ScanProgress(text: string, pos: nat)
    ensures pos <= Scan(text, pos).1
    ensures Scan(text, pos).0.Ok? && Scan(text, pos).0.value.kind != Eof ==> pos < Scan(text, pos).1
    ensures Scan(text, pos).0 == Ok(Token(Eof, NoValue))
      <==> forall k :: pos <= k < |text| ==> IsSpace(text[k])
  {
    ScanSkips(text, pos);
    var q := RunEnd(text, pos, Whitespace);
    if q < |text| {
      assert TokenAt(text, q).0 != Ok(Token(Eof, NoValue));
      assert !IsSpace(text[q]);
    }
  }

  /** At the end of the input EOF is returned again and again, the cursor staying put. */
  lemma EofRepeats(text: string, pos: nat)
    requires Scan(text, pos).0 == Ok(Token(Eof, NoValue))
    ensures Scan(text, Scan(text, pos).1) == Scan(text, pos)
  {
    ScanSkips(text, pos);
  }

  /**
   * The exception is raised exactly when the first character after the whitespace is one no
   * branch accepts, and the cursor is left on that character.
   */
  lemma ScanError(text: string, pos: nat)
    ensures var q := RunEnd(text, pos, Whitespace);
      Scan(text, pos).0.Err? <==> q < |text| && Invalid(text[q])
    ensures Scan(text, pos).0.Err? ==>
      Scan(text, pos) == (Err(InvalidCharacter), RunEnd(text, pos, Whitespace))
  {
    ScanSkips(text, pos);
  }

  /**
   * '\n' counts as whitespace, so it is skipped before the test for it (Lexer.py:103) is
   * reached and NEWLINE is never produced.
   */
  lemma NeverNewline(text: string, pos: nat)
    ensures !(Scan(text, pos).0.Ok? && Scan(text, pos).0.value.kind == Newline)
  {
    ScanSkips(text, pos);
  }

  /** Each of the six punctuation characters is a token of its own whose value is itself. */
  lemma Punctuation(text: string, pos: nat)
    requires var q := RunEnd(text, pos, Whitespace); q < |text| && text[q] in "=,()[]"
    ensures var q := RunEnd(text, pos, Whitespace);
      Scan(text, pos).0.Ok? && Scan(text, pos).0.value.value == Text([text[q]])
      && Scan(text, pos).1 == q + 1
  {
    ScanSkips(text, pos);
  }

  /** An identifier whose lower-case form is a keyword is a KEYWORD carrying that form, the
      lower-case form of the text just before the cursor. */
  lemma KeywordTokens(text: string, pos: nat, w: string)
    ensures var (r, next) := Scan(text, pos);
      r == Ok(Token(Keyword, Text(w))) ==>
        w in Keywords && |w| <= next <= |text| && Lower(text[next - |w|..next]) == w
  {
    ScanSkips(text, pos);
    var q := RunEnd(text, pos, Whitespace);
    if q < |text| && IsAlpha(text[q]) {
      var e := RunEnd(text, q, Alnums);
      assert |Lower(text[q..e])| == e - q;
    }
  }

  /** Any other identifier is a VARIABLE carrying its own spelling, the text just before the
      cursor: a letter and then letters and digits. */
  lemma VariableTokens(text: string, pos: nat, w: string)
    ensures var (r, next) := Scan(text, pos);
      r == Ok(Token(Variable, Text(w))) ==>
        Lower(w) !in Keywords && |w| <= next <= |text| && text[next - |w|..next] == w
        && w != [] && IsAlpha(w[0]) && forall c :: c in w ==> IsAlnum(c)
  {
    ScanSkips(text, pos);
  }

  /**
   * A number is the value of the maximal run of digits just before the cursor; a string is
   * the text up to the next '"' and holds no '"' itself.
   */
  lemma Literals(text: string, pos: nat, n: nat, w: string)
    ensures var (r, next) := Scan(text, pos);
      r == Ok(Token(Number, Int(n))) ==>
        exists q: nat :: q < next <= |text| && (forall c :: c in text[q..next] ==> IsDigit(c))
          && n == Decimal(text[q..next]) && (next < |text| ==> !IsDigit(text[next]))
    ensures var (r, next) := Scan(text, pos);
      r == Ok(Token(Str, Text(w))) ==> '"' !in w && |w| < next
  {
    ScanSkips(text, pos);
  }

  // ---- The scanner ----

  class Lexer {
    const text: string
    const keywords: seq<string>
    var pos: nat
    var currentChar: Option<char>

    /** The cursor invariant: `current_char` is the character at `pos`, None past the end. */
    predicate Valid()
      reads this
    {
      currentChar == (if pos < |text| then Some(text[pos]) else None) && keywords == Keywords
    }

    /** Lexer.py:31-35. The source reads text[0], so an empty text raises IndexError. */
    constructor (text: string)
      requires |text| > 0
      ensures this.text == text && pos == 0 && Valid()
    {
      this.text := text;
      keywords := Keywords;
      pos := 0;
      currentChar := Some(text[0]);
    }

    /** Lexer.py:40-45. */
    method Advance()
      requires Valid()
      modifies this
      ensures pos == old(pos) + 1 && Valid()
    {
      pos := pos + 1;
      if pos < |text| {
        currentChar := Some(text[pos]);
      } else {
        currentChar := None;
      }
    }

    /** Lexer.py:47-49: the cursor moves past the whole run of whitespace. */
    method SkipWhitespace()
      requires Valid()
      modifies this
      ensures pos == RunEnd(text, old(pos), Whitespace) && Valid()
    {
      while currentChar.Some? && IsSpace(currentChar.value)
        invariant Valid() && RunEnd(text, pos, Whitespace) == RunEnd(text, old(pos), Whitespace)
        decreases |text| - pos
      {
        Advance();
      }
    }

    /**
     * Lexer.py:51-56: the run of digits under the cursor and its value. The source calls it
     * only on a digit; on anything else `int('')` would raise ValueError.
     */
    method Integer() returns (value: nat)
      requires Valid() && currentChar.Some? && IsDigit(currentChar.value)
      modifies this
      ensures pos == RunEnd(text, old(pos), Digits) && Valid()
      ensures value == Decimal(text[old(pos)..pos])
    {
      var result := "";
      while currentChar.Some? && IsDigit(currentChar.value)
        invariant Valid() && old(pos) <= pos <= |text|
        invariant result == text[old(pos)..pos] && forall c :: c in result ==> IsDigit(c)
        invariant RunEnd(text, pos, Digits) == RunEnd(text, old(pos), Digits)
        decreases |text| - pos
      {
        result := result + [currentChar.value];
        Advance();
      }
      value := Decimal(result);
    }

    /**
     * Lexer.py:58-64: the characters up to the next '"' and the cursor past that quote; an
     * unterminated string is the rest of the text.
     */
    method StringLiteral() returns (s: string)
      requires Valid()
      modifies this
      ensures pos == RunEnd(text, old(pos), NotQuote) + 1 && Valid()
      ensures s == Slice(text, old(pos), pos - 1)
    {
      var result := "";
      while currentChar.Some? && currentChar.value != '"'
        invariant Valid() && old(pos) <= pos && (old(pos) <= |text| ==> pos <= |text|)
        invariant result == Slice(text, old(pos), pos)
        invariant RunEnd(text, pos, NotQuote) == RunEnd(text, old(pos), NotQuote)
        decreases |text| - pos
      {
        result := result + [currentChar.value];
        Advance();
      }
      Advance();
      s := result;
    }

    /** Lexer.py:66-71: the run of letters and digits under the cursor. */
    method Variable() returns (s: string)
      requires Valid()
      modifies this
      ensures pos == RunEnd(text, old(pos), Alnums) && Valid()
      ensures s == Slice(text, old(pos), pos)
    {
      var result := "";
      while currentChar.Some? && IsAlnum(currentChar.value)
        invariant Valid() && old(pos) <= pos && (old(pos) <= |text| ==> pos <= |text|)
        invariant result == Slice(text, old(pos), pos)
        invariant RunEnd(text, pos, Alnums) == RunEnd(text, old(pos), Alnums)
        decreases |text| - pos
      {
        result := result + [currentChar.value];
        Advance();
      }
      s := result;
    }

    /**
     * Lexer.py:73-123: the next token, or Err with the message of the exception that `error`
     * raises; the cursor ends where `Scan` says.
     */
    method GetNextToken() returns (r: Result<Token, string>)
      requires Valid()
      modifies this
      ensures Valid() && (r, pos) == Scan(text, old(pos))
    {
      while currentChar.Some?
        invariant Valid() && Scan(text, pos) == Scan(text, old(pos))
        decreases |text| - pos
      {
        if IsSpace(currentChar.value) {
          SkipWhitespace();
          continue;
        }
        r := Dispatch();
        return;
      }
      return Ok(Token(Eof, NoValue));
    }

    /** Lexer.py:79-121: the tests of `get_next_token` on the character under the cursor. */
    method Dispatch() returns (r: Result<Token, string>)
      requires Valid() && currentChar.Some?
      modifies this
      ensures Valid() && (r, pos) == TokenAt(text, old(pos))
    {
      var c := currentChar.value;
      if c == '=' {
        Advance();
        return Ok(Token(Equals, Text("=")));
      }
      if c == ',' {
        Advance();
        return Ok(Token(Comma, Text(",")));
      }
      if c == '(' {
        Advance();
        return Ok(Token(LParen, Text("(")));
      }
      if c == ')' {
        Advance();
        return Ok(Token(RParen, Text(")")));
      }
      if c == '[' {
        Advance();
        return Ok(Token(LBracket, Text("[")));
      }
      if c == ']' {
        Advance();
        return Ok(Token(RBracket, Text("]")));
      }
      if c == '\n' {
        Advance();
        return Ok(Token(Newline, Text("\n")));
      }
      if IsDigit(c) {
        var n := Integer();
        return Ok(Token(Number, Int(n)));
      }
      if c == '"' {
        Advance();
        var s := StringLiteral();
        return Ok(Token(Str, Text(s)));
      }
      if IsAlpha(c) {
        var v := Variable();
        if Lower(v) in keywords {
          return Ok(Token(Keyword, Text(Lower(v))));
        } else {
          return Ok(Token(Kind.Variable, Text(v)));
        }
      }
      return Err(InvalidCharacter);
    }
  }
}
