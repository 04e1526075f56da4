/** The Unicode tables the place-name code consults, as a parameter.

    Names are sequences of runes (`char`). The tables themselves are foreign; `Valid` lists
    every fact about them that a proof uses. */
module Runes {

  datatype RuneTables = RuneTables(
    letter: char -> bool,
    digit: char -> bool,
    mark: char -> bool,           // unicode.Mn or unicode.Me
    space: char -> bool,
    lower: char -> char,
    upper: char -> char,
    fold: map<char, string>)      // latinFold: accented rune -> ASCII skeleton
  {
    /** A rune that opens or continues a token. */
    predicate Word(r: char) {
      !mark(r) && (letter(r) || digit(r))
    }

    ghost predicate Valid() {
      && (forall r :: letter(r) || digit(r) ==> !mark(r) && !space(r))
      && (forall r :: space(r) ==> !mark(r))
      && (forall r :: IsPlain(r) ==> letter(r) || digit(r))
      && space(' ')
      && (forall r :: r == '(' || r == ')' ==> !letter(r) && !digit(r) && !mark(r) && !space(r))
      && (forall r :: lower(lower(r)) == lower(r))
      && (forall r :: (lower(r) == '(') == (r == '(') && (lower(r) == ')') == (r == ')'))
      && (forall r :: IsPlain(r) ==> lower(r) == r)
      && (forall r :: mark(lower(r)) == mark(r) && space(lower(r)) == space(r))
      && (forall r :: (letter(lower(r)) || digit(lower(r))) == (letter(r) || digit(r)))
      && (forall r :: r in fold ==>
            letter(r) && fold[r] != "" && forall k :: 0 <= k < |fold[r]| ==> 'a' <= fold[r][k] <= 'z')
    }
  }

  /** The ASCII runes that PlaceTokens copies unchanged. */
  predicate IsPlain(r: char) {
    'a' <= r <= 'z' || '0' <= r <= '9'
  }

  function TrimLeft(u: RuneTables, s: string): string {
    if s != "" && u.space(s[0]) then TrimLeft(u, s[1..]) else s
  }

  function TrimRight(u: RuneTables, s: string): string {
    if s != "" && u.space(s[|s| - 1]) then TrimRight(u, s[..|s| - 1]) else s
  }

  /** strings.TrimSpace */
  function Trim(u: RuneTables, s: string): string {
    TrimRight(u, TrimLeft(u, s))
  }

  function MapRunes(f: char -> char, s: string): (t: string) {
    seq(|s|, i requires 0 <= i < |s| => f(s[i]))
  }

  lemma {:induction false} TrimRightEnds(u: RuneTables, s: string)
    ensures var t := TrimRight(u, s); t <= s && (t != "" ==> !u.space(t[|t| - 1]))
  {
    if s != "" && u.space(s[|s| - 1]) { TrimRightEnds(u, s[..|s| - 1]); }
  }

  lemma {:induction false} TrimLeftStarts(u: RuneTables, s: string)
    ensures var t := TrimLeft(u, s); t != "" ==> !u.space(t[0])
  {
    if s != "" && u.space(s[0]) { TrimLeftStarts(u, s[1..]); }
  }

  /** Trimming what is already trimmed changes nothing, so a trimmed value is blank only when
      it is empty. */
  lemma TrimIdempotent(u: RuneTables, s: string)
    ensures Trim(u, Trim(u, s)) == Trim(u, s)
  {
    TrimLeftStarts(u, s);
    TrimRightEnds(u, TrimLeft(u, s));
  }

  ghost predicate AllSpace(u: RuneTables, s: string) {
    forall k :: 0 <= k < |s| ==> u.space(s[k])
  }

  lemma {:induction false} TrimLeftCuts(u: RuneTables, s: string) returns (a: string)
    ensures s == a + TrimLeft(u, s) && AllSpace(u, a)
  {
    a := "";
    if s != "" && u.space(s[0]) {
      var b := TrimLeftCuts(u, s[1..]);
      a := [s[0]] + b;
    }
  }

  lemma {:induction false} TrimRightCuts(u: RuneTables, s: string) returns (b: string)
    ensures s == TrimRight(u, s) + b && AllSpace(u, b)
  {
    b := "";
    if s != "" && u.space(s[|s| - 1]) {
      var c := TrimRightCuts(u, s[..|s| - 1]);
      b := c + [s[|s| - 1]];
    }
  }

  /** Trimming cuts spaces off both ends, all of them, and nothing else. */
  lemma TrimCuts(u: RuneTables, s: string) returns (a: string, b: string)
    ensures s == a + Trim(u, s) + b && AllSpace(u, a) && AllSpace(u, b)
    ensures Trim(u, s) != "" ==> !u.space(Trim(u, s)[0]) && !u.space(Trim(u, s)[|Trim(u, s)| - 1])
  {
    a := TrimLeftCuts(u, s);
    b := TrimRightCuts(u, TrimLeft(u, s));
    TrimLeftStarts(u, s);
    TrimRightEnds(u, TrimLeft(u, s));
  }

  /** It is the only text that spaces around it can have left: what starts and ends with no
      space. */
  lemma {:induction false} TrimOf(u: RuneTables, a: string, t: string, b: string)
    requires AllSpace(u, a) && AllSpace(u, b) && (t != "" ==> !u.space(t[0]) && !u.space(t[|t| - 1]))
    ensures Trim(u, a + t + b) == t
  {
    TrimLeftOf(u, a, t + b);
    assert a + t + b == a + (t + b);
    if t == "" {
      TrimLeftOf(u, b, "");
      assert t + b == b && b + "" == b;
    } else {
      assert (t + b)[0] == t[0];
      TrimRightOf(u, t, b);
    }
  }

  lemma {:induction false} TrimLeftOf(u: RuneTables, a: string, t: string)
    requires AllSpace(u, a)
    ensures TrimLeft(u, a + t) == TrimLeft(u, t)
  {
    if a == "" {
      assert a + t == t;
    } else {
      TrimLeftOf(u, a[1..], t);
      assert (a + t)[1..] == a[1..] + t;
    }
  }

  lemma {:induction false} TrimRightOf(u: RuneTables, t: string, b: string)
    requires AllSpace(u, b)
    ensures TrimRight(u, t + b) == TrimRight(u, t)
  {
    if b == "" {
      assert t + b == t;
    } else {
      TrimRightOf(u, t, b[..|b| - 1]);
      assert (t + b)[..|t + b| - 1] == t + b[..|b| - 1];
    }
  }

  // A small instance of the tables. It shows that `Valid` can be met.

  function AsciiLower(r: char): char {
    if 'A' <= r <= 'Z' then r + 32 as char else r
  }

  function AsciiUpper(r: char): char {
    if 'a' <= r <= 'z' then r - 32 as char else r
  }

  function Ascii(): RuneTables {
    RuneTables(r => 'a' <= r <= 'z' || 'A' <= r <= 'Z', r => '0' <= r <= '9', r => false, r => r == ' ',
               AsciiLower, AsciiUpper, map[])
  }

  lemma AsciiIsValid()
    ensures Ascii().Valid()
  {
  }
}
