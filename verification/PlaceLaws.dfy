/** What is in a token and in a rendering, said of PlaceTokens and PlaceDisplay themselves
    (geolocate/placename.go): which runes can be exchanged without changing the tokens, which words
    are tokens as they stand, which parentheticals go, and what a rendering keeps. */
module PlaceLaws {
  import opened Counting
  import opened PlaceNames
  import opened Runes

  // ----- Exchanging runes

  /** Two scans that the rest of a name cannot tell apart: what they have emitted may differ, but
      reads as the same tokens. */
  ghost predicate Alike(u: RuneTables, x: Scan, y: Scan) {
    SameControl(x, y) && Segment(u, x.out) == Segment(u, y.out)
  }

  predicate SameControl(x: Scan, y: Scan) {
    x.depth == y.depth && x.tokens == y.tokens && x.inToken == y.inToken && x.dropping == y.dropping
  }

  /** Whether a rune is emitted depends on the control part of the scan only. */
  lemma ControlStep(u: RuneTables, x: Scan, y: Scan, r: char)
    requires SameControl(x, y)
    ensures var x', y' := Step(u, x, r), Step(u, y, r);
            && SameControl(x', y')
            && ((x'.out == x.out && y'.out == y.out) || (x'.out == x.out + [r] && y'.out == y.out + [r]))
  {
  }

  lemma AlikeStep(u: RuneTables, x: Scan, y: Scan, r: char)
    requires Alike(u, x, y)
    ensures Alike(u, Step(u, x, r), Step(u, y, r))
  {
    ControlStep(u, x, y, r);
    SegmentSnoc(u, x.out, r);
    SegmentSnoc(u, y.out, r);
  }

  lemma HeadTail(a: string, b: string)
    requires b != ""
    ensures a + b == (a + [b[0]]) + b[1..]
  {
  }

  lemma AlikeSnoc(u: RuneTables, a: string, a': string, r: char)
    requires Alike(u, Run(u, a), Run(u, a'))
    ensures Alike(u, Run(u, a + [r]), Run(u, a' + [r]))
  {
    RunSnoc(u, a, r);
    RunSnoc(u, a', r);
    AlikeStep(u, Run(u, a), Run(u, a'), r);
  }

  /** Texts that leave the scan alike can be exchanged in front of anything. */
  lemma {:induction false} AlikeBefore(u: RuneTables, a: string, a': string, b: string)
    requires Alike(u, Run(u, a), Run(u, a'))
    ensures Alike(u, Run(u, a + b), Run(u, a' + b))
    decreases |b|
  {
    if b == "" {
      assert a + b == a && a' + b == a';
    } else {
      AlikeSnoc(u, a, a', b[0]);
      AlikeBefore(u, a + [b[0]], a' + [b[0]], b[1..]);
      HeadTail(a, b);
      HeadTail(a', b);
    }
  }

  lemma SameTokens(u: RuneTables, a: string, a': string, b: string)
    requires u.Valid() && Alike(u, Run(u, a), Run(u, a'))
    ensures Tokens(u, a + b) == Tokens(u, a' + b)
  {
    AlikeBefore(u, a, a', b);
    RunIsReduced(u, a + b);
    RunIsReduced(u, a' + b);
  }

  /** The scan after plain runes: they are emitted, or dropped, as one piece. */
  function AfterPlain(x: Scan, t: string): Scan {
    if x.dropping then x
    else x.(tokens := if x.inToken then x.tokens else x.tokens + 1, inToken := true, out := x.out + t)
  }

  lemma PlainStep(u: RuneTables, x: Scan, r: char)
    requires u.Valid() && IsPlain(r)
    ensures Step(u, x, r) == AfterPlain(x, [r])
  {
  }

  lemma PlainSnoc(x: Scan, p: string, r: char)
    ensures AfterPlain(AfterPlain(x, p), [r]) == AfterPlain(x, p + [r])
  {
    assert x.out + (p + [r]) == (x.out + p) + [r];
  }

  lemma {:induction false} RunPlain(u: RuneTables, a: string, t: string)
    requires u.Valid() && t != "" && forall k :: 0 <= k < |t| ==> IsPlain(t[k])
    ensures Run(u, a + t) == AfterPlain(Run(u, a), t)
  {
    var p, r := t[..|t| - 1], t[|t| - 1];
    assert t == p + [r];
    if p == "" {
      assert t == [r];
      RunSnoc(u, a, r);
      PlainStep(u, Run(u, a), r);
    } else {
      RunPlain(u, a, p);
      assert a + t == (a + p) + [r];
      RunSnoc(u, a + p, r);
      PlainStep(u, Run(u, a + p), r);
      PlainSnoc(Run(u, a), p, r);
    }
  }

  /** Accents do not matter: an accented rune and its skeleton from the accent table can be
      exchanged anywhere in a name. */
  lemma AccentsFold(u: RuneTables, a: string, r: char, b: string)
    requires u.Valid() && r in u.fold && u.lower(r) == r && !IsPlain(r)
    ensures Tokens(u, a + [r] + b) == Tokens(u, a + u.fold[r] + b)
  {
    var t, x := u.fold[r], Run(u, a);
    RunSnoc(u, a, r);
    RunPlain(u, a, t);
    SegmentSnoc(u, x.out, r);
    forall k | 0 <= k < |t| ensures u.Word(t[k]) && Folded(u, t[k]) == [t[k]] { assert IsPlain(t[k]); }
    SegmentWord(u, x.out, t);
    SameTokens(u, a + [r], a + t, b);
  }

  /** Case does not matter, one rune at a time. */
  lemma CaseFolds(u: RuneTables, a: string, r: char, b: string)
    requires u.Valid()
    ensures Tokens(u, a + [r] + b) == Tokens(u, a + [u.lower(r)] + b)
  {
    LowerStep(u, Run(u, a), Run(u, a), r);
    RunSnoc(u, a, r);
    RunSnoc(u, a, u.lower(r));
    SameTokens(u, a + [r], a + [u.lower(r)], b);
  }

  lemma LowerStep(u: RuneTables, x: Scan, y: Scan, r: char)
    requires u.Valid() && Alike(u, x, y)
    ensures Alike(u, Step(u, x, r), Step(u, y, u.lower(r)))
  {
    LowerControl(u, x, y, r);
    SegmentSnoc(u, x.out, r);
    SegmentSnoc(u, y.out, u.lower(r));
  }

  lemma LowerControl(u: RuneTables, x: Scan, y: Scan, r: char)
    requires u.Valid() && SameControl(x, y)
    ensures var l := u.lower(r);
            var x', y' := Step(u, x, r), Step(u, y, l);
            && SameControl(x', y')
            && ((x'.out == x.out && y'.out == y.out) || (x'.out == x.out + [r] && y'.out == y.out + [l]))
  {
  }

  lemma {:induction false} LowerAlike(u: RuneTables, s: string)
    requires u.Valid()
    ensures Alike(u, Run(u, s), Run(u, MapRunes(u.lower, s)))
  {
    if s != "" {
      var p, r := s[..|s| - 1], s[|s| - 1];
      LowerAlike(u, p);
      assert MapRunes(u.lower, s) == MapRunes(u.lower, p) + [u.lower(r)];
      RunSnoc(u, MapRunes(u.lower, p), u.lower(r));
      LowerStep(u, Run(u, p), Run(u, MapRunes(u.lower, p)), r);
    }
  }

  /** And for the whole name. */
  lemma CaseDoesNotMatter(u: RuneTables, s: string)
    requires u.Valid()
    ensures Tokens(u, s) == Tokens(u, MapRunes(u.lower, s))
  {
    LowerAlike(u, s);
    RunIsReduced(u, s);
    RunIsReduced(u, MapRunes(u.lower, s));
  }

  /** A combining mark can be left out: a decomposed accent does not split a word. */
  lemma MarksAreTransparent(u: RuneTables, a: string, r: char, b: string)
    requires u.Valid() && u.mark(r)
    ensures Tokens(u, a + [r] + b) == Tokens(u, a + b)
  {
    RunSnoc(u, a, r);
    SegmentSnoc(u, Run(u, a).out, r);
    SameTokens(u, a + [r], a, b);
  }

  /** Whatever is no letter, digit, mark or parenthesis separates like a space. */
  lemma OthersSeparate(u: RuneTables, a: string, r: char, b: string)
    requires u.Valid() && !u.letter(r) && !u.digit(r) && !u.mark(r) && r != '(' && r != ')'
    ensures Tokens(u, a + [r] + b) == Tokens(u, a + " " + b)
  {
    RunSnoc(u, a, r);
    RunSnoc(u, a, ' ');
    SegmentSnoc(u, Run(u, a).out, r);
    SegmentSnoc(u, Run(u, a).out, ' ');
    SameTokens(u, a + [r], a + " ", b);
  }

  // ----- Words that are tokens as they stand

  /** A non-empty run of lower-case letters and digits without an entry in the accent table. */
  ghost predicate PlainWord(u: RuneTables, t: string) {
    t != "" && forall k :: 0 <= k < |t| ==>
      (u.letter(t[k]) || u.digit(t[k])) && u.lower(t[k]) == t[k] && (IsPlain(t[k]) || t[k] !in u.fold)
  }

  /** Such words, joined by spaces, are the tokens. */
  lemma WordsAreTokens(u: RuneTables, ts: seq<string>)
    requires u.Valid() && forall k :: 0 <= k < |ts| ==> PlainWord(u, ts[k])
    ensures Tokens(u, Join(ts)) == ts
  {
    forall k | 0 <= k < |ts| ensures ts[k] != "" && Canonical(u, ts[k]) {
      assert PlainWord(u, ts[k]);
    }
    SegmentJoin(u, ts);
    NoGroupInJoin(u, ts);
    NothingToDrop(u, "", Join(ts));
    assert "" + Join(ts) == Join(ts);
  }

  // ----- Parentheticals

  function Opens(s: string): nat {
    Count((r: char) => r == '(', s)
  }

  function Closes(s: string): nat {
    Count((r: char) => r == ')', s)
  }

  /** After an opening parenthesis, s does not close the group. */
  ghost predicate StaysInside(s: string) {
    forall k :: 0 <= k <= |s| ==> Closes(s[..k]) <= Opens(s[..k])
  }

  ghost predicate WellNested(s: string) {
    StaysInside(s) && Closes(s) == Opens(s)
  }

  /** All groups opened in a are closed in a. */
  predicate Settled(u: RuneTables, a: string) {
    Run(u, a).depth == 0
  }

  lemma ParenSnoc(s: string, r: char)
    ensures Opens(s + [r]) == Opens(s) + if r == '(' then 1 else 0
    ensures Closes(s + [r]) == Closes(s) + if r == ')' then 1 else 0
  {
    assert (s + [r])[..|s|] == s;
  }

  /** The scan inside an outermost group that comes after a. */
  ghost function Inside(x: Scan, body: string, y: Scan): bool {
    && y.depth == 1 + Opens(body) - Closes(body) && y.dropping == (2 <= x.tokens)
    && if y.dropping then y.out == x.out && y.tokens == x.tokens && y.inToken == x.inToken
       else y.out == x.out + "(" + body
  }

  lemma InsideStep(u: RuneTables, x: Scan, body: string, y: Scan, r: char)
    requires Inside(x, body, y) && Closes(body) <= Opens(body) && Closes(body + [r]) <= Opens(body + [r])
    ensures Inside(x, body + [r], Step(u, y, r))
  {
    ParenSnoc(body, r);
    assert x.out + "(" + (body + [r]) == (x.out + "(" + body) + [r];
  }

  lemma {:induction false} RunInside(u: RuneTables, a: string, body: string)
    requires u.Valid() && Settled(u, a) && StaysInside(body)
    ensures Inside(Run(u, a), body, Run(u, a + "(" + body))
  {
    RunCounts(u, a);
    if body == "" {
      assert a + "(" + body == a + "(";
      RunSnoc(u, a, '(');
      assert Run(u, a).out + "(" + body == Run(u, a).out + "(";
    } else {
      var p, r := body[..|body| - 1], body[|body| - 1];
      assert body == p + [r];
      forall k | 0 <= k <= |p| ensures Closes(p[..k]) <= Opens(p[..k]) {
        assert p[..k] == body[..k];
      }
      RunInside(u, a, p);
      assert body[..|body|] == body;
      assert a + "(" + body == (a + "(" + p) + [r];
      RunSnoc(u, a + "(" + p, r);
      assert p[..|p|] == p;
      InsideStep(u, Run(u, a), p, Run(u, a + "(" + p), r);
    }
  }

  /** The scan after a whole group. */
  lemma RunGroup(u: RuneTables, a: string, body: string)
    requires u.Valid() && Settled(u, a) && WellNested(body)
    ensures var x, y, g := Run(u, a), Run(u, a + "(" + body + ")"), "(" + body + ")";
            if 2 <= |Tokens(u, a)| then y == x else y.out == x.out + g && y.depth == 0 && !y.dropping
  {
    RunInside(u, a, body);
    RunCounts(u, a);
    CounterIsTokenCount(u, a, |a|);
    RunSnoc(u, a + "(" + body, ')');
    assert a + "(" + body + ")" == (a + "(" + body) + [')'];
    CloseStep(u, Run(u, a), body, Run(u, a + "(" + body));
  }

  lemma CloseStep(u: RuneTables, x: Scan, body: string, y: Scan)
    requires u.Valid() && Inside(x, body, y) && Closes(body) == Opens(body) && x.depth == 0 && !x.dropping
    ensures var z := Step(u, y, ')');
            if 2 <= x.tokens then z == x
            else z.out == x.out + ("(" + body + ")") && z.depth == 0 && !z.dropping
  {
    assert x.out + ("(" + body + ")") == (x.out + "(" + body) + [')'];
  }

  lemma {:induction false} SameRun(u: RuneTables, a: string, a': string, b: string)
    requires Run(u, a) == Run(u, a')
    ensures Run(u, a + b) == Run(u, a' + b)
    decreases |b|
  {
    if b == "" {
      assert a + b == a && a' + b == a';
    } else {
      RunSnoc(u, a, b[0]);
      RunSnoc(u, a', b[0]);
      SameRun(u, a + [b[0]], a' + [b[0]], b[1..]);
      HeadTail(a, b);
      HeadTail(a', b);
    }
  }

  /** A group after two tokens or more is dropped, wherever it stands and whatever follows. */
  lemma GroupGoes(u: RuneTables, a: string, body: string, b: string)
    requires u.Valid() && Settled(u, a) && WellNested(body) && 2 <= |Tokens(u, a)|
    ensures Reduced(u, a + "(" + body + ")" + b) == Reduced(u, a + b)
  {
    RunGroup(u, a, body);
    SameRun(u, a + "(" + body + ")", a, b);
    RunIsReduced(u, a + "(" + body + ")" + b);
    RunIsReduced(u, a + b);
  }

  /** A group after fewer tokens stays as it is. */
  lemma GroupStays(u: RuneTables, a: string, body: string)
    requires u.Valid() && Settled(u, a) && WellNested(body) && |Tokens(u, a)| < 2
    ensures Reduced(u, a + "(" + body + ")") == Reduced(u, a) + "(" + body + ")"
    ensures Settled(u, a + "(" + body + ")")
  {
    RunGroup(u, a, body);
    RunIsReduced(u, a);
    RunIsReduced(u, a + "(" + body + ")");
    assert Reduced(u, a) + ("(" + body + ")") == Reduced(u, a) + "(" + body + ")";
  }

  /** A group that is never closed goes or stays as a whole, by the same rule. */
  lemma UnclosedGroup(u: RuneTables, a: string, body: string)
    requires u.Valid() && Settled(u, a) && StaysInside(body)
    ensures Reduced(u, a + "(" + body) == if 2 <= |Tokens(u, a)| then Reduced(u, a) else Reduced(u, a) + "(" + body
  {
    RunInside(u, a, body);
    CounterIsTokenCount(u, a, |a|);
    RunIsReduced(u, a);
    RunIsReduced(u, a + "(" + body);
  }

  lemma OutsideStep(u: RuneTables, x: Scan, r: char)
    requires x.depth == 0 && !x.dropping && r != '('
    ensures var y := Step(u, x, r); y.depth == 0 && !y.dropping && y.out == x.out + [r]
  {
  }

  lemma {:induction false} RunOutside(u: RuneTables, a: string, b: string)
    requires u.Valid() && Settled(u, a) && '(' !in b
    ensures Settled(u, a + b) && Run(u, a + b).out == Run(u, a).out + b
    decreases |b|
  {
    RunCounts(u, a);
    if b == "" {
      assert a + b == a && Run(u, a).out + b == Run(u, a).out;
    } else {
      RunSnoc(u, a, b[0]);
      OutsideStep(u, Run(u, a), b[0]);
      RunOutside(u, a + [b[0]], b[1..]);
      HeadTail(a, b);
      HeadTail(Run(u, a).out, b);
    }
  }

  /** Text outside groups stays, stray closing parentheses included. */
  lemma OutsideStays(u: RuneTables, a: string, b: string)
    requires u.Valid() && Settled(u, a) && '(' !in b
    ensures Reduced(u, a + b) == Reduced(u, a) + b && Settled(u, a + b)
  {
    RunOutside(u, a, b);
    RunIsReduced(u, a);
    RunIsReduced(u, a + b);
  }

  // ----- Renderings

  /** The runes of a text that are no spaces. */
  function Visible(u: RuneTables, s: string): string {
    if s == "" then ""
    else Visible(u, s[..|s| - 1]) + if u.space(s[|s| - 1]) then "" else [s[|s| - 1]]
  }

  lemma VisibleSnoc(u: RuneTables, s: string, r: char)
    ensures Visible(u, s + [r]) == Visible(u, s) + if u.space(r) then "" else [r]
  {
    assert (s + [r])[..|s|] == s;
  }

  /** Spaces in d are single blanks between other runes. */
  ghost predicate SingleBlanks(u: RuneTables, d: string) {
    forall k :: 0 <= k < |d| && u.space(d[k]) ==>
      d[k] == ' ' && 0 < k < |d| - 1 && !u.space(d[k - 1]) && !u.space(d[k + 1])
  }

  lemma BlanksSnoc(u: RuneTables, d: string, r: char)
    requires SingleBlanks(u, d) && !u.space(r)
    ensures SingleBlanks(u, d + [r]) && (d != "" && u.space(' ') ==> SingleBlanks(u, (d + " ") + [r]))
  {
    if d != "" {
      assert !u.space(d[|d| - 1]);
    }
  }

  ghost predicate Keeps(u: RuneTables, e: string) {
    var f, d := Fields(u, e), Join(Fields(u, e).Flush());
    && Visible(u, d) == Visible(u, e) && SingleBlanks(u, d)
    && (d == "" ==> f.open == "" && f.done == []) && forall k :: 0 <= k < |f.done| ==> f.done[k] != ""
  }

  /** The collapsed form grows by what the text grows by. */
  lemma GrowKeeps(u: RuneTables, d: string, e: string, r: char, gap: bool)
    requires u.Valid() && Visible(u, d) == Visible(u, e) && SingleBlanks(u, d) && !u.space(r) && (gap ==> d != "")
    ensures var d' := if gap then (d + " ") + [r] else d + [r];
            Visible(u, d') == Visible(u, e + [r]) && SingleBlanks(u, d')
  {
    VisibleSnoc(u, e, r);
    VisibleSnoc(u, d, r);
    VisibleSnoc(u, d, ' ');
    VisibleSnoc(u, d + " ", r);
    BlanksSnoc(u, d, r);
  }

  lemma KeepsSpace(u: RuneTables, p: string, r: char)
    requires u.Valid() && Keeps(u, p) && u.space(r)
    ensures Keeps(u, p + [r])
  {
    CollapseRune(u, p, r);
    FieldsSnoc(u, p, r);
    VisibleSnoc(u, p, r);
  }

  lemma KeepsRune(u: RuneTables, p: string, r: char)
    requires u.Valid() && Keeps(u, p) && !u.space(r)
    ensures Keeps(u, p + [r])
  {
    var f, d := Fields(u, p), Join(Fields(u, p).Flush());
    var gap := f.open == "" && f.done != [];
    assert gap ==> d != "";
    GrowKeeps(u, d, p, r, gap);
    CollapseRune(u, p, r);
    FieldsSnoc(u, p, r);
  }

  lemma {:induction false} CollapseKeeps(u: RuneTables, e: string)
    requires u.Valid()
    ensures Keeps(u, e)
  {
    if e != "" {
      assert e == e[..|e| - 1] + [e[|e| - 1]];
      CollapseKeeps(u, e[..|e| - 1]);
      if u.space(e[|e| - 1]) {
        KeepsSpace(u, e[..|e| - 1], e[|e| - 1]);
      } else {
        KeepsRune(u, e[..|e| - 1], e[|e| - 1]);
      }
    }
  }

  /** A rendering has every rune of the reduced name that is no space, as it was written, in order,
      and nothing else but single blanks between them: case and accents survive. */
  lemma DisplayKeepsRunes(u: RuneTables, s: string)
    requires u.Valid()
    ensures Visible(u, Display(u, s)) == Visible(u, Reduced(u, s)) && SingleBlanks(u, Display(u, s))
  {
    CollapseKeeps(u, Reduced(u, s));
  }

  /** A word as a source writes it, apart from parentheticals. */
  predicate WrittenWord(u: RuneTables, w: string) {
    w != "" && '(' !in w && forall k :: 0 <= k < |w| ==> !u.space(w[k])
  }

  lemma {:induction false} FieldsOfJoin(u: RuneTables, ws: seq<string>)
    requires u.Valid() && forall k :: 0 <= k < |ws| ==> WrittenWord(u, ws[k])
    ensures Fields(u, Join(ws)).Flush() == ws && '(' !in Join(ws)
  {
    if ws != [] {
      var init, last := ws[..|ws| - 1], ws[|ws| - 1];
      assert ws == init + [last];
      FieldsOfJoin(u, init);
      JoinSnoc(init, last);
      if init == [] {
        FieldsOfWord(u, "", last);
        assert "" + last == last;
      } else {
        FieldsSnoc(u, Join(init), ' ');
        FieldsOfWord(u, Join(init) + " ", last);
        assert "" + last == last;
      }
    }
  }

  /** Words with single blanks between them are rendered as they are. */
  lemma WordsAreRendered(u: RuneTables, ws: seq<string>)
    requires u.Valid() && forall k :: 0 <= k < |ws| ==> WrittenWord(u, ws[k])
    ensures Display(u, Join(ws)) == Join(ws)
  {
    FieldsOfJoin(u, ws);
    NothingToDrop(u, "", Join(ws));
    assert "" + Join(ws) == Join(ws);
  }
}
