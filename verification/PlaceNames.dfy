/** Place-name scanning, tokenizing, rendering and matching (geolocate/placename.go). */
module PlaceNames {
  import opened Runes

  const DROP_MIN_TOKENS := 2

  // ----- Reference definitions

  /** Tokens found so far: the closed ones, and the one still open ("" when none is). */
  datatype Segments = Segments(done: seq<string>, open: string) {
    function Flush(): seq<string> {
      if open == "" then done else done + [open]
    }
  }

  /** What a letter or digit contributes to its token: lower-cased, accents folded to ASCII. */
  function Folded(u: RuneTables, r: char): string {
    var l := u.lower(r);
    if !IsPlain(l) && l in u.fold then u.fold[l] else [l]
  }

  /** The segmentation rule: letters and digits extend a token, combining marks are
      transparent, every other rune separates. */
  function Segment(u: RuneTables, s: string): Segments {
    if s == "" then Segments([], "") else SegmentRune(u, Segment(u, s[..|s| - 1]), s[|s| - 1])
  }

  function SegmentRune(u: RuneTables, g: Segments, r: char): Segments {
    if u.mark(r) then g
    else if u.Word(r) then g.(open := g.open + Folded(u, r))
    else Segments(g.Flush(), "")
  }

  /** Length of the rest of a group, up to and including the ')' that brings `depth` back to
      0; all of `s` when the group is never closed. */
  function GroupLength(s: string, depth: nat): (n: nat)
    requires depth > 0
    ensures n <= |s| && (s != "" ==> n > 0)
  {
    if s == "" then 0
    else if s[0] == '(' then 1 + GroupLength(s[1..], depth + 1)
    else if s[0] != ')' then 1 + GroupLength(s[1..], depth)
    else if depth == 1 then 1
    else 1 + GroupLength(s[1..], depth - 1)
  }

  /** The parenthetical rule, group by group: an outermost group goes when at least
      DROP_MIN_TOKENS tokens precede it in the text kept so far, and stays otherwise. */
  function DropGroups(u: RuneTables, kept: string, s: string): string
    decreases |s|
  {
    if s == "" then kept
    else if s[0] != '(' then DropGroups(u, kept + [s[0]], s[1..])
    else
      var n := 1 + GroupLength(s[1..], 1);
      DropGroups(u, if DROP_MIN_TOKENS <= |Segment(u, kept).Flush()| then kept else kept + s[..n], s[n..])
  }

  function Reduced(u: RuneTables, s: string): string {
    DropGroups(u, "", s)
  }

  function Tokens(u: RuneTables, s: string): seq<string> {
    Segment(u, Reduced(u, s)).Flush()
  }

  function Display(u: RuneTables, s: string): string {
    Join(Fields(u, Reduced(u, s)).Flush())
  }

  /** strings.Fields as a left fold: maximal runs of non-space runes. */
  function Fields(u: RuneTables, s: string): Segments {
    if s == "" then Segments([], "") else FieldsRune(u, Fields(u, s[..|s| - 1]), s[|s| - 1])
  }

  function FieldsRune(u: RuneTables, g: Segments, r: char): Segments {
    if u.space(r) then Segments(g.Flush(), "") else g.(open := g.open + [r])
  }

  /** strings.Join(parts, " ") */
  function Join(parts: seq<string>): string {
    if |parts| == 0 then ""
    else if |parts| == 1 then parts[0]
    else Join(parts[..|parts| - 1]) + " " + parts[|parts| - 1]
  }

  predicate IsPrefix(short: seq<string>, long: seq<string>) {
    short != [] && short <= long
  }

  predicate Match(a: seq<string>, b: seq<string>) {
    IsPrefix(a, b) || IsPrefix(b, a)
  }

  // ----- The scanner

  /** The local variables of reduceParentheticals. */
  datatype Scan = Scan(depth: nat, tokens: nat, inToken: bool, dropping: bool, out: string)

  const START := Scan(0, 0, false, false, "")

  function Emit(u: RuneTables, st: Scan, r: char): Scan {
    if u.mark(r) then st.(out := st.out + [r])
    else if u.letter(r) || u.digit(r) then
      st.(tokens := if st.inToken then st.tokens else st.tokens + 1, inToken := true, out := st.out + [r])
    else st.(inToken := false, out := st.out + [r])
  }

  function Step(u: RuneTables, st: Scan, r: char): Scan {
    var st := if r == '(' then
                var dropping := if st.depth == 0 then DROP_MIN_TOKENS <= st.tokens else st.dropping;
                st.(dropping := dropping, depth := st.depth + 1)
              else if r == ')' && 0 < st.depth then st.(depth := st.depth - 1)
              else st;
    var st := if st.dropping then st else Emit(u, st, r);
    if r == ')' && st.depth == 0 then st.(dropping := false) else st
  }

  function Run(u: RuneTables, s: string): Scan {
    if s == "" then START else Step(u, Run(u, s[..|s| - 1]), s[|s| - 1])
  }

  /** The running counter counts the segments of the emitted text, and `inToken` says whether
      the last of them is still open: marks, digits and dropped groups included. */
  ghost predicate Counts(u: RuneTables, st: Scan) {
    var g := Segment(u, st.out);
    st.tokens == |g.Flush()| && st.inToken == (g.open != "")
  }

  lemma SegmentSnoc(u: RuneTables, s: string, r: char)
    ensures Segment(u, s + [r]) == SegmentRune(u, Segment(u, s), r)
  {
    assert (s + [r])[..|s|] == s;
  }

  lemma FieldsSnoc(u: RuneTables, s: string, r: char)
    ensures Fields(u, s + [r]) == FieldsRune(u, Fields(u, s), r)
  {
    assert (s + [r])[..|s|] == s;
  }

  lemma RunSnoc(u: RuneTables, s: string, r: char)
    ensures Run(u, s + [r]) == Step(u, Run(u, s), r)
  {
    assert (s + [r])[..|s|] == s;
  }

  lemma StepCounts(u: RuneTables, st: Scan, r: char)
    requires u.Valid() && Counts(u, st)
    ensures Counts(u, Step(u, st, r))
  {
    SegmentSnoc(u, st.out, r);
  }

  lemma {:induction false} RunCounts(u: RuneTables, s: string)
    requires u.Valid()
    ensures Counts(u, Run(u, s))
    ensures Run(u, s).dropping ==> Run(u, s).depth > 0
  {
    if s != "" {
      RunCounts(u, s[..|s| - 1]);
      StepCounts(u, Run(u, s[..|s| - 1]), s[|s| - 1]);
    }
  }

  /** The text kept and the text left once the group the scanner is in has been settled. */
  ghost function Settle(st: Scan, rest: string): (string, string) {
    if st.depth == 0 then (st.out, rest)
    else
      var n := GroupLength(rest, st.depth);
      (if st.dropping then st.out else st.out + rest[..n], rest[n..])
  }

  lemma TakeFirst(out: string, rest: string, n: nat)
    requires 0 < n <= |rest|
    ensures out + rest[..n] == (out + [rest[0]]) + rest[1..][..n - 1]
  {
  }

  /** Inside a group: consuming one rune leaves the group's end where it was. */
  lemma SettleInside(u: RuneTables, st: Scan, rest: string)
    requires rest != "" && st.depth > 0
    ensures Settle(st, rest) == Settle(Step(u, st, rest[0]), rest[1..])
  {
    var r, tail, st' := rest[0], rest[1..], Step(u, st, rest[0]);
    var n := GroupLength(rest, st.depth);
    assert rest[n..] == tail[n - 1..];
    TakeFirst(st.out, rest, n);
    if st'.depth == 0 {
      assert n == 1 && rest[1..] == tail;
      assert rest[..1] == [r];
    } else {
      assert n == 1 + GroupLength(tail, st'.depth);
      assert st'.dropping == st.dropping;
    }
  }

  /** What the group rule makes of `rest` when the scanner stands at `st`. */
  ghost function Resume(u: RuneTables, st: Scan, rest: string): string {
    DropGroups(u, Settle(st, rest).0, Settle(st, rest).1)
  }

  lemma ResumeStep(u: RuneTables, st: Scan, rest: string)
    requires u.Valid() && Counts(u, st) && rest != "" && (st.dropping ==> st.depth > 0)
    ensures Resume(u, st, rest) == Resume(u, Step(u, st, rest[0]), rest[1..])
  {
    var r, tail, st' := rest[0], rest[1..], Step(u, st, rest[0]);
    if st.depth > 0 {
      SettleInside(u, st, rest);
    } else if r == '(' {
      var n := 1 + GroupLength(tail, 1);
      assert rest[n..] == tail[n - 1..];
      TakeFirst(st.out, rest, n);
    }
  }

  lemma {:induction false} ResumeAt(u: RuneTables, s: string, i: nat)
    requires u.Valid() && i <= |s|
    ensures Resume(u, Run(u, s[..i]), s[i..]) == Reduced(u, s)
  {
    if i == 0 {
      assert s[0..] == s;
    } else {
      ResumeAt(u, s, i - 1);
      RunCounts(u, s[..i - 1]);
      assert s[..i][..i - 1] == s[..i - 1] && s[i - 1..][1..] == s[i..];
      ResumeStep(u, Run(u, s[..i - 1]), s[i - 1..]);
    }
  }

  lemma ResumeNothing(u: RuneTables, st: Scan)
    ensures Resume(u, st, "") == st.out
  {
    assert st.out + "" == st.out;
  }

  /** The one-pass scanner computes the group-by-group rule. */
  lemma RunIsReduced(u: RuneTables, s: string)
    requires u.Valid()
    ensures Run(u, s).out == Reduced(u, s)
  {
    assert s[..|s|] == s && s[|s|..] == "";
    ResumeAt(u, s, |s|);
    ResumeNothing(u, Run(u, s));
  }

  // ----- Properties of the scanner

  /** The scan with the group being dropped taken out of it. */
  function WithoutDropped(st: Scan): Scan {
    st.(depth := if st.dropping then 0 else st.depth, dropping := false)
  }

  lemma RescanStep(u: RuneTables, st: Scan, r: char)
    requires u.Valid() && (st.dropping ==> st.depth > 0)
    ensures var st' := Step(u, st, r);
            if st'.out == st.out then WithoutDropped(st') == WithoutDropped(st)
            else st'.out == st.out + [r] && WithoutDropped(st') == Step(u, WithoutDropped(st), r)
  {
  }

  /** Scanning the emitted text again retraces the first scan, minus the dropped groups. */
  lemma {:induction false} Rescan(u: RuneTables, s: string)
    requires u.Valid()
    ensures Run(u, Run(u, s).out) == WithoutDropped(Run(u, s))
  {
    if s != "" {
      var p, r := s[..|s| - 1], s[|s| - 1];
      Rescan(u, p);
      RunCounts(u, p);
      var prev := Run(u, p);
      RescanStep(u, prev, r);
      RunSnoc(u, prev.out, r);
    }
  }

  /** Reducing twice is reducing once, whatever is nested, unclosed or stray. */
  lemma ReduceIdempotent(u: RuneTables, s: string)
    requires u.Valid()
    ensures Reduced(u, Reduced(u, s)) == Reduced(u, s)
  {
    RunIsReduced(u, s);
    Rescan(u, s);
    RunIsReduced(u, Reduced(u, s));
  }

  /** At every point of the scan the running counter is the number of tokens PlaceTokens
      finds in the text emitted so far; at the end, in the whole name. */
  lemma CounterIsTokenCount(u: RuneTables, s: string, i: nat)
    requires u.Valid() && i <= |s|
    ensures Run(u, s[..i]).tokens == |Tokens(u, Run(u, s[..i]).out)|
    ensures Run(u, s).tokens == |Tokens(u, s)|
  {
    RunCounts(u, s[..i]);
    RunIsReduced(u, s[..i]);
    ReduceIdempotent(u, s[..i]);
    RunCounts(u, s);
    RunIsReduced(u, s);
  }

  // ----- Display and matching agree

  ghost predicate KeptWhole(u: RuneTables, e: string) {
    Run(u, e).out == e
  }

  lemma {:induction false} OutLength(u: RuneTables, s: string)
    ensures |Run(u, s).out| <= |s|
  {
    if s != "" { OutLength(u, s[..|s| - 1]); }
  }

  lemma KeptWholePrefix(u: RuneTables, e: string)
    requires e != "" && KeptWhole(u, e)
    ensures KeptWhole(u, e[..|e| - 1])
  {
    OutLength(u, e[..|e| - 1]);
    assert |Run(u, e).out| == |e|;
    assert Run(u, e).out == Run(u, e[..|e| - 1]).out + [e[|e| - 1]];
  }

  /** Where the scan, the segmentation and the field split stand after a text. */
  datatype Reading = Reading(scan: Scan, seg: Segments, fields: Segments)

  ghost function Read(u: RuneTables, s: string): Reading {
    Reading(Run(u, s), Segment(u, s), Fields(u, s))
  }

  function ReadRune(u: RuneTables, x: Reading, r: char): Reading {
    Reading(Step(u, x.scan, r), SegmentRune(u, x.seg, r), FieldsRune(u, x.fields, r))
  }

  lemma ReadSnoc(u: RuneTables, s: string, r: char)
    ensures Read(u, s + [r]) == ReadRune(u, Read(u, s), r)
  {
    RunSnoc(u, s, r);
    SegmentSnoc(u, s, r);
    FieldsSnoc(u, s, r);
  }

  /** The readings of a text and of its whitespace-collapsed form: equal, unless the text ends
      in spaces that the collapsed form does not have. */
  predicate Similar(e: Reading, d: Reading) {
    && !e.scan.dropping && !d.scan.dropping
    && e.scan.depth == d.scan.depth && e.scan.tokens == d.scan.tokens
    && if e.fields.open != "" then
         e.scan.inToken == d.scan.inToken && e.seg == d.seg && e.fields == d.fields
       else
         && !e.scan.inToken && e.seg == Segments(d.seg.Flush(), "") && e.fields == Segments(d.fields.Flush(), "")
         && (e.fields.done == [] ==> !d.scan.inToken && d.seg == d.fields == Segments([], ""))
  }

  /** What collapsing does to the collapsed form when the text grows by `r`. */
  lemma SimilarStep(u: RuneTables, e: Reading, d: Reading, r: char)
    requires u.Valid() && Similar(e, d) && Step(u, e.scan, r).out == e.scan.out + [r]
    ensures !Step(u, e.scan, r).dropping
    ensures if u.space(r) then Similar(ReadRune(u, e, r), d)
            else if e.fields.open != "" || e.fields.done == [] then
              Similar(ReadRune(u, e, r), ReadRune(u, d, r)) && Step(u, d.scan, r).out == d.scan.out + [r]
            else
              var gap := ReadRune(u, d, ' ');
              && gap.scan.out == d.scan.out + " " && Step(u, gap.scan, r).out == gap.scan.out + [r]
              && Similar(ReadRune(u, e, r), ReadRune(u, gap, r))
  {
  }

  lemma CollapseRune(u: RuneTables, p: string, r: char)
    requires u.Valid()
    ensures var f, d, d' := Fields(u, p), Join(Fields(u, p).Flush()), Join(Fields(u, p + [r]).Flush());
            d' == if u.space(r) then d else if f.open != "" || f.done == [] then d + [r] else (d + " ") + [r]
  {
    var f := Fields(u, p);
    FieldsSnoc(u, p, r);
    if !u.space(r) {
      JoinSnoc(f.done, f.open);
      JoinSnoc(f.done, f.open + [r]);
    }
  }

  /** Collapsing changes nothing the scanner and the tokenizer look at. */
  ghost predicate Collapses(u: RuneTables, e: string) {
    var d := Join(Fields(u, e).Flush());
    KeptWhole(u, d) && Similar(Read(u, e), Read(u, d))
  }

  lemma CollapseStep(u: RuneTables, p: string, r: char)
    requires u.Valid() && KeptWhole(u, p) && KeptWhole(u, p + [r]) && Collapses(u, p)
    ensures Collapses(u, p + [r])
  {
    var d := Join(Fields(u, p).Flush());
    RunSnoc(u, p, r);
    SimilarStep(u, Read(u, p), Read(u, d), r);
    ReadSnoc(u, p, r);
    CollapseRune(u, p, r);
    ReadSnoc(u, d, r);
    ReadSnoc(u, d, ' ');
    ReadSnoc(u, d + " ", r);
  }

  /** Collapsing a text that the scanner keeps whole gives a text that it keeps whole, with the
      same reading. */
  lemma {:induction false} CollapseText(u: RuneTables, e: string)
    requires u.Valid() && KeptWhole(u, e)
    ensures var d := Join(Fields(u, e).Flush());
            KeptWhole(u, d) && Similar(Read(u, e), Read(u, d))
  {
    if e != "" {
      var p, r := e[..|e| - 1], e[|e| - 1];
      assert e == p + [r];
      KeptWholePrefix(u, e);
      CollapseText(u, p);
      CollapseStep(u, p, r);
    }
  }

  lemma JoinSnoc(parts: seq<string>, last: string)
    ensures Join(parts + [last]) == if parts == [] then last else Join(parts) + " " + last
  {
    assert (parts + [last])[..|parts|] == parts;
  }

  /** The stored name says exactly what was matched: rendering a name keeps its tokens, and
      rendering it again changes nothing. */
  lemma DisplayAgrees(u: RuneTables, s: string)
    requires u.Valid()
    ensures Tokens(u, Display(u, s)) == Tokens(u, s)
    ensures Display(u, Display(u, s)) == Display(u, s)
  {
    var e, d := Reduced(u, s), Display(u, s);
    RunIsReduced(u, s);
    Rescan(u, s);
    CollapseText(u, e);
    RunIsReduced(u, d);
  }

  /** A name with a token has a non-empty rendering. */
  lemma DisplayNonEmpty(u: RuneTables, s: string)
    requires u.Valid() && Tokens(u, s) != []
    ensures Display(u, s) != ""
  {
    DisplayAgrees(u, s);
  }

  // ----- Tokens are a normal form

  ghost predicate Canonical(u: RuneTables, t: string) {
    forall k :: 0 <= k < |t| ==> u.Word(t[k]) && Folded(u, t[k]) == [t[k]]
  }

  lemma FoldedCanonical(u: RuneTables, r: char)
    requires u.Valid() && u.Word(r)
    ensures Folded(u, r) != "" && Canonical(u, Folded(u, r))
  {
    var l, f := u.lower(r), Folded(u, r);
    if !IsPlain(l) && l in u.fold {
      forall k | 0 <= k < |f| ensures u.Word(f[k]) && Folded(u, f[k]) == [f[k]] { assert IsPlain(f[k]); }
    }
  }

  lemma {:induction false} SegmentCanonical(u: RuneTables, s: string)
    requires u.Valid()
    ensures var g := Segment(u, s);
            Canonical(u, g.open) && forall k :: 0 <= k < |g.done| ==> g.done[k] != "" && Canonical(u, g.done[k])
  {
    if s != "" {
      SegmentCanonical(u, s[..|s| - 1]);
      if u.Word(s[|s| - 1]) { FoldedCanonical(u, s[|s| - 1]); }
    }
  }

  lemma {:induction false} SegmentWord(u: RuneTables, s: string, t: string)
    requires Canonical(u, t)
    decreases |t|
    ensures Segment(u, s + t) == Segment(u, s).(open := Segment(u, s).open + t)
  {
    if t == "" {
      assert s + t == s;
      assert Segment(u, s).open + t == Segment(u, s).open;
    } else {
      var s', g := s + [t[0]], Segment(u, s);
      assert Segment(u, s') == g.(open := g.open + [t[0]]) by { SegmentSnoc(u, s, t[0]); }
      SegmentWord(u, s', t[1..]);
      assert s' + t[1..] == s + t && (g.open + [t[0]]) + t[1..] == g.open + t;
    }
  }

  lemma SegmentAfterGap(u: RuneTables, s: string, t: string)
    requires u.Valid() && Canonical(u, t)
    ensures Segment(u, (s + " ") + t) == Segments(Segment(u, s).Flush(), t)
  {
    SegmentSnoc(u, s, ' ');
    SegmentWord(u, s + " ", t);
    assert "" + t == t;
  }

  ghost predicate CanonicalTokens(u: RuneTables, ts: seq<string>) {
    forall k :: 0 <= k < |ts| ==> ts[k] != "" && Canonical(u, ts[k])
  }

  lemma SegmentOneMore(u: RuneTables, init: seq<string>, last: string)
    requires u.Valid() && Canonical(u, last) && last != "" && Segment(u, Join(init)).Flush() == init
    ensures Segment(u, Join(init + [last])).Flush() == init + [last]
  {
    JoinSnoc(init, last);
    if init == [] {
      SegmentWord(u, "", last);
      assert "" + last == last;
    } else {
      SegmentAfterGap(u, Join(init), last);
    }
  }

  lemma {:induction false} SegmentJoin(u: RuneTables, ts: seq<string>)
    requires u.Valid() && CanonicalTokens(u, ts)
    ensures Segment(u, Join(ts)).Flush() == ts
  {
    if ts != [] {
      var init, last := ts[..|ts| - 1], ts[|ts| - 1];
      assert ts == init + [last];
      SegmentJoin(u, init);
      SegmentOneMore(u, init, last);
    }
  }

  lemma {:induction false} NoGroupInJoin(u: RuneTables, ts: seq<string>)
    requires u.Valid() && CanonicalTokens(u, ts)
    ensures '(' !in Join(ts)
  {
    if ts != [] { NoGroupInJoin(u, ts[..|ts| - 1]); }
  }

  lemma {:induction false} NothingToDrop(u: RuneTables, kept: string, s: string)
    requires '(' !in s
    ensures DropGroups(u, kept, s) == kept + s
    decreases |s|
  {
    if s != "" { NothingToDrop(u, kept + [s[0]], s[1..]); }
  }

  /** Tokenizing the joined tokens gives the same tokens back. */
  lemma TokensNormalForm(u: RuneTables, s: string)
    requires u.Valid()
    ensures Tokens(u, Join(Tokens(u, s))) == Tokens(u, s)
  {
    SegmentCanonical(u, Reduced(u, s));
    SegmentJoin(u, Tokens(u, s));
    NoGroupInJoin(u, Tokens(u, s));
    NothingToDrop(u, "", Join(Tokens(u, s)));
    assert "" + Join(Tokens(u, s)) == Join(Tokens(u, s));
  }

  /** Matching is not transitive: a short name matches two longer ones that disagree. */
  lemma MatchNotTransitive()
    ensures exists a, b, c :: Match(a, b) && Match(b, c) && !Match(a, c)
  {
    var a, b, c := ["frankfurt", "am", "main"], ["frankfurt"], ["frankfurt", "oder"];
    assert a[1] != c[1];
    assert b <= a && b <= c;
    assert Match(a, b) && Match(b, c) && !Match(a, c);
  }

  // ----- The code

  method ReduceParentheticals(u: RuneTables, s: string) returns (out: string)
    requires u.Valid()
    ensures out == Reduced(u, s)
  {
    if '(' !in s {
      NothingToDrop(u, "", s);
      assert "" + s == s;
      return s;
    }
    out := "";
    var depth, tokens := 0, 0;
    var inToken, dropping := false, false;
    for i := 0 to |s|
      invariant 0 <= depth && 0 <= tokens
      invariant Scan(depth, tokens, inToken, dropping, out) == Run(u, s[..i])
    {
      var r := s[i];
      assert s[..i + 1] == s[..i] + [r];
      RunSnoc(u, s[..i], r);
      if r == '(' {
        if depth == 0 {
          dropping := DROP_MIN_TOKENS <= tokens;
        }
        depth := depth + 1;
      } else if r == ')' {
        if 0 < depth {
          depth := depth - 1;
        }
      }
      if !dropping {
        if u.mark(r) {
        } else if u.letter(r) || u.digit(r) {
          if !inToken {
            tokens := tokens + 1;
            inToken := true;
          }
        } else {
          inToken := false;
        }
        out := out + [r];
      }
      if r == ')' && depth == 0 {
        dropping := false;
      }
    }
    assert s[..|s|] == s;
    RunIsReduced(u, s);
  }

  lemma {:induction false} FieldsOfWord(u: RuneTables, s: string, t: string)
    requires forall k :: 0 <= k < |t| ==> !u.space(t[k])
    decreases |t|
    ensures Fields(u, s + t) == Fields(u, s).(open := Fields(u, s).open + t)
  {
    if t == "" {
      assert s + t == s;
      assert Fields(u, s).open + t == Fields(u, s).open;
    } else {
      var s', g := s + [t[0]], Fields(u, s);
      assert Fields(u, s') == g.(open := g.open + [t[0]]) by { FieldsSnoc(u, s, t[0]); }
      FieldsOfWord(u, s', t[1..]);
      assert s' + t[1..] == s + t && (g.open + [t[0]]) + t[1..] == g.open + t;
    }
  }

  method PlaceTokens(u: RuneTables, s: string) returns (tokens: seq<string>)
    requires u.Valid()
    ensures tokens == Tokens(u, s)
  {
    var reduced := ReduceParentheticals(u, s);
    var lowered := MapRunes(u.lower, reduced);
    var b := "";
    for i := 0 to |lowered|
      invariant Fields(u, b) == Segment(u, reduced[..i])
    {
      var r := lowered[i];
      var before := b;
      if u.mark(r) {
      } else if IsPlain(r) {
        b := b + [r];
      } else if r in u.fold {
        b := b + u.fold[r];
      } else if u.letter(r) || u.digit(r) {
        b := b + [r];
      } else {
        b := b + " ";
      }
      assert reduced[..i + 1] == reduced[..i] + [reduced[i]];
      SegmentSnoc(u, reduced[..i], reduced[i]);
      if u.Word(reduced[i]) {
        FoldedCanonical(u, reduced[i]);
        FieldsOfWord(u, before, Folded(u, reduced[i]));
      } else if !u.mark(r) {
        FieldsSnoc(u, before, ' ');
      }
    }
    assert reduced[..|reduced|] == reduced;
    tokens := Fields(u, b).Flush();
  }

  method PlaceDisplay(u: RuneTables, s: string) returns (d: string)
    requires u.Valid()
    ensures d == Display(u, s)
    ensures Tokens(u, d) == Tokens(u, s)
  {
    DisplayAgrees(u, s);
    var reduced := ReduceParentheticals(u, s);
    d := Join(Fields(u, reduced).Flush());
  }

  method TokensPrefixOrEqual(short: seq<string>, long: seq<string>) returns (yes: bool)
    ensures yes == IsPrefix(short, long)
  {
    if |short| == 0 || |long| == 0 || |long| < |short| {
      return false;
    }
    for i := 0 to |short|
      invariant short[..i] == long[..i]
    {
      if short[i] != long[i] {
        assert !(short <= long);
        return false;
      }
      assert short[..i + 1] == short[..i] + [short[i]] && long[..i + 1] == long[..i] + [long[i]];
    }
    return true;
  }

  /** Two raw names match when one names the other's leading tokens. The relation is symmetric,
      and a name without tokens matches nothing, itself included. */
  method PlaceNamesMatch(u: RuneTables, a: string, b: string) returns (yes: bool)
    requires u.Valid()
    ensures yes == Match(Tokens(u, b), Tokens(u, a))
    ensures Tokens(u, a) == [] ==> !yes
  {
    var ta := PlaceTokens(u, a);
    var tb := PlaceTokens(u, b);
    yes := TokensPrefixOrEqual(ta, tb);
    if !yes {
      yes := TokensPrefixOrEqual(tb, ta);
    }
  }
}
