/** What the country vote and the gates of Submit mean, said without the functions that compute
    them (geolocate/consensus.go, geolocate/countries.go, ingest/ingest.go). */
module CountryLaws {
  import opened Agreement
  import opened Consensus
  import opened Counting
  import opened Runes

  // ----- Codes

  /** t is s without the spaces around it. */
  ghost predicate Core(u: RuneTables, s: string, t: string) {
    && (t != "" ==> !u.space(t[0]) && !u.space(t[|t| - 1]))
    && exists a, b :: AllSpace(u, a) && AllSpace(u, b) && s == a + t + b
  }

  lemma CoreIsTrim(u: RuneTables, s: string, t: string)
    ensures Core(u, s, t) <==> t == Trim(u, s)
  {
    var a, b := TrimCuts(u, s);
    assert Core(u, s, Trim(u, s));
    if Core(u, s, t) {
      var c, d :| AllSpace(u, c) && AllSpace(u, d) && s == c + t + d;
      TrimOf(u, c, t, d);
    }
  }

  /** A code is compared without the spaces around it and in lower case, rune by rune. */
  lemma NormalForm(u: RuneTables, code: string, t: string)
    requires Core(u, code, t)
    ensures var n := Normalize(u, code);
            |n| == |t| && forall k :: 0 <= k < |t| ==> n[k] == u.lower(t[k])
  {
    CoreIsTrim(u, code, t);
  }

  lemma Regroup(a: string, c: string, t: string, d: string, b: string)
    ensures a + (c + t + d) + b == (a + c) + t + (d + b)
  {
  }

  lemma LowerConcat(f: char -> char, c: string, t: string, d: string)
    ensures MapRunes(f, c + t + d) == MapRunes(f, c) + MapRunes(f, t) + MapRunes(f, d)
  {
  }

  lemma LowerTwice(u: RuneTables, t: string)
    requires u.Valid()
    ensures MapRunes(u.lower, MapRunes(u.lower, t)) == MapRunes(u.lower, t)
  {
  }

  lemma SpacesDoNotVote(u: RuneTables, a: string, code: string, b: string)
    requires AllSpace(u, a) && AllSpace(u, b)
    ensures Normalize(u, a + code + b) == Normalize(u, code)
  {
    var c, d := TrimCuts(u, code);
    Regroup(a, c, Trim(u, code), d, b);
    TrimOf(u, a + c, Trim(u, code), d + b);
  }

  lemma CaseDoesNotVote(u: RuneTables, code: string)
    requires u.Valid()
    ensures Normalize(u, MapRunes(u.lower, code)) == Normalize(u, code)
  {
    var c, d := TrimCuts(u, code);
    var t := Trim(u, code);
    LowerConcat(u.lower, c, t, d);
    TrimOf(u, MapRunes(u.lower, c), MapRunes(u.lower, t), MapRunes(u.lower, d));
    LowerTwice(u, t);
  }

  /** Neither case nor the spaces around a code matter to the vote. */
  lemma SameVote(u: RuneTables, a: string, code: string, b: string)
    requires u.Valid() && AllSpace(u, a) && AllSpace(u, b)
    ensures Normalize(u, a + MapRunes(u.lower, code) + b) == Normalize(u, a + code + b) == Normalize(u, code)
  {
    SpacesDoNotVote(u, a, code, b);
    SpacesDoNotVote(u, a, MapRunes(u.lower, code), b);
    CaseDoesNotVote(u, code);
  }

  /** The table is asked for the code without the spaces around it, in upper case. */
  lemma NameOfCode(u: RuneTables, table: map<string, string>, code: string, key: string)
    requires exists t :: Core(u, code, t) && |t| == |key| && forall k :: 0 <= k < |t| ==> key[k] == u.upper(t[k])
    ensures key in table ==> CountryNameForCode(u, table, code) == table[key]
    ensures key !in table ==> CountryNameForCode(u, table, code) == ""
  {
    var t :| Core(u, code, t) && |t| == |key| && forall k :: 0 <= k < |t| ==> key[k] == u.upper(t[k]);
    CoreIsTrim(u, code, t);
    assert MapRunes(u.upper, t) == key;
  }

  // ----- The vote

  /** a and b agree up to place k, where a ends or has the smaller rune. */
  predicate DifferAt(a: string, b: string, k: int) {
    0 <= k < |b| && k <= |a| && a[..k] == b[..k] && (k == |a| || a[k] < b[k])
  }

  /** a comes before b in the dictionary. */
  ghost predicate Before(a: string, b: string) {
    exists k :: DifferAt(a, b, k)
  }

  lemma {:induction false} LessIsBefore(a: string, b: string)
    ensures Less(a, b) <==> Before(a, b)
  {
    if a != "" && b != "" && a[0] == b[0] {
      LessIsBefore(a[1..], b[1..]);
      if k :| DifferAt(a, b, k) {
        SameHead(a, b, k);
      }
      if k :| DifferAt(a[1..], b[1..], k) {
        SameHead(a, b, k + 1);
      }
    } else {
      assert Less(a, b) <==> DifferAt(a, b, 0);
      if k :| DifferAt(a, b, k) && k > 0 {
        SameFirst(a, b, k);
      }
    }
  }

  lemma SameHead(a: string, b: string, k: int)
    requires a != "" && b != "" && a[0] == b[0]
    ensures DifferAt(a, b, k) && k != 0 ==> DifferAt(a[1..], b[1..], k - 1)
    ensures DifferAt(a[1..], b[1..], k - 1) ==> DifferAt(a, b, k)
  {
    if 0 < k <= |a| && k < |b| {
      assert a[1..][..k - 1] == a[..k][1..] && b[1..][..k - 1] == b[..k][1..];
      assert a[..k] == [a[0]] + a[1..][..k - 1] && b[..k] == [b[0]] + b[1..][..k - 1];
    }
  }

  lemma SameFirst(a: string, b: string, k: int)
    requires 0 < k <= |a| && k < |b| && a[..k] == b[..k]
    ensures a[0] == b[0]
  {
    assert a[..k][0] == a[0] && b[..k][0] == b[0];
  }

  /** Some source voted for c and none trusted more did. */
  ghost predicate BestVoter(u: RuneTables, ok: seq<SourceResult>, c: string, i: int) {
    && 0 <= i < |ok| && Normalize(u, ok[i].countryCode) == c
    && forall j :: 0 <= j < |ok| && Normalize(u, ok[j].countryCode) == c ==>
         SourceRank(ok[i].name) <= SourceRank(ok[j].name)
  }

  lemma RankOfBestVoter(u: RuneTables, ok: seq<SourceResult>, c: string, i: nat)
    requires BestVoter(u, ok, c, i)
    ensures VoteRank(u, ok, c) == SourceRank(ok[i].name)
  {
    VoteRankIsLeast(u, ok, c);
    assert ok[i] in ok;
  }

  /** A code that wins beats every other code voted for: by votes, then by the trust in its most
      trusted voter, then by the dictionary; and what beats all others wins. */
  lemma WinsIff(u: RuneTables, ok: seq<SourceResult>, c: string, i: nat)
    requires c != "" && BestVoter(u, ok, c, i)
    ensures CountryWins(u, ok, c) <==> forall d, j :: d != "" && d != c && BestVoter(u, ok, d, j) ==>
              Beats(Votes(u, ok, c), ok[i], c, Votes(u, ok, d), ok[j], d)
  {
    CountPositive(VotesFor(u, c), ok);
    assert VotesFor(u, c)(ok[i]);
    RankOfBestVoter(u, ok, c, i);
    forall d, j | BestVoter(u, ok, d, j)
      ensures Votes(u, ok, d) > 0
      ensures Beats(Votes(u, ok, c), ok[i], c, Votes(u, ok, d), ok[j], d) <==>
              Prefers(Votes(u, ok, c), VoteRank(u, ok, c), c, Votes(u, ok, d), VoteRank(u, ok, d), d)
    {
      RankOfBestVoter(u, ok, d, j);
      LessIsBefore(c, d);
      CountPositive(VotesFor(u, d), ok);
      assert VotesFor(u, d)(ok[j]);
    }
    forall d | Votes(u, ok, d) > 0 ensures exists j :: BestVoter(u, ok, d, j) {
      var j := SomeBestVoter(u, ok, d);
    }
  }

  ghost predicate Beats(n: nat, r: SourceResult, c: string, n': nat, r': SourceResult, c': string) {
    || n' < n
    || (n == n' && SourceRank(r.name) < SourceRank(r'.name))
    || (n == n' && SourceRank(r.name) == SourceRank(r'.name) && Before(c, c'))
  }

  lemma {:induction false} SomeBestVoter(u: RuneTables, ok: seq<SourceResult>, c: string) returns (i: nat)
    requires Votes(u, ok, c) > 0
    ensures BestVoter(u, ok, c, i)
  {
    var n := |ok| - 1;
    if Votes(u, ok[..n], c) > 0 {
      i := SomeBestVoter(u, ok[..n], c);
      if Normalize(u, ok[n].countryCode) == c && SourceRank(ok[n].name) < SourceRank(ok[i].name) {
        i := n;
      }
      assert forall j :: 0 <= j < n ==> ok[..n][j] == ok[j];
    } else {
      i := n;
      CountPositive(VotesFor(u, c), ok[..n]);
      forall j | 0 <= j < n ensures Normalize(u, ok[j].countryCode) != c {
        assert ok[..n][j] == ok[j] && !VotesFor(u, c)(ok[..n][j]);
      }
    }
  }

  /** Two sources, one of which names the country, make a code of two letters confident when no
      other code has as many votes. */
  lemma PluralityIsConfident(u: RuneTables, table: map<string, string>, ok: seq<SourceResult>, c: string, i: nat)
    requires IsAlpha2(c) && 2 <= Votes(u, ok, c)
    requires forall d :: d != "" && d != c ==> Votes(u, ok, d) < Votes(u, ok, c)
    requires i < |ok| && Normalize(u, ok[i].countryCode) == c && Trim(u, ok[i].country) != ""
    ensures CountryConfident(u, table, ok, c)
  {
    assert ok[i] in ok && VotesFor(u, c)(ok[i]);
  }

  /** A confident country is two ASCII letters that two different sources gave. */
  lemma ConfidentIsCorroborated(u: RuneTables, table: map<string, string>, ok: seq<SourceResult>, c: string)
    returns (i: nat, j: nat)
    requires CountryConfident(u, table, ok, c)
    ensures i < j < |ok| && Normalize(u, ok[i].countryCode) == c == Normalize(u, ok[j].countryCode)
    ensures Letters(c)
  {
    i, j := TwoOf(VotesFor(u, c), ok);
  }

  predicate IsLetter(r: char) {
    'a' <= r <= 'z' || 'A' <= r <= 'Z'
  }

  predicate Letters(code: string) {
    |code| == 2 && IsLetter(code[0]) && IsLetter(code[1])
  }

  lemma {:induction false} TwoOf<T>(p: T -> bool, s: seq<T>) returns (i: nat, j: nat)
    requires Count(p, s) >= 2
    ensures i < j < |s| && p(s[i]) && p(s[j])
  {
    var n := |s| - 1;
    if p(s[n]) {
      CountPositive(p, s[..n]);
      var k :| 0 <= k < n && p(s[..n][k]);
      i, j := k, n;
    } else {
      i, j := TwoOf(p, s[..n]);
    }
  }

  // ----- The name of the country

  /** Result i voted for c and named the country. */
  predicate Names(u: RuneTables, ok: seq<SourceResult>, c: string, i: int) {
    0 <= i < |ok| && Normalize(u, ok[i].countryCode) == c && Trim(u, ok[i].country) != ""
  }

  /** Of those, it is the most trusted, the first of equals. */
  ghost predicate NamesBest(u: RuneTables, ok: seq<SourceResult>, c: string, i: int) {
    && Names(u, ok, c, i)
    && forall j :: Names(u, ok, c, j) ==>
         SourceRank(ok[i].name) < SourceRank(ok[j].name)
         || (SourceRank(ok[i].name) == SourceRank(ok[j].name) && i <= j)
  }

  ghost predicate NoneNames(u: RuneTables, ok: seq<SourceResult>, c: string) {
    forall i :: !Names(u, ok, c, i)
  }

  lemma NamesBefore(u: RuneTables, ok: seq<SourceResult>, r: SourceResult, c: string, i: int)
    ensures Names(u, ok + [r], c, i) <==>
            Names(u, ok, c, i) || (i == |ok| && Normalize(u, r.countryCode) == c && Trim(u, r.country) != "")
  {
  }

  /** What one more result does to the best name. */
  lemma BestNameStep(u: RuneTables, ok: seq<SourceResult>, r: SourceResult, c: string, i: int)
    requires NoneNames(u, ok, c) || NamesBest(u, ok, c, i)
    ensures var names := Normalize(u, r.countryCode) == c && Trim(u, r.country) != "";
            var ok' := ok + [r];
            && (!names && NoneNames(u, ok, c) ==> NoneNames(u, ok', c))
            && (names && NoneNames(u, ok, c) ==> NamesBest(u, ok', c, |ok|))
            && (NamesBest(u, ok, c, i) ==>
                  NamesBest(u, ok', c, if names && SourceRank(r.name) < SourceRank(ok[i].name) then |ok| else i))
  {
    forall j ensures Names(u, ok + [r], c, j) <==>
      Names(u, ok, c, j) || (j == |ok| && Normalize(u, r.countryCode) == c && Trim(u, r.country) != "")
    {
      NamesBefore(u, ok, r, c, j);
    }
  }

  /** The name held for a code is that of the most trusted source that voted for it and named it;
      none is held exactly when none did. */
  lemma {:induction false} HeldIsBestName(u: RuneTables, ok: seq<SourceResult>, c: string) returns (i: int)
    requires c != ""
    ensures var h := Resolve(u, NameOffers(u, ok), c);
            if h.Nothing? then NoneNames(u, ok, c)
            else NamesBest(u, ok, c, i) && h == Held(Trim(u, ok[i].country), SourceRank(ok[i].name))
  {
    i := 0;
    if ok != [] {
      var init, r := ok[..|ok| - 1], ok[|ok| - 1];
      assert ok == init + [r];
      i := HeldIsBestName(u, init, c);
      BestNameStep(u, init, r, c, i);
      ResolveStep(u, init, r, c);
      var h := Resolve(u, NameOffers(u, init), c);
      if Normalize(u, r.countryCode) == c && Trim(u, r.country) != "" &&
         (h.Nothing? || SourceRank(r.name) < h.rank) {
        i := |init|;
      }
    }
  }

  lemma ResolveStep(u: RuneTables, ok: seq<SourceResult>, r: SourceResult, c: string)
    requires c != ""
    ensures var h, t, q := Resolve(u, NameOffers(u, ok), c), Trim(u, r.country), SourceRank(r.name);
            Resolve(u, NameOffers(u, ok + [r]), c) ==
            if Normalize(u, r.countryCode) == c && t != "" && (h.Nothing? || q < h.rank) then Held(t, q) else h
  {
    OffersStep(u, ok, r);
    var o := Offer(Normalize(u, r.countryCode), r.country, SourceRank(r.name));
    assert (NameOffers(u, ok) + [o])[..|NameOffers(u, ok)|] == NameOffers(u, ok);
  }

  /** The name of a confident country is the trimmed name given by the most trusted of the sources
      that voted for it and gave one, else the table's. */
  lemma CountryNameIs(u: RuneTables, table: map<string, string>, ok: seq<SourceResult>, loc: ConsensusLocation)
    returns (i: int)
    requires CountryVerdict(u, table, ok, loc) && loc.countryConfident
    ensures if NoneNames(u, ok, loc.countryCode) then loc.country == CountryNameForCode(u, table, loc.countryCode)
            else NamesBest(u, ok, loc.countryCode, i) && loc.country == Trim(u, ok[i].country)
  {
    i := HeldIsBestName(u, ok, loc.countryCode);
  }

  // ----- What is posted

  /** Some rune of s is no space. */
  ghost predicate NotBlank(u: RuneTables, s: string) {
    exists k :: 0 <= k < |s| && !u.space(s[k])
  }

  lemma BlankIsTrimmed(u: RuneTables, s: string)
    ensures NotBlank(u, s) <==> Trim(u, s) != ""
  {
    var a, b := TrimCuts(u, s);
    var t := Trim(u, s);
    if t != "" {
      assert s[|a|] == t[0];
    } else {
      assert s == a + b;
    }
  }

  /** Which gate stops a record, and what of one that passes all of them is posted: its country,
      and its city and region exactly when it is city-confident. */
  lemma WhatIsPosted(u: RuneTables, loc: ConsensusLocation)
    ensures var g := Submit(u, loc);
            && (g.NotConfident? <==> !loc.countryConfident)
            && (g.MissingProbedAt? <==> loc.countryConfident && loc.probedAt == 0)
            && (g.IncompleteCountry? <==>
                  loc.countryConfident && loc.probedAt != 0 && !(Letters(loc.countryCode) && NotBlank(u, loc.country)))
            && (g.Posted? ==> g.countryCode == loc.countryCode && g.country == loc.country)
            && (g.Posted? && loc.cityConfident ==> g.city == loc.city && g.region == loc.region)
            && (g.Posted? && !loc.cityConfident ==> g.city == "" && g.region == "")
  {
    BlankIsTrimmed(u, loc.country);
  }

  /** A record of locate is posted as it stands: a city and region that are not confident are
      empty in the record already. */
  lemma PostedAsItStands(u: RuneTables, ok: seq<SourceResult>, idx: seq<nat>, loc: ConsensusLocation)
    requires CityVerdict(u, ok, idx, loc) && Submit(u, loc).Posted?
    ensures Submit(u, loc) == Posted(loc.countryCode, loc.country, loc.city, loc.region)
    ensures loc.cityConfident <==> Submit(u, loc).city != ""
  {
  }
}
