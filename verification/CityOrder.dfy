/** What the order of the sources can change in a published city (agreeOnPlace, canonicalPlace and
    consensus in geolocate/consensus.go). The groups that can win are described here without any
    order, as sets of results; the sources are told apart by their ranks. */
module CityOrder {
  import opened Agreement
  import opened Consensus
  import opened Counting
  import opened PlaceNames
  import opened Runes

  function Rank(r: SourceResult): nat { SourceRank(r.name) }

  /** Every two of the results name matching places. */
  ghost predicate Chain(tok: SourceResult -> seq<string>, s: set<SourceResult>) {
    forall a, b :: a in s && b in s ==> Match(tok(a), tok(b))
  }

  ghost predicate Backed(s: set<SourceResult>, b: SourceResult) {
    exists a :: a in s && Rank(a) <= Rank(b)
  }

  ghost predicate AsTrusted(s: set<SourceResult>, t: set<SourceResult>) {
    forall b {:trigger Backed(s, b)} :: b in t ==> Backed(s, b)
  }

  /** No agreeing set of the sources is larger, or as large and more trusted. */
  ghost predicate BestSet(tok: SourceResult -> seq<string>, all: set<SourceResult>, s: set<SourceResult>) {
    s <= all && Chain(tok, s) && forall t {:trigger NotBetter(t, s)} :: t <= all && Chain(tok, t) ==> NotBetter(t, s)
  }

  ghost predicate NotBetter(t: set<SourceResult>, s: set<SourceResult>) {
    |t| <= |s| && (|t| == |s| ==> AsTrusted(s, t))
  }

  /** ok is one order of the sources. */
  ghost predicate Orders(ok: seq<SourceResult>, all: set<SourceResult>) {
    Distinct(ok) && Elements(ok) == all
  }

  function TokensIn(tok: SourceResult -> seq<string>, ok: seq<SourceResult>): seq<seq<string>> {
    seq(|ok|, i requires 0 <= i < |ok| => tok(ok[i]))
  }

  // ----- Positions and members

  ghost function Positions(ok: seq<SourceResult>, s: set<SourceResult>): set<nat> {
    set i: nat | i < |ok| && ok[i] in s
  }

  ghost function Members(ok: seq<SourceResult>, p: set<nat>): set<SourceResult> {
    set i | i in p && i < |ok| :: ok[i]
  }

  lemma {:induction false} MembersSize(ok: seq<SourceResult>, p: set<nat>)
    requires Distinct(ok) && forall i :: i in p ==> i < |ok|
    ensures |Members(ok, p)| == |p|
  {
    if p != {} {
      var i :| i in p;
      var rest := p - {i};
      MembersSize(ok, rest);
      assert Members(ok, p) == Members(ok, rest) + {ok[i]};
      assert ok[i] !in Members(ok, rest);
    }
  }

  lemma MembersAt(ok: seq<SourceResult>, s: set<SourceResult>)
    requires Distinct(ok) && s <= Elements(ok)
    ensures Members(ok, Positions(ok, s)) == s && |Positions(ok, s)| == |s|
  {
    forall r | r in s ensures r in Members(ok, Positions(ok, s)) {
      var i :| 0 <= i < |ok| && ok[i] == r;
      assert i in Positions(ok, s);
    }
    MembersSize(ok, Positions(ok, s));
  }

  // ----- The groups that win in some order

  /** A set of positions agrees exactly when its members do. */
  lemma ChainAgrees(tok: SourceResult -> seq<string>, ok: seq<SourceResult>, p: set<nat>)
    requires forall i :: i in p ==> i < |ok|
    ensures Agrees(TokensIn(tok, ok), p) <==> Chain(tok, Members(ok, p))
  {
    var toks := TokensIn(tok, ok);
    if Agrees(toks, p) {
      forall a, b | a in Members(ok, p) && b in Members(ok, p) ensures Match(tok(a), tok(b)) {
        var i :| i in p && i < |ok| && ok[i] == a;
        var j :| j in p && j < |ok| && ok[j] == b;
        assert Match(toks[i], toks[j]);
      }
    }
    if Chain(tok, Members(ok, p)) {
      forall i, j | i in p && j in p ensures Match(toks[i], toks[j]) {
        assert ok[i] in Members(ok, p) && ok[j] in Members(ok, p);
      }
    }
  }

  lemma TrustAgrees(ok: seq<SourceResult>, p: set<nat>, q: set<nat>)
    requires forall i :: i in p + q ==> i < |ok|
    ensures TrustedAsMuch(RanksOf(ok), p, q) <==> AsTrusted(Members(ok, p), Members(ok, q))
  {
    var ranks := RanksOf(ok);
    if TrustedAsMuch(ranks, p, q) {
      forall b | b in Members(ok, q) ensures Backed(Members(ok, p), b) {
        var j :| j in q && j < |ok| && ok[j] == b;
        assert HasRankUpTo(ranks, p, ranks[j]);
        var i :| i in p && i < |ranks| && ranks[i] <= ranks[j];
        assert ok[i] in Members(ok, p);
      }
    }
    if AsTrusted(Members(ok, p), Members(ok, q)) {
      forall j | j in q && j < |ranks| ensures exists i :: i in p && i < |ranks| && ranks[i] <= ranks[j] {
        assert ok[j] in Members(ok, q) && Backed(Members(ok, p), ok[j]);
        var a :| a in Members(ok, p) && Rank(a) <= Rank(ok[j]);
        var i :| i in p && i < |ok| && ok[i] == a;
        assert ranks[i] <= ranks[j];
      }
    }
  }

  /** What BestGroup says of a set of positions, its place in the order aside. */
  ghost predicate Unbeaten(toks: seq<seq<string>>, ranks: seq<nat>, p: set<nat>) {
    Agrees(toks, p) && forall q :: Agrees(toks, q) ==> |q| <= |p| && (|q| == |p| ==> TrustedAsMuch(ranks, p, q))
  }

  lemma BestIsUnbeaten(toks: seq<seq<string>>, ranks: seq<nat>, idx: seq<nat>)
    requires BestGroup(toks, ranks, idx)
    ensures Unbeaten(toks, ranks, Elements(idx)) && |Elements(idx)| == |idx|
  {
    ElementsSize(idx);
  }

  lemma NoneBetter(tok: SourceResult -> seq<string>, ok: seq<SourceResult>, p: set<nat>, t: set<SourceResult>)
    requires Distinct(ok) && t <= Elements(ok) && Chain(tok, t) && Unbeaten(TokensIn(tok, ok), RanksOf(ok), p)
    ensures NotBetter(t, Members(ok, p))
  {
    var q := Positions(ok, t);
    MembersAt(ok, t);
    MembersSize(ok, p);
    ChainAgrees(tok, ok, q);
    TrustAgrees(ok, p, q);
  }

  lemma UnbeatenIsBestSet(tok: SourceResult -> seq<string>, ok: seq<SourceResult>, all: set<SourceResult>, p: set<nat>)
    requires Orders(ok, all) && Unbeaten(TokensIn(tok, ok), RanksOf(ok), p)
    ensures BestSet(tok, all, Members(ok, p)) && |Members(ok, p)| == |p|
  {
    ChainAgrees(tok, ok, p);
    MembersSize(ok, p);
    forall t | t <= all && Chain(tok, t) ensures NotBetter(t, Members(ok, p)) {
      NoneBetter(tok, ok, p, t);
    }
  }

  /** Whatever the order, the group that wins is a best set. */
  lemma WinnerIsBestSet(tok: SourceResult -> seq<string>, ok: seq<SourceResult>, all: set<SourceResult>, idx: seq<nat>)
    requires Orders(ok, all) && BestGroup(TokensIn(tok, ok), RanksOf(ok), idx)
    ensures BestSet(tok, all, Members(ok, Elements(idx))) && |Members(ok, Elements(idx))| == |idx|
  {
    BestIsUnbeaten(TokensIn(tok, ok), RanksOf(ok), idx);
    UnbeatenIsBestSet(tok, ok, all, Elements(idx));
  }

  // ----- Every best set wins in some order

  lemma {:induction false} Listing(all: set<SourceResult>) returns (ok: seq<SourceResult>)
    ensures Orders(ok, all)
  {
    ok := [];
    if all != {} {
      var r :| r in all;
      var rest := Listing(all - {r});
      ok := rest + [r];
      assert Elements(ok) == Elements(rest) + {r};
    }
  }

  lemma ListingFrom(all: set<SourceResult>, r: SourceResult) returns (ok: seq<SourceResult>)
    requires r in all
    ensures Orders(ok, all) && ok != [] && ok[0] == r
  {
    var rest := Listing(all - {r});
    ok := [r] + rest;
    assert Elements(ok) == Elements(rest) + {r};
  }

  /** Some group wins in any order. */
  lemma SomeGroupWins(toks: seq<seq<string>>, ranks: seq<nat>) returns (idx: seq<nat>)
    requires |toks| == |ranks| && forall j :: 0 <= j < |ranks| ==> ranks[j] <= UNKNOWN_RANK
    ensures BestGroup(toks, ranks, idx)
  {
    var keys, l: nat := Keys(toks, ranks), |toks|;
    for i := 0 to |toks|
      invariant BestSoFar(toks, keys, i, l)
    {
      GroupAgrees(toks, i);
      BetterSoFar(toks, keys, i, l);
      if toks[i] != [] && (l == |toks| || keys[l].size < keys[i].size
        || (keys[l].size == keys[i].size && keys[i].rank < keys[l].rank)) {
        l := i;
      }
    }
    BestInTheEnd(toks, ranks, l);
    idx := GroupOrNone(toks, l);
  }

  lemma {:induction false} LongestName(tok: SourceResult -> seq<string>, s: set<SourceResult>) returns (r: SourceResult)
    requires s != {}
    ensures r in s && forall a :: a in s ==> |tok(a)| <= |tok(r)|
  {
    r :| r in s;
    if s != {r} {
      var l := LongestName(tok, s - {r});
      if |tok(r)| < |tok(l)| {
        r := l;
      }
    }
  }

  lemma PrefixesMatch(a: seq<string>, b: seq<string>, long: seq<string>)
    requires Match(a, long) && Match(b, long) && |a| <= |long| && |b| <= |long|
    ensures Match(a, b)
  {
    assert a <= long && b <= long;
  }

  /** The results of a chain whose longest name is that of r all prefix it. */
  ghost predicate LedBy(tok: SourceResult -> seq<string>, s: set<SourceResult>, r: SourceResult) {
    r in s && forall a :: a in s ==> Match(tok(a), tok(r)) && |tok(a)| <= |tok(r)|
  }

  lemma UnionChain(tok: SourceResult -> seq<string>, s: set<SourceResult>, t: set<SourceResult>, r: SourceResult)
    requires LedBy(tok, s, r) && LedBy(tok, t, r)
    ensures Chain(tok, s + t)
  {
    forall a, b | a in s + t && b in s + t ensures Match(tok(a), tok(b)) {
      PrefixesMatch(tok(a), tok(b), tok(r));
    }
  }

  lemma NoLargerChain(tok: SourceResult -> seq<string>, all: set<SourceResult>, s: set<SourceResult>,
                      t: set<SourceResult>)
    requires BestSet(tok, all, s) && s <= t <= all && Chain(tok, t)
    ensures s == t
  {
    assert NotBetter(t, s);
    SubsetIsAll(s, t);
  }

  /** The largest agreeing sets led by the same result are the same set: everything that prefixes
      what it names. */
  lemma SameLead(tok: SourceResult -> seq<string>, all: set<SourceResult>, s: set<SourceResult>, t: set<SourceResult>,
                 r: SourceResult)
    requires BestSet(tok, all, s) && BestSet(tok, all, t) && LedBy(tok, s, r) && LedBy(tok, t, r)
    ensures s == t
  {
    UnionChain(tok, s, t, r);
    NoLargerChain(tok, all, s, s + t);
    NoLargerChain(tok, all, t, s + t);
  }

  lemma SubsetIsAll(s: set<SourceResult>, t: set<SourceResult>)
    requires s <= t && |t| <= |s|
    ensures s == t
  {
    assert t == s + (t - s);
    assert |t| == |s| + |t - s|;
  }

  lemma LeaderOfChain(tok: SourceResult -> seq<string>, s: set<SourceResult>) returns (r: SourceResult)
    requires s != {} && Chain(tok, s)
    ensures LedBy(tok, s, r)
  {
    r := LongestName(tok, s);
  }

  /** Nothing as good is led from an earlier position. */
  lemma LeaderAtMost(toks: seq<seq<string>>, ranks: seq<nat>, idx: seq<nat>, q: set<nat>, m: nat) returns (l: nat)
    requires BestGroup(toks, ranks, idx) && idx != []
    requires Agrees(toks, q) && |q| == |idx| && TrustedAsMuch(ranks, q, Elements(idx)) && Leads(toks, q, m)
    ensures Leads(toks, Elements(idx), l) && l <= m
  {
    l :| Leads(toks, Elements(idx), l) && EarliestLeader(toks, ranks, idx, l);
  }

  lemma PositionsLed(tok: SourceResult -> seq<string>, ok: seq<SourceResult>, s: set<SourceResult>)
    requires ok != [] && LedBy(tok, s, ok[0])
    ensures Leads(TokensIn(tok, ok), Positions(ok, s), 0)
  {
    var toks, q := TokensIn(tok, ok), Positions(ok, s);
    forall a | a in q ensures toks[a] <= toks[0] {
      assert ok[a] in s && Match(tok(ok[a]), tok(ok[0]));
    }
  }

  /** A group whose leader stands first in the order leads from position 0. */
  lemma FirstLeads(tok: SourceResult -> seq<string>, ok: seq<SourceResult>, s: set<SourceResult>, r: SourceResult,
                   idx: seq<nat>)
    requires ok != [] && Distinct(ok) && ok[0] == r && s <= Elements(ok) && Chain(tok, s) && LedBy(tok, s, r)
    requires BestGroup(TokensIn(tok, ok), RanksOf(ok), idx) && |s| == |idx| && AsTrusted(s, Members(ok, Elements(idx)))
    ensures idx != [] && Leads(TokensIn(tok, ok), Elements(idx), 0)
  {
    var toks, q, p := TokensIn(tok, ok), Positions(ok, s), Elements(idx);
    MembersAt(ok, s);
    PositionsLed(tok, ok, s);
    ChainAgrees(tok, ok, q);
    assert Agrees(toks, p);
    TrustAgrees(ok, q, p);
    var l := LeaderAtMost(toks, RanksOf(ok), idx, q, 0);
  }

  lemma LeadsMembers(tok: SourceResult -> seq<string>, ok: seq<SourceResult>, p: set<nat>)
    requires Agrees(TokensIn(tok, ok), p) && Leads(TokensIn(tok, ok), p, 0)
    ensures ok != [] && LedBy(tok, Members(ok, p), ok[0])
  {
    var toks := TokensIn(tok, ok);
    forall a | a in Members(ok, p) ensures Match(tok(a), tok(ok[0])) && |tok(a)| <= |tok(ok[0])| {
      var i :| i in p && i < |ok| && ok[i] == a;
      assert Match(toks[i], toks[0]) && toks[i] <= toks[0];
    }
  }

  /** Each best set is the group that wins in some order. */
  lemma BestSetWins(tok: SourceResult -> seq<string>, all: set<SourceResult>, s: set<SourceResult>)
    returns (ok: seq<SourceResult>, idx: seq<nat>)
    requires BestSet(tok, all, s)
    ensures Orders(ok, all) && BestGroup(TokensIn(tok, ok), RanksOf(ok), idx) && Members(ok, Elements(idx)) == s
  {
    if s == {} {
      ok := Listing(all);
      idx := SomeGroupWins(TokensIn(tok, ok), RanksOf(ok));
      WinnerIsBestSet(tok, ok, all, idx);
      assert NotBetter(Members(ok, Elements(idx)), s);
    } else {
      var r := LeaderOfChain(tok, s);
      ok := ListingFrom(all, r);
      idx := SomeGroupWins(TokensIn(tok, ok), RanksOf(ok));
      WinnerIsBestSet(tok, ok, all, idx);
      var w := Members(ok, Elements(idx));
      assert NotBetter(w, s) && NotBetter(s, w);
      FirstLeads(tok, ok, s, r, idx);
      LeadsMembers(tok, ok, Elements(idx));
      SameLead(tok, all, s, w, r);
    }
  }

  // ----- Confidence

  function CityTokens(u: RuneTables): SourceResult -> seq<string> {
    (r: SourceResult) => Tokens(u, r.city)
  }

  /** The group that consensus picks for the city in one order of the sources. */
  ghost predicate Picks(u: RuneTables, all: set<SourceResult>, ok: seq<SourceResult>, idx: seq<nat>) {
    Orders(ok, all) && BestGroup(TokensOf(u, ok, City), RanksOf(ok), idx)
      && forall k :: 0 <= k < |idx| ==> idx[k] < |ok|
  }

  /** What CityVerdict makes cityConfident of that group. */
  ghost predicate Confident(u: RuneTables, ok: seq<SourceResult>, idx: seq<nat>)
    requires forall k :: 0 <= k < |idx| ==> idx[k] < |ok|
  {
    |idx| >= 2 && NamesRegion(u, ok, idx)
  }

  ghost predicate SetConfident(u: RuneTables, s: set<SourceResult>) {
    |s| >= 2 && exists r :: r in s && Tokens(u, r.region) != []
  }

  lemma CityTokensIn(u: RuneTables, ok: seq<SourceResult>)
    ensures TokensOf(u, ok, City) == TokensIn(CityTokens(u), ok)
  {
    assert forall i :: 0 <= i < |ok| ==> City(ok[i]) == ok[i].city;
  }

  lemma ConfidenceOfSet(u: RuneTables, all: set<SourceResult>, ok: seq<SourceResult>, idx: seq<nat>)
    requires Picks(u, all, ok, idx)
    ensures BestSet(CityTokens(u), all, Members(ok, Elements(idx)))
    ensures Confident(u, ok, idx) <==> SetConfident(u, Members(ok, Elements(idx)))
  {
    CityTokensIn(u, ok);
    WinnerIsBestSet(CityTokens(u), ok, all, idx);
    var s := Members(ok, Elements(idx));
    if k :| 0 <= k < |idx| && Tokens(u, ok[idx[k]].region) != [] {
      assert ok[idx[k]] in s;
    }
    if r :| r in s && Tokens(u, r.region) != [] {
      var i :| i in Elements(idx) && i < |ok| && ok[i] == r;
      var k :| 0 <= k < |idx| && idx[k] == i;
      assert Tokens(u, ok[idx[k]].region) != [];
    }
  }

  /** Every best set is picked in some order. */
  lemma PickedSomewhere(u: RuneTables, all: set<SourceResult>, s: set<SourceResult>)
    requires BestSet(CityTokens(u), all, s)
    ensures exists ok, idx :: Picks(u, all, ok, idx) && (Confident(u, ok, idx) <==> SetConfident(u, s))
  {
    var ok, idx := BestSetWins(CityTokens(u), all, s);
    CityTokensIn(u, ok);
    assert forall k :: 0 <= k < |idx| ==> idx[k] in Elements(idx);
    assert Picks(u, all, ok, idx);
    ConfidenceOfSet(u, all, ok, idx);
  }

  /** Confidence is the same in every order of the sources. */
  ghost predicate OrderFree(u: RuneTables, all: set<SourceResult>) {
    forall ok, idx, ok', idx' :: Picks(u, all, ok, idx) && Picks(u, all, ok', idx') ==>
      (Confident(u, ok, idx) <==> Confident(u, ok', idx'))
  }

  /** All best sets would make the city confident, or none would. */
  ghost predicate BestSetsAgree(u: RuneTables, all: set<SourceResult>) {
    forall s, t :: BestSet(CityTokens(u), all, s) && BestSet(CityTokens(u), all, t) ==>
      (SetConfident(u, s) <==> SetConfident(u, t))
  }

  /** Whether the city is confident is the same in every order of the sources if and only if all
      best sets would make it confident or none would. */
  lemma ConfidenceIsOrderFreeIff(u: RuneTables, all: set<SourceResult>)
    ensures OrderFree(u, all) <==> BestSetsAgree(u, all)
  {
    if BestSetsAgree(u, all) {
      forall ok, idx, ok', idx' | Picks(u, all, ok, idx) && Picks(u, all, ok', idx')
        ensures Confident(u, ok, idx) <==> Confident(u, ok', idx')
      {
        ConfidenceOfSet(u, all, ok, idx);
        ConfidenceOfSet(u, all, ok', idx');
      }
    }
    if OrderFree(u, all) {
      forall s, t | BestSet(CityTokens(u), all, s) && BestSet(CityTokens(u), all, t)
        ensures SetConfident(u, s) <==> SetConfident(u, t)
      {
        PickedSomewhere(u, all, s);
        PickedSomewhere(u, all, t);
      }
    }
  }

  // ----- The name

  ghost predicate RanksApart(all: set<SourceResult>) {
    forall a, b :: a in all && b in all && Rank(a) == Rank(b) ==> a == b
  }

  /** m has the shortest name in s, and of the shortest the most trusted. */
  ghost predicate ShortestOf(tok: SourceResult -> seq<string>, s: set<SourceResult>, m: SourceResult) {
    m in s && forall a :: a in s ==> |tok(m)| < |tok(a)| || (|tok(m)| == |tok(a)| && Rank(m) <= Rank(a))
  }

  lemma {:induction false} MostTrustedOf(s: set<SourceResult>) returns (r: SourceResult)
    requires s != {}
    ensures r in s && forall a :: a in s ==> Rank(r) <= Rank(a)
  {
    r :| r in s;
    if s != {r} {
      var l := MostTrustedOf(s - {r});
      if Rank(l) < Rank(r) {
        r := l;
      }
    }
  }

  lemma BestSetsTie(tok: SourceResult -> seq<string>, all: set<SourceResult>, s: set<SourceResult>,
                    t: set<SourceResult>)
    requires BestSet(tok, all, s) && BestSet(tok, all, t)
    ensures AsTrusted(s, t) && AsTrusted(t, s)
  {
    assert NotBetter(t, s) && NotBetter(s, t);
  }

  /** Best sets share their most trusted member. */
  lemma SharedTop(all: set<SourceResult>, s: set<SourceResult>, t: set<SourceResult>) returns (r: SourceResult)
    requires RanksApart(all) && s <= all && t <= all && AsTrusted(s, t) && AsTrusted(t, s) && s != {}
    ensures r in s && r in t
  {
    r := MostTrustedOf(s);
    assert Backed(t, r);
    var b :| b in t && Rank(b) <= Rank(r);
    assert Backed(s, b);
    var a :| a in s && Rank(a) <= Rank(b);
    assert Rank(b) == Rank(r);
  }

  /** The shortest name of one best set is in every other: it prefixes what they share. */
  lemma ShortestIsShared(tok: SourceResult -> seq<string>, all: set<SourceResult>, s: set<SourceResult>,
                         t: set<SourceResult>, r: SourceResult, m: SourceResult)
    requires BestSet(tok, all, s) && BestSet(tok, all, t) && r in s && r in t && ShortestOf(tok, s, m)
    ensures m in t
  {
    var l := LeaderOfChain(tok, t);
    assert Match(tok(m), tok(r)) && Match(tok(r), tok(l)) && |tok(m)| <= |tok(r)|;
    PrefixOfPrefix(tok(m), tok(r), tok(l));
    assert LedBy(tok, {m, l}, l);
    UnionChain(tok, {m, l}, t, l);
    NoLargerChain(tok, all, t, {m, l} + t);
  }

  lemma PrefixOfPrefix(a: seq<string>, b: seq<string>, c: seq<string>)
    requires Match(a, b) && Match(b, c) && |a| <= |b| <= |c|
    ensures Match(a, c) && Match(c, c)
  {
    assert a <= b && b <= c;
  }

  lemma SameShortest(tok: SourceResult -> seq<string>, all: set<SourceResult>, s: set<SourceResult>,
                     t: set<SourceResult>, m: SourceResult, n: SourceResult)
    requires RanksApart(all) && BestSet(tok, all, s) && BestSet(tok, all, t) && ShortestOf(tok, s, m)
      && ShortestOf(tok, t, n)
    ensures m == n
  {
    BestSetsTie(tok, all, s, t);
    var r := SharedTop(all, s, t);
    ShortestIsShared(tok, all, s, t, r, m);
    ShortestIsShared(tok, all, t, s, r, n);
  }

  lemma MemberAt(ok: seq<SourceResult>, idx: seq<nat>, a: SourceResult) returns (j: nat)
    requires (forall k :: 0 <= k < |idx| ==> idx[k] < |ok|) && a in Members(ok, Elements(idx))
    ensures j < |idx| && Pick(ok, idx)[j] == a
  {
    var i :| i in Elements(idx) && i < |ok| && ok[i] == a;
    j :| 0 <= j < |idx| && idx[j] == i;
  }

  lemma ShortestIs(u: RuneTables, group: seq<SourceResult>, k: nat, j: nat)
    requires Shortest(u, group, City, k) && j < |group| && Tokens(u, group[j].city) != []
    ensures var n, m := |Tokens(u, group[k].city)|, |Tokens(u, group[j].city)|;
            n < m || (n == m && Rank(group[k]) <= Rank(group[j]))
  {
    assert City(group[k]) == group[k].city && City(group[j]) == group[j].city;
  }

  lemma PublishedIsShortest(u: RuneTables, all: set<SourceResult>, ok: seq<SourceResult>, idx: seq<nat>, name: string)
    returns (m: SourceResult)
    requires Picks(u, all, ok, idx) && PublishedAs(u, Pick(ok, idx), City, name)
    ensures ShortestOf(CityTokens(u), Members(ok, Elements(idx)), m) && name == Display(u, m.city)
  {
    var group, s := Pick(ok, idx), Members(ok, Elements(idx));
    var k: nat :| Shortest(u, group, City, k) && name == Display(u, City(group[k]));
    m := group[k];
    ConfidenceOfSet(u, all, ok, idx);
    assert idx[k] in Elements(idx) && ok[idx[k]] == m && City(m) == m.city;
    forall a | a in s
      ensures |Tokens(u, m.city)| < |Tokens(u, a.city)|
        || (|Tokens(u, m.city)| == |Tokens(u, a.city)| && Rank(m) <= Rank(a))
    {
      var j := MemberAt(ok, idx, a);
      assert Match(CityTokens(u)(a), CityTokens(u)(a));
      ShortestIs(u, group, k, j);
    }
  }

  /** The published city does not depend on the order of the sources, in the orders in which it is
      confident, as long as no two sources share a rank. */
  lemma CityNameIsOrderFree(u: RuneTables, all: set<SourceResult>, ok: seq<SourceResult>, idx: seq<nat>,
                            loc: ConsensusLocation, ok': seq<SourceResult>, idx': seq<nat>, loc': ConsensusLocation)
    requires RanksApart(all) && Orders(ok, all) && Orders(ok', all)
    requires CityVerdict(u, ok, idx, loc) && CityVerdict(u, ok', idx', loc') && loc.cityConfident && loc'.cityConfident
    ensures loc.city == loc'.city
  {
    assert Picks(u, all, ok, idx) && Picks(u, all, ok', idx');
    ConfidenceOfSet(u, all, ok, idx);
    ConfidenceOfSet(u, all, ok', idx');
    var m := PublishedIsShortest(u, all, ok, idx, loc.city);
    var n := PublishedIsShortest(u, all, ok', idx', loc'.city);
    SameShortest(CityTokens(u), all, Members(ok, Elements(idx)), Members(ok', Elements(idx')), m, n);
  }

  // ----- Confidence does depend on the order

  /** A short name that two longer ones extend in different ways. */
  ghost predicate Forked(toks: seq<seq<string>>) {
    |toks| == 3 && toks[0] != [] && toks[0] < toks[1] && toks[0] < toks[2] && !Match(toks[1], toks[2])
  }

  lemma ForkedGroups(toks: seq<seq<string>>, p: set<nat>)
    requires Forked(toks) && Agrees(toks, p)
    ensures p <= {0, 1} || p <= {0, 2}
  {
  }

  lemma ForkedPair(toks: seq<seq<string>>)
    requires Forked(toks)
    ensures Agrees(toks, {0, 1}) && Leads(toks, {0, 1}, 1)
  {
  }

  lemma TwoOfPair(p: set<nat>, x: nat, y: nat)
    requires p <= {x, y} && |p| >= 2
    ensures p == {x, y}
  {
    if x !in p {
      SubsetSize(p, {y});
    } else if y !in p {
      SubsetSize(p, {x});
    }
  }

  lemma ForkedWinner(toks: seq<seq<string>>, p: set<nat>, l: nat)
    requires Forked(toks) && Agrees(toks, p) && |p| >= 2 && Leads(toks, p, l) && l <= 1
    ensures p == {0, 1}
  {
    ForkedGroups(toks, p);
    TwoOfPair(p, 0, if p <= {0, 1} then 1 else 2);
  }

  lemma TopIsTrusted(ranks: seq<nat>, q: set<nat>, p: set<nat>)
    requires ranks != [] && 0 in q && forall j :: 0 <= j < |ranks| ==> ranks[0] <= ranks[j]
    ensures TrustedAsMuch(ranks, q, p)
  {
  }

  lemma AtLeastAsLarge(toks: seq<seq<string>>, ranks: seq<nat>, idx: seq<nat>, q: set<nat>)
    requires BestGroup(toks, ranks, idx) && Agrees(toks, q)
    ensures |q| <= |idx| == |Elements(idx)| && Agrees(toks, Elements(idx))
  {
    ElementsSize(idx);
  }

  /** With the most trusted source first and a fork behind it, the group is the short name with
      whichever of the longer ones comes earlier. */
  lemma EarlierOfTwo(toks: seq<seq<string>>, ranks: seq<nat>, idx: seq<nat>)
    requires Forked(toks) && |ranks| == 3 && ranks[0] <= ranks[1] && ranks[0] <= ranks[2] && BestGroup(toks, ranks, idx)
    ensures Elements(idx) == {0, 1} && |idx| == 2
  {
    ForkedPair(toks);
    AtLeastAsLarge(toks, ranks, idx, {0, 1});
    assert |{0, 1}| == 2;
    ForkedGroups(toks, Elements(idx));
    TwoOfPair(Elements(idx), 0, if Elements(idx) <= {0, 1} then 1 else 2);
    TopIsTrusted(ranks, {0, 1}, Elements(idx));
    var l := LeaderAtMost(toks, ranks, idx, {0, 1}, 1);
    ForkedWinner(toks, Elements(idx), l);
  }

  const SHORT := ["frankfurt"]
  const ON_MAIN := ["frankfurt", "am", "main"]
  const ON_ODER := ["frankfurt", "oder"]
  const HESSE := ["hesse"]

  predicate LowerCase(ts: seq<string>) {
    forall k :: 0 <= k < |ts| ==> ts[k] != "" && forall i :: 0 <= i < |ts[k]| ==> 'a' <= ts[k][i] <= 'z'
  }

  lemma TokensOfJoin(ts: seq<string>)
    requires LowerCase(ts)
    ensures Tokens(Ascii(), Join(ts)) == ts
  {
    var u := Ascii();
    AsciiIsValid();
    forall k | 0 <= k < |ts| ensures Canonical(u, ts[k]) {
    }
    SegmentJoin(u, ts);
    NoGroupInJoin(u, ts);
    NothingToDrop(u, "", Join(ts));
    assert "" + Join(ts) == Join(ts);
  }

  const A := SourceResult("ip.pn", true, "DE", "Germany", Join(SHORT), "")
  const B := SourceResult("freeipapi", true, "DE", "Germany", Join(ON_MAIN), Join(HESSE))
  const C := SourceResult("ipinfo", true, "DE", "Germany", Join(ON_ODER), "")

  lemma NamesFork()
    ensures Forked([SHORT, ON_MAIN, ON_ODER]) && Forked([SHORT, ON_ODER, ON_MAIN])
  {
    assert ON_MAIN[1] == "am" && ON_ODER[1] == "oder" && "am"[0] != "oder"[0];
  }

  lemma NameTokens()
    ensures Tokens(Ascii(), A.city) == SHORT && Tokens(Ascii(), B.city) == ON_MAIN && Tokens(Ascii(), C.city) == ON_ODER
    ensures Tokens(Ascii(), A.region) == [] && Tokens(Ascii(), B.region) == HESSE && Tokens(Ascii(), C.region) == []
  {
    NamesAreLowerCase();
    TokensOfJoin(SHORT);
    TokensOfJoin(ON_MAIN);
    TokensOfJoin(ON_ODER);
    TokensOfJoin(HESSE);
    TokensOfJoin([]);
  }

  lemma NamesAreLowerCase()
    ensures LowerCase(SHORT) && LowerCase(ON_MAIN) && LowerCase(ON_ODER) && LowerCase(HESSE)
  {
  }

  lemma WitnessTokens(x: SourceResult, y: SourceResult)
    requires (x == B && y == C) || (x == C && y == B)
    ensures Forked(TokensOf(Ascii(), [A, x, y], City))
  {
    TokensOfThree(Ascii(), A, x, y);
    NameTokens();
    NamesFork();
  }

  lemma TokensOfThree(u: RuneTables, x: SourceResult, y: SourceResult, z: SourceResult)
    ensures TokensOf(u, [x, y, z], City) == [Tokens(u, x.city), Tokens(u, y.city), Tokens(u, z.city)]
  {
    assert City(x) == x.city && City(y) == y.city && City(z) == z.city;
  }

  lemma WitnessConfidence(x: SourceResult, y: SourceResult, idx: seq<nat>, loc: ConsensusLocation)
    requires (x == B && y == C) || (x == C && y == B)
    requires CityVerdict(Ascii(), [A, x, y], idx, loc)
    ensures loc.cityConfident <==> x == B
  {
    WitnessTokens(x, y);
    NameTokens();
    EarlierOfTwo(TokensOf(Ascii(), [A, x, y], City), RanksOf([A, x, y]), idx);
    assert forall k :: 0 <= k < |idx| ==> idx[k] in Elements(idx);
    assert 1 in Elements(idx);
    var k :| 0 <= k < |idx| && idx[k] == 1;
    assert x == B ==> Tokens(Ascii(), [A, x, y][idx[k]].region) != [];
  }

  /** "frankfurt" and "frankfurt am main" with a region, against "frankfurt oder" without one:
      the city is confident in every outcome of the one order, and in none of the other, although
      only the two longer names have changed places. */
  lemma ConfidenceDependsOnOrder()
    ensures Ascii().Valid() && RanksApart({A, B, C})
    ensures forall idx, loc :: CityVerdict(Ascii(), [A, B, C], idx, loc) ==> loc.cityConfident
    ensures forall idx, loc :: CityVerdict(Ascii(), [A, C, B], idx, loc) ==> !loc.cityConfident
  {
    AsciiIsValid();
    assert Rank(A) == 0 && Rank(B) == 1 && Rank(C) == 2;
    assert B != C;
    forall idx, loc | CityVerdict(Ascii(), [A, B, C], idx, loc) ensures loc.cityConfident {
      WitnessConfidence(B, C, idx, loc);
    }
    forall idx, loc | CityVerdict(Ascii(), [A, C, B], idx, loc) ensures !loc.cityConfident {
      WitnessConfidence(C, B, idx, loc);
    }
  }
}
