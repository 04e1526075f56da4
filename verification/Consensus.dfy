/** The cross-source vote (geolocate/consensus.go), the fan-out that feeds it
    (geolocate/geolocate.go) and the gates that consume it (ingest/ingest.go). */
module Consensus {
  import opened Agreement
  import opened Counting
  import opened PlaceNames
  import opened Runes

  const MIN_SOURCES := 2

  // ----- Country codes and votes

  function Normalize(u: RuneTables, code: string): string {
    MapRunes(u.lower, Trim(u, code))
  }

  /** Exactly two ASCII letters. */
  predicate IsAlpha2(code: string) {
    |code| == 2 && forall i :: 0 <= i < 2 ==> 'a' <= code[i] <= 'z' || 'A' <= code[i] <= 'Z'
  }

  function CountryNameForCode(u: RuneTables, table: map<string, string>, code: string): string {
    var key := MapRunes(u.upper, Trim(u, code));
    if key in table then table[key] else ""
  }

  function VotesFor(u: RuneTables, c: string): SourceResult -> bool {
    (r: SourceResult) => Normalize(u, r.countryCode) == c
  }

  function Votes(u: RuneTables, ok: seq<SourceResult>, c: string): nat {
    Count(VotesFor(u, c), ok)
  }

  /** The rank of the most trusted source that voted for c. */
  function VoteRank(u: RuneTables, ok: seq<SourceResult>, c: string): nat {
    if ok == [] then UNKNOWN_RANK
    else
      var r, last := VoteRank(u, ok[..|ok| - 1], c), ok[|ok| - 1];
      if VotesFor(u, c)(last) && SourceRank(last.name) < r then SourceRank(last.name) else r
  }

  /** Votes descending, then best rank ascending, then code ascending. */
  predicate Prefers(n: nat, r: nat, c: string, n': nat, r': nat, c': string) {
    n > n' || (n == n' && (r < r' || (r == r' && Less(c, c'))))
  }

  lemma PrefersIsStrictOrder(n1: nat, r1: nat, c1: string, n2: nat, r2: nat, c2: string, n3: nat, r3: nat, c3: string)
    ensures Prefers(n1, r1, c1, n2, r2, c2) && Prefers(n2, r2, c2, n3, r3, c3) ==> Prefers(n1, r1, c1, n3, r3, c3)
    ensures c1 != c2 ==> Prefers(n1, r1, c1, n2, r2, c2) || Prefers(n2, r2, c2, n1, r1, c1)
    ensures !(Prefers(n1, r1, c1, n2, r2, c2) && Prefers(n2, r2, c2, n1, r1, c1))
  {
    LessTotal(c1, c2);
    if Less(c1, c2) && Less(c2, c3) { LessTransitive(c1, c2, c3); }
  }

  /** c is the unique optimum of the vote. */
  ghost predicate CountryWins(u: RuneTables, ok: seq<SourceResult>, c: string) {
    && c != "" && Votes(u, ok, c) > 0
    && forall d :: d != c && d != "" && Votes(u, ok, d) > 0 ==>
         Prefers(Votes(u, ok, c), VoteRank(u, ok, c), c, Votes(u, ok, d), VoteRank(u, ok, d), d)
  }

  /** Some source that voted for c also named the country. */
  ghost predicate Named(u: RuneTables, ok: seq<SourceResult>, c: string) {
    exists r :: r in ok && VotesFor(u, c)(r) && Trim(u, r.country) != ""
  }

  /** The country record is complete and usable. */
  ghost predicate CountryConfident(u: RuneTables, table: map<string, string>, ok: seq<SourceResult>, c: string) {
    && CountryWins(u, ok, c) && Votes(u, ok, c) >= MIN_SOURCES && IsAlpha2(c)
    && (Named(u, ok, c) || CountryNameForCode(u, table, c) != "")
  }

  lemma {:induction false} VoteRankIsLeast(u: RuneTables, ok: seq<SourceResult>, c: string)
    ensures VoteRank(u, ok, c) <= UNKNOWN_RANK
    ensures forall r :: r in ok && VotesFor(u, c)(r) ==> VoteRank(u, ok, c) <= SourceRank(r.name)
    ensures VoteRank(u, ok, c) == UNKNOWN_RANK
            || exists r :: r in ok && VotesFor(u, c)(r) && SourceRank(r.name) == VoteRank(u, ok, c)
  {
    if ok != [] {
      var init, last := ok[..|ok| - 1], ok[|ok| - 1];
      VoteRankIsLeast(u, init, c);
      assert forall r :: r in ok <==> r in init || r == last;
    }
  }

  /** The vote does not depend on the order of the sources. */
  lemma VotePermuted(u: RuneTables, ok: seq<SourceResult>, ok': seq<SourceResult>, c: string)
    requires multiset(ok) == multiset(ok')
    ensures Votes(u, ok, c) == Votes(u, ok', c) && VoteRank(u, ok, c) == VoteRank(u, ok', c)
    ensures Named(u, ok, c) == Named(u, ok', c)
  {
    CountPermuted(VotesFor(u, c), ok, ok');
    VoteRankIsLeast(u, ok, c);
    VoteRankIsLeast(u, ok', c);
    assert forall r :: r in ok <==> r in multiset(ok);
    assert forall r :: r in ok' <==> r in multiset(ok');
  }

  /** Country code and confidence are invariant under permuting the sources. */
  lemma CountryPermuted(u: RuneTables, table: map<string, string>, ok: seq<SourceResult>, ok': seq<SourceResult>,
                        c: string)
    requires multiset(ok) == multiset(ok')
    ensures CountryConfident(u, table, ok, c) <==> CountryConfident(u, table, ok', c)
  {
    forall d ensures Votes(u, ok, d) == Votes(u, ok', d) && VoteRank(u, ok, d) == VoteRank(u, ok', d) {
      VotePermuted(u, ok, ok', d);
    }
    VotePermuted(u, ok, ok', c);
  }

  lemma WinnerUnique(u: RuneTables, ok: seq<SourceResult>, c: string, d: string)
    requires CountryWins(u, ok, c) && CountryWins(u, ok, d)
    ensures c == d
  {
    if c != d {
      PrefersIsStrictOrder(Votes(u, ok, c), VoteRank(u, ok, c), c, Votes(u, ok, d), VoteRank(u, ok, d), d, 0, 0, "");
    }
  }

  /** Two codes can share a qualifying count only with 2 * MIN_SOURCES votes or more. */
  lemma TieNeedsTwiceTheQuorum(u: RuneTables, ok: seq<SourceResult>, c: string, d: string)
    requires c != d && Votes(u, ok, c) == Votes(u, ok, d) >= MIN_SOURCES
    ensures |ok| >= 2 * MIN_SOURCES
  {
    CountDisjoint(VotesFor(u, c), VotesFor(u, d), ok);
  }

  // ----- displayField

  datatype Offer = Offer(key: string, text: string, rank: nat)

  datatype Rendering = Nothing | Held(text: string, rank: nat)

  /** The rendering held for c after a series of offers. */
  function Resolve(u: RuneTables, offers: seq<Offer>, c: string): Rendering {
    if offers == [] then Nothing
    else
      var h, o := Resolve(u, offers[..|offers| - 1], c), offers[|offers| - 1];
      if o.key != c || Trim(u, o.text) == "" || (h.Held? && o.rank >= h.rank) then h else Held(Trim(u, o.text), o.rank)
  }

  predicate Usable(u: RuneTables, o: Offer, c: string) {
    o.key == c && Trim(u, o.text) != ""
  }

  ghost predicate MostTrusted(u: RuneTables, offers: seq<Offer>, c: string, k: int) {
    && 0 <= k < |offers| && Usable(u, offers[k], c)
    && forall j :: 0 <= j < |offers| && Usable(u, offers[j], c) ==>
         offers[k].rank < offers[j].rank || (offers[k].rank == offers[j].rank && k <= j)
  }

  lemma StillMostTrusted(u: RuneTables, offers: seq<Offer>, c: string, k: int, o: Offer)
    requires MostTrusted(u, offers, c, k) && (Usable(u, o, c) ==> offers[k].rank <= o.rank)
    ensures MostTrusted(u, offers + [o], c, k)
  {
  }

  lemma NewMostTrusted(u: RuneTables, offers: seq<Offer>, c: string, o: Offer)
    requires Usable(u, o, c) && forall j :: 0 <= j < |offers| && Usable(u, offers[j], c) ==> o.rank < offers[j].rank
    ensures MostTrusted(u, offers + [o], c, |offers|)
  {
  }

  /** The most trusted non-blank offer is held, the first one when ranks tie; a blank offer
      never displaces anything. */
  lemma {:induction false} ResolveIsMostTrusted(u: RuneTables, offers: seq<Offer>, c: string)
    ensures var h := Resolve(u, offers, c);
            if h.Nothing? then forall j :: 0 <= j < |offers| ==> !Usable(u, offers[j], c)
            else exists k :: MostTrusted(u, offers, c, k) && h == Held(Trim(u, offers[k].text), offers[k].rank)
  {
    if offers != [] {
      var init, o := offers[..|offers| - 1], offers[|offers| - 1];
      ResolveIsMostTrusted(u, init, c);
      assert offers == init + [o];
      var h := Resolve(u, init, c);
      if Usable(u, o, c) && (h.Held? ==> o.rank < h.rank) {
        NewMostTrusted(u, init, c, o);
      } else if h.Held? {
        var k :| MostTrusted(u, init, c, k) && h == Held(Trim(u, init[k].text), init[k].rank);
        StillMostTrusted(u, init, c, k, o);
      }
    }
  }

  class DisplayField {
    var value: map<string, string>
    var rank: map<string, nat>
    ghost var offers: seq<Offer>

    ghost predicate Valid(u: RuneTables)
      reads this
    {
      && value.Keys == rank.Keys
      && forall c :: Resolve(u, offers, c) == if c in value then Held(value[c], rank[c]) else Nothing
    }

    constructor (u: RuneTables)
      ensures Valid(u) && offers == []
    {
      value, rank, offers := map[], map[], [];
    }

    method Add(u: RuneTables, c: string, v: string, r: nat)
      requires Valid(u)
      modifies this
      ensures Valid(u) && offers == old(offers) + [Offer(c, v, r)]
    {
      ghost var o := Offer(c, v, r);
      offers := offers + [o];
      assert offers[..|offers| - 1] == old(offers);
      var t := Trim(u, v);
      if t == "" {
        return;
      }
      if c in rank && r >= rank[c] {
        return;
      }
      value := value[c := t];
      rank := rank[c := r];
    }

    function Get(c: string): string
      reads this
    {
      if c in value then value[c] else ""
    }
  }

  /** The country names offered by the first n results. */
  function NameOffers(u: RuneTables, ok: seq<SourceResult>): (offers: seq<Offer>) {
    if ok == [] then []
    else
      var init, r := NameOffers(u, ok[..|ok| - 1]), ok[|ok| - 1];
      var c := Normalize(u, r.countryCode);
      if c == "" then init else init + [Offer(c, r.country, SourceRank(r.name))]
  }

  lemma {:induction false} OffersAreNames(u: RuneTables, ok: seq<SourceResult>, c: string)
    requires c != ""
    ensures Named(u, ok, c) <==> exists o :: o in NameOffers(u, ok) && Usable(u, o, c)
  {
    if ok != [] {
      var init, r := ok[..|ok| - 1], ok[|ok| - 1];
      OffersAreNames(u, init, c);
      assert forall x :: x in ok <==> x in init || x == r;
      var o := Offer(Normalize(u, r.countryCode), r.country, SourceRank(r.name));
      assert forall x :: x in NameOffers(u, ok) <==> x in NameOffers(u, init) || (o.key != "" && x == o);
      assert Usable(u, o, c) <==> VotesFor(u, c)(r) && Trim(u, r.country) != "";
    }
  }

  lemma NameIsHeld(u: RuneTables, ok: seq<SourceResult>, c: string)
    requires c != ""
    ensures var h := Resolve(u, NameOffers(u, ok), c);
            (h.Held? <==> Named(u, ok, c)) && (h.Held? ==> h.text != "" && Trim(u, h.text) == h.text)
  {
    ResolveIsMostTrusted(u, NameOffers(u, ok), c);
    OffersAreNames(u, ok, c);
    var h, offers := Resolve(u, NameOffers(u, ok), c), NameOffers(u, ok);
    if h.Held? {
      var k :| MostTrusted(u, offers, c, k) && h == Held(Trim(u, offers[k].text), offers[k].rank);
      TrimIdempotent(u, offers[k].text);
      assert offers[k] in offers;
    }
  }

  // ----- The country vote

  /** The maps hold exactly the codes voted for, with their votes and best ranks. */
  ghost predicate Tallied(u: RuneTables, ok: seq<SourceResult>, counts: map<string, nat>, ranks: map<string, nat>) {
    && counts.Keys == ranks.Keys
    && (forall c :: c in counts <==> c != "" && Votes(u, ok, c) > 0)
    && (forall c :: c in counts ==> counts[c] == Votes(u, ok, c))
    && (forall c :: c in counts ==> ranks[c] == VoteRank(u, ok, c))
  }

  lemma TallyStep(u: RuneTables, ok: seq<SourceResult>, r: SourceResult, counts: map<string, nat>,
                  ranks: map<string, nat>)
    requires Tallied(u, ok, counts, ranks)
    ensures var c, rank := Normalize(u, r.countryCode), SourceRank(r.name);
            if c == "" then Tallied(u, ok + [r], counts, ranks)
            else Tallied(u, ok + [r], counts[c := if c in counts then counts[c] + 1 else 1],
                         if c !in ranks || rank < ranks[c] then ranks[c := rank] else ranks)
  {
    VoteStep(u, ok, r);
  }

  lemma OffersStep(u: RuneTables, ok: seq<SourceResult>, r: SourceResult)
    ensures var c := Normalize(u, r.countryCode);
            NameOffers(u, ok + [r]) ==
            NameOffers(u, ok) + if c == "" then [] else [Offer(c, r.country, SourceRank(r.name))]
  {
    assert (ok + [r])[..|ok|] == ok;
  }

  method TallyCountries(u: RuneTables, ok: seq<SourceResult>)
    returns (counts: map<string, nat>, ranks: map<string, nat>, names: DisplayField)
    ensures fresh(names) && names.Valid(u) && names.offers == NameOffers(u, ok)
    ensures Tallied(u, ok, counts, ranks)
  {
    counts, ranks := map[], map[];
    names := new DisplayField(u);
    for i := 0 to |ok|
      invariant fresh(names) && names.Valid(u) && names.offers == NameOffers(u, ok[..i])
      invariant Tallied(u, ok[..i], counts, ranks)
    {
      assert ok[..i + 1] == ok[..i] + [ok[i]];
      TallyStep(u, ok[..i], ok[i], counts, ranks);
      OffersStep(u, ok[..i], ok[i]);
      var c := Normalize(u, ok[i].countryCode);
      if c == "" {
        continue;
      }
      counts := counts[c := if c in counts then counts[c] + 1 else 1];
      var rank := SourceRank(ok[i].name);
      names.Add(u, c, ok[i].country, rank);
      if c !in ranks || rank < ranks[c] {
        ranks := ranks[c := rank];
      }
    }
    assert ok[..|ok|] == ok;
  }

  /** One more result adds one vote, for its own code only. */
  lemma VoteStep(u: RuneTables, ok: seq<SourceResult>, r: SourceResult)
    ensures var c, rank, ok' := Normalize(u, r.countryCode), SourceRank(r.name), ok + [r];
            && (forall d :: Votes(u, ok', d) == Votes(u, ok, d) + if d == c then 1 else 0)
            && (forall d :: d != c ==> VoteRank(u, ok', d) == VoteRank(u, ok, d))
            && VoteRank(u, ok', c) ==
               if Votes(u, ok, c) == 0 || rank < VoteRank(u, ok, c) then rank else VoteRank(u, ok, c)
  {
    var c, ok' := Normalize(u, r.countryCode), ok + [r];
    assert ok'[..|ok|] == ok;
    forall d ensures VotesFor(u, d)(r) <==> d == c {}
    VoteRankIsLeast(u, ok, c);
    CountPositive(VotesFor(u, c), ok);
    if Votes(u, ok, c) == 0 {
      assert forall x :: x in ok ==> !VotesFor(u, c)(x);
    }
  }

  /** The map is visited in an arbitrary order; the result is the optimum for every order. */
  method PickCountry(counts: map<string, nat>, ranks: map<string, nat>)
    returns (best: string, bestN: nat)
    requires counts.Keys == ranks.Keys && "" !in counts && forall c :: c in counts ==> counts[c] > 0
    ensures counts == map[] ==> best == "" && bestN == 0
    ensures counts != map[] ==>
        && best in counts && bestN == counts[best]
        && forall d :: d in counts && d != best ==> Prefers(counts[best], ranks[best], best, counts[d], ranks[d], d)
  {
    var bestRank := 0;
    best, bestN := "", 0;
    var rest := counts.Keys;
    while rest != {}
      invariant rest <= counts.Keys
      invariant if rest == counts.Keys then best == "" && bestN == 0 else
          && best in counts.Keys - rest && bestN == counts[best] && bestRank == ranks[best]
          && forall d :: d in counts.Keys - rest && d != best ==>
               Prefers(counts[best], ranks[best], best, counts[d], ranks[d], d)
      decreases |rest|
    {
      var c :| c in rest;
      rest := rest - {c};
      var n, rank := counts[c], ranks[c];
      ghost var before := best;
      if n > bestN {
        best, bestN, bestRank := c, n, rank;
      } else if n == bestN && rank < bestRank {
        best, bestRank := c, rank;
      } else if n == bestN && rank == bestRank && Less(c, best) {
        best := c;
      }
      if before in counts {
        forall d | d in counts {
          PrefersIsStrictOrder(n, rank, c, counts[before], ranks[before], before, counts[d], ranks[d], d);
        }
      }
    }
  }

  // ----- consensus

  datatype ConsensusLocation = ConsensusLocation(
    countryCode: string, country: string, countryConfident: bool,
    city: string, region: string, cityConfident: bool,
    sources: seq<SourceResult>, probedAt: int)

  const UNKNOWN_LOCATION := ConsensusLocation("", "", false, "", "", false, [], 0)

  function City(r: SourceResult): string { r.city }

  function Region(r: SourceResult): string { r.region }

  /** The country record of a location: set exactly when some code is confident, to that code,
      and named by the most trusted source that named it, else by the table. */
  ghost predicate CountryVerdict(u: RuneTables, table: map<string, string>, ok: seq<SourceResult>,
                                 loc: ConsensusLocation) {
    && (loc.countryConfident <==> exists c :: CountryConfident(u, table, ok, c))
    && if loc.countryConfident then
         && CountryConfident(u, table, ok, loc.countryCode)
         && loc.country != ""
         && var h := Resolve(u, NameOffers(u, ok), loc.countryCode);
            loc.country == if h.Held? then h.text else CountryNameForCode(u, table, loc.countryCode)
       else loc.countryCode == "" && loc.country == ""
  }

  /** Some member of the group names a region. */
  ghost predicate NamesRegion(u: RuneTables, ok: seq<SourceResult>, idx: seq<nat>)
    requires forall k :: 0 <= k < |idx| ==> idx[k] < |ok|
  {
    exists k :: 0 <= k < |idx| && Tokens(u, ok[idx[k]].region) != []
  }

  /** The region of a group of results: the name published for the largest group among them that
      agrees on one, at the positions rIdx. */
  ghost predicate RegionOf(u: RuneTables, agreeing: seq<SourceResult>, region: string, rIdx: seq<nat>) {
    && (forall k :: 0 <= k < |rIdx| ==> rIdx[k] < |agreeing|)
    && BestGroup(TokensOf(u, agreeing, Region), RanksOf(agreeing), rIdx)
    && PublishedAs(u, Pick(agreeing, rIdx), Region, region)
  }

  /** The city record of a location, given the positions of the sources that agree on the city:
      set exactly when two or more agree and one of them names a region, and then to the name
      published for them, which every one of them asserts, and to their region. */
  ghost predicate CityVerdict(u: RuneTables, ok: seq<SourceResult>, idx: seq<nat>, loc: ConsensusLocation) {
    && (forall k :: 0 <= k < |idx| ==> idx[k] < |ok|)
    && BestGroup(TokensOf(u, ok, City), RanksOf(ok), idx)
    && (loc.cityConfident <==> |idx| >= 2 && NamesRegion(u, ok, idx))
    && if loc.cityConfident then
         && loc.city != "" && loc.region != ""
         && PublishedAs(u, Pick(ok, idx), City, loc.city)
         && (forall k :: 0 <= k < |idx| ==> IsPrefix(Tokens(u, loc.city), Tokens(u, ok[idx[k]].city)))
         && exists rIdx :: RegionOf(u, Pick(ok, idx), loc.region, rIdx)
       else loc.city == "" && loc.region == ""
  }

  lemma PickedAgree(u: RuneTables, ok: seq<SourceResult>, idx: seq<nat>, get: SourceResult -> string, k: nat, j: nat)
    requires (forall i :: 0 <= i < |idx| ==> idx[i] < |ok|) && k < |idx| && j < |idx|
    requires Agrees(TokensOf(u, ok, get), Elements(idx))
    ensures Match(Tokens(u, get(Pick(ok, idx)[k])), Tokens(u, get(Pick(ok, idx)[j])))
  {
    assert idx[k] in Elements(idx) && idx[j] in Elements(idx);
    assert Match(TokensOf(u, ok, get)[idx[k]], TokensOf(u, ok, get)[idx[j]]);
  }

  /** The name rendered for an agreeing group leads what every member said. */
  method SharedName(u: RuneTables, ok: seq<SourceResult>, ghost idx: seq<nat>, group: seq<SourceResult>,
                    get: SourceResult -> string)
    returns (name: string)
    requires u.Valid() && (forall i :: 0 <= i < |idx| ==> idx[i] < |ok|) && group == Pick(ok, idx)
    requires Agrees(TokensOf(u, ok, get), Elements(idx))
    ensures name == "" <==> group == []
    ensures name != "" ==> forall j :: 0 <= j < |group| ==> IsPrefix(Tokens(u, name), Tokens(u, get(group[j])))
    ensures name != "" ==> PublishedAs(u, group, get, name)
  {
    name := CanonicalPlace(u, group, get);
    if group != [] {
      PickedAgree(u, ok, idx, get, 0, 0);
      assert Tokens(u, get(group[0])) != [];
    }
    if name != "" {
      ghost var k: nat :| Shortest(u, group, get, k) && name == Display(u, get(group[k]));
      forall j | 0 <= j < |group| ensures IsPrefix(Tokens(u, name), Tokens(u, get(group[j]))) {
        PickedAgree(u, ok, idx, get, k, j);
        CanonicalIsSharedPrefix(u, group, get, k, j);
      }
    }
  }

  /** A group forms as soon as one result has a token. */
  lemma TokenMakesGroup(toks: seq<seq<string>>, ranks: seq<nat>, idx: seq<nat>)
    requires BestGroup(toks, ranks, idx)
    ensures idx != [] <==> exists j :: 0 <= j < |toks| && toks[j] != []
  {
    if j :| 0 <= j < |toks| && toks[j] != [] {
      assert Agrees(toks, {j});
    }
    if idx != [] {
      assert idx[0] in Elements(idx);
      assert Match(toks[idx[0]], toks[idx[0]]);
    }
  }

  /** The region carried by an agreeing group: whichever of its members named one. */
  method SharedRegion(u: RuneTables, ok: seq<SourceResult>, ghost idx: seq<nat>, agreeing: seq<SourceResult>)
    returns (r: string)
    requires u.Valid() && (forall i :: 0 <= i < |idx| ==> idx[i] < |ok|) && agreeing == Pick(ok, idx)
    ensures r != "" <==> NamesRegion(u, ok, idx)
    ensures r != "" ==> exists rIdx :: RegionOf(u, agreeing, r, rIdx)
  {
    var group := AgreeOnPlace(u, agreeing, Region);
    ghost var rIdx: seq<nat> :| IsBestAt(agreeing, TokensOf(u, agreeing, Region), group, rIdx);
    r := SharedName(u, agreeing, rIdx, group, Region);
    RegionIsNamed(u, ok, idx, rIdx);
    assert r != "" ==> RegionOf(u, agreeing, r, rIdx);
  }

  /** The regions group forms exactly when some member of the agreeing group names a region. */
  lemma RegionIsNamed(u: RuneTables, ok: seq<SourceResult>, idx: seq<nat>, rIdx: seq<nat>)
    requires forall i :: 0 <= i < |idx| ==> idx[i] < |ok|
    requires BestGroup(TokensOf(u, Pick(ok, idx), Region), RanksOf(Pick(ok, idx)), rIdx)
    ensures rIdx != [] <==> exists k :: 0 <= k < |idx| && Tokens(u, ok[idx[k]].region) != []
  {
    var toks := TokensOf(u, Pick(ok, idx), Region);
    TokenMakesGroup(toks, RanksOf(Pick(ok, idx)), rIdx);
    forall k | 0 <= k < |idx|
      ensures toks[k] == Tokens(u, ok[idx[k]].region)
    {
      assert Region(Pick(ok, idx)[k]) == ok[idx[k]].region;
      assert toks[k] == Tokens(u, Region(Pick(ok, idx)[k]));
    }
  }

  function CityRecord(city: string, region: string, confident: bool): ConsensusLocation {
    UNKNOWN_LOCATION.(city := city, region := region, cityConfident := confident)
  }

  lemma CityIsShared(u: RuneTables, ok: seq<SourceResult>, idx: seq<nat>, agreeing: seq<SourceResult>, city: string,
                     region: string)
    requires IsBestAt(ok, TokensOf(u, ok, City), agreeing, idx) && |idx| >= 2 && NamesRegion(u, ok, idx)
    requires region != "" && exists rIdx :: RegionOf(u, agreeing, region, rIdx)
    requires city != "" && PublishedAs(u, agreeing, City, city)
    requires forall j :: 0 <= j < |agreeing| ==> IsPrefix(Tokens(u, city), Tokens(u, City(agreeing[j])))
    ensures CityVerdict(u, ok, idx, CityRecord(city, region, true))
  {
    assert forall k :: 0 <= k < |idx| ==> City(agreeing[k]) == ok[idx[k]].city;
  }

  lemma CityIsUnknown(u: RuneTables, ok: seq<SourceResult>, idx: seq<nat>, agreeing: seq<SourceResult>)
    requires IsBestAt(ok, TokensOf(u, ok, City), agreeing, idx) && (|idx| < 2 || !NamesRegion(u, ok, idx))
    ensures CityVerdict(u, ok, idx, CityRecord("", "", false))
  {
  }

  method ResolveCity(u: RuneTables, ok: seq<SourceResult>) returns (city: string, region: string, confident: bool)
    requires u.Valid()
    ensures exists idx: seq<nat> :: CityVerdict(u, ok, idx, CityRecord(city, region, confident))
  {
    city, region, confident := "", "", false;
    var agreeing := AgreeOnPlace(u, ok, City);
    ghost var idx: seq<nat> :| IsBestAt(ok, TokensOf(u, ok, City), agreeing, idx);
    if |agreeing| >= 2 {
      var r := SharedRegion(u, ok, idx, agreeing);
      if r != "" {
        city := SharedName(u, ok, idx, agreeing, City);
        region := r;
        confident := true;
        CityIsShared(u, ok, idx, agreeing, city, region);
        return;
      }
    }
    CityIsUnknown(u, ok, idx, agreeing);
  }

  method ResolveCountry(u: RuneTables, table: map<string, string>, ok: seq<SourceResult>)
    returns (code: string, country: string, confident: bool)
    ensures CountryVerdict(u, table, ok,
      UNKNOWN_LOCATION.(countryCode := code, country := country, countryConfident := confident))
  {
    code, country, confident := "", "", false;
    var counts, ranks, names := TallyCountries(u, ok);
    var best, bestN := PickCountry(counts, ranks);
    WinnerOfTally(u, table, ok, counts, ranks, best);
    if bestN >= MIN_SOURCES {
      NameIsHeld(u, ok, best);
      var name := names.Get(best);
      if name == "" {
        name := CountryNameForCode(u, table, best);
      }
      if IsAlpha2(best) && name != "" {
        code, country, confident := best, name, true;
      }
    }
    assert confident <==> best in counts && CountryConfident(u, table, ok, best);
  }

  /** The optimum over the maps is the winner of the vote, and the only code that can be
      confident. */
  lemma WinnerOfTally(u: RuneTables, table: map<string, string>, ok: seq<SourceResult>, counts: map<string, nat>,
                      ranks: map<string, nat>, best: string)
    requires Tallied(u, ok, counts, ranks)
    requires counts != map[] ==>
               (best in counts && forall d :: d in counts && d != best ==>
                                                Prefers(counts[best], ranks[best], best, counts[d], ranks[d], d))
    ensures counts != map[] ==> CountryWins(u, ok, best)
    ensures forall c :: CountryConfident(u, table, ok, c) ==> c in counts && c == best
  {
    forall c | CountryWins(u, ok, c) ensures c in counts && c == best {
      assert c in counts;
      assert CountryWins(u, ok, best);
      WinnerUnique(u, ok, c, best);
    }
  }

  method Consensus(u: RuneTables, table: map<string, string>, ok: seq<SourceResult>)
    returns (loc: ConsensusLocation)
    requires u.Valid()
    ensures CountryVerdict(u, table, ok, loc)
    ensures exists idx: seq<nat> :: CityVerdict(u, ok, idx, loc)
  {
    var code, country, countryConfident := ResolveCountry(u, table, ok);
    var city, region, cityConfident := ResolveCity(u, ok);
    loc := ConsensusLocation(code, country, countryConfident, city, region, cityConfident, [], 0);
    ghost var idx: seq<nat> :| CityVerdict(u, ok, idx, CityRecord(city, region, cityConfident));
    assert CityVerdict(u, ok, idx, loc);
  }

  // ----- The local gates of Submit

  datatype Gate =
    | NotConfident | MissingProbedAt | IncompleteCountry
    | Posted(countryCode: string, country: string, city: string, region: string)

  function Submit(u: RuneTables, loc: ConsensusLocation): Gate {
    if !loc.countryConfident then NotConfident
    else if loc.probedAt == 0 then MissingProbedAt
    else if !IsAlpha2(loc.countryCode) || Trim(u, loc.country) == "" then IncompleteCountry
    else if loc.cityConfident then Posted(loc.countryCode, loc.country, loc.city, loc.region)
    else Posted(loc.countryCode, loc.country, "", "")
  }

  ghost predicate TableNamed(u: RuneTables, table: map<string, string>) {
    forall c :: c in table ==> Trim(u, table[c]) != ""
  }

  /** What `locate` calls country-confident is never refused locally: no doomed submission. */
  lemma ConfidentIsPosted(u: RuneTables, table: map<string, string>, ok: seq<SourceResult>, loc: ConsensusLocation)
    requires CountryVerdict(u, table, ok, loc) && TableNamed(u, table) && loc.probedAt != 0
    ensures loc.countryConfident <==> Submit(u, loc).Posted?
  {
    if loc.countryConfident {
      NameIsHeld(u, ok, loc.countryCode);
    }
  }

  // ----- locate

  datatype LocateResult = NilClient | NoConsensus | Located(loc: ConsensusLocation)

  /** Two different sources both said something that starts with the published city. */
  ghost predicate Corroborated(u: RuneTables, outcomes: seq<SourceResult>, city: string) {
    exists i, j :: 0 <= i < j < |outcomes| && Said(u, outcomes[i], city) && Said(u, outcomes[j], city)
  }

  ghost predicate Said(u: RuneTables, r: SourceResult, city: string) {
    r.ok && IsPrefix(Tokens(u, city), Tokens(u, r.city))
  }

  predicate Answered(r: SourceResult) { r.ok }

  /** Positions of the results that answered. */
  function Successes(results: seq<SourceResult>): (idx: seq<nat>)
    ensures Increasing(idx) && forall k :: 0 <= k < |idx| ==> idx[k] < |results| && results[idx[k]].ok
    ensures |idx| == Count(Answered, results)
  {
    if results == [] then []
    else
      var init, n := Successes(results[..|results| - 1]), |results| - 1;
      if results[n].ok then init + [n] else init
  }

  /** The sources are fetched by goroutines that finish in any order, each writing its own slot. */
  method FetchAll(outcomes: seq<SourceResult>) returns (results: seq<SourceResult>)
    ensures results == outcomes
  {
    var slots := new SourceResult[|outcomes|](i => SourceResult("", false, "", "", "", ""));
    var running := Range(|outcomes|);
    while running != {}
      invariant running <= Range(|outcomes|)
      invariant forall i :: 0 <= i < |outcomes| && i !in running ==> slots[i] == outcomes[i]
      decreases |running|
    {
      var i :| i in running;
      slots[i] := outcomes[i];
      running := running - {i};
    }
    results := slots[..];
  }

  /** The slice handed to consensus: the results that answered, in source order. */
  method KeepAnswered(results: seq<SourceResult>) returns (ok: seq<SourceResult>)
    ensures ok == Pick(results, Successes(results))
  {
    ok := [];
    for i := 0 to |results|
      invariant ok == Pick(results, Successes(results[..i]))
    {
      assert results[..i + 1][..i] == results[..i];
      if results[i].ok {
        ok := ok + [results[i]];
      }
    }
    assert results[..|results|] == results;
  }

  /** Two agreeing positions come from two different sources. */
  lemma AgreementIsCorroboration(u: RuneTables, outcomes: seq<SourceResult>, idx: seq<nat>, city: string)
    requires Increasing(idx) && |idx| >= 2 && forall k :: 0 <= k < |idx| ==> idx[k] < |Successes(outcomes)|
    requires forall k :: 0 <= k < |idx| ==>
      IsPrefix(Tokens(u, city), Tokens(u, Pick(outcomes, Successes(outcomes))[idx[k]].city))
    ensures Corroborated(u, outcomes, city)
  {
    var s := Successes(outcomes);
    var ok := Pick(outcomes, s);
    var i, j := s[idx[0]], s[idx[1]];
    assert ok[idx[0]] == outcomes[i] && ok[idx[1]] == outcomes[j];
    assert i < j && Said(u, outcomes[i], city) && Said(u, outcomes[j], city);
  }

  method Locate(u: RuneTables, table: map<string, string>, clientPresent: bool, outcomes: seq<SourceResult>, now: int)
    returns (r: LocateResult)
    requires u.Valid()
    ensures r.NilClient? <==> !clientPresent
    ensures r.NoConsensus? <==> clientPresent && Count(Answered, outcomes) < MIN_SOURCES
    ensures r.Located? ==> r.loc.sources == outcomes && r.loc.probedAt == now
    ensures r.Located? ==> CountryVerdict(u, table, Pick(outcomes, Successes(outcomes)), r.loc)
    ensures r.Located? ==> exists idx: seq<nat> :: CityVerdict(u, Pick(outcomes, Successes(outcomes)), idx, r.loc)
    ensures r.Located? && r.loc.cityConfident ==> Corroborated(u, outcomes, r.loc.city)
    ensures r.Located? && TableNamed(u, table) && now != 0 ==> (r.loc.countryConfident <==> Submit(u, r.loc).Posted?)
  {
    if !clientPresent {
      return NilClient;
    }
    var results := FetchAll(outcomes);
    var ok := KeepAnswered(results);
    if |ok| < MIN_SOURCES {
      return NoConsensus;
    }
    var loc := Consensus(u, table, ok);
    ghost var agreeing: seq<nat> :| CityVerdict(u, ok, agreeing, loc);
    if loc.cityConfident {
      AgreementIsCorroboration(u, outcomes, agreeing, loc.city);
    }
    loc := loc.(sources := results, probedAt := now);
    assert CityVerdict(u, ok, agreeing, loc);
    if TableNamed(u, table) && now != 0 {
      ConfidentIsPosted(u, table, ok, loc);
    }
    r := Located(loc);
  }
}
