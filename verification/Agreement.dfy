/** Which sources name the same place: agreeOnPlace and canonicalPlace
    (geolocate/consensus.go). */
module Agreement {
  import opened Counting
  import opened PlaceNames
  import opened Runes

  /** One source's observation; the fields that consensus votes on. */
  datatype SourceResult = SourceResult(
    name: string, ok: bool, countryCode: string, country: string, city: string, region: string)

  const UNKNOWN_RANK: nat := 0x4000_0000

  /** SourcePriority: lower is more trusted. */
  function SourceRank(name: string): (rank: nat)
    ensures rank <= UNKNOWN_RANK
  {
    if name == "ip.pn" then 0
    else if name == "freeipapi" then 1
    else if name == "ipinfo" then 2
    else UNKNOWN_RANK
  }

  function TokensOf(u: RuneTables, ok: seq<SourceResult>, get: SourceResult -> string): seq<seq<string>> {
    seq(|ok|, i requires 0 <= i < |ok| => Tokens(u, get(ok[i])))
  }

  function RanksOf(ok: seq<SourceResult>): seq<nat> {
    seq(|ok|, i requires 0 <= i < |ok| => SourceRank(ok[i].name))
  }

  /** A set of results that corroborate one place: every two of them match. Matching oneself
      means having a token, so results without tokens are in no such set. */
  ghost predicate Agrees(toks: seq<seq<string>>, s: set<nat>) {
    && (forall a :: a in s ==> a < |toks|)
    && forall a, b :: a in s && b in s ==> Match(toks[a], toks[b])
  }

  ghost predicate Leads(toks: seq<seq<string>>, s: set<nat>, l: nat) {
    l in s && forall a :: a in s ==> a < |toks| && l < |toks| && toks[a] <= toks[l]
  }

  ghost predicate HasRankUpTo(ranks: seq<nat>, s: set<nat>, rank: nat) {
    exists a :: a in s && a < |ranks| && ranks[a] <= rank
  }

  /** `s` contains a source trusted at least as much as every source in `t`. */
  ghost predicate TrustedAsMuch(ranks: seq<nat>, s: set<nat>, t: set<nat>) {
    forall b {:trigger HasRankUpTo(ranks, s, ranks[b])} :: b in t && b < |ranks| ==> HasRankUpTo(ranks, s, ranks[b])
  }

  /** The best group: no agreeing set is larger; no agreeing set of that size contains a more
      trusted source; and among those as trusted, none is led from an earlier position. */
  ghost predicate BestGroup(toks: seq<seq<string>>, ranks: seq<nat>, idx: seq<nat>) {
    && Increasing(idx) && Agrees(toks, Elements(idx))
    && (forall s :: Agrees(toks, s) ==> |s| <= |idx|)
    && (forall s :: Agrees(toks, s) && |s| == |idx| ==> TrustedAsMuch(ranks, Elements(idx), s))
    && (idx != [] ==> exists l :: Leads(toks, Elements(idx), l) && EarliestLeader(toks, ranks, idx, l))
  }

  ghost predicate EarliestLeader(toks: seq<seq<string>>, ranks: seq<nat>, idx: seq<nat>, l: nat) {
    forall s, m :: Agrees(toks, s) && |s| == |idx| && TrustedAsMuch(ranks, s, Elements(idx)) && Leads(toks, s, m) ==>
      l <= m
  }

  // ----- The groups the code builds

  /** The results among the first n that name a prefix of what result i names. */
  function Followers(toks: seq<seq<string>>, i: nat, n: nat): (idx: seq<nat>)
    requires i < |toks| && n <= |toks|
    ensures Increasing(idx) && forall k :: 0 <= k < |idx| ==> idx[k] < n
    ensures forall j :: j in idx <==> 0 <= j < n && IsPrefix(toks[j], toks[i])
  {
    if n == 0 then []
    else
      var init := Followers(toks, i, n - 1);
      if IsPrefix(toks[n - 1], toks[i]) then init + [n - 1] else init
  }

  function MinRank(ranks: seq<nat>, idx: seq<nat>): nat
    requires forall k :: 0 <= k < |idx| ==> idx[k] < |ranks|
  {
    if idx == [] then UNKNOWN_RANK
    else
      var r := MinRank(ranks, idx[..|idx| - 1]);
      if ranks[idx[|idx| - 1]] < r then ranks[idx[|idx| - 1]] else r
  }

  function Group(toks: seq<seq<string>>, i: nat): seq<nat>
    requires i < |toks|
  {
    Followers(toks, i, |toks|)
  }

  /** What the code compares groups by. */
  datatype Key = Key(size: nat, rank: nat)

  function Keys(toks: seq<seq<string>>, ranks: seq<nat>): (keys: seq<Key>)
    requires |toks| == |ranks|
    ensures |keys| == |toks|
  {
    seq(|toks|, i requires 0 <= i < |toks| => Key(|Group(toks, i)|, MinRank(ranks, Group(toks, i))))
  }

  /** Larger groups first, then the better rank, then the earlier position. */
  predicate AtLeastAsGood(keys: seq<Key>, l: nat, j: nat)
    requires l < |keys| && j < |keys|
  {
    || keys[j].size < keys[l].size
    || (keys[j].size == keys[l].size && (keys[l].rank < keys[j].rank || (keys[l].rank == keys[j].rank && l <= j)))
  }

  lemma {:induction false} MinRankIsLeast(ranks: seq<nat>, idx: seq<nat>)
    requires forall k :: 0 <= k < |idx| ==> idx[k] < |ranks| && ranks[idx[k]] <= UNKNOWN_RANK
    ensures forall j :: j in idx ==> MinRank(ranks, idx) <= ranks[j]
    ensures idx != [] ==> exists j :: j in idx && ranks[j] == MinRank(ranks, idx)
  {
    if idx != [] {
      var init, x := idx[..|idx| - 1], idx[|idx| - 1];
      MinRankIsLeast(ranks, init);
      assert forall j :: j in idx <==> j in init || j == x;
      if init == [] { assert x in idx; }
    }
  }

  /** Everything that prefixes one name agrees pairwise. */
  lemma GroupAgrees(toks: seq<seq<string>>, i: nat)
    requires i < |toks|
    ensures Agrees(toks, Elements(Group(toks, i)))
    ensures toks[i] != [] ==> i in Group(toks, i) && Leads(toks, Elements(Group(toks, i)), i)
  {
    var g := Group(toks, i);
    forall a, b | a in Elements(g) && b in Elements(g) ensures Match(toks[a], toks[b]) {
      assert toks[a] == toks[i][..|toks[a]|] && toks[b] == toks[i][..|toks[b]|];
    }
  }

  lemma {:induction false} LongestIn(toks: seq<seq<string>>, s: set<nat>) returns (l: nat)
    requires s != {} && forall a :: a in s ==> a < |toks|
    ensures l in s && forall a :: a in s ==> |toks[a]| <= |toks[l]|
    decreases |s|
  {
    l :| l in s;
    var rest := s - {l};
    if rest != {} {
      var m := LongestIn(toks, rest);
      if |toks[l]| < |toks[m]| { l := m; }
    }
  }

  /** A pairwise agreeing set is a chain under prefixing: it lies inside the group built around
      its longest member. This is where the non-transitive relation is tamed. */
  lemma AgreeingSetInGroup(toks: seq<seq<string>>, s: set<nat>) returns (l: nat)
    requires Agrees(toks, s) && s != {}
    ensures Leads(toks, s, l) && toks[l] != []
    ensures s <= Elements(Group(toks, l)) && |s| <= |Group(toks, l)|
  {
    l := LongestIn(toks, s);
    assert Match(toks[l], toks[l]);
    forall a | a in s ensures IsPrefix(toks[a], toks[l]) {
      assert Match(toks[a], toks[l]);
    }
    SubsetSize(s, Elements(Group(toks, l)));
    ElementsSize(Group(toks, l));
  }

  /** The comparisons the code makes against every result. */
  ghost predicate Wins(toks: seq<seq<string>>, keys: seq<Key>, l: nat)
    requires l < |toks| == |keys|
  {
    toks[l] != [] &&
    forall j {:trigger AtLeastAsGood(keys, l, j)} :: 0 <= j < |toks| && toks[j] != [] ==> AtLeastAsGood(keys, l, j)
  }

  lemma WinnerBeatsSet(toks: seq<seq<string>>, ranks: seq<nat>, l: nat, s: set<nat>)
    requires l < |toks| == |ranks| && forall j :: 0 <= j < |ranks| ==> ranks[j] <= UNKNOWN_RANK
    requires Wins(toks, Keys(toks, ranks), l) && Agrees(toks, s)
    ensures |s| <= |Group(toks, l)|
    ensures |s| == |Group(toks, l)| ==> TrustedAsMuch(ranks, Elements(Group(toks, l)), s)
    ensures |s| == |Group(toks, l)| && TrustedAsMuch(ranks, s, Elements(Group(toks, l))) ==>
              forall k :: Leads(toks, s, k) ==> l <= k
  {
    if s == {} {
      return;
    }
    var g, keys := Group(toks, l), Keys(toks, ranks);
    var m := AgreeingSetInGroup(toks, s);
    assert AtLeastAsGood(keys, l, m);
    if |s| == |g| {
      TiedSet(toks, ranks, g, s, m);
      if TrustedAsMuch(ranks, s, Elements(g)) {
        forall k | Leads(toks, s, k) ensures l <= k {
          SameLeader(toks, s, m, k);
          assert AtLeastAsGood(keys, l, k);
        }
      }
    }
  }

  /** The group the code settles on is the best one over all agreeing sets. */
  lemma WinnerIsBest(toks: seq<seq<string>>, ranks: seq<nat>, l: nat)
    requires l < |toks| == |ranks| && forall j :: 0 <= j < |ranks| ==> ranks[j] <= UNKNOWN_RANK
    requires Wins(toks, Keys(toks, ranks), l)
    ensures BestGroup(toks, ranks, Group(toks, l))
  {
    var g := Group(toks, l);
    GroupAgrees(toks, l);
    forall s | Agrees(toks, s)
      ensures |s| <= |g|
      ensures |s| == |g| ==> TrustedAsMuch(ranks, Elements(g), s)
      ensures |s| == |g| && TrustedAsMuch(ranks, s, Elements(g)) ==> forall k :: Leads(toks, s, k) ==> l <= k
    {
      WinnerBeatsSet(toks, ranks, l, s);
    }
    assert EarliestLeader(toks, ranks, g, l);
  }

  /** An agreeing set as large as a group that is no smaller than any other is itself one of the
      groups considered. */
  lemma TiedSet(toks: seq<seq<string>>, ranks: seq<nat>, g: seq<nat>, s: set<nat>, m: nat)
    requires |toks| == |ranks| && forall j :: 0 <= j < |ranks| ==> ranks[j] <= UNKNOWN_RANK
    requires g != [] && forall k :: 0 <= k < |g| ==> g[k] < |ranks|
    requires m in s && m < |toks| && s <= Elements(Group(toks, m))
    requires |s| == |g| && |Group(toks, m)| <= |g|
    ensures TrustedAsMuch(ranks, Elements(g), s) <==> MinRank(ranks, g) <= MinRank(ranks, Group(toks, m))
    ensures TrustedAsMuch(ranks, s, Elements(g)) <==> MinRank(ranks, Group(toks, m)) <= MinRank(ranks, g)
  {
    var h := Group(toks, m);
    ElementsSize(h);
    assert m in h;
    SameSize(s, Elements(h));
    TrustIsMinRank(ranks, g, h);
    TrustIsMinRank(ranks, h, g);
  }

  lemma TrustIsMinRank(ranks: seq<nat>, g: seq<nat>, h: seq<nat>)
    requires g != [] && h != [] && forall j :: 0 <= j < |ranks| ==> ranks[j] <= UNKNOWN_RANK
    requires forall k :: 0 <= k < |g| ==> g[k] < |ranks|
    requires forall k :: 0 <= k < |h| ==> h[k] < |ranks|
    ensures TrustedAsMuch(ranks, Elements(g), Elements(h)) <==> MinRank(ranks, g) <= MinRank(ranks, h)
  {
    MinRankIsLeast(ranks, g);
    MinRankIsLeast(ranks, h);
    var a :| a in g && ranks[a] == MinRank(ranks, g);
    var b :| b in h && ranks[b] == MinRank(ranks, h);
    assert a in Elements(g) && b in Elements(h);
    assert TrustedAsMuch(ranks, Elements(g), Elements(h)) ==> HasRankUpTo(ranks, Elements(g), ranks[b]);
  }

  lemma SameLeader(toks: seq<seq<string>>, s: set<nat>, m: nat, k: nat)
    requires Agrees(toks, s) && m in s && s <= Elements(Group(toks, m)) && k in s && toks[m] <= toks[k]
    ensures k < |toks| && toks[k] != [] && Group(toks, k) == Group(toks, m)
  {
    assert Match(toks[k], toks[k]);
    assert k in Group(toks, m);
    assert toks[k] <= toks[m] && toks[m] <= toks[k];
    SameTokensSameGroup(toks, k, m, |toks|);
  }

  lemma SameSize(a: set<nat>, b: set<nat>)
    requires a <= b && |a| >= |b|
    ensures a == b
  {
    if x :| x in b && x !in a {
      SubsetSize(a, b - {x});
    }
  }

  lemma {:induction false} SameTokensSameGroup(toks: seq<seq<string>>, i: nat, j: nat, n: nat)
    requires i < |toks| && j < |toks| && n <= |toks| && toks[i] == toks[j]
    ensures Followers(toks, i, n) == Followers(toks, j, n)
  {
    if n > 0 { SameTokensSameGroup(toks, i, j, n - 1); }
  }

  // ----- The size of the winning group does not depend on the order of the sources

  function PrefixOf(t: seq<string>): seq<string> -> bool {
    x => IsPrefix(x, t)
  }

  lemma {:induction false} FollowersCount(toks: seq<seq<string>>, i: nat, n: nat)
    requires i < |toks| && n <= |toks|
    ensures |Followers(toks, i, n)| == Count(PrefixOf(toks[i]), toks[..n])
  {
    if n > 0 {
      FollowersCount(toks, i, n - 1);
      assert toks[..n] == toks[..n - 1] + [toks[n - 1]];
      CountSnoc(PrefixOf(toks[i]), toks[..n - 1], toks[n - 1]);
    }
  }

  lemma GroupAtMostBest(toks: seq<seq<string>>, ranks: seq<nat>, idx: seq<nat>, m: nat)
    requires BestGroup(toks, ranks, idx) && m < |toks|
    ensures Count(PrefixOf(toks[m]), toks) <= |idx|
  {
    FollowersCount(toks, m, |toks|);
    assert toks[..|toks|] == toks;
    GroupAgrees(toks, m);
    ElementsSize(Group(toks, m));
  }

  lemma BestIsCounted(toks: seq<seq<string>>, ranks: seq<nat>, idx: seq<nat>) returns (l: nat)
    requires BestGroup(toks, ranks, idx) && idx != []
    ensures l < |toks| && |idx| <= Count(PrefixOf(toks[l]), toks)
  {
    ElementsSize(idx);
    l := AgreeingSetInGroup(toks, Elements(idx));
    FollowersCount(toks, l, |toks|);
    assert toks[..|toks|] == toks;
  }

  lemma BestSizeAtMost(toks: seq<seq<string>>, ranks: seq<nat>, idx: seq<nat>, toks': seq<seq<string>>,
                       ranks': seq<nat>, idx': seq<nat>)
    requires multiset(toks) == multiset(toks')
    requires BestGroup(toks, ranks, idx) && BestGroup(toks', ranks', idx')
    ensures |idx| <= |idx'|
  {
    if idx != [] {
      var l := BestIsCounted(toks, ranks, idx);
      var t := toks[l];
      assert t in multiset(toks');
      var m :| 0 <= m < |toks'| && toks'[m] == t;
      GroupAtMostBest(toks', ranks', idx', m);
      CountPermuted(PrefixOf(t), toks, toks');
    }
  }

  /** Which group wins may depend on positions; how many sources corroborate it does not. */
  lemma BestSizePermuted(toks: seq<seq<string>>, ranks: seq<nat>, idx: seq<nat>, toks': seq<seq<string>>,
                         ranks': seq<nat>, idx': seq<nat>)
    requires multiset(toks) == multiset(toks')
    requires BestGroup(toks, ranks, idx) && BestGroup(toks', ranks', idx')
    ensures |idx| == |idx'|
  {
    BestSizeAtMost(toks, ranks, idx, toks', ranks', idx');
    BestSizeAtMost(toks', ranks', idx', toks, ranks, idx);
  }

  // ----- The code

  /** The results at the given positions. */
  function Pick(ok: seq<SourceResult>, idx: seq<nat>): seq<SourceResult>
    requires forall k :: 0 <= k < |idx| ==> idx[k] < |ok|
  {
    seq(|idx|, k requires 0 <= k < |idx| => ok[idx[k]])
  }

  lemma PickSnoc(ok: seq<SourceResult>, idx: seq<nat>, j: nat)
    requires (forall k :: 0 <= k < |idx| ==> idx[k] < |ok|) && j < |ok|
    ensures Pick(ok, idx + [j]) == Pick(ok, idx) + [ok[j]]
  {
  }

  /** The inner loop of agreeOnPlace: the group around result i, and its best rank. */
  method GroupAround(ok: seq<SourceResult>, tokens: seq<seq<string>>, i: nat)
    returns (group: seq<SourceResult>, rank: nat)
    requires |tokens| == |ok| && i < |ok|
    ensures group == Pick(ok, Group(tokens, i)) && rank == MinRank(RanksOf(ok), Group(tokens, i))
  {
    group, rank := [], UNKNOWN_RANK;
    for j := 0 to |ok|
      invariant group == Pick(ok, Followers(tokens, i, j))
      invariant rank == MinRank(RanksOf(ok), Followers(tokens, i, j))
    {
      var follows := TokensPrefixOrEqual(tokens[j], tokens[i]);
      if follows {
        group := group + [ok[j]];
        PickSnoc(ok, Followers(tokens, i, j), j);
        var r := SourceRank(ok[j].name);
        if r < rank {
          rank := r;
        }
      }
    }
  }

  /** What the outer loop knows after looking at the first i results: the best so far is l, or
      none (l == |toks|) when no result had a token. */
  ghost predicate BestSoFar(toks: seq<seq<string>>, keys: seq<Key>, i: nat, l: nat)
    requires i <= |toks| == |keys|
  {
    if l == |toks| then forall j :: 0 <= j < i ==> toks[j] == []
    else
      && l < i && toks[l] != []
      && forall j {:trigger AtLeastAsGood(keys, l, j)} :: 0 <= j < i && toks[j] != [] ==> AtLeastAsGood(keys, l, j)
  }

  lemma NoTokensNoGroup(toks: seq<seq<string>>, ranks: seq<nat>)
    requires forall j :: 0 <= j < |toks| ==> toks[j] == []
    ensures BestGroup(toks, ranks, [])
  {
    forall s, a | Agrees(toks, s) && a in s ensures toks[a] != [] {
      assert Match(toks[a], toks[a]);
    }
    assert forall s :: Agrees(toks, s) ==> s == {};
  }

  lemma BetterSoFar(toks: seq<seq<string>>, keys: seq<Key>, i: nat, l: nat)
    requires i < |toks| == |keys| && BestSoFar(toks, keys, i, l)
    requires toks[i] != [] ==> keys[i].size > 0
    ensures var better := l == |toks| || keys[l].size < keys[i].size
      || (keys[l].size == keys[i].size && keys[i].rank < keys[l].rank);
            BestSoFar(toks, keys, i + 1, if toks[i] != [] && better then i else l)
  {
    forall j | l < |toks| && 0 <= j < i && toks[j] != [] ensures AtLeastAsGood(keys, l, j) {
    }
  }

  lemma BestInTheEnd(toks: seq<seq<string>>, ranks: seq<nat>, l: nat)
    requires |toks| == |ranks| && forall j :: 0 <= j < |ranks| ==> ranks[j] <= UNKNOWN_RANK
    requires BestSoFar(toks, Keys(toks, ranks), |toks|, l)
    ensures BestGroup(toks, ranks, GroupOrNone(toks, l))
  {
    if l == |toks| {
      NoTokensNoGroup(toks, ranks);
    } else {
      WinnerIsBest(toks, ranks, l);
    }
  }

  function GroupOrNone(toks: seq<seq<string>>, l: nat): (idx: seq<nat>)
    ensures forall k :: 0 <= k < |idx| ==> idx[k] < |toks|
  {
    if l < |toks| then Group(toks, l) else []
  }

  method AllTokens(u: RuneTables, ok: seq<SourceResult>, get: SourceResult -> string) returns (tokens: seq<seq<string>>)
    requires u.Valid()
    ensures tokens == TokensOf(u, ok, get)
  {
    tokens := [];
    for i := 0 to |ok|
      invariant |tokens| == i && forall j :: 0 <= j < i ==> tokens[j] == Tokens(u, get(ok[j]))
    {
      var t := PlaceTokens(u, get(ok[i]));
      tokens := tokens + [t];
    }
  }

  /** `best` is the best group, in order: the results at the positions idx. */
  ghost predicate IsBestAt(ok: seq<SourceResult>, toks: seq<seq<string>>, best: seq<SourceResult>, idx: seq<nat>) {
    && (forall k :: 0 <= k < |idx| ==> idx[k] < |ok|)
    && best == Pick(ok, idx) && BestGroup(toks, RanksOf(ok), idx)
  }

  /** The outer loop of agreeOnPlace. */
  method LargestGroup(ok: seq<SourceResult>, tokens: seq<seq<string>>) returns (best: seq<SourceResult>)
    requires |tokens| == |ok|
    ensures exists idx: seq<nat> :: IsBestAt(ok, tokens, best, idx)
  {
    ghost var keys := Keys(tokens, RanksOf(ok));
    ghost var l: nat := |tokens|;
    best := [];
    var bestRank := 0;
    for i := 0 to |ok|
      invariant BestSoFar(tokens, keys, i, l)
      invariant best == Pick(ok, GroupOrNone(tokens, l))
      invariant l < |tokens| ==> bestRank == keys[l].rank && |best| == keys[l].size
    {
      GroupAgrees(tokens, i);
      BetterSoFar(tokens, keys, i, l);
      if |tokens[i]| == 0 {
        continue;
      }
      var group, rank := GroupAround(ok, tokens, i);
      if |best| < |group| || (|best| == |group| && rank < bestRank) {
        best, bestRank := group, rank;
        l := i;
      }
    }
    BestInTheEnd(tokens, RanksOf(ok), l);
    assert IsBestAt(ok, tokens, best, GroupOrNone(tokens, l));
  }

  method AgreeOnPlace(u: RuneTables, ok: seq<SourceResult>, get: SourceResult -> string)
    returns (best: seq<SourceResult>)
    requires u.Valid()
    ensures exists idx: seq<nat> :: IsBestAt(ok, TokensOf(u, ok, get), best, idx)
  {
    var tokens := AllTokens(u, ok, get);
    best := LargestGroup(ok, tokens);
  }

  /** Member k is the shortest variant of the group; ties go to the more trusted source, then to
      the earlier one. */
  ghost predicate Shortest(u: RuneTables, group: seq<SourceResult>, get: SourceResult -> string, k: nat) {
    && k < |group| && Tokens(u, get(group[k])) != []
    && forall j :: 0 <= j < |group| && Tokens(u, get(group[j])) != [] ==>
         var n, m := |Tokens(u, get(group[k]))|, |Tokens(u, get(group[j]))|;
         var r, q := SourceRank(group[k].name), SourceRank(group[j].name);
         n < m || (n == m && (r < q || (r == q && k <= j)))
  }

  /** The name published for a group: the rendering of its shortest variant. */
  ghost predicate PublishedAs(u: RuneTables, group: seq<SourceResult>, get: SourceResult -> string, name: string) {
    exists k: nat :: Shortest(u, group, get, k) && name == Display(u, get(group[k]))
  }

  /** What one more member does to the shortest variant so far. */
  lemma ShortestStep(u: RuneTables, group: seq<SourceResult>, get: SourceResult -> string, r: SourceResult, k: nat)
    requires Shortest(u, group, get, k)
    ensures var n, m := |Tokens(u, get(group[k]))|, |Tokens(u, get(r))|;
            if m == 0 || n < m || (n == m && SourceRank(group[k].name) <= SourceRank(r.name)) then
              Shortest(u, group + [r], get, k)
            else Shortest(u, group + [r], get, |group|)
  {
  }

  lemma FirstShortest(u: RuneTables, group: seq<SourceResult>, get: SourceResult -> string, r: SourceResult)
    requires Tokens(u, get(r)) != [] && forall j :: 0 <= j < |group| ==> Tokens(u, get(group[j])) == []
    ensures Shortest(u, group + [r], get, |group|)
  {
  }

  /** What the loop holds after a part of the group: member k's rendering, its number of tokens
      and its rank, or nothing while no member has a token. */
  ghost predicate Holds(u: RuneTables, group: seq<SourceResult>, get: SourceResult -> string, best: string, n: nat,
                        rank: nat, k: nat) {
    if best == "" then forall j :: 0 <= j < |group| ==> Tokens(u, get(group[j])) == []
    else
      && Shortest(u, group, get, k) && best == Display(u, get(group[k]))
      && n == |Tokens(u, get(group[k]))| && rank == SourceRank(group[k].name)
  }

  /** What result i, the next member, does to it. */
  lemma HoldsStep(u: RuneTables, all: seq<SourceResult>, i: nat, get: SourceResult -> string, best: string, n: nat,
                  rank: nat, k: nat)
    requires u.Valid() && i < |all| && Holds(u, all[..i], get, best, n, rank, k)
    ensures var m, q := |Tokens(u, get(all[i]))|, SourceRank(all[i].name);
            if m > 0 && (best == "" || m < n || (m == n && q < rank)) then
              Holds(u, all[..i + 1], get, Display(u, get(all[i])), m, q, i)
            else Holds(u, all[..i + 1], get, best, n, rank, k)
  {
    var group, r := all[..i], all[i];
    assert all[..i + 1] == group + [r];
    if best != "" {
      ShortestStep(u, group, get, r, k);
    } else if Tokens(u, get(r)) != [] {
      FirstShortest(u, group, get, r);
    }
    if Tokens(u, get(r)) != [] {
      DisplayNonEmpty(u, get(r));
    }
  }

  lemma HoldsAll(u: RuneTables, group: seq<SourceResult>, get: SourceResult -> string, best: string, n: nat,
                 rank: nat, k: nat)
    requires Holds(u, group[..|group|], get, best, n, rank, k)
    ensures best == "" <==> forall j :: 0 <= j < |group| ==> Tokens(u, get(group[j])) == []
    ensures best != "" ==> PublishedAs(u, group, get, best)
  {
    assert group[..|group|] == group;
  }

  method CanonicalPlace(u: RuneTables, group: seq<SourceResult>, get: SourceResult -> string) returns (best: string)
    requires u.Valid()
    ensures best == "" <==> forall j :: 0 <= j < |group| ==> Tokens(u, get(group[j])) == []
    ensures best != "" ==> PublishedAs(u, group, get, best)
  {
    best := "";
    var bestN: nat, bestRank: nat := 0, 0;
    ghost var k: nat := 0;
    for i := 0 to |group|
      invariant Holds(u, group[..i], get, best, bestN, bestRank, k)
    {
      HoldsStep(u, group, i, get, best, bestN, bestRank, k);
      var toks := PlaceTokens(u, get(group[i]));
      var n := |toks|;
      if n == 0 {
        continue;
      }
      var rank := SourceRank(group[i].name);
      if best == "" || n < bestN || (n == bestN && rank < bestRank) {
        best := PlaceDisplay(u, get(group[i]));
        bestN, bestRank := n, rank;
        k := i;
      }
    }
    HoldsAll(u, group, get, best, bestN, bestRank, k);
  }

  /** The name published for an agreeing group is asserted by every member of it: its tokens
      lead the tokens of each. */
  lemma CanonicalIsSharedPrefix(u: RuneTables, group: seq<SourceResult>, get: SourceResult -> string, k: nat, j: nat)
    requires u.Valid() && Shortest(u, group, get, k) && j < |group|
    requires Match(Tokens(u, get(group[k])), Tokens(u, get(group[j])))
    ensures IsPrefix(Tokens(u, Display(u, get(group[k]))), Tokens(u, get(group[j])))
  {
    DisplayAgrees(u, get(group[k]));
  }
}
