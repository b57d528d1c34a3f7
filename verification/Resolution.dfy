/** Bounded Rivero resolution: score the routed candidates, expand the best ones through their
    witnesses twice, rank everything scored. */
module Resolution {
  import opened Basics
  import opened Ranking
  import opened WitnessLists
  import opened Hops
  import ExactSearch

  // ---- strict resolution -----------------------------------------------------------------------

  /** The three phases; the limits are already bounded. */
  ghost function Candidates(c: Corpus, cands: seq<nat>): Work {
    var w := Scan(c, cands, NoWork);
    w.(scored := Rank(w.scored))
  }

  ghost function Resolved(c: Corpus, cands: seq<nat>, seeds: nat, second: nat, degree: nat): Work {
    TwoHops(c, seeds, second, degree, Candidates(c, cands))
  }

  /** Every slot strict resolution looks at: the candidates and what is around them. */
  ghost function Looked(c: Corpus, cands: seq<nat>, seeds: nat, second: nat, degree: nat): set<nat> {
    Elems(cands) + Around(c, Elems(cands), seeds, second, degree)
  }

  /** Work of strict resolution, whatever the corpus size. `scored + non-live + filtered` is the number
      of candidates plus the witnesses added; edges scanned are at most `(seeds + second) * degree`;
      hence exact scores are at most `|candidates| + (seeds + second) * degree`. The scored slots are
      exactly the eligible ones looked at, each scored once. */
  lemma StrictWork(c: Corpus, cands: seq<nat>, seeds: nat, second: nat, degree: nat)
    requires Distinct(cands)
    ensures var w := Resolved(c, cands, seeds, second, degree);
      && |w.scored| + w.nonLive + w.filtered == |cands| + w.added
      && w.added <= w.scanned <= (seeds + second) * degree
      && |w.scored| <= |cands| + (seeds + second) * degree
      && OncePerSlot(w.scored)
      && (forall x :: x in w.scored <==>
            x.index in Looked(c, cands, seeds, second, degree) && Eligible(c, x.index) && x == Exact(c, x.index))
  {
    ScanKeeps(c, cands, NoWork);
    ScanAllNew(c, cands, NoWork);
    RankKeepsTracks(c, Scan(c, cands, NoWork));
    TwoHopsLook(c, seeds, second, degree, Candidates(c, cands));
    TwoHopsScan(c, seeds, second, degree, Candidates(c, cands));
  }

  /** The diagnostics tell dead slots and slots the filter rejected apart. */
  lemma StrictCounts(c: Corpus, cands: seq<nat>, seeds: nat, second: nat, degree: nat)
    requires Distinct(cands)
    ensures var w, v := Resolved(c, cands, seeds, second, degree), Looked(c, cands, seeds, second, degree);
      w.nonLive == |Dead(c, v)| && w.filtered == |Rejected(c, v)|
  {
    ScanKeeps(c, cands, NoWork);
    RankKeepsTracks(c, Scan(c, cands, NoWork));
    var w := Candidates(c, cands);
    TwoHopsLook(c, seeds, second, degree, w);
    assert Dead(c, {}) == {} && Rejected(c, {}) == {};
    ScanCounts(c, cands, NoWork);
    var w' := Hop(c, Seeds(w.scored, seeds), degree, w);
    HopCounts(c, Seeds(w.scored, seeds), degree, w);
    HopCounts(c, Seeds(w'.found, second), degree, w'.(found := []));
  }

  /** The published ceilings: at most 2,048 routed candidates, 48 + 16 seeds and degree 64 mean at most
      4,096 edges and 6,144 exact scores. */
  lemma ProductionCeilings(c: Corpus, cands: seq<nat>, seeds: nat, second: nat, degree: nat)
    requires Distinct(cands) && |cands| <= 2048 && seeds <= 48 && second <= 16 && degree <= 64
    ensures var w := Resolved(c, cands, seeds, second, degree); w.scanned <= 4096 && |w.scored| <= 6144
  {
    StrictWork(c, cands, seeds, second, degree);
    ProductBound(seeds + second, 64, degree);
  }

  /** The diagnostics ceiling reported with a query is never exceeded. */
  lemma ReportedBoundHolds(c: Corpus, cands: seq<nat>, seeds: nat, second: nat, degree: nat)
    requires Distinct(cands)
    ensures Resolved(c, cands, BoundedSeeds(seeds), BoundedSeeds(second), BoundedDegree(degree)).scanned
         <= TwoHopBound(seeds, second, degree)
  {
    StrictWork(c, cands, BoundedSeeds(seeds), BoundedSeeds(second), BoundedDegree(degree));
  }

  /** The hits are eligible, each once, and no eligible slot looked at and left out beats any of them. */
  lemma StrictHits(c: Corpus, cands: seq<nat>, seeds: nat, second: nat, degree: nat, k: nat)
    requires Distinct(cands)
    ensures var hits := TopK(Resolved(c, cands, seeds, second, degree).scored, k);
      && Ranked(hits) && OncePerSlot(hits) && |hits| <= k
      && (forall x :: x in hits ==> Eligible(c, x.index) && x == Exact(c, x.index))
      && (forall i :: i in Looked(c, cands, seeds, second, degree) && Eligible(c, i) && Exact(c, i) !in hits ==>
            |hits| == k && forall x :: x in hits ==> Ahead(x, Exact(c, i)))
  {
    StrictWork(c, cands, seeds, second, degree);
    var s := Resolved(c, cands, seeds, second, degree).scored;
    TopKFacts(s, k);
  }

  // ---- the resolver as it runs -----------------------------------------------------------------

  /** Scores the routed candidates. They are distinct, so nothing is looked up in the visited pool. */
  method ScoreCandidates(c: Corpus, cands: seq<nat>) returns (w: Work)
    requires Distinct(cands)
    ensures w == Scan(c, cands, NoWork)
  {
    w := NoWork;
    for i := 0 to |cands|
      invariant Scan(c, cands[i..], w) == Scan(c, cands, NoWork)
      invariant forall n :: n in w.visited ==> n in cands[..i]
    {
      var n := cands[i];
      assert cands[i..][1..] == cands[i + 1..];
      assert n !in cands[..i];
      w := w.(visited := w.visited + {n});
      if n !in c.live {
        w := w.(nonLive := w.nonLive + 1);
      } else if !Permits(c.mask, n) {
        w := w.(filtered := w.filtered + 1);
      } else {
        w := w.(scored := w.scored + [Scored(n, c.score(n))]);
      }
    }
  }

  /** Follows one connection list. */
  method FollowList(c: Corpus, ns: seq<nat>, w0: Work) returns (w: Work)
    ensures w == Follow(c, ns, w0)
  {
    w := w0;
    for i := 0 to |ns|
      invariant Follow(c, ns[i..], w) == Follow(c, ns, w0)
    {
      var n := ns[i];
      assert ns[i..][1..] == ns[i + 1..];
      w := w.(scanned := w.scanned + 1);
      if n in w.visited { continue; }
      w := w.(visited := w.visited + {n}, added := w.added + 1);
      if n !in c.live {
        w := w.(nonLive := w.nonLive + 1);
        continue;
      }
      if !Permits(c.mask, n) {
        w := w.(filtered := w.filtered + 1);
        continue;
      }
      var candidate := Scored(n, c.score(n));
      w := w.(scored := w.scored + [candidate], found := w.found + [candidate]);
    }
  }

  /** One witness hop from the given seeds. */
  method ExpandSeeds(c: Corpus, seeds: seq<nat>, degree: nat, w0: Work) returns (w: Work)
    ensures w == Hop(c, seeds, degree, w0)
  {
    w := w0;
    for i := 0 to |seeds|
      invariant Hop(c, seeds[i..], degree, w) == Hop(c, seeds, degree, w0)
    {
      assert seeds[i..][1..] == seeds[i + 1..];
      w := FollowList(c, Connections(c, seeds[i], degree), w);
    }
  }

  /** The first `limit` slots of a list already ranked. */
  method TakeSeeds(ranked: seq<Scored>, limit: nat) returns (seeds: seq<nat>)
    requires Ranked(ranked)
    ensures seeds == Seeds(ranked, limit)
  {
    TopKIs(ranked, ranked, limit);
    seeds := Indices(ranked[..Min(limit, |ranked|)]);
  }

  /** What a caller hands in beside the corpus: the query's dimension and the compiled address. */
  datatype Request = Request(queryDim: nat, schema: nat, addressDim: nat)

  /** The index's own dimension and schema version. */
  datatype Schema = Schema(dimension: nat, version: nat)

  datatype Outcome =
    | DimensionMismatch(expected: nat, actual: nat)
    | InvalidAddress(schema: nat, dimension: nat)
    | SelectionUnderflow
    | Hits(hits: seq<Scored>, work: Work)

  /** What `resolve_rivero_candidates_config` yields with bounded limits. With `k = 0` and something
      scored, the selection index `k - 1` does not exist. */
  ghost function Outcomes(x: Schema, q: Request, c: Corpus, cands: seq<nat>, k: nat, seeds: nat, second: nat,
                          degree: nat): Outcome {
    if q.queryDim != x.dimension then DimensionMismatch(x.dimension, q.queryDim)
    else if q.schema != x.version || q.addressDim != x.dimension then InvalidAddress(q.schema, q.addressDim)
    else
      var w := Resolved(c, cands, seeds, second, degree);
      if k == 0 && w.scored != [] then SelectionUnderflow else Hits(TopK(w.scored, k), w)
  }

  lemma FirstIsIn(s: seq<Scored>)
    ensures s == [] || s[0] in s
  {
  }

  /** What a request gets: an error if its dimension, or its address's schema or dimension, does not fit; for
      `k > 0` otherwise the best `k` of the eligible slots looked at. */
  lemma ResolutionOutcome(x: Schema, q: Request, c: Corpus, cands: seq<nat>, k: nat, seeds: nat, second: nat,
                          degree: nat)
    requires Distinct(cands) && k > 0
    ensures var r := Outcomes(x, q, c, cands, k, seeds, second, degree);
      && (r.DimensionMismatch? <==> q.queryDim != x.dimension)
      && (r.InvalidAddress? <==> q.queryDim == x.dimension && (q.schema != x.version || q.addressDim != x.dimension))
      && (q == Request(x.dimension, x.version, x.dimension) ==>
            r.Hits? && BestOf(c, EligibleIn(c, Looked(c, cands, seeds, second, degree)), k, r.hits))
  {
    if q == Request(x.dimension, x.version, x.dimension) {
      StrictWork(c, cands, seeds, second, degree);
      var v, s := EligibleIn(c, Looked(c, cands, seeds, second, degree)),
          Resolved(c, cands, seeds, second, degree).scored;
      assert Lists(c, v, s);
      BestListed(c, v, s, k);
    }
  }

  /** With no eligible candidate there is nothing to expand, and nothing is scored. */
  lemma NothingEligible(c: Corpus, cands: seq<nat>, seeds: nat, second: nat, degree: nat)
    requires Distinct(cands) && forall i :: i in cands ==> !Eligible(c, i)
    ensures Resolved(c, cands, seeds, second, degree).scored == []
  {
    ScanKeeps(c, cands, NoWork);
    var w := Scan(c, cands, NoWork);
    forall x ensures x !in w.scored { assert x.index in w.visited ==> x.index in cands; }
    FirstIsIn(w.scored);
    RankSorts([]);
    TopKIs([], [], seeds);
    TopKIs([], [], second);
  }

  /** The selection underflows exactly for a valid request with `k = 0` and an eligible candidate. */
  lemma UnderflowIff(x: Schema, q: Request, c: Corpus, cands: seq<nat>, k: nat, seeds: nat, second: nat, degree: nat)
    requires Distinct(cands)
    ensures Outcomes(x, q, c, cands, k, seeds, second, degree) == SelectionUnderflow <==>
      && q == Request(x.dimension, x.version, x.dimension) && k == 0
      && exists i :: i in cands && Eligible(c, i)
  {
    if exists i :: i in cands && Eligible(c, i) {
      var i :| i in cands && Eligible(c, i);
      StrictWork(c, cands, seeds, second, degree);
      assert i in Elems(cands);
      assert Exact(c, i) in Resolved(c, cands, seeds, second, degree).scored;
    } else {
      NothingEligible(c, cands, seeds, second, degree);
    }
  }

  /** One eligible candidate suffices. */
  lemma OneCandidateUnderflows(x: Schema, score: nat -> real, witnesses: nat -> seq<nat>, layer0: nat -> seq<nat>,
                               seeds: nat, second: nat, degree: nat)
    ensures var c := Corpus({0}, None, score, witnesses, layer0);
      Outcomes(x, Request(x.dimension, x.version, x.dimension), c, [0], 0, seeds, second, degree) == SelectionUnderflow
  {
    var c := Corpus({0}, None, score, witnesses, layer0);
    assert 0 in [0] && Eligible(c, 0);
    UnderflowIff(x, Request(x.dimension, x.version, x.dimension), c, [0], 0, seeds, second, degree);
  }

  /** `resolve_rivero_candidates_config`. */
  method Resolve(x: Schema, q: Request, c: Corpus, cands: seq<nat>, k: nat, requestedSeeds: nat, requestedSecond: nat,
                 requestedDegree: nat, select: (seq<Scored>, nat) -> seq<Scored>) returns (r: Outcome)
    requires Distinct(cands) && ExactSearch.SelectsNth(select)
    ensures r == Outcomes(x, q, c, cands, k, BoundedSeeds(requestedSeeds), BoundedSeeds(requestedSecond),
                          BoundedDegree(requestedDegree))
  {
    if q.queryDim != x.dimension { return DimensionMismatch(x.dimension, q.queryDim); }
    if q.schema != x.version || q.addressDim != x.dimension { return InvalidAddress(q.schema, q.addressDim); }
    var w := ScoreAll(c, cands, BoundedSeeds(requestedSeeds), BoundedSeeds(requestedSecond),
        BoundedDegree(requestedDegree));
    if |w.scored| == 0 { return Hits([], w); }
    if k == 0 { return SelectionUnderflow; }
    var hits := ExactSearch.SelectTop(w.scored, k, select);
    r := Hits(hits, w);
  }

  /** The three scoring phases. */
  method ScoreAll(c: Corpus, cands: seq<nat>, seedLimit: nat, secondLimit: nat, degree: nat) returns (w: Work)
    requires Distinct(cands)
    ensures w == Resolved(c, cands, seedLimit, secondLimit, degree)
  {
    w := ScoreCandidates(c, cands);
    RankSorts(w.scored);
    w := w.(scored := Rank(w.scored));
    var seeds := TakeSeeds(w.scored, seedLimit);
    w := ExpandSeeds(c, seeds, degree, w);
    RankSorts(w.found);
    SeedsOfRanked(w.found, secondLimit);
    var secondSeeds := TakeSeeds(Rank(w.found), secondLimit);
    w := ExpandSeeds(c, secondSeeds, degree, w.(found := []));
  }

  lemma SeedsOfRanked(s: seq<Scored>, limit: nat)
    ensures Seeds(Rank(s), limit) == Seeds(s, limit)
  {
    RankSorts(s);
    TopKIs(Rank(s), Rank(s), limit);
    TopKIs(Rank(s), s, limit);
  }
}
