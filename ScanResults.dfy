/**
 * What the two comparison scans leave in `common_elements["text_blocks"]`, stated directly in
 * terms of block indices: which keys and matches appear, and in which order.
 */
module ScanResults {
  import opened ScanOrder
  import opened MatchGroups
  import opened Flatten

  /** A match is filed under `key` among the first k hits exactly when one of those hits is that pair. */
  lemma {:induction false} MatchesToMember(hits: seq<Hit>, key: string, k: nat, x: Match)
    requires k <= |hits|
    ensures x in MatchesTo(hits, key, k) <==> exists i :: 0 <= i < k && hits[i] == Hit(key, x)
  {
    if k > 0 {
      MatchesToMember(hits, key, k - 1, x);
      if hits[k - 1] == Hit(key, x) {
        assert x in MatchesTo(hits, key, k);
      }
    }
  }

  lemma {:induction false} MatchesToGrows(hits: seq<Hit>, key: string, k1: nat, k2: nat)
    requires k1 <= k2 <= |hits|
    ensures |MatchesTo(hits, key, k1)| <= |MatchesTo(hits, key, k2)|
    decreases k2
  {
    if k1 < k2 {
      MatchesToGrows(hits, key, k1, k2 - 1);
    }
  }

  /** Match a of `key` comes from hit t, and exactly a matches of `key` come before hit t. */
  lemma {:induction false} MatchesToPosition(hits: seq<Hit>, key: string, k: nat, a: nat) returns (t: nat)
    requires k <= |hits| && a < |MatchesTo(hits, key, k)|
    ensures t < k && hits[t] == Hit(key, MatchesTo(hits, key, k)[a]) && |MatchesTo(hits, key, t)| == a
  {
    var prev := MatchesTo(hits, key, k - 1);
    if a < |prev| {
      t := MatchesToPosition(hits, key, k - 1, a);
    } else {
      t := k - 1;
    }
  }

  /** The grouping files match m under `key` exactly when the pair `Hit(key, m)` is among the hits. */
  lemma CollectHas(hits: seq<Hit>, key: string, m: Match)
    ensures var g := Collect(hits); (key in g.lists && m in g.lists[key]) <==> Hit(key, m) in hits
  {
    CollectKey(hits, |hits|, key);
    CollectList(hits, |hits|, key);
    MatchesToMember(hits, key, |hits|, m);
    if Hit(key, m) in hits {
      var i :| 0 <= i < |hits| && hits[i] == Hit(key, m);
      assert hits[i].key == key;
    }
  }

  /** Pair p of the scan produced match m under `key`. */
  predicate Produces(blocks: seq<string>, names: seq<string>, sim: seq<seq<real>>, p: Cell, key: string, m: Match) {
    Passes(blocks, names, sim, p) && HitAt(blocks, names, sim, p) == Hit(key, m)
  }

  /** A hit comes out of a scan exactly when one of the scanned pairs passes and produces it. */
  lemma HitsOfHas(blocks: seq<string>, names: seq<string>, sim: seq<seq<real>>, ps: seq<Cell>, key: string, m: Match)
    ensures Hit(key, m) in HitsOf(blocks, names, sim, ps) <==> exists p :: p in ps && Produces(blocks, names, sim, p, key, m)
  {
    FlatMember(ps, p => PairHits(blocks, names, sim, p), Hit(key, m));
    if Hit(key, m) in HitsOf(blocks, names, sim, ps) {
      var i :| 0 <= i < |ps| && Hit(key, m) in PairHits(blocks, names, sim, ps[i]);
      assert Produces(blocks, names, sim, ps[i], key, m);
    }
    if exists p :: p in ps && Produces(blocks, names, sim, p, key, m) {
      var p :| p in ps && Produces(blocks, names, sim, p, key, m);
      var i :| 0 <= i < |ps| && ps[i] == p;
      assert Hit(key, m) in PairHits(blocks, names, sim, ps[i]);
    }
  }

  /**
   * A scan over the pairs `ps` files match m under `key` exactly when one of the scanned pairs
   * passes the threshold, has `key` as its row block's text and m as its document and score.
   */
  lemma ScanMatches(blocks: seq<string>, names: seq<string>, sim: seq<seq<real>>, ps: seq<Cell>, key: string, m: Match)
    ensures var g := Collect(HitsOf(blocks, names, sim, ps));
            (key in g.lists && m in g.lists[key]) <==> exists p :: p in ps && Produces(blocks, names, sim, p, key, m)
  {
    CollectHas(HitsOf(blocks, names, sim, ps), key, m);
    HitsOfHas(blocks, names, sim, ps, key, m);
  }

  /**
   * The matches filed under a key keep the scan's order: for matches a < b of one key there are
   * scanned pairs p before q, in row-then-column order, that produced them.
   */
  lemma ScanMatchOrder(blocks: seq<string>, names: seq<string>, sim: seq<seq<real>>, ps: seq<Cell>, key: string, a: nat, b: nat)
    returns (p: Cell, q: Cell)
    requires ScanOrdered(ps)
    requires var g := Collect(HitsOf(blocks, names, sim, ps)); key in g.lists && a < b < |g.lists[key]|
    ensures p in ps && q in ps && LexLess(p, q)
    ensures var ms := Collect(HitsOf(blocks, names, sim, ps)).lists[key];
            && Passes(blocks, names, sim, p) && HitAt(blocks, names, sim, p) == Hit(key, ms[a])
            && Passes(blocks, names, sim, q) && HitAt(blocks, names, sim, q) == Hit(key, ms[b])
  {
    var hits, kept := HitsOf(blocks, names, sim, ps), KeptPairs(blocks, names, sim, ps);
    CollectSpec(hits);
    HitsAreKeptPairs(blocks, names, sim, ps);
    var ta := MatchesToPosition(hits, key, |hits|, a);
    var tb := MatchesToPosition(hits, key, |hits|, b);
    if tb <= ta {
      MatchesToGrows(hits, key, tb, ta);
    }
    p, q := kept[ta], kept[tb];
  }

  /**
   * The all-vs-all comparison files match m under `key` exactly when some pair i < j of blocks has
   * similarity above 0.1, block i's text is `key`, and m is document j's name with the pair's score.
   */
  lemma AllVsAllMatches(blocks: seq<string>, names: seq<string>, sim: seq<seq<real>>, key: string, m: Match)
    requires |names| == |blocks| && SquareMatrix(sim, |blocks|)
    ensures var g := Collect(HitsOf(blocks, names, sim, TrianglePairs(|blocks|, |blocks|)));
            (key in g.lists && m in g.lists[key])
            <==> exists i, j :: 0 <= i < j < |blocks| && sim[i][j] > Threshold
                                && key == blocks[i] && m == Match(names[j], Score(sim[i][j]))
  {
    var ps := TrianglePairs(|blocks|, |blocks|);
    ScanMatches(blocks, names, sim, ps, key, m);
    if exists p :: p in ps && Produces(blocks, names, sim, p, key, m) {
      var p :| p in ps && Produces(blocks, names, sim, p, key, m);
      TriangleMember(|blocks|, |blocks|, p);
      assert 0 <= p.row < p.col < |blocks|;
    }
    if exists i, j :: 0 <= i < j < |blocks| && sim[i][j] > Threshold && key == blocks[i] && m == Match(names[j], Score(sim[i][j])) {
      var i, j :| 0 <= i < j < |blocks| && sim[i][j] > Threshold && key == blocks[i] && m == Match(names[j], Score(sim[i][j]));
      TriangleMember(|blocks|, |blocks|, Cell(i, j));
      assert HitAt(blocks, names, sim, Cell(i, j)) == Hit(key, m);
    }
  }

  /**
   * The one-vs-many comparison files match m under `key` exactly when some reference block i < n
   * and corpus block j >= n have similarity above 0.1, block i's text is `key`, and m is document
   * j's name with the pair's score.
   */
  lemma OneVsManyMatches(blocks: seq<string>, names: seq<string>, sim: seq<seq<real>>, n: nat, key: string, m: Match)
    requires |names| == |blocks| && SquareMatrix(sim, |blocks|) && n <= |blocks|
    ensures var g := Collect(HitsOf(blocks, names, sim, CrossPairs(n, |blocks|, n)));
            (key in g.lists && m in g.lists[key])
            <==> exists i, j :: 0 <= i < n <= j < |blocks| && sim[i][j] > Threshold
                                && key == blocks[i] && m == Match(names[j], Score(sim[i][j]))
  {
    var ps := CrossPairs(n, |blocks|, n);
    ScanMatches(blocks, names, sim, ps, key, m);
    if exists p :: p in ps && Produces(blocks, names, sim, p, key, m) {
      var p :| p in ps && Produces(blocks, names, sim, p, key, m);
      CrossMember(n, |blocks|, n, p);
      assert 0 <= p.row < n <= p.col < |blocks|;
    }
    if exists i, j :: 0 <= i < n <= j < |blocks| && sim[i][j] > Threshold && key == blocks[i] && m == Match(names[j], Score(sim[i][j])) {
      var i, j :| 0 <= i < n <= j < |blocks| && sim[i][j] > Threshold && key == blocks[i] && m == Match(names[j], Score(sim[i][j]));
      CrossMember(n, |blocks|, n, Cell(i, j));
      assert HitAt(blocks, names, sim, Cell(i, j)) == Hit(key, m);
    }
  }

  /**
   * In the all-vs-all comparison, matches a < b of one key come from pairs (i, j) and (i', j')
   * with i < j and i' < j', visited in that order: i < i', or i == i' and j < j'.
   */
  lemma AllVsAllMatchOrder(blocks: seq<string>, names: seq<string>, sim: seq<seq<real>>, key: string, a: nat, b: nat)
    returns (p: Cell, q: Cell)
    requires |names| == |blocks| && SquareMatrix(sim, |blocks|)
    requires var g := Collect(HitsOf(blocks, names, sim, TrianglePairs(|blocks|, |blocks|)));
             key in g.lists && a < b < |g.lists[key]|
    ensures 0 <= p.row < p.col < |blocks| && 0 <= q.row < q.col < |blocks| && LexLess(p, q)
    ensures var ms := Collect(HitsOf(blocks, names, sim, TrianglePairs(|blocks|, |blocks|))).lists[key];
            && blocks[p.row] == key && ms[a] == Match(names[p.col], Score(sim[p.row][p.col]))
            && blocks[q.row] == key && ms[b] == Match(names[q.col], Score(sim[q.row][q.col]))
  {
    var ps := TrianglePairs(|blocks|, |blocks|);
    TrianglePairsOrdered(|blocks|, |blocks|);
    p, q := ScanMatchOrder(blocks, names, sim, ps, key, a, b);
    TriangleMember(|blocks|, |blocks|, p);
    TriangleMember(|blocks|, |blocks|, q);
  }

  /** In the one-vs-many comparison, matches a < b of one key come from pairs visited in that order. */
  lemma OneVsManyMatchOrder(blocks: seq<string>, names: seq<string>, sim: seq<seq<real>>, n: nat, key: string, a: nat, b: nat)
    returns (p: Cell, q: Cell)
    requires |names| == |blocks| && SquareMatrix(sim, |blocks|) && n <= |blocks|
    requires var g := Collect(HitsOf(blocks, names, sim, CrossPairs(n, |blocks|, n)));
             key in g.lists && a < b < |g.lists[key]|
    ensures 0 <= p.row < n <= p.col < |blocks| && 0 <= q.row < n <= q.col < |blocks| && LexLess(p, q)
    ensures var ms := Collect(HitsOf(blocks, names, sim, CrossPairs(n, |blocks|, n))).lists[key];
            && blocks[p.row] == key && ms[a] == Match(names[p.col], Score(sim[p.row][p.col]))
            && blocks[q.row] == key && ms[b] == Match(names[q.col], Score(sim[q.row][q.col]))
  {
    var ps := CrossPairs(n, |blocks|, n);
    CrossPairsOrdered(n, |blocks|, n);
    p, q := ScanMatchOrder(blocks, names, sim, ps, key, a, b);
    CrossMember(n, |blocks|, n, p);
    CrossMember(n, |blocks|, n, q);
  }

  /** When every scanned pair passes, every pair is kept. */
  lemma {:induction false} KeptAll(blocks: seq<string>, names: seq<string>, sim: seq<seq<real>>, ps: seq<Cell>, k: nat)
    requires k <= |ps|
    requires forall i :: 0 <= i < k ==> Passes(blocks, names, sim, ps[i])
    ensures |KeptTo(blocks, names, sim, ps, k)| == k
  {
    if k > 0 {
      KeptAll(blocks, names, sim, ps, k - 1);
    }
  }

  /**
   * When every pair i < j of n blocks has similarity above 0.1, the all-vs-all comparison records
   * n(n - 1)/2 matches: one per unordered pair, not one per block.
   */
  lemma AllSimilarMatchCount(blocks: seq<string>, names: seq<string>, sim: seq<seq<real>>)
    requires |names| == |blocks| && SquareMatrix(sim, |blocks|)
    requires forall i, j :: 0 <= i < j < |blocks| ==> sim[i][j] > Threshold
    ensures 2 * TotalMatches(Collect(HitsOf(blocks, names, sim, TrianglePairs(|blocks|, |blocks|)))) == |blocks| * (|blocks| - 1)
  {
    var n := |blocks|;
    var ps := TrianglePairs(n, n);
    var hits := HitsOf(blocks, names, sim, ps);
    forall i | 0 <= i < |ps|
      ensures Passes(blocks, names, sim, ps[i])
    {
      TriangleAt(n, n, i);
    }
    KeptAll(blocks, names, sim, ps, |ps|);
    HitsAreKeptPairs(blocks, names, sim, ps);
    RowsArePermutation(hits);
    TrianglePairsCount(n, n);
  }
}
