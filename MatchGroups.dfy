/**
 * The similarity stage shared by the three rationalization scripts: the flattening of the
 * per-document block lists, the two index patterns that scan the similarity matrix, the
 * threshold filter, the grouping of matches in an insertion-ordered `defaultdict(list)` keyed
 * by block text, and the report rows (one per key and match) with their highlight colour.
 *
 * Sequences built up element by element are defined by the length of the prefix consumed
 * (`CollectTo(hits, k)` is the dictionary after the first k hits), which keeps the proofs
 * about them free of slicing.
 */
module MatchGroups {
  import opened Rounding
  import opened ScanOrder
  import opened Strings
  import opened Flatten

  /** One recorded match: the document of the other block and `round(similarity * 100, 2)` in hundredths. */
  datatype Match = Match(doc: string, score: int)

  /** A match found by the scan, with the block text it is filed under. */
  datatype Hit = Hit(key: string, m: Match)

  /** An insertion-ordered `defaultdict(list)`: the keys in insertion order and the list of each key. */
  datatype Groups = Groups(keys: seq<string>, lists: map<string, seq<Match>>)

  const NoGroups := Groups([], map[])

  /** Keys are listed once each, exactly the keys of the map, and no list is empty. */
  ghost predicate Valid(g: Groups) {
    && (forall k :: k in g.lists <==> k in g.keys)
    && (forall i, j :: 0 <= i < j < |g.keys| ==> g.keys[i] != g.keys[j])
    && (forall k :: k in g.lists ==> |g.lists[k]| > 0)
  }

  /** `d[h.key].append(h.m)` */
  function Append(g: Groups, h: Hit): Groups {
    if h.key in g.lists then Groups(g.keys, g.lists[h.key := g.lists[h.key] + [h.m]])
    else Groups(g.keys + [h.key], g.lists[h.key := [h.m]])
  }

  /** The dictionary after appending the first k hits one by one to an empty one. */
  function CollectTo(hits: seq<Hit>, k: nat): Groups
    requires k <= |hits|
  {
    if k == 0 then NoGroups else Append(CollectTo(hits, k - 1), hits[k - 1])
  }

  /** The dictionary after appending all of `hits`. */
  function Collect(hits: seq<Hit>): Groups {
    CollectTo(hits, |hits|)
  }

  /** Reference definition: the matches of the first k hits that are filed under `key`, in hit order. */
  function MatchesTo(hits: seq<Hit>, key: string, k: nat): seq<Match>
    requires k <= |hits|
  {
    if k == 0 then []
    else MatchesTo(hits, key, k - 1) + (if hits[k - 1].key == key then [hits[k - 1].m] else [])
  }

  function MatchesOf(hits: seq<Hit>, key: string): seq<Match> {
    MatchesTo(hits, key, |hits|)
  }

  /** `i` is the position of the first hit filed under `key`. */
  ghost predicate FirstAt(hits: seq<Hit>, key: string, i: int) {
    0 <= i < |hits| && hits[i].key == key && forall i' :: 0 <= i' < i ==> hits[i'].key != key
  }

  /** Hits appended after the first k do not change the dictionary after the first k. */
  lemma {:induction false} CollectToPrefix(hits: seq<Hit>, more: seq<Hit>, k: nat)
    requires k <= |hits|
    ensures CollectTo(hits + more, k) == CollectTo(hits, k)
  {
    if k > 0 {
      CollectToPrefix(hits, more, k - 1);
      assert (hits + more)[k - 1] == hits[k - 1];
    }
  }

  lemma CollectSnoc(hits: seq<Hit>, h: Hit)
    ensures Collect(hits + [h]) == Append(Collect(hits), h)
  {
    CollectToPrefix(hits, [h], |hits|);
    assert (hits + [h])[|hits|] == h;
  }

  /** Appending a hit keeps the dictionary well formed. */
  lemma AppendValid(g: Groups, h: Hit)
    requires Valid(g)
    ensures Valid(Append(g, h))
  {
    var g' := Append(g, h);
    if h.key !in g.lists {
      forall i, j | 0 <= i < j < |g'.keys|
        ensures g'.keys[i] != g'.keys[j]
      {
        if j == |g.keys| {
          assert g'.keys[i] == g.keys[i] && g.keys[i] in g.keys;
        }
      }
    }
  }

  lemma {:induction false} CollectValid(hits: seq<Hit>, k: nat)
    requires k <= |hits|
    ensures Valid(CollectTo(hits, k))
  {
    if k > 0 {
      CollectValid(hits, k - 1);
      AppendValid(CollectTo(hits, k - 1), hits[k - 1]);
    }
  }

  /** A key is in the dictionary after the first k hits exactly when one of them is filed under it. */
  lemma {:induction false} CollectKey(hits: seq<Hit>, k: nat, key: string)
    requires k <= |hits|
    ensures key in CollectTo(hits, k).lists <==> exists i :: 0 <= i < k && hits[i].key == key
  {
    if k > 0 {
      CollectKey(hits, k - 1, key);
      if hits[k - 1].key == key {
        assert exists i :: 0 <= i < k && hits[i].key == key;
      }
    }
  }

  lemma {:induction false} MatchesToAbsent(hits: seq<Hit>, key: string, k: nat)
    requires k <= |hits|
    requires forall i :: 0 <= i < k ==> hits[i].key != key
    ensures MatchesTo(hits, key, k) == []
  {
    if k > 0 {
      MatchesToAbsent(hits, key, k - 1);
    }
  }

  /** The list of a key after the first k hits is the matches of those hits filed under it, in order. */
  lemma {:induction false} CollectList(hits: seq<Hit>, k: nat, key: string)
    requires k <= |hits|
    ensures key in CollectTo(hits, k).lists ==> CollectTo(hits, k).lists[key] == MatchesTo(hits, key, k)
  {
    if k > 0 {
      var g, h := CollectTo(hits, k - 1), hits[k - 1];
      CollectList(hits, k - 1, key);
      if h.key == key && key !in g.lists {
        CollectKey(hits, k - 1, key);
        MatchesToAbsent(hits, key, k - 1);
      }
    }
  }

  /** Keys are listed in the order of their first hits: key a before key b means a was hit first. */
  lemma {:induction false} CollectOrder(hits: seq<Hit>, k: nat, a: nat, b: nat, ia: int, ib: int)
    requires k <= |hits| && a < b < |CollectTo(hits, k).keys|
    requires FirstAt(hits, CollectTo(hits, k).keys[a], ia) && FirstAt(hits, CollectTo(hits, k).keys[b], ib)
    ensures ia < ib
  {
    var g, h := CollectTo(hits, k - 1), hits[k - 1];
    var g' := Append(g, h);
    CollectValid(hits, k - 1);
    if b >= |g.keys| {
      assert h.key !in g.lists && g'.keys[b] == h.key && g'.keys[a] == g.keys[a];
      assert g.keys[a] in g.lists;
      CollectKey(hits, k - 1, g.keys[a]);
      CollectKey(hits, k - 1, h.key);
      var i :| 0 <= i < k - 1 && hits[i].key == g.keys[a];
      assert ia <= i;
    } else {
      assert g'.keys[a] == g.keys[a] && g'.keys[b] == g.keys[b];
      CollectOrder(hits, k - 1, a, b, ia, ib);
    }
  }

  /**
   * What the grouping computes: every key is listed once, a key is present exactly when some hit is
   * filed under it, its list is the matches filed under it in scan order (so it is never empty),
   * and keys are listed in the order in which they were first hit.
   */
  lemma CollectSpec(hits: seq<Hit>)
    ensures Valid(Collect(hits))
    ensures forall k :: k in Collect(hits).lists <==> exists i :: 0 <= i < |hits| && hits[i].key == k
    ensures forall k :: k in Collect(hits).lists ==> Collect(hits).lists[k] == MatchesOf(hits, k)
    ensures forall a, b, ia, ib ::
              (0 <= a < b < |Collect(hits).keys| && FirstAt(hits, Collect(hits).keys[a], ia)
               && FirstAt(hits, Collect(hits).keys[b], ib)) ==> ia < ib
  {
    CollectValid(hits, |hits|);
    forall a, b, ia, ib | 0 <= a < b < |Collect(hits).keys| && FirstAt(hits, Collect(hits).keys[a], ia)
                          && FirstAt(hits, Collect(hits).keys[b], ib)
      ensures ia < ib
    {
      CollectOrder(hits, |hits|, a, b, ia, ib);
    }
    forall k
      ensures k in Collect(hits).lists <==> exists i :: 0 <= i < |hits| && hits[i].key == k
      ensures k in Collect(hits).lists ==> Collect(hits).lists[k] == MatchesOf(hits, k)
    {
      CollectKey(hits, |hits|, k);
      CollectList(hits, |hits|, k);
    }
  }

  /** Every match recorded under a key comes from a hit filed under that key. */
  lemma {:induction false} MatchesToFrom(hits: seq<Hit>, key: string, k: nat, x: Match)
    requires k <= |hits|
    requires x in MatchesTo(hits, key, k)
    ensures exists i :: 0 <= i < k && hits[i] == Hit(key, x)
  {
    var prev := MatchesTo(hits, key, k - 1);
    if x in prev {
      MatchesToFrom(hits, key, k - 1, x);
    } else {
      assert hits[k - 1] == Hit(key, x);
    }
  }

  // ---------------------------------------------------------------------------------------
  // Report rows

  function Lookup(lists: map<string, seq<Match>>, key: string): seq<Match> {
    if key in lists then lists[key] else []
  }

  /** The hits of one key's list, one per match and in list order. */
  function HitsUnder(key: string, ms: seq<Match>): (hs: seq<Hit>)
    ensures |hs| == |ms|
  {
    seq(|ms|, i requires 0 <= i < |ms| => Hit(key, ms[i]))
  }

  /** `for item, matches in d.items(): for match in matches: ...` over the first a keys. */
  function RowsTo(keys: seq<string>, lists: map<string, seq<Match>>, a: nat): seq<Hit>
    requires a <= |keys|
  {
    if a == 0 then [] else RowsTo(keys, lists, a - 1) + HitsUnder(keys[a - 1], Lookup(lists, keys[a - 1]))
  }

  /** The report rows of a dictionary: one per (key, match), keys in map order, matches in list order. */
  function Rows(g: Groups): seq<Hit> {
    RowsTo(g.keys, g.lists, |g.keys|)
  }

  /** `sum(len(matches) for matches in d.values())` over the first a keys. */
  function SumTo(keys: seq<string>, lists: map<string, seq<Match>>, a: nat): nat
    requires a <= |keys|
  {
    if a == 0 then 0 else SumTo(keys, lists, a - 1) + |Lookup(lists, keys[a - 1])|
  }

  function TotalMatches(g: Groups): nat {
    SumTo(g.keys, g.lists, |g.keys|)
  }

  /** The total of the list lengths is the number of report rows. */
  lemma {:induction false} SumIsRowCount(keys: seq<string>, lists: map<string, seq<Match>>, a: nat)
    requires a <= |keys|
    ensures SumTo(keys, lists, a) == |RowsTo(keys, lists, a)|
  {
    if a > 0 {
      SumIsRowCount(keys, lists, a - 1);
    }
  }

  lemma {:induction false} RowsToPrefix(keys: seq<string>, more: seq<string>, lists: map<string, seq<Match>>, a: nat)
    requires a <= |keys|
    ensures RowsTo(keys + more, lists, a) == RowsTo(keys, lists, a)
  {
    if a > 0 {
      RowsToPrefix(keys, more, lists, a - 1);
      assert (keys + more)[a - 1] == keys[a - 1];
    }
  }

  /** Changing the list of a key that is not among the first a keys leaves their rows alone. */
  lemma {:induction false} RowsToIgnores(keys: seq<string>, lists: map<string, seq<Match>>, key: string, v: seq<Match>, a: nat)
    requires a <= |keys|
    requires forall i :: 0 <= i < a ==> keys[i] != key
    ensures RowsTo(keys, lists[key := v], a) == RowsTo(keys, lists, a)
  {
    if a > 0 {
      RowsToIgnores(keys, lists, key, v, a - 1);
    }
  }

  lemma HitsUnderSnoc(key: string, ms: seq<Match>, m: Match)
    ensures HitsUnder(key, ms + [m]) == HitsUnder(key, ms) + [Hit(key, m)]
  {
    assert HitsUnder(key, ms + [m])[|ms|] == Hit(key, m);
    assert forall i :: 0 <= i < |ms| ==> HitsUnder(key, ms + [m])[i] == HitsUnder(key, ms)[i];
  }

  /** The rows of the first a keys, counted as a bag. */
  ghost function BagTo(keys: seq<string>, lists: map<string, seq<Match>>, a: nat): multiset<Hit>
    requires a <= |keys|
  {
    if a == 0 then multiset{} else BagTo(keys, lists, a - 1) + multiset(HitsUnder(keys[a - 1], Lookup(lists, keys[a - 1])))
  }

  lemma {:induction false} BagToIsRows(keys: seq<string>, lists: map<string, seq<Match>>, a: nat)
    requires a <= |keys|
    ensures BagTo(keys, lists, a) == multiset(RowsTo(keys, lists, a))
  {
    if a > 0 {
      BagToIsRows(keys, lists, a - 1);
    }
  }

  lemma LookupOther(lists: map<string, seq<Match>>, key: string, v: seq<Match>, other: string)
    requires other != key
    ensures Lookup(lists[key := v], other) == Lookup(lists, other)
  {
  }

  lemma {:induction false} BagToIgnores(keys: seq<string>, lists: map<string, seq<Match>>, key: string, v: seq<Match>, a: nat)
    requires a <= |keys|
    requires forall i :: 0 <= i < a ==> keys[i] != key
    ensures BagTo(keys, lists[key := v], a) == BagTo(keys, lists, a)
  {
    if a > 0 {
      BagToIgnores(keys, lists, key, v, a - 1);
      LookupOther(lists, key, v, keys[a - 1]);
    }
  }

  /** Appending a match to the list of key j adds exactly one row, for that key and match. */
  lemma {:induction false} BagToExtend(keys: seq<string>, lists: map<string, seq<Match>>, j: nat, m: Match, a: nat)
    requires j < a <= |keys| && keys[j] in lists
    requires forall i :: 0 <= i < a && i != j ==> keys[i] != keys[j]
    ensures var key := keys[j];
            BagTo(keys, lists[key := lists[key] + [m]], a) == BagTo(keys, lists, a) + multiset{Hit(key, m)}
  {
    var key := keys[j];
    var v := lists[key] + [m];
    if a - 1 == j {
      BagToIgnores(keys, lists, key, v, j);
      HitsUnderSnoc(key, lists[key], m);
      assert Lookup(lists[key := v], key) == v;
    } else {
      assert keys[a - 1] != key;
      LookupOther(lists, key, v, keys[a - 1]);
      BagToExtend(keys, lists, j, m, a - 1);
    }
  }

  lemma {:induction false} HitBagSnoc(hits: seq<Hit>, k: nat)
    requires k < |hits|
    ensures multiset(hits[..k + 1]) == multiset(hits[..k]) + multiset{hits[k]}
  {
    assert hits[..k + 1] == hits[..k] + [hits[k]];
  }

  /** Appending a hit to a well-formed dictionary adds exactly that hit to its rows. */
  lemma RowsAppend(g: Groups, h: Hit)
    requires Valid(g)
    ensures multiset(Rows(Append(g, h))) == multiset(Rows(g)) + multiset{h}
  {
    if h.key in g.lists {
      var j :| 0 <= j < |g.keys| && g.keys[j] == h.key;
      BagToExtend(g.keys, g.lists, j, h.m, |g.keys|);
      BagToIsRows(g.keys, g.lists, |g.keys|);
      BagToIsRows(g.keys, g.lists[h.key := g.lists[h.key] + [h.m]], |g.keys|);
    } else {
      var keys' := g.keys + [h.key];
      var lists' := g.lists[h.key := [h.m]];
      RowsToPrefix(g.keys, [h.key], lists', |g.keys|);
      RowsToIgnores(g.keys, g.lists, h.key, [h.m], |g.keys|);
      assert keys'[|g.keys|] == h.key;
      assert HitsUnder(h.key, [h.m]) == [h];
      assert Rows(Append(g, h)) == RowsTo(keys', lists', |g.keys|) + [h];
    }
  }

  /** The rows after the first k hits are those hits, rearranged. */
  lemma {:induction false} RowsToPermutation(hits: seq<Hit>, k: nat)
    requires k <= |hits|
    ensures multiset(Rows(CollectTo(hits, k))) == multiset(hits[..k])
  {
    if k > 0 {
      RowsToPermutation(hits, k - 1);
      CollectValid(hits, k - 1);
      HitBagSnoc(hits, k - 1);
      RowsAppend(CollectTo(hits, k - 1), hits[k - 1]);
    }
  }

  /**
   * The report has one row per recorded hit and nothing else: its rows are the hits rearranged
   * (grouped by key), and their number is the sum of the list lengths.
   */
  lemma RowsArePermutation(hits: seq<Hit>)
    ensures multiset(Rows(Collect(hits))) == multiset(hits)
    ensures |Rows(Collect(hits))| == |hits| == TotalMatches(Collect(hits))
  {
    RowsToPermutation(hits, |hits|);
    assert hits[..|hits|] == hits;
    var g := Collect(hits);
    SumIsRowCount(g.keys, g.lists, |g.keys|);
  }

  // ---------------------------------------------------------------------------------------
  // Scanning the similarity matrix

  /** Python's `similarity > 0.1`. */
  const Threshold: real := 0.1

  /** `round(similarity * 100, 2)`, in hundredths of a percent. */
  function Score(similarity: real): int {
    Round(similarity * 10000.0)
  }

  predicate SquareMatrix(sim: seq<seq<real>>, n: nat) {
    |sim| == n && forall i :: 0 <= i < n ==> |sim[i]| == n
  }

  /**
   * Pair p is recorded: its similarity is strictly above 0.1. (The scans only visit cells of the
   * matrix, so the range conditions always hold there; they keep the predicate meaningful for
   * any pair.)
   */
  predicate Passes(blocks: seq<string>, names: seq<string>, sim: seq<seq<real>>, p: Cell) {
    && 0 <= p.row < |blocks| && 0 <= p.col < |names|
    && p.row < |sim| && p.col < |sim[p.row]| && sim[p.row][p.col] > Threshold
  }

  /** What the scan records for pair (i, j): block i's text, document j and the score. */
  function HitAt(blocks: seq<string>, names: seq<string>, sim: seq<seq<real>>, p: Cell): Hit
    requires Passes(blocks, names, sim, p)
  {
    Hit(blocks[p.row], Match(names[p.col], Score(sim[p.row][p.col])))
  }

  /** What visiting pair p adds to the hits: its hit when it passes, nothing otherwise. */
  function PairHits(blocks: seq<string>, names: seq<string>, sim: seq<seq<real>>, p: Cell): seq<Hit> {
    if Passes(blocks, names, sim, p) then [HitAt(blocks, names, sim, p)] else []
  }

  /** The hits of a scan over the first k pairs of `ps`, in scan order. */
  function HitsTo(blocks: seq<string>, names: seq<string>, sim: seq<seq<real>>, ps: seq<Cell>, k: nat): seq<Hit>
    requires k <= |ps|
  {
    FlatTo(ps, p => PairHits(blocks, names, sim, p), k)
  }

  function HitsOf(blocks: seq<string>, names: seq<string>, sim: seq<seq<real>>, ps: seq<Cell>): seq<Hit> {
    Flat(ps, p => PairHits(blocks, names, sim, p))
  }

  /** Scanning two runs of pairs one after the other gives the hits of the first, then those of the second. */
  lemma HitsOfAppend(blocks: seq<string>, names: seq<string>, sim: seq<seq<real>>, ps: seq<Cell>, qs: seq<Cell>)
    ensures HitsOf(blocks, names, sim, ps + qs) == HitsOf(blocks, names, sim, ps) + HitsOf(blocks, names, sim, qs)
  {
    FlatAppend(ps, qs, p => PairHits(blocks, names, sim, p));
  }

  lemma HitsOfSnoc(blocks: seq<string>, names: seq<string>, sim: seq<seq<real>>, ps: seq<Cell>, p: Cell)
    ensures HitsOf(blocks, names, sim, ps + [p]) == HitsOf(blocks, names, sim, ps) + PairHits(blocks, names, sim, p)
  {
    FlatSnoc(ps, p, p => PairHits(blocks, names, sim, p));
  }

  /** The pairs among the first k of `ps` that pass the threshold, in scan order. */
  function KeptTo(blocks: seq<string>, names: seq<string>, sim: seq<seq<real>>, ps: seq<Cell>, k: nat): seq<Cell>
    requires k <= |ps|
  {
    if k == 0 then []
    else KeptTo(blocks, names, sim, ps, k - 1) + (if Passes(blocks, names, sim, ps[k - 1]) then [ps[k - 1]] else [])
  }

  function KeptPairs(blocks: seq<string>, names: seq<string>, sim: seq<seq<real>>, ps: seq<Cell>): seq<Cell> {
    KeptTo(blocks, names, sim, ps, |ps|)
  }

  /** The hits are the kept pairs, one for one and in order. */
  lemma {:induction false} HitsAreKept(blocks: seq<string>, names: seq<string>, sim: seq<seq<real>>, ps: seq<Cell>, k: nat)
    requires k <= |ps|
    ensures var hits, kept := HitsTo(blocks, names, sim, ps, k), KeptTo(blocks, names, sim, ps, k);
            && |hits| == |kept|
            && forall j :: 0 <= j < |kept| ==> Passes(blocks, names, sim, kept[j]) && hits[j] == HitAt(blocks, names, sim, kept[j])
  {
    if k > 0 {
      HitsAreKept(blocks, names, sim, ps, k - 1);
    }
  }

  /** A pair is kept exactly when it is among the scanned pairs and passes the threshold. */
  lemma {:induction false} KeptMember(blocks: seq<string>, names: seq<string>, sim: seq<seq<real>>, ps: seq<Cell>, k: nat, p: Cell)
    requires k <= |ps|
    ensures p in KeptTo(blocks, names, sim, ps, k) <==> (exists i :: 0 <= i < k && ps[i] == p) && Passes(blocks, names, sim, p)
  {
    if k > 0 {
      KeptMember(blocks, names, sim, ps, k - 1, p);
      if ps[k - 1] == p {
        assert exists i :: 0 <= i < k && ps[i] == p;
      }
    }
  }

  lemma {:induction false} KeptBefore(blocks: seq<string>, names: seq<string>, sim: seq<seq<real>>, ps: seq<Cell>, k: nat, q: Cell)
    requires k <= |ps|
    requires forall i :: 0 <= i < k ==> LexLess(ps[i], q)
    ensures forall j :: 0 <= j < |KeptTo(blocks, names, sim, ps, k)| ==> LexLess(KeptTo(blocks, names, sim, ps, k)[j], q)
  {
    if k > 0 {
      KeptBefore(blocks, names, sim, ps, k - 1, q);
    }
  }

  /** The kept pairs keep the scan's order. */
  lemma {:induction false} KeptOrdered(blocks: seq<string>, names: seq<string>, sim: seq<seq<real>>, ps: seq<Cell>, k: nat)
    requires k <= |ps| && ScanOrdered(ps)
    ensures ScanOrdered(KeptTo(blocks, names, sim, ps, k))
  {
    if k > 0 {
      var p := ps[k - 1];
      KeptOrdered(blocks, names, sim, ps, k - 1);
      if Passes(blocks, names, sim, p) {
        KeptBefore(blocks, names, sim, ps, k - 1, p);
        OrderedConcat(KeptTo(blocks, names, sim, ps, k - 1), [p]);
      }
    }
  }

  /**
   * The hits are the kept pairs, one for one and in scan order; the kept pairs are exactly the
   * scanned pairs above the threshold, and they keep the scan's order.
   */
  lemma HitsAreKeptPairs(blocks: seq<string>, names: seq<string>, sim: seq<seq<real>>, ps: seq<Cell>)
    ensures var kept := KeptPairs(blocks, names, sim, ps);
            && |HitsOf(blocks, names, sim, ps)| == |kept|
            && (forall k :: 0 <= k < |kept| ==> Passes(blocks, names, sim, kept[k]) && HitsOf(blocks, names, sim, ps)[k] == HitAt(blocks, names, sim, kept[k]))
            && (forall p :: p in kept <==> p in ps && Passes(blocks, names, sim, p))
            && (ScanOrdered(ps) ==> ScanOrdered(kept))
  {
    HitsAreKept(blocks, names, sim, ps, |ps|);
    forall p
      ensures p in KeptPairs(blocks, names, sim, ps) <==> p in ps && Passes(blocks, names, sim, p)
    {
      KeptMember(blocks, names, sim, ps, |ps|, p);
    }
    if ScanOrdered(ps) {
      KeptOrdered(blocks, names, sim, ps, |ps|);
    }
  }

  /** `if similarity > 0.1: common[blocks[i]].append((names[j], score))` for pair p. */
  function Record(blocks: seq<string>, names: seq<string>, sim: seq<seq<real>>, g: Groups, p: Cell): Groups {
    if Passes(blocks, names, sim, p) then Append(g, HitAt(blocks, names, sim, p)) else g
  }

  /** One more scanned pair: the grouping after it is the grouping before, with the pair recorded. */
  lemma RecordStep(blocks: seq<string>, names: seq<string>, sim: seq<seq<real>>, hits: seq<Hit>, p: Cell)
    ensures Collect(hits + PairHits(blocks, names, sim, p)) == Record(blocks, names, sim, Collect(hits), p)
  {
    if Passes(blocks, names, sim, p) {
      CollectSnoc(hits, HitAt(blocks, names, sim, p));
    } else {
      assert hits + PairHits(blocks, names, sim, p) == hits;
    }
  }

  /**
   * The outcome of a comparison: `TfidfVectorizer().fit_transform` raises on a list of blocks
   * without a single token, or the scan's grouping of the kept pairs.
   */
  datatype Comparison = NoVocabulary | Compared(groups: Groups)

  /**
   * The default token pattern `\b\w\w+\b` finds a token in some block: some block has two
   * word characters in a row. An empty list of blocks has none.
   */
  predicate HasVocabulary(blocks: seq<string>) {
    exists i, k :: 0 <= i < |blocks| && 0 <= k < |blocks[i]| - 1 && IsWordChar(blocks[i][k]) && IsWordChar(blocks[i][k + 1])
  }

  /** Visiting pair (i, j) after the pairs (i, lo) .. (i, j - 1) records it on top of their grouping. */
  lemma RowStep(blocks: seq<string>, names: seq<string>, sim: seq<seq<real>>, hits: seq<Hit>, i: nat, lo: nat, j: nat)
    requires lo <= j
    ensures Collect(hits + HitsOf(blocks, names, sim, RowPairs(i, lo, j + 1)))
            == Record(blocks, names, sim, Collect(hits + HitsOf(blocks, names, sim, RowPairs(i, lo, j))), Cell(i, j))
  {
    var before, c := HitsOf(blocks, names, sim, RowPairs(i, lo, j)), Cell(i, j);
    RecordStep(blocks, names, sim, hits + before, c);
    HitsOfSnoc(blocks, names, sim, RowPairs(i, lo, j), c);
    assert (hits + before) + PairHits(blocks, names, sim, c) == hits + (before + PairHits(blocks, names, sim, c));
  }

  /** The grouping g after the pairs (i, lo) .. (i, hi - 1) are visited in turn and recorded when they pass. */
  function RecordRow(blocks: seq<string>, names: seq<string>, sim: seq<seq<real>>, g: Groups, i: nat, lo: nat, hi: nat): Groups
  {
    if hi <= lo then g else Record(blocks, names, sim, RecordRow(blocks, names, sim, g, i, lo, hi - 1), Cell(i, hi - 1))
  }

  /** Recording a row on top of the grouping of some hits groups those hits followed by the row's. */
  lemma {:induction false} RecordRowIsCollect(blocks: seq<string>, names: seq<string>, sim: seq<seq<real>>, hits: seq<Hit>,
                                              i: nat, lo: nat, hi: nat)
    ensures RecordRow(blocks, names, sim, Collect(hits), i, lo, hi)
            == Collect(hits + HitsOf(blocks, names, sim, RowPairs(i, lo, hi)))
  {
    if hi <= lo {
      assert hits + HitsOf(blocks, names, sim, RowPairs(i, lo, hi)) == hits;
    } else {
      RecordRowIsCollect(blocks, names, sim, hits, i, lo, hi - 1);
      RowStep(blocks, names, sim, hits, i, lo, hi - 1);
    }
  }

  /** The grouping after rows 0 .. i - 1 of the all-vs-all scan, row by row. */
  function TriangleScanTo(blocks: seq<string>, names: seq<string>, sim: seq<seq<real>>, i: nat): Groups {
    if i == 0 then NoGroups
    else RecordRow(blocks, names, sim, TriangleScanTo(blocks, names, sim, i - 1), i - 1, i, |blocks|)
  }

  /** The grouping after rows 0 .. i - 1 of the one-vs-many scan, row by row. */
  function CrossScanTo(blocks: seq<string>, names: seq<string>, sim: seq<seq<real>>, n: nat, i: nat): Groups {
    if i == 0 then NoGroups
    else RecordRow(blocks, names, sim, CrossScanTo(blocks, names, sim, n, i - 1), i - 1, n, |blocks|)
  }

  /** Scanning rows 0 .. i - 1 of the all-vs-all scan row by row groups the hits of those rows in scan order. */
  lemma {:induction false} TriangleScanIsCollect(blocks: seq<string>, names: seq<string>, sim: seq<seq<real>>, i: nat)
    ensures TriangleScanTo(blocks, names, sim, i) == Collect(HitsOf(blocks, names, sim, TrianglePairs(|blocks|, i)))
  {
    if i > 0 {
      TriangleScanIsCollect(blocks, names, sim, i - 1);
      var hits := HitsOf(blocks, names, sim, TrianglePairs(|blocks|, i - 1));
      RecordRowIsCollect(blocks, names, sim, hits, i - 1, i, |blocks|);
      TriangleRow(|blocks|, i - 1);
      HitsOfAppend(blocks, names, sim, TrianglePairs(|blocks|, i - 1), RowPairs(i - 1, i, |blocks|));
    }
  }

  /** Scanning rows 0 .. i - 1 of the one-vs-many scan row by row groups the hits of those rows in scan order. */
  lemma {:induction false} CrossScanIsCollect(blocks: seq<string>, names: seq<string>, sim: seq<seq<real>>, n: nat, i: nat)
    ensures CrossScanTo(blocks, names, sim, n, i) == Collect(HitsOf(blocks, names, sim, CrossPairs(n, |blocks|, i)))
  {
    if i > 0 {
      CrossScanIsCollect(blocks, names, sim, n, i - 1);
      var hits := HitsOf(blocks, names, sim, CrossPairs(n, |blocks|, i - 1));
      RecordRowIsCollect(blocks, names, sim, hits, i - 1, n, |blocks|);
      CrossRow(n, |blocks|, i - 1);
      HitsOfAppend(blocks, names, sim, CrossPairs(n, |blocks|, i - 1), RowPairs(i - 1, n, |blocks|));
    }
  }

  /**
   * The inner loop of both comparisons, `for j in range(lo, hi)` at row i: the similarity of
   * each pair (i, j) is compared with the threshold and the pair is recorded when it passes.
   */
  method ScanRow(blocks: seq<string>, names: seq<string>, sim: seq<seq<real>>, g0: Groups, i: nat, lo: nat, hi: nat)
    returns (g: Groups)
    requires |names| == |blocks| && SquareMatrix(sim, |blocks|)
    requires i < |blocks| && hi <= |blocks|
    ensures g == RecordRow(blocks, names, sim, g0, i, lo, hi)
  {
    g := g0;
    var j: nat := lo;
    while j < hi
      invariant lo <= j && (j <= hi || j == lo)
      invariant g == RecordRow(blocks, names, sim, g0, i, lo, j)
    {
      if sim[i][j] > Threshold {
        g := Append(g, HitAt(blocks, names, sim, Cell(i, j)));
      }
      j := j + 1;
    }
  }

  /**
   * The nested loops of the all-vs-all comparison over the blocks and the similarity matrix:
   * the result is the grouping of the hits of the upper-triangle scan.
   */
  method ScanTriangle(blocks: seq<string>, names: seq<string>, sim: seq<seq<real>>) returns (g: Groups)
    requires |names| == |blocks| && SquareMatrix(sim, |blocks|)
    ensures g == Collect(HitsOf(blocks, names, sim, TrianglePairs(|blocks|, |blocks|)))
  {
    g := NoGroups;
    var i: nat := 0;
    while i < |blocks|
      invariant i <= |blocks|
      invariant g == TriangleScanTo(blocks, names, sim, i)
    {
      g := ScanRow(blocks, names, sim, g, i, i + 1, |blocks|);
      i := i + 1;
    }
    TriangleScanIsCollect(blocks, names, sim, i);
  }

  /**
   * The nested loops of the one-vs-many comparison: rows are the first `n` blocks (the
   * reference), columns the remaining ones (the corpus).
   */
  method ScanCross(blocks: seq<string>, names: seq<string>, sim: seq<seq<real>>, n: nat) returns (g: Groups)
    requires |names| == |blocks| && SquareMatrix(sim, |blocks|) && n <= |blocks|
    ensures g == Collect(HitsOf(blocks, names, sim, CrossPairs(n, |blocks|, n)))
  {
    g := NoGroups;
    var i: nat := 0;
    while i < n
      invariant i <= n
      invariant g == CrossScanTo(blocks, names, sim, n, i)
    {
      g := ScanRow(blocks, names, sim, g, i, n, |blocks|);
      i := i + 1;
    }
    CrossScanIsCollect(blocks, names, sim, n, i);
  }

  // ---------------------------------------------------------------------------------------
  // The per-document reports, flattened

  /** `pdf_reports.items()`: each document's name and its text blocks, in dictionary order. */
  type Reports = seq<(string, seq<string>)>

  /** `[s] * n` */
  function Repeat(s: string, n: nat): (r: seq<string>)
    ensures |r| == n && forall k :: 0 <= k < n ==> r[k] == s
  {
    seq(n, _ => s)
  }

  /** `[block for report in pdf_reports.values() for block in report["text_blocks"]]` over the first d reports. */
  function BlocksTo(reports: Reports, d: nat): seq<string>
    requires d <= |reports|
  {
    if d == 0 then [] else BlocksTo(reports, d - 1) + reports[d - 1].1
  }

  /** `[name for name, report in pdf_reports.items() for _ in report["text_blocks"]]` over the first d reports. */
  function NamesTo(reports: Reports, d: nat): (names: seq<string>)
    requires d <= |reports|
    ensures |names| == |BlocksTo(reports, d)|
  {
    if d == 0 then [] else NamesTo(reports, d - 1) + Repeat(reports[d - 1].0, |reports[d - 1].1|)
  }

  function AllBlocks(reports: Reports): seq<string> {
    BlocksTo(reports, |reports|)
  }

  function AllNames(reports: Reports): (names: seq<string>)
    ensures |names| == |AllBlocks(reports)|
  {
    NamesTo(reports, |reports|)
  }

  /** `sum(len(report["text_blocks"]) for report in pdf_reports.values())` over the first d reports. */
  function TotalTo(reports: Reports, d: nat): nat
    requires d <= |reports|
  {
    if d == 0 then 0 else TotalTo(reports, d - 1) + |reports[d - 1].1|
  }

  function TotalBlocks(reports: Reports): nat {
    TotalTo(reports, |reports|)
  }

  lemma {:induction false} TotalToIsLength(reports: Reports, d: nat)
    requires d <= |reports|
    ensures TotalTo(reports, d) == |BlocksTo(reports, d)|
  {
    if d > 0 {
      TotalToIsLength(reports, d - 1);
    }
  }

  /** The block total is the length of the flattened list. */
  lemma TotalBlocksIsLength(reports: Reports)
    ensures TotalBlocks(reports) == |AllBlocks(reports)|
  {
    TotalToIsLength(reports, |reports|);
  }

  lemma {:induction false} OwnerTo(reports: Reports, d0: nat, k: nat) returns (d: nat, o: nat)
    requires d0 <= |reports| && k < |BlocksTo(reports, d0)|
    ensures d < d0 && o < |reports[d].1|
    ensures BlocksTo(reports, d0)[k] == reports[d].1[o] && NamesTo(reports, d0)[k] == reports[d].0
  {
    var before := |BlocksTo(reports, d0 - 1)|;
    if k < before {
      d, o := OwnerTo(reports, d0 - 1, k);
    } else {
      d, o := d0 - 1, k - before;
    }
  }

  /**
   * The flattened lists line up: block k of the flattened list is block o of some document d,
   * and name k is that document's name.
   */
  lemma FlattenOwner(reports: Reports, k: nat) returns (d: nat, o: nat)
    requires k < |AllBlocks(reports)|
    ensures d < |reports| && o < |reports[d].1|
    ensures AllBlocks(reports)[k] == reports[d].1[o] && AllNames(reports)[k] == reports[d].0
  {
    d, o := OwnerTo(reports, |reports|, k);
  }

  /** Reports added after the first d do not change the lists and the total of the first d. */
  lemma {:induction false} ReportsPrefix(reports: Reports, more: Reports, d: nat)
    requires d <= |reports|
    ensures BlocksTo(reports + more, d) == BlocksTo(reports, d)
    ensures NamesTo(reports + more, d) == NamesTo(reports, d)
    ensures TotalTo(reports + more, d) == TotalTo(reports, d)
  {
    if d > 0 {
      ReportsPrefix(reports, more, d - 1);
      assert (reports + more)[d - 1] == reports[d - 1];
    }
  }

  /** One more report adds its blocks, its name once per block, and its block count. */
  lemma ReportsSnoc(reports: Reports, r: (string, seq<string>))
    ensures AllBlocks(reports + [r]) == AllBlocks(reports) + r.1
    ensures AllNames(reports + [r]) == AllNames(reports) + Repeat(r.0, |r.1|)
    ensures TotalBlocks(reports + [r]) == TotalBlocks(reports) + |r.1|
  {
    ReportsPrefix(reports, [r], |reports|);
    assert (reports + [r])[|reports|] == r;
  }

  /** The name given to the reference document's blocks in the one-vs-many comparison. */
  const ReferenceName := "Single PDF"

  /** The reference blocks followed by the corpus blocks. */
  function CombinedBlocks(reference: seq<string>, reports: Reports): seq<string> {
    reference + AllBlocks(reports)
  }

  /** `["Single PDF"] * len(reference)` followed by the corpus names. */
  function CombinedNames(reference: seq<string>, reports: Reports): (names: seq<string>)
    ensures |names| == |CombinedBlocks(reference, reports)|
  {
    Repeat(ReferenceName, |reference|) + AllNames(reports)
  }

  // ---------------------------------------------------------------------------------------
  // Report rows as the two report generators write them

  /** The fill of a row: green, yellow, or none where a report has no colouring. */
  datatype Highlight = Green | Yellow | NoFill

  /** Whether a report colours its rows by score. */
  datatype RowStyle = Highlighted | Plain

  /** A row of the HTML table and of the workbook: type, content, found in, similarity, and its fill. */
  datatype ReportRow = ReportRow(kind: string, content: string, doc: string, score: int, highlight: Highlight)

  /** `"highlight-green" if similarity == 100 else "highlight-yellow"`, or no fill at all. */
  function HighlightOf(style: RowStyle, score: int): Highlight {
    match style
    case Highlighted => if score == 10000 then Green else Yellow
    case Plain => NoFill
  }

  function RowOf(style: RowStyle, h: Hit): ReportRow {
    ReportRow("Text Block", h.key, h.m.doc, h.m.score, HighlightOf(style, h.m.score))
  }

  /** A coloured row is green exactly when its score is 100 % and yellow otherwise; a plain row has no fill. */
  lemma RowHighlight(style: RowStyle, h: Hit)
    ensures var r := RowOf(style, h);
            && r.kind == "Text Block" && r.content == h.key && r.doc == h.m.doc && r.score == h.m.score
            && (r.highlight == Green <==> style == Highlighted && h.m.score == 10000)
            && (r.highlight == Yellow <==> style == Highlighted && h.m.score != 10000)
            && (r.highlight == NoFill <==> style == Plain)
  {
  }

  /**
   * The row loops of the report generators: one row per (key, match) in map order then list
   * order, green exactly when the score is 100 %.
   */
  method TabulateMatches(g: Groups, style: RowStyle) returns (rows: seq<ReportRow>)
    requires Valid(g)
    ensures |rows| == |Rows(g)|
    ensures forall k :: 0 <= k < |rows| ==> rows[k] == RowOf(style, Rows(g)[k])
  {
    rows := [];
    var a := 0;
    while a < |g.keys|
      invariant 0 <= a <= |g.keys|
      invariant |rows| == |RowsTo(g.keys, g.lists, a)|
      invariant forall k :: 0 <= k < |rows| ==> rows[k] == RowOf(style, RowsTo(g.keys, g.lists, a)[k])
    {
      var item := g.keys[a];
      var matches := g.lists[item];
      ghost var before := RowsTo(g.keys, g.lists, a);
      var b := 0;
      while b < |matches|
        invariant 0 <= b <= |matches|
        invariant |rows| == |before| + b
        invariant forall k :: 0 <= k < |before| ==> rows[k] == RowOf(style, before[k])
        invariant forall k :: 0 <= k < b ==> rows[|before| + k] == RowOf(style, Hit(item, matches[k]))
      {
        rows := rows + [RowOf(style, Hit(item, matches[b]))];
        b := b + 1;
      }
      TabulateStep(g.keys, g.lists, a, rows, style);
      a := a + 1;
    }
  }

  /** One key's rows, written after the rows of the keys before it, give the rows of one key more. */
  lemma TabulateStep(keys: seq<string>, lists: map<string, seq<Match>>, a: nat, rows: seq<ReportRow>, style: RowStyle)
    requires a < |keys| && keys[a] in lists
    requires var before, ms := RowsTo(keys, lists, a), lists[keys[a]];
             && |rows| == |before| + |ms|
             && (forall k :: 0 <= k < |before| ==> rows[k] == RowOf(style, before[k]))
             && (forall k :: 0 <= k < |ms| ==> rows[|before| + k] == RowOf(style, Hit(keys[a], ms[k])))
    ensures |rows| == |RowsTo(keys, lists, a + 1)|
    ensures forall k :: 0 <= k < |rows| ==> rows[k] == RowOf(style, RowsTo(keys, lists, a + 1)[k])
  {
    var before, ms := RowsTo(keys, lists, a), lists[keys[a]];
    var after := RowsTo(keys, lists, a + 1);
    assert after == before + HitsUnder(keys[a], ms);
    forall k | 0 <= k < |rows|
      ensures rows[k] == RowOf(style, after[k])
    {
      if k >= |before| {
        assert after[k] == HitsUnder(keys[a], ms)[k - |before|];
      }
    }
  }
}
