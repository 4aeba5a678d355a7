/**
  Scoring text pairs with a cross-encoder: pairs are grouped by their left side, each group is
  scored in batches, and the scores are scattered back; and ranking documents for a query.

  The cross-encoder is a parameter that scores a batch of documents for a query; that it scores
  each pair by itself is a hypothesis. So is the squashing of a logit into [0, 1].
 */
module Scoring {
  import opened Options
  import opened Dicts

  type Encoder = (string, seq<string>) -> seq<real>

  /** A batch is scored pair by pair: `alone` scores one pair. */
  ghost predicate Independent(encode: Encoder, alone: (string, string) -> real) {
    forall q, docs ::
      |encode(q, docs)| == |docs| && forall i :: 0 <= i < |docs| ==> encode(q, docs)[i] == alone(q, docs[i])
  }

  // ---- Batches --------------------------------------------------------------------------------

  method Rerank(encode: Encoder, ghost alone: (string, string) -> real, query: string, documents: seq<string>,
                batchSize: nat)
    returns (all: seq<real>)
    requires batchSize > 0 && Independent(encode, alone)
    ensures |all| == |documents| && forall i :: 0 <= i < |documents| ==> all[i] == alone(query, documents[i])
  {
    all := [];
    var i := 0;
    while i < |documents|
      invariant i >= 0 && |all| == if i < |documents| then i else |documents|
      invariant forall k :: 0 <= k < |all| ==> all[k] == alone(query, documents[k])
      decreases |documents| - i
    {
      var end := if i + batchSize < |documents| then i + batchSize else |documents|;
      var batch := documents[i..end];
      var scores := encode(query, batch);
      assert forall k :: 0 <= k < |batch| ==> scores[k] == alone(query, batch[k]);
      all := all + scores;
      i := i + batchSize;
    }
  }

  method RerankScores(encode: Encoder, ghost alone: (string, string) -> real, squash: real -> real, query: string,
                      documents: seq<string>, batchSize: nat) returns (scores: seq<real>)
    requires batchSize > 0 && Independent(encode, alone)
    ensures |scores| == |documents|
    ensures forall i :: 0 <= i < |documents| ==> scores[i] == squash(alone(query, documents[i]))
  {
    var raw := Rerank(encode, alone, query, documents, batchSize);
    scores := seq(|raw|, i requires 0 <= i < |raw| => squash(raw[i]));
  }

  // ---- Pairs ----------------------------------------------------------------------------------

  datatype Text = One(text: string) | Many(texts: seq<string>)

  datatype Pairs = Pairs(pairs: seq<(string, string)>) | UnequalLengths | NoPairs

  /** A single text is paired with every text of the other side. */
  function PairsOf(a: Text, b: Text): Pairs {
    if a.Many? && b.Many? && |a.texts| != |b.texts| then UnequalLengths
    else
      var n := if a.Many? then |a.texts| else if b.Many? then |b.texts| else 1;
      if n == 0 then NoPairs
      else Pairs(seq(n, i requires 0 <= i < n =>
                        (if a.Many? then a.texts[i] else a.text, if b.Many? then b.texts[i] else b.text)))
  }

  type Groups = Dict<seq<nat>>

  /** Every index below n stands in the group of its left text, and groups hold nothing else. */
  ghost predicate Grouped(groups: Groups, pairs: seq<(string, string)>, n: nat)
    requires n <= |pairs|
  {
    && (forall g :: 0 <= g < |groups| ==> Members(groups[g], pairs, n))
    && forall i :: 0 <= i < n ==> Find(groups, pairs[i].0).Some? && i in Find(groups, pairs[i].0).value
  }

  ghost predicate Members(group: (string, seq<nat>), pairs: seq<(string, string)>, n: nat)
    requires n <= |pairs|
  {
    forall j :: 0 <= j < |group.1| ==> group.1[j] < n && pairs[group.1[j]].0 == group.0
  }

  lemma GroupedMore(groups: Groups, pairs: seq<(string, string)>, n: nat)
    requires n < |pairs| && Grouped(groups, pairs, n)
    ensures var left := pairs[n].0;
            var was := if Find(groups, left).Some? then Find(groups, left).value else [];
            Grouped(Set(groups, left, was + [n]), pairs, n + 1)
  {
    var left := pairs[n].0;
    var was := if Find(groups, left).Some? then Find(groups, left).value else [];
    if Find(groups, left).Some? {
      var g := FoundAt(groups, left);
      assert Members(groups[g], pairs, n);
    }
    var more := Set(groups, left, was + [n]);
    SetItems(groups, left, was + [n]);
    forall g | 0 <= g < |more| ensures Members(more[g], pairs, n + 1) {
      if more[g] in groups {
        var h :| 0 <= h < |groups| && groups[h] == more[g];
        assert Members(groups[h], pairs, n);
      }
    }
    forall i | 0 <= i < n + 1 ensures Find(more, pairs[i].0).Some? && i in Find(more, pairs[i].0).value {
      SetThenFind(groups, left, was + [n], pairs[i].0);
    }
  }

  lemma {:induction false} SetItems(d: Groups, k: string, v: seq<nat>)
    ensures forall g :: 0 <= g < |Set(d, k, v)| ==> Set(d, k, v)[g] == (k, v) || Set(d, k, v)[g] in d
  {
    if d != [] && d[0].0 != k {
      SetItems(d[1..], k, v);
    }
  }

  method GroupByLeft(pairs: seq<(string, string)>) returns (byLeft: Groups)
    ensures Grouped(byLeft, pairs, |pairs|)
  {
    byLeft := [];
    for i := 0 to |pairs|
      invariant Grouped(byLeft, pairs, i)
    {
      GroupedMore(byLeft, pairs, i);
      var left := pairs[i].0;
      var known := Find(byLeft, left);
      var was: seq<nat> := if known.Some? then known.value else [];
      byLeft := Set<seq<nat>>(byLeft, left, was + [i]);
    }
  }

  /** The score of every pair is that of the pair alone, whatever other pairs are in the request
      and however large the batches are. */
  method Score(encode: Encoder, ghost alone: (string, string) -> real, squash: real -> real,
               pairs: seq<(string, string)>, batchSize: nat)
    returns (result: seq<real>)
    requires batchSize > 0 && Independent(encode, alone)
    ensures |result| == |pairs| && forall i :: 0 <= i < |pairs| ==> result[i] == squash(alone(pairs[i].0, pairs[i].1))
  {
    var scores := new real[|pairs|](_ => 0.0);
    var byLeft := GroupByLeft(pairs);
    for g := 0 to |byLeft|
      invariant forall h, j :: 0 <= h < g && 0 <= j < |byLeft[h].1| ==>
                  byLeft[h].1[j] < |pairs| && scores[byLeft[h].1[j]] == Alone(alone, squash, pairs, byLeft[h].1[j])
    {
      var (left, idxs) := byLeft[g];
      assert Members(byLeft[g], pairs, |pairs|);
      var docs := seq(|idxs|, j requires 0 <= j < |idxs| => pairs[idxs[j]].1);
      var leftScores := RerankScores(encode, alone, squash, left, docs, batchSize);
      for j := 0 to |idxs|
        invariant forall h, m :: 0 <= h < g && 0 <= m < |byLeft[h].1| ==>
                    byLeft[h].1[m] < |pairs| && scores[byLeft[h].1[m]] == Alone(alone, squash, pairs, byLeft[h].1[m])
        invariant forall m :: 0 <= m < j ==> scores[idxs[m]] == Alone(alone, squash, pairs, idxs[m])
      {
        assert leftScores[j] == Alone(alone, squash, pairs, idxs[j]);
        scores[idxs[j]] := leftScores[j];
      }
    }
    result := scores[..];
    forall i | 0 <= i < |pairs| ensures result[i] == Alone(alone, squash, pairs, i) {
      var g := FoundAt(byLeft, pairs[i].0);
      var idxs := byLeft[g].1;
      var j :| 0 <= j < |idxs| && idxs[j] == i;
      assert scores[byLeft[g].1[j]] == Alone(alone, squash, pairs, byLeft[g].1[j]);
    }
  }

  /** The i-th text of a side; a single text stands for a list that repeats it. */
  function Nth(t: Text, i: nat): string
    requires t.Many? ==> i < |t.texts|
  {
    if t.One? then t.text else t.texts[i]
  }

  predicate HasPairs(a: Text, b: Text, n: nat) { (a.Many? ==> |a.texts| == n) && (b.Many? ==> |b.texts| == n) }

  datatype Scored = Scores(scores: seq<real>) | Rejected

  /** A request is rejected if its lists differ in length or are empty; otherwise score i is that
      of the i-th texts of both sides alone. */
  method ScoreTexts(encode: Encoder, ghost alone: (string, string) -> real, squash: real -> real, a: Text, b: Text,
                    batchSize: nat)
    returns (result: Scored)
    requires batchSize > 0 && Independent(encode, alone)
    ensures result.Rejected? <==> forall n :: n > 0 ==> !HasPairs(a, b, n)
    ensures result.Scores? ==>
              && |result.scores| > 0 && HasPairs(a, b, |result.scores|) && (a.One? && b.One? ==> |result.scores| == 1)
              && forall i :: 0 <= i < |result.scores| ==> result.scores[i] == squash(alone(Nth(a, i), Nth(b, i)))
  {
    var p := PairsOf(a, b);
    if !p.Pairs? {
      return Rejected;
    }
    assert HasPairs(a, b, |p.pairs|);
    var scores := Score(encode, alone, squash, p.pairs, batchSize);
    return Scores(scores);
  }

  ghost function Alone(alone: (string, string) -> real, squash: real -> real, pairs: seq<(string, string)>,
                       i: nat): real
    requires i < |pairs|
  {
    squash(alone(pairs[i].0, pairs[i].1))
  }

  // ---- Ranking -----------------------------------------------------------------------------------

  datatype Ranked = Ranked(index: nat, score: real)

  /** Ahead in the ranking: a higher score, or as high and earlier in the request. */
  predicate Ahead(a: Ranked, b: Ranked) { a.score > b.score || (a.score == b.score && a.index < b.index) }

  function Place(x: Ranked, rs: seq<Ranked>): seq<Ranked> {
    if rs == [] || rs[0].score < x.score then [x] + rs else [rs[0]] + Place(x, rs[1..])
  }

  /** The stable sort by descending score of the first n. */
  function RankedUpTo(scores: seq<real>, n: nat): seq<Ranked>
    requires n <= |scores|
  {
    if n == 0 then [] else Place(Ranked(n - 1, scores[n - 1]), RankedUpTo(scores, n - 1))
  }

  /** rs[:n] */
  function Top<T>(rs: seq<T>, n: int): seq<T> {
    if n >= |rs| then rs else if n >= 0 then rs[..n] else if |rs| + n >= 0 then rs[..|rs| + n] else []
  }

  ghost predicate Ordered(rs: seq<Ranked>) { forall i, j :: 0 <= i < j < |rs| ==> Ahead(rs[i], rs[j]) }

  lemma {:induction false} PlaceKeeps(x: Ranked, rs: seq<Ranked>)
    requires Ordered(rs) && forall r :: r in rs ==> r.index < x.index
    ensures Ordered(Place(x, rs)) && |Place(x, rs)| == |rs| + 1
    ensures forall r :: r in Place(x, rs) <==> r == x || r in rs
  {
    if rs != [] && rs[0].score >= x.score {
      PlaceKeeps(x, rs[1..]);
      var rest := Place(x, rs[1..]);
      assert rs[0] in rs;
      forall j | 0 <= j < |rest| ensures Ahead(rs[0], rest[j]) {
        assert rest[j] in rest;
        if rest[j] != x {
          var i :| 0 <= i < |rs[1..]| && rs[1..][i] == rest[j];
          assert rs[i + 1] == rest[j];
        }
      }
    } else if rs != [] {
      forall j | 0 <= j < |rs| ensures Ahead(x, rs[j]) {
        assert j > 0 ==> Ahead(rs[0], rs[j]);
      }
    }
  }

  /** The ranking holds each index once, with its score, in order. */
  lemma {:induction false} RankingIs(scores: seq<real>, n: nat)
    requires n <= |scores|
    ensures var rs := RankedUpTo(scores, n);
            && Ordered(rs) && |rs| == n
            && forall r :: r in rs <==> r.index < n && r.score == scores[r.index]
    decreases n
  {
    if n > 0 {
      RankingIs(scores, n - 1);
      PlaceKeeps(Ranked(n - 1, scores[n - 1]), RankedUpTo(scores, n - 1));
    }
  }

  method RankDocuments(encode: Encoder, ghost alone: (string, string) -> real, squash: real -> real, query: string,
                       documents: seq<string>, topN: Option<int>, batchSize: nat) returns (results: Option<seq<Ranked>>)
    requires batchSize > 0 && Independent(encode, alone)
    ensures results.None? <==> documents == []
    ensures results.Some? ==> IsRanking(results.value, query, documents, alone, squash, topN)
    ensures results.Some? && topN.None? ==> |results.value| == |documents|
    ensures results.Some? && topN.Some? ==>
              var n, k := |documents|, topN.value;
              |results.value| == if k >= 0 then (if k < n then k else n) else (if n + k < 0 then 0 else n + k)
  {
    if documents == [] { return None; }
    var scores := RerankScores(encode, alone, squash, query, documents, batchSize);
    var all := RankedUpTo(scores, |scores|);
    RankingIs(scores, |scores|);
    var top := if topN.Some? then Top(all, topN.value) else all;
    TopIsRanking(all, top, query, documents, alone, squash, topN);
    return Some(top);
  }

  function Kept(n: nat, topN: Option<int>): nat {
    if topN.None? || topN.value >= n then n
    else if topN.value >= 0 then topN.value
    else if n + topN.value >= 0 then n + topN.value
    else 0
  }

  /** The best documents, best first and equals in the order of the request: each listed with its
      own score, once, and ahead of every one that is not listed. */
  ghost predicate IsRanking(rs: seq<Ranked>, query: string, documents: seq<string>, alone: (string, string) -> real,
                            squash: real -> real,
                            topN: Option<int>) {
    && |rs| == Kept(|documents|, topN)
    && Ordered(rs)
    && (forall r :: r in rs ==> r.index < |documents| && r.score == squash(alone(query, documents[r.index])))
    && (forall r, i :: r in rs && 0 <= i < |documents| ==>
          var other := Ranked(i, squash(alone(query, documents[i]))); other in rs || Ahead(r, other))
  }

  lemma TopIsRanking(all: seq<Ranked>, top: seq<Ranked>, query: string, documents: seq<string>,
                     alone: (string, string) -> real,
                     squash: real -> real, topN: Option<int>)
    requires |all| == |documents| && Ordered(all)
    requires forall r :: r in all <==> r.index < |documents| && r.score == squash(alone(query, documents[r.index]))
    requires top == if topN.Some? then Top(all, topN.value) else all
    ensures IsRanking(top, query, documents, alone, squash, topN)
  {
    var n := Kept(|documents|, topN);
    assert top == all[..n];
    forall r, i | r in top && 0 <= i < |documents|
      ensures var other := Ranked(i, squash(alone(query, documents[i]))); other in top || Ahead(r, other)
    {
      var other := Ranked(i, squash(alone(query, documents[i])));
      assert other in all;
      var a :| 0 <= a < |top| && top[a] == r;
      var b :| 0 <= b < |all| && all[b] == other;
      assert all[a] == r;
      if b < n { assert top[b] == other; }
    }
  }
}
