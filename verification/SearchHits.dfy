// What a search should return: a naive scan of the tokenised documents of a snapshot.

module SearchHits {
  import opened Common
  import opened SearchIndex
  import opened SegmentPostings
  import opened SegmentRecords
  import opened SegmentTables
  import opened Terms

  datatype SearchQuery = SearchQuery(
    keywords: seq<Bytes>, lineId: Bytes, stationId: Bytes, deviceId: Bytes, workOrder: Bytes, productSn: Bytes,
    levels: seq<Bytes>, moduleName: Bytes, errorCode: Bytes, hasTimeRange: bool, occurredFrom: I64, occurredTo: I64,
    anomalyOnly: bool, offset: nat, pageSize: nat)

  datatype Hit = Hit(document: DocumentRecord, score: real)

  type Snapshot = seq<Segment>

  /** The texts of every document of every Segment. */
  type Corpus = seq<seq<Bytes>>

  /** What the constructor of IndexSnapshot checks, and what loading gives. */
  ghost predicate SnapshotOk(snapshot: Snapshot, corpus: Corpus) {
    && |snapshot| == |corpus|
    && (forall s :: 0 <= s < |snapshot| ==> Indexes(snapshot[s], corpus[s]) && snapshot[s].batchId != 0)
    && (forall s, r :: 0 <= s < r < |snapshot| ==> snapshot[s].batchId < snapshot[r].batchId)
  }

  // ---------------------------------------------------------------- filters

  predicate MatchesFilters(d: DocumentRecord, q: SearchQuery) {
    && (q.lineId == [] || d.lineId == q.lineId)
    && (q.stationId == [] || d.stationId == q.stationId)
    && (q.deviceId == [] || d.deviceId == q.deviceId)
    && (q.workOrder == [] || d.workOrder == q.workOrder)
    && (q.productSn == [] || d.productSn == q.productSn)
    && (q.levels == [] || d.level in q.levels)
    && (q.moduleName == [] || d.moduleName == q.moduleName)
    && (q.errorCode == [] || d.errorCode == q.errorCode)
    && (!q.hasTimeRange || q.occurredFrom <= d.occurredAt <= q.occurredTo)
    && (!q.anomalyOnly || d.level == Ascii("WARN") || d.level == Ascii("ERROR") || d.errorCode != [])
  }

  function BusinessWeight(d: DocumentRecord, q: SearchQuery): real {
    (if q.errorCode != [] && d.errorCode == q.errorCode then 3.0 else 0.0)
    + (if q.moduleName != [] && d.moduleName == q.moduleName then 1.5 else 0.0)
    + (if d.level == Ascii("ERROR") then 2.0 else 0.0)
    + (if d.level == Ascii("WARN") then 1.0 else 0.0)
  }

  /** What each thing weighs: 3 for the error code asked for, 1.5 for the module asked for, 2 for an error and 1 for a
      warning. */
  lemma Weights(d: DocumentRecord, q: SearchQuery, level: Bytes, code: Bytes, name: Bytes)
    requires level != Ascii("ERROR") && level != Ascii("WARN") && code != q.errorCode && name != q.moduleName
    ensures BusinessWeight(d.(level := Ascii("ERROR")), q) == BusinessWeight(d.(level := level), q) + 2.0
    ensures BusinessWeight(d.(level := Ascii("WARN")), q) == BusinessWeight(d.(level := level), q) + 1.0
    ensures q.errorCode != [] ==>
              BusinessWeight(d.(errorCode := q.errorCode), q) == BusinessWeight(d.(errorCode := code), q) + 3.0
    ensures q.moduleName != [] ==>
              BusinessWeight(d.(moduleName := q.moduleName), q) == BusinessWeight(d.(moduleName := name), q) + 1.5
    ensures BusinessWeight(d.(level := level, errorCode := code, moduleName := name), q) == 0.0
  {
    assert Ascii("ERROR") != Ascii("WARN") by {
      assert |Ascii("ERROR")| == 5 && |Ascii("WARN")| == 4;
    }
  }

  // ---------------------------------------------------------------- statistics

  /** The true number of documents with a term. */
  ghost function GlobalCount(corpus: Corpus, t: Term): nat {
    if corpus == [] then 0
    else GlobalCount(corpus[..|corpus| - 1], t) + |Holders(corpus[|corpus| - 1], t)|
  }

  function DocumentCount(corpus: Corpus): nat {
    if corpus == [] then 0 else DocumentCount(corpus[..|corpus| - 1]) + |corpus[|corpus| - 1]|
  }

  function TextLength(texts: seq<Bytes>): nat {
    if texts == [] then 0 else TextLength(texts[..|texts| - 1]) + |Tokens(texts[|texts| - 1])|
  }

  function TotalLength(corpus: Corpus): nat {
    if corpus == [] then 0 else TotalLength(corpus[..|corpus| - 1]) + TextLength(corpus[|corpus| - 1])
  }

  function AverageLength(corpus: Corpus): real {
    if DocumentCount(corpus) == 0 then 1.0 else TotalLength(corpus) as real / DocumentCount(corpus) as real
  }

  /** The statistics add up over the Segments of a snapshot, and over the documents of a Segment. */
  lemma {:induction false} StatisticsAdd(a: Corpus, b: Corpus, texts: seq<Bytes>, t: Term)
    ensures GlobalCount([texts], t) == |set d: nat | d < |texts| && t in Tokens(texts[d])|
    ensures DocumentCount([texts]) == |texts| && TotalLength([texts]) == TextLength(texts)
    ensures GlobalCount(a + b, t) == GlobalCount(a, t) + GlobalCount(b, t)
    ensures DocumentCount(a + b) == DocumentCount(a) + DocumentCount(b)
    ensures TotalLength(a + b) == TotalLength(a) + TotalLength(b)
  {
    hide Tokens, TextLength;
    assert [texts][..0] == [];
    assert Holders(texts, t) == set d: nat | d < |texts| && t in Tokens(texts[d]);
    if b == [] {
      assert a + b == a;
    } else {
      var k := |b| - 1;
      StatisticsAdd(a, b[..k], texts, t);
      assert (a + b)[..|a + b| - 1] == a + b[..k];
    }
  }

  lemma {:induction false} LengthsAdd(a: seq<Bytes>, b: seq<Bytes>, text: Bytes)
    ensures TextLength([text]) == |Tokens(text)| && TextLength(a + b) == TextLength(a) + TextLength(b)
  {
    hide Tokens;
    assert [text][..0] == [];
    if b == [] {
      assert a + b == a;
    } else {
      var k := |b| - 1;
      LengthsAdd(a, b[..k], text);
      assert (a + b)[..|a + b| - 1] == a + b[..k];
    }
  }

  lemma {:induction false} TextLengthHas(texts: seq<Bytes>, i: nat)
    requires i < |texts|
    ensures TextLength(texts) >= |Tokens(texts[i])|
    decreases |texts|
  {
    if i < |texts| - 1 {
      TextLengthHas(texts[..|texts| - 1], i);
    }
  }

  /** A document with a term makes the average positive, so its score is defined. */
  lemma {:induction false} TotalLengthHas(corpus: Corpus, s: nat, i: nat)
    requires s < |corpus| && i < |corpus[s]|
    ensures TotalLength(corpus) >= |Tokens(corpus[s][i])| && DocumentCount(corpus) > 0
    decreases |corpus|
  {
    if s < |corpus| - 1 {
      TotalLengthHas(corpus[..|corpus| - 1], s, i);
    } else {
      TextLengthHas(corpus[s], i);
    }
  }

  lemma AveragePositive(corpus: Corpus, s: nat, i: nat)
    requires s < |corpus| && i < |corpus[s]| && Tokens(corpus[s][i]) != []
    ensures AverageLength(corpus) > 0.0
  {
    hide Tokens;
    TotalLengthHas(corpus, s, i);
    Quotient(TotalLength(corpus) as real, DocumentCount(corpus) as real);
  }

  lemma Quotient(a: real, b: real)
    requires a > 0.0 && b > 0.0
    ensures a / b > 0.0
  {
  }

  // ---------------------------------------------------------------- score

  /** kBm25K1 and kBm25B */
  const K1: real := 1.2
  const B: real := 0.75

  lemma DenominatorPositive(frequency: nat, length: nat, average: real)
    requires average > 0.0
    ensures frequency as real + K1 * (1.0 - B + B * length as real / average) > 0.0
  {
    var ratio := B * length as real / average;
    assert ratio >= 0.0 by {
      if length > 0 {
        Quotient(B * length as real, average);
      }
    }
  }

  /** What one term adds to the score of a document. */
  function Contribution(idf: real, frequency: nat, length: nat, average: real): real
    requires average > 0.0
  {
    DenominatorPositive(frequency, length, average);
    idf * frequency as real * (K1 + 1.0)
    / (frequency as real + K1 * (1.0 - B + B * length as real / average))
  }

  lemma MulOrder(a: real, b: real, k: real)
    requires a < b && k > 0.0
    ensures a * k < b * k
  {
    assert b * k - a * k == (b - a) * k > 0.0;
  }

  lemma Cancel(x: real, y: real, k: real)
    requires k > 0.0 && x * k < y * k
    ensures x < y
  {
    assert (y - x) * k > 0.0;
  }

  lemma QuotientLess(a: real, b: real, c: real, d: real)
    requires b > 0.0 && d > 0.0 && a * d < c * b
    ensures a / b < c / d
  {
    var x, y := a / b, c / d;
    assert x * b == a && y * d == c;
    assert x * (b * d) == a * d && y * (b * d) == c * b;
    Cancel(x, y, b * d);
  }

  /** How far a frequency saturates a term, against a document length of weight `n`. */
  function Share(f: real, n: real): real
    requires f > 0.0 && n > 0.0
  {
    f / (f + n)
  }

  /** It grows with the frequency, falls with the length, and stays below 1. */
  lemma ShareOrder(f: real, g: real, n: real, m: real)
    requires 0.0 < f < g && 0.0 < n < m
    ensures Share(f, n) < Share(g, n) < 1.0 && Share(g, m) < Share(g, n)
  {
    MulOrder(f, g, n);
    assert f * (g + n) == f * g + f * n && g * (f + n) == f * g + g * n;
    QuotientLess(f, f + n, g, g + n);
    QuotientLess(g, g + n, 1.0, 1.0);
    MulOrder(n, m, g);
    assert g * (g + n) == g * g + n * g && g * (g + m) == g * g + m * g;
    QuotientLess(g, g + m, g, g + n);
  }

  lemma RatioGrows(length: nat, longer: nat, average: real)
    requires average > 0.0 && length < longer
    ensures 0.0 < 0.3 + 0.9 * (length as real / average) < 0.3 + 0.9 * (longer as real / average)
  {
    MulOrder(length as real, longer as real, average);
    QuotientLess(length as real, average, longer as real, average);
    if length > 0 {
      Quotient(length as real, average);
    }
  }

  /** BM25 with its constants: what the idf is multiplied with. */
  lemma ContributionIs(idf: real, frequency: nat, length: nat, average: real)
    requires average > 0.0 && frequency > 0
    ensures var n := 0.3 + 0.9 * (length as real / average);
            n > 0.0 && Contribution(idf, frequency, length, average) == Share(frequency as real, n) * (2.2 * idf)
  {
    RatioGrows(length, length + 1, average);
    DenominatorPositive(frequency, length, average);
    var ratio := length as real / average;
    assert B * length as real / average == 0.75 * ratio;
    assert K1 * (1.0 - B + 0.75 * ratio) == 0.3 + 0.9 * ratio;
    Scaled(idf, frequency as real, frequency as real + (0.3 + 0.9 * ratio));
  }

  lemma Scaled(idf: real, f: real, d: real)
    requires d > 0.0
    ensures idf * f * (K1 + 1.0) / d == f / d * (2.2 * idf)
  {
    assert idf * f * (K1 + 1.0) == f * (2.2 * idf);
  }

  /** A term counts more when it is more frequent, less in a longer document, and never more than 2.2 times its
      inverse document frequency. */
  lemma ContributionOrder(idf: real, frequency: nat, more: nat, length: nat, longer: nat, average: real)
    requires average > 0.0 && idf > 0.0 && 0 < frequency < more && length < longer
    ensures Contribution(idf, frequency, length, average) < Contribution(idf, more, length, average) < 2.2 * idf
    ensures Contribution(idf, more, longer, average) < Contribution(idf, more, length, average)
  {
    hide Contribution, Share;
    ContributionIs(idf, frequency, length, average);
    ContributionIs(idf, more, length, average);
    ContributionIs(idf, more, longer, average);
    RatioGrows(length, longer, average);
    var f, g := frequency as real, more as real;
    var n, m := 0.3 + 0.9 * (length as real / average), 0.3 + 0.9 * (longer as real / average);
    ShareOrder(f, g, n, m);
    MulOrder(Share(f, n), Share(g, n), 2.2 * idf);
    MulOrder(Share(g, n), 1.0, 2.2 * idf);
    MulOrder(Share(g, m), Share(g, n), 2.2 * idf);
  }

  /** The contribution of a term by the texts alone, without any index. */
  ghost function TermScore(corpus: Corpus, s: nat, i: nat, t: Term, idf: (nat, nat) -> real): real
    requires s < |corpus| && i < |corpus[s]|
  {
    var tokens := Tokens(corpus[s][i]);
    if t !in tokens then 0.0
    else
      AveragePositive(corpus, s, i);
      Contribution(idf(GlobalCount(corpus, t), DocumentCount(corpus)), Count(tokens, t), |tokens|,
                   AverageLength(corpus))
  }

  ghost function TermScores(corpus: Corpus, s: nat, i: nat, idf: (nat, nat) -> real): Term -> real
    requires s < |corpus| && i < |corpus[s]|
  {
    t => TermScore(corpus, s, i, t, idf)
  }

  ghost function SumOver(x: set<Term>, f: Term -> real): real {
    if x == {} then 0.0 else var t :| t in x; f(t) + SumOver(x - {t}, f)
  }

  function SumSeq(s: seq<Term>, f: Term -> real): real {
    if s == [] then 0.0 else SumSeq(s[..|s| - 1], f) + f(s[|s| - 1])
  }

  lemma {:induction false} SumOverRemove(x: set<Term>, t: Term, f: Term -> real)
    requires t in x
    ensures SumOver(x, f) == f(t) + SumOver(x - {t}, f)
  {
    var p :| p in x && SumOver(x, f) == f(p) + SumOver(x - {p}, f);
    if p != t {
      SumOverRemove(x - {p}, t, f);
      SumOverRemove(x - {t}, p, f);
      assert x - {p} - {t} == x - {t} - {p};
    }
  }

  predicate Distinct(s: seq<Term>) {
    forall i, j :: 0 <= i < j < |s| ==> s[i] != s[j]
  }

  /** The sum does not depend on the order in which the terms are added. */
  lemma {:induction false} SumInAnyOrder(s: seq<Term>, x: set<Term>, f: Term -> real)
    requires Distinct(s) && forall t :: t in s <==> t in x
    ensures SumSeq(s, f) == SumOver(x, f)
    decreases |s|
  {
    if s == [] {
      assert x == {};
    } else {
      var k := |s| - 1;
      forall t
        ensures t in s[..k] <==> t in x - {s[k]}
      {
        if t in s[..k] {
          var i :| 0 <= i < k && s[..k][i] == t;
          assert s[i] == t;
        }
        if t in x && t != s[k] {
          var i :| 0 <= i < |s| && s[i] == t;
          assert s[..k][i] == t;
        }
      }
      SumInAnyOrder(s[..k], x - {s[k]}, f);
      SumOverRemove(x, s[k], f);
    }
  }

  // ---------------------------------------------------------------- hits

  /** The normalised terms of a query. */
  ghost function QueryTerms(keywords: seq<Bytes>): set<Term> {
    set k, t | 0 <= k < |keywords| && t in Tokens(keywords[k]) :: t
  }

  ghost predicate IsHit(snapshot: Snapshot, corpus: Corpus, q: SearchQuery, s: nat, i: nat) {
    && s < |snapshot| && s < |corpus| && i < |corpus[s]| && i < |snapshot[s].documents|
    && (forall t <- QueryTerms(q.keywords) :: t in Tokens(corpus[s][i]))
    && MatchesFilters(snapshot[s].documents[i], q)
  }

  ghost function ScoreAt(snapshot: Snapshot, corpus: Corpus, q: SearchQuery, idf: (nat, nat) -> real, s: nat,
                         i: nat): real
    requires s < |snapshot| && s < |corpus| && i < |corpus[s]| && i < |snapshot[s].documents|
  {
    BusinessWeight(snapshot[s].documents[i], q)
    + SumOver(QueryTerms(q.keywords), TermScores(corpus, s, i, idf))
  }

  ghost function HitAt(snapshot: Snapshot, corpus: Corpus, q: SearchQuery, idf: (nat, nat) -> real, s: nat, i: nat): Hit
    requires s < |snapshot| && s < |corpus| && i < |corpus[s]| && i < |snapshot[s].documents|
  {
    Hit(snapshot[s].documents[i], ScoreAt(snapshot, corpus, q, idf, s, i))
  }

  /** The score of a hit, from the texts alone: what the record weighs, and for each term of the query, in whatever
      order they are added, what BM25 makes of its frequency in the text, the length of the text, the number of
      documents with the term and the average length over all Segments. */
  lemma ScoreMeans(snapshot: Snapshot, corpus: Corpus, q: SearchQuery, idf: (nat, nat) -> real, s: nat, i: nat,
                   terms: seq<Term>)
    requires IsHit(snapshot, corpus, q, s, i)
    requires Distinct(terms) && forall t :: t in terms <==> t in QueryTerms(q.keywords)
    ensures var f := TermScores(corpus, s, i, idf);
            var text := Tokens(corpus[s][i]);
            && HitAt(snapshot, corpus, q, idf, s, i).document == snapshot[s].documents[i]
            && HitAt(snapshot, corpus, q, idf, s, i).score
               == BusinessWeight(snapshot[s].documents[i], q) + SumSeq(terms, f)
            && forall t <- terms ::
                 && t in text && AverageLength(corpus) > 0.0
                 && AverageLength(corpus) * DocumentCount(corpus) as real == TotalLength(corpus) as real
                 && f(t) == Contribution(idf(GlobalCount(corpus, t), DocumentCount(corpus)), multiset(text)[t], |text|,
                                         AverageLength(corpus))
  {
    hide Tokens, Contribution, BusinessWeight, MatchesFilters, QueryTerms, AverageLength, TermScore, TotalLength,
         DocumentCount, Distinct;
    SumInAnyOrder(terms, QueryTerms(q.keywords), TermScores(corpus, s, i, idf));
    forall t <- terms
      ensures t in Tokens(corpus[s][i]) && AverageLength(corpus) > 0.0
      ensures AverageLength(corpus) * DocumentCount(corpus) as real == TotalLength(corpus) as real
      ensures TermScore(corpus, s, i, t, idf)
           == Contribution(idf(GlobalCount(corpus, t), DocumentCount(corpus)), multiset(Tokens(corpus[s][i]))[t],
                           |Tokens(corpus[s][i])|, AverageLength(corpus))
    {
      AveragePositive(corpus, s, i);
      AverageIs(corpus, s, i);
      TermScoreIs(corpus, s, i, t, idf);
    }
  }

  lemma TermScoreIs(corpus: Corpus, s: nat, i: nat, t: Term, idf: (nat, nat) -> real)
    requires s < |corpus| && i < |corpus[s]| && t in Tokens(corpus[s][i]) && AverageLength(corpus) > 0.0
    ensures TermScore(corpus, s, i, t, idf)
         == Contribution(idf(GlobalCount(corpus, t), DocumentCount(corpus)), multiset(Tokens(corpus[s][i]))[t],
                         |Tokens(corpus[s][i])|, AverageLength(corpus))
  {
    hide Tokens, Contribution, AverageLength, TotalLength, DocumentCount, GlobalCount;
  }

  lemma AverageIs(corpus: Corpus, s: nat, i: nat)
    requires s < |corpus| && i < |corpus[s]|
    ensures AverageLength(corpus) * DocumentCount(corpus) as real == TotalLength(corpus) as real
  {
    hide *;
    TotalLengthHas(corpus, s, i);
    AverageQuotient(corpus);
    TimesQuotient(TotalLength(corpus) as real, DocumentCount(corpus) as real);
  }

  lemma AverageQuotient(corpus: Corpus)
    requires DocumentCount(corpus) > 0
    ensures AverageLength(corpus) == TotalLength(corpus) as real / DocumentCount(corpus) as real
  {
    hide TotalLength, DocumentCount;
  }

  lemma TimesQuotient(a: real, b: real)
    requires b > 0.0
    ensures a / b * b == a
  {
  }

  lemma {:induction false} SumSeqAdds(terms: seq<Term>, t: Term, f: Term -> real)
    ensures SumSeq([], f) == 0.0 && SumSeq(terms + [t], f) == SumSeq(terms, f) + f(t)
  {
    assert (terms + [t])[..|terms|] == terms;
  }

  /** The hits among the first documents of one Segment. */
  ghost function HitsIn(snapshot: Snapshot, corpus: Corpus, q: SearchQuery, idf: (nat, nat) -> real, s: nat,
                        n: nat): set<Hit>
    requires s < |snapshot| && s < |corpus|
  {
    set i: nat | i < n && IsHit(snapshot, corpus, q, s, i) :: HitAt(snapshot, corpus, q, idf, s, i)
  }

  /** The hits of the first Segments. */
  ghost function HitsBefore(snapshot: Snapshot, corpus: Corpus, q: SearchQuery, idf: (nat, nat) -> real,
                            s: nat): set<Hit>
    requires s <= |snapshot| && s <= |corpus|
  {
    if s == 0 then {}
    else
      HitsBefore(snapshot, corpus, q, idf, s - 1) + HitsIn(snapshot, corpus, q, idf, s - 1, |snapshot[s - 1].documents|)
  }

  /** The naive scan: every document of every Segment. */
  ghost function AllHits(snapshot: Snapshot, corpus: Corpus, q: SearchQuery, idf: (nat, nat) -> real): set<Hit>
    requires |snapshot| == |corpus|
  {
    HitsBefore(snapshot, corpus, q, idf, |snapshot|)
  }

  lemma {:induction false} HitsBeforeAre(snapshot: Snapshot, corpus: Corpus, q: SearchQuery, idf: (nat, nat) -> real,
                                         n: nat, h: Hit)
    requires n <= |snapshot| && n <= |corpus|
    ensures h in HitsBefore(snapshot, corpus, q, idf, n)
       <==> exists s: nat, i: nat ::
              s < n && IsHit(snapshot, corpus, q, s, i) && h == HitAt(snapshot, corpus, q, idf, s, i)
  {
    hide HitAt, QueryTerms, MatchesFilters, Tokens;
    if n > 0 {
      HitsBeforeAre(snapshot, corpus, q, idf, n - 1, h);
      if exists s: nat, i: nat ::
           s < n && IsHit(snapshot, corpus, q, s, i) && h == HitAt(snapshot, corpus, q, idf, s, i)
      {
        var s: nat, i: nat :| s < n && IsHit(snapshot, corpus, q, s, i) && h == HitAt(snapshot, corpus, q, idf, s, i);
        HitInRange(snapshot, corpus, q, s, i);
        if s == n - 1 {
          assert h in HitsIn(snapshot, corpus, q, idf, n - 1, |snapshot[n - 1].documents|);
        }
      }
    }
  }

  lemma HitInRange(snapshot: Snapshot, corpus: Corpus, q: SearchQuery, s: nat, i: nat)
    requires IsHit(snapshot, corpus, q, s, i)
    ensures s < |snapshot| && s < |corpus| && i < |corpus[s]| && i < |snapshot[s].documents|
  {
  }

  /** The hits are exactly the documents whose tokens contain every term and which pass the filters. */
  lemma AllHitsAre(snapshot: Snapshot, corpus: Corpus, q: SearchQuery, idf: (nat, nat) -> real, h: Hit)
    requires |snapshot| == |corpus|
    ensures h in AllHits(snapshot, corpus, q, idf)
       <==> exists s: nat, i: nat :: IsHit(snapshot, corpus, q, s, i) && h == HitAt(snapshot, corpus, q, idf, s, i)
  {
    hide HitAt;
    HitsBeforeAre(snapshot, corpus, q, idf, |snapshot|, h);
  }

  // ---------------------------------------------------------------- one hit per document

  /** A document id names one document of one Segment. */
  lemma DocIdUnique(snapshot: Snapshot, corpus: Corpus, s: nat, i: nat, r: nat, j: nat)
    requires SnapshotOk(snapshot, corpus)
    requires s < |snapshot| && i < |snapshot[s].documents| && r < |snapshot| && j < |snapshot[r].documents|
    requires snapshot[s].documents[i].docId == snapshot[r].documents[j].docId
    ensures s == r && i == j
  {
    hide TermsAccepted, PostingsAccepted, Unflatten, Inverted, IsLookup, Tokens;
    assert IsDocumentAt(snapshot[s], corpus[s], i) && IsDocumentAt(snapshot[r], corpus[r], j);
  }

  /** What has been seen after `n` documents of Segment `s`. */
  ghost function SeenHits(snapshot: Snapshot, corpus: Corpus, q: SearchQuery, idf: (nat, nat) -> real, s: nat,
                          n: nat): set<Hit>
    requires s < |snapshot| && s < |corpus|
  {
    HitsBefore(snapshot, corpus, q, idf, s) + HitsIn(snapshot, corpus, q, idf, s, n)
  }

  lemma SeenAre(snapshot: Snapshot, corpus: Corpus, q: SearchQuery, idf: (nat, nat) -> real, s: nat, n: nat, h: Hit)
    requires s < |snapshot| && s < |corpus| && h in SeenHits(snapshot, corpus, q, idf, s, n)
    ensures exists r: nat, j: nat :: (r < s || (r == s && j < n)) && IsHit(snapshot, corpus, q, r, j)
                                     && h == HitAt(snapshot, corpus, q, idf, r, j)
  {
    hide HitAt, QueryTerms, MatchesFilters, Tokens;
    if h in HitsBefore(snapshot, corpus, q, idf, s) {
      HitsBeforeAre(snapshot, corpus, q, idf, s, h);
      var r: nat, j: nat :| r < s && IsHit(snapshot, corpus, q, r, j) && h == HitAt(snapshot, corpus, q, idf, r, j);
    } else {
      var j: nat :| j < n && IsHit(snapshot, corpus, q, s, j) && h == HitAt(snapshot, corpus, q, idf, s, j);
    }
  }

  /** A document not yet reached gives a hit not yet seen, and no two seen hits share a document. */
  lemma SeenFresh(snapshot: Snapshot, corpus: Corpus, q: SearchQuery, idf: (nat, nat) -> real, s: nat, n: nat, i: nat)
    requires SnapshotOk(snapshot, corpus) && s < |snapshot| && n <= i && i < |corpus[s]| && i < |snapshot[s].documents|
    ensures HitAt(snapshot, corpus, q, idf, s, i) !in SeenHits(snapshot, corpus, q, idf, s, n)
  {
    hide ScoreAt, SnapshotOk, QueryTerms, MatchesFilters, Tokens, SeenHits;
    SameLength(snapshot, corpus);
    var h := HitAt(snapshot, corpus, q, idf, s, i);
    if h in SeenHits(snapshot, corpus, q, idf, s, n) {
      SeenAre(snapshot, corpus, q, idf, s, n, h);
      var r: nat, j: nat :| (r < s || (r == s && j < n)) && IsHit(snapshot, corpus, q, r, j)
                            && h == HitAt(snapshot, corpus, q, idf, r, j);
      HitInRange(snapshot, corpus, q, r, j);
      DocIdUnique(snapshot, corpus, s, i, r, j);
    }
  }

  lemma SeenOnePerDocument(snapshot: Snapshot, corpus: Corpus, q: SearchQuery, idf: (nat, nat) -> real, s: nat, n: nat,
                           a: Hit, b: Hit)
    requires SnapshotOk(snapshot, corpus) && s < |snapshot|
    requires a in SeenHits(snapshot, corpus, q, idf, s, n) && b in SeenHits(snapshot, corpus, q, idf, s, n)
    requires a.document.docId == b.document.docId
    ensures a == b
  {
    hide ScoreAt, SnapshotOk, QueryTerms, MatchesFilters, Tokens, SeenHits;
    SameLength(snapshot, corpus);
    SeenAre(snapshot, corpus, q, idf, s, n, a);
    SeenAre(snapshot, corpus, q, idf, s, n, b);
    var r: nat, j: nat :| IsHit(snapshot, corpus, q, r, j) && a == HitAt(snapshot, corpus, q, idf, r, j);
    var t: nat, k: nat :| IsHit(snapshot, corpus, q, t, k) && b == HitAt(snapshot, corpus, q, idf, t, k);
    HitInRange(snapshot, corpus, q, r, j);
    HitInRange(snapshot, corpus, q, t, k);
    HitDocument(snapshot, corpus, q, idf, r, j);
    HitDocument(snapshot, corpus, q, idf, t, k);
    DocIdUnique(snapshot, corpus, r, j, t, k);
  }

  lemma HitDocument(snapshot: Snapshot, corpus: Corpus, q: SearchQuery, idf: (nat, nat) -> real, s: nat, i: nat)
    requires s < |snapshot| && s < |corpus| && i < |corpus[s]| && i < |snapshot[s].documents|
    ensures HitAt(snapshot, corpus, q, idf, s, i).document == snapshot[s].documents[i]
  {
  }

  lemma SameLength(snapshot: Snapshot, corpus: Corpus)
    requires SnapshotOk(snapshot, corpus)
    ensures |snapshot| == |corpus|
    ensures forall s :: 0 <= s < |snapshot| ==> |snapshot[s].documents| == |corpus[s]|
  {
    hide TermsAccepted, PostingsAccepted, Unflatten, Inverted, IsLookup, Tokens, IsDocumentAt;
  }

  /** Documents that are no hits add nothing. */
  lemma NoHitsBetween(snapshot: Snapshot, corpus: Corpus, q: SearchQuery, idf: (nat, nat) -> real, s: nat, n: nat,
                      m: nat)
    requires s < |snapshot| && s < |corpus| && n <= m
    requires forall i: nat :: n <= i < m ==> !IsHit(snapshot, corpus, q, s, i)
    ensures SeenHits(snapshot, corpus, q, idf, s, m) == SeenHits(snapshot, corpus, q, idf, s, n)
  {
    hide HitAt, QueryTerms, MatchesFilters, Tokens;
    forall h
      ensures h in HitsIn(snapshot, corpus, q, idf, s, m) <==> h in HitsIn(snapshot, corpus, q, idf, s, n)
    {
    }
  }

  lemma OneHitMore(snapshot: Snapshot, corpus: Corpus, q: SearchQuery, idf: (nat, nat) -> real, s: nat, i: nat)
    requires s < |snapshot| && s < |corpus| && IsHit(snapshot, corpus, q, s, i)
    ensures SeenHits(snapshot, corpus, q, idf, s, i + 1)
         == SeenHits(snapshot, corpus, q, idf, s, i) + {HitAt(snapshot, corpus, q, idf, s, i)}
  {
    hide HitAt, QueryTerms, MatchesFilters, Tokens;
    forall h
      ensures h in HitsIn(snapshot, corpus, q, idf, s, i + 1)
         <==> h in HitsIn(snapshot, corpus, q, idf, s, i) || h == HitAt(snapshot, corpus, q, idf, s, i)
    {
      if h in HitsIn(snapshot, corpus, q, idf, s, i + 1) {
        var j: nat :| j < i + 1 && IsHit(snapshot, corpus, q, s, j) && h == HitAt(snapshot, corpus, q, idf, s, j);
        if j < i {
          assert h in HitsIn(snapshot, corpus, q, idf, s, i);
        }
      }
      if h in HitsIn(snapshot, corpus, q, idf, s, i) {
        var j: nat :| j < i && IsHit(snapshot, corpus, q, s, j) && h == HitAt(snapshot, corpus, q, idf, s, j);
        assert j < i + 1;
      }
    }
  }
}
