// The inverted index: term frequencies of texts, flattened into terms and postings and back.

module SegmentPostings {
  import opened Common
  import opened Ranking
  import opened SegmentRecords
  import opened Terms

  /** The frequencies of one term: local document id to frequency. */
  type Row = map<nat, nat>
  type Index = map<Term, Row>

  // ---------------------------------------------------------------- what the texts contain

  ghost function FrequencyMap(s: seq<Term>): map<Term, nat> {
    map t | t in s :: Count(s, t)
  }

  /** The documents that contain a term. */
  ghost function Holders(texts: seq<Bytes>, t: Term): set<nat> {
    set d: nat | d < |texts| && t in Tokens(texts[d])
  }

  ghost function AllTerms(texts: seq<Bytes>): set<Term> {
    set d, t | 0 <= d < |texts| && t in Tokens(texts[d]) :: t
  }

  ghost function InvertedRow(texts: seq<Bytes>, t: Term): Row {
    map d | d in Holders(texts, t) :: Count(Tokens(texts[d]), t)
  }

  /** The exact term-frequency map of the texts. */
  ghost function Inverted(texts: seq<Bytes>): Index {
    map t | t in AllTerms(texts) :: InvertedRow(texts, t)
  }

  /** `frequencies[*term]++` for every term of a document. */
  method CountTerms(terms: seq<Term>) returns (frequencies: map<Term, nat>)
    ensures frequencies == FrequencyMap(terms)
  {
    frequencies := map[];
    var i := 0;
    while i < |terms|
      invariant i <= |terms|
      invariant frequencies == FrequencyMap(terms[..i])
    {
      assert terms[..i + 1] == terms[..i] + [terms[i]];
      assert multiset(terms[..i + 1]) == multiset(terms[..i]) + multiset{terms[i]};
      var before := if terms[i] in frequencies then frequencies[terms[i]] else 0;
      frequencies := frequencies[terms[i] := before + 1];
      i := i + 1;
    }
    assert terms[..i] == terms;
  }

  /** An index after `inverted[t][localId] = frequencies[t]` for every t in `done`. */
  ghost function Entered(inverted: Index, localId: nat, frequencies: map<Term, nat>, done: set<Term>): Index
    requires done <= frequencies.Keys
  {
    map t | t in inverted.Keys + done ::
      var row := if t in inverted then inverted[t] else map[];
      if t in done then row[localId := frequencies[t]] else row
  }

  lemma NothingEntered(inverted: Index, localId: nat, frequencies: map<Term, nat>)
    ensures Entered(inverted, localId, frequencies, {}) == inverted
  {
  }

  lemma EnterOne(inverted: Index, localId: nat, frequencies: map<Term, nat>, done: set<Term>, t: Term)
    requires done <= frequencies.Keys && t in frequencies && t !in done
    ensures var r := Entered(inverted, localId, frequencies, done);
            var row: Row := if t in r then r[t] else map[];
            r[t := row[localId := frequencies[t]]] == Entered(inverted, localId, frequencies, done + {t})
  {
    var r, next := Entered(inverted, localId, frequencies, done), Entered(inverted, localId, frequencies, done + {t});
    assert next.Keys == r.Keys + {t};
    forall x <- next | x != t
      ensures next[x] == r[x]
    {
    }
  }

  method EnterDocument(inverted: Index, localId: nat, frequencies: map<Term, nat>) returns (r: Index)
    ensures r == Entered(inverted, localId, frequencies, frequencies.Keys)
  {
    hide Entered;
    r := inverted;
    var rest := frequencies.Keys;
    NothingEntered(inverted, localId, frequencies);
    assert frequencies.Keys - frequencies.Keys == {};
    while rest != {}
      invariant rest <= frequencies.Keys
      invariant r == Entered(inverted, localId, frequencies, frequencies.Keys - rest)
      decreases rest
    {
      var t :| t in rest;
      EnterOne(inverted, localId, frequencies, frequencies.Keys - rest, t);
      var row := if t in r then r[t] else map[];
      r := r[t := row[localId := frequencies[t]]];
      assert frequencies.Keys - (rest - {t}) == frequencies.Keys - rest + {t};
      rest := rest - {t};
    }
    assert frequencies.Keys - rest == frequencies.Keys;
  }

  lemma HoldersNext(texts: seq<Bytes>, text: Bytes, t: Term)
    ensures Holders(texts + [text], t) == Holders(texts, t) + if t in Tokens(text) then {|texts|} else {}
    ensures t in AllTerms(texts) <==> Holders(texts, t) != {}
  {
    hide Tokens;
    var more := texts + [text];
    forall d
      ensures d in Holders(more, t) <==> d in Holders(texts, t) || (d == |texts| && t in Tokens(text))
    {
      assert 0 <= d < |texts| ==> more[d] == texts[d];
    }
    if Holders(texts, t) != {} {
      var d :| d in Holders(texts, t);
      assert t in Tokens(texts[d]);
    }
    if t in AllTerms(texts) {
      var d :| 0 <= d < |texts| && t in Tokens(texts[d]);
      assert d in Holders(texts, t);
    }
  }

  lemma InvertedRowNext(texts: seq<Bytes>, text: Bytes, t: Term)
    ensures InvertedRow(texts + [text], t)
         == if t in Tokens(text) then InvertedRow(texts, t)[|texts| := Count(Tokens(text), t)]
            else InvertedRow(texts, t)
  {
    hide Tokens, Count;
    HoldersNext(texts, text, t);
    var more := texts + [text];
    forall d | d in Holders(texts, t)
      ensures more[d] == texts[d]
    {
    }
  }

  /** Entering the next document makes the index of one text more. */
  lemma EnteredIsInverted(texts: seq<Bytes>, text: Bytes)
    ensures var f := FrequencyMap(Tokens(text));
            Entered(Inverted(texts), |texts|, f, f.Keys) == Inverted(texts + [text])
  {
    hide Tokens, Count, Holders, AllTerms, InvertedRow;
    var more := texts + [text];
    var f := FrequencyMap(Tokens(text));
    var left, right := Entered(Inverted(texts), |texts|, f, f.Keys), Inverted(more);
    forall t
      ensures t in left <==> t in right
      ensures t in left && t in right ==> left[t] == right[t]
    {
      HoldersNext(texts, text, t);
      HoldersNext(more, text, t);
      InvertedRowNext(texts, text, t);
      NoRow(texts, t);
    }
  }

  lemma NoRow(texts: seq<Bytes>, t: Term)
    ensures Holders(texts, t) == {} ==> InvertedRow(texts, t) == map[]
  {
  }

  // ---------------------------------------------------------------- un-flattening

  function RowOf(list: seq<Posting>): Row {
    if list == [] then map[]
    else
      var last := list[|list| - 1];
      RowOf(list[..|list| - 1])[last.localId := last.frequency]
  }

  function RangeOf(t: TermRecord, postings: seq<Posting>): seq<Posting> {
    if t.begin + t.count <= |postings| then postings[t.begin..t.begin + t.count] else []
  }

  /** The term-frequency map that a terms table and a postings table stand for. */
  function Unflatten(terms: seq<TermRecord>, postings: seq<Posting>): Index {
    if terms == [] then map[]
    else
      var last := terms[|terms| - 1];
      Unflatten(terms[..|terms| - 1], postings)[last.term := RowOf(RangeOf(last, postings))]
  }

  lemma {:induction false} IncreasingFar(list: seq<Posting>, i: nat, j: nat)
    requires Increasing(list) && i < j < |list|
    ensures list[i].localId < list[j].localId
    decreases j
  {
    if i < j - 1 {
      IncreasingFar(list, i, j - 1);
    }
  }

  predicate InList(list: seq<Posting>, d: nat) {
    exists i :: 0 <= i < |list| && list[i].localId == d
  }

  lemma {:induction false} RowKeys(list: seq<Posting>)
    ensures forall d :: d in RowOf(list) <==> InList(list, d)
  {
    if list != [] {
      var k := |list| - 1;
      var init := list[..k];
      RowKeys(init);
      forall d
        ensures d in RowOf(list) <==> InList(list, d)
      {
        assert d in RowOf(list) <==> InList(init, d) || d == list[k].localId;
        if InList(init, d) {
          var i :| 0 <= i < k && init[i].localId == d;
          assert list[i].localId == d;
        }
        if InList(list, d) && d != list[k].localId {
          var i :| 0 <= i < |list| && list[i].localId == d;
          assert init[i].localId == d;
        }
      }
    }
  }

  /** An increasing list and its row hold the same documents with the same frequencies. */
  lemma {:induction false} RowOfList(list: seq<Posting>)
    requires Increasing(list)
    ensures |RowOf(list)| == |list|
    ensures forall d :: d in RowOf(list) <==> InList(list, d)
    ensures forall i :: 0 <= i < |list| ==>
              list[i].localId in RowOf(list) && RowOf(list)[list[i].localId] == list[i].frequency
  {
    hide RowOf, Increasing;
    RowKeys(list);
    if list != [] {
      var k := |list| - 1;
      ShorterIncreases(list);
      RowOfList(list[..k]);
      LastIsNew(list);
      RowOfLast(list);
      forall i | 0 <= i < |list|
        ensures list[i].localId in RowOf(list) && RowOf(list)[list[i].localId] == list[i].frequency
      {
        if i < k {
          assert list[..k][i] == list[i];
          assert InList(list[..k], list[i].localId);
        }
      }
    } else {
      NoRows();
    }
  }

  lemma NoRows()
    ensures RowOf([]) == map[]
  {
  }

  lemma ShorterIncreases(list: seq<Posting>)
    requires list != [] && Increasing(list)
    ensures Increasing(list[..|list| - 1])
  {
  }

  lemma LastIsNew(list: seq<Posting>)
    requires list != [] && Increasing(list)
    ensures !InList(list[..|list| - 1], list[|list| - 1].localId)
  {
    var init, last := list[..|list| - 1], list[|list| - 1];
    forall i | 0 <= i < |init|
      ensures init[i].localId < last.localId
    {
      IncreasingFar(list, i, |list| - 1);
    }
  }

  lemma RowOfLast(list: seq<Posting>)
    requires list != []
    ensures RowOf(list) == RowOf(list[..|list| - 1])[list[|list| - 1].localId := list[|list| - 1].frequency]
  {
  }

  /** In an accepted table each term has its own row, and there are no others. */
  lemma {:induction false} UnflattenTerms(terms: seq<TermRecord>, postings: seq<Posting>)
    requires TermsSoFar(terms, postings)
    ensures forall t :: t in Unflatten(terms, postings) <==> exists i :: 0 <= i < |terms| && terms[i].term == t
    ensures forall i :: 0 <= i < |terms| ==>
              && terms[i].term in Unflatten(terms, postings)
              && Unflatten(terms, postings)[terms[i].term] == RowOf(RangeOf(terms[i], postings))
  {
    hide RowOf, RangeOf, TermsSoFar;
    if terms != [] {
      var k := |terms| - 1;
      TermsPrefix(terms, k, postings);
      UnflattenTerms(terms[..k], postings);
      TermIsNew(terms, postings);
      assert forall i :: 0 <= i < k ==> terms[..k][i] == terms[i];
      forall t
        ensures t in Unflatten(terms, postings) <==> exists i :: 0 <= i < |terms| && terms[i].term == t
      {
        if t in Unflatten(terms[..k], postings) {
          var i :| 0 <= i < k && terms[..k][i].term == t;
          assert terms[i].term == t;
        }
        if t == terms[k].term {
        }
      }
    }
  }

  /** Postings appended later do not change what the earlier terms stand for. */
  lemma PostingsAppend(terms: seq<TermRecord>, postings: seq<Posting>, more: seq<Posting>)
    requires TermsSoFar(terms, postings)
    ensures TermsSoFar(terms, postings + more)
    ensures forall i :: 0 <= i < |terms| ==> RangeOf(terms[i], postings + more) == RangeOf(terms[i], postings)
  {
    hide Less, Increasing, Covered;
    forall i | 0 <= i < |terms|
      ensures TermOk(terms, i, postings + more)
      ensures RangeOf(terms[i], postings + more) == RangeOf(terms[i], postings)
    {
      assert TermOk(terms, i, postings);
      var t := terms[i];
      assert (postings + more)[t.begin..t.begin + t.count] == postings[t.begin..t.begin + t.count];
    }
  }

  // ---------------------------------------------------------------- flattening

  predicate IdLess(a: nat, b: nat) {
    a < b
  }

  predicate RowFits(row: Row) {
    forall d <- row :: d < 0x1_0000_0000 && 0 < row[d] < 0x1_0000_0000
  }

  predicate ListsRow(list: seq<Posting>, row: Row, ids: seq<nat>) {
    && |list| <= |ids|
    && forall k :: 0 <= k < |list| ==>
         && ids[k] in row && list[k].localId == ids[k]
         && list[k].frequency == row[ids[k]] != 0
  }

  lemma ListIncreases(list: seq<Posting>, row: Row, ids: seq<nat>)
    requires Sorted(ids, IdLess) && ListsRow(list, row, ids)
    ensures Increasing(list)
  {
    forall i | 0 < i < |list|
      ensures list[i - 1].localId < list[i].localId
    {
      assert IdLess(ids[i - 1], ids[i]);
    }
  }

  lemma ListIsRow(list: seq<Posting>, row: Row, ids: seq<nat>)
    requires Lists(ids, row.Keys, IdLess) && ListsRow(list, row, ids) && |list| == |ids|
    ensures Increasing(list) && RowOf(list) == row && |list| == |row|
  {
    hide RowOf, Increasing, Sorted;
    ListIncreases(list, row, ids);
    RowOfList(list);
    forall d
      ensures d in row <==> InList(list, d)
    {
      assert d in row <==> d in ids;
      if d in ids {
        var k :| 0 <= k < |ids| && ids[k] == d;
        assert list[k].localId == d;
      }
    }
    forall d | d in row
      ensures RowOf(list)[d] == row[d]
    {
      var k :| 0 <= k < |list| && list[k].localId == d;
    }
    assert RowOf(list) == row;
  }

  /** The postings of one term, in the order of std::map. */
  method FlattenRow(row: Row) returns (list: seq<Posting>)
    requires RowFits(row)
    ensures Increasing(list) && RowOf(list) == row && |list| == |row|
    ensures forall i :: 0 <= i < |list| ==> list[i].frequency != 0 && list[i].localId in row
  {
    hide Increasing, RowOf, Sorted;
    var ids := InOrder(row.Keys, IdLess);
    list := [];
    var i := 0;
    while i < |ids|
      invariant i <= |ids| == |row| && |list| == i && ListsRow(list, row, ids)
    {
      assert ids[i] in row;
      list := list + [Posting(ids[i], row[ids[i]])];
      i := i + 1;
    }
    ListIsRow(list, row, ids);
  }

  predicate IndexFits(inverted: Index) {
    forall t <- inverted :: t != [] && inverted[t] != map[] && RowFits(inverted[t])
  }

  /** The postings say nothing but what the rows say. */
  ghost predicate FromRows(postings: seq<Posting>, inverted: Index) {
    forall i :: 0 <= i < |postings| ==> postings[i].frequency != 0 && InSomeRow(inverted, postings[i].localId)
  }

  ghost predicate InSomeRow(inverted: Index, d: nat) {
    exists t: Term :: t in inverted && d in inverted[t]
  }

  predicate HoldsRow(term: TermRecord, t: Term, postings: seq<Posting>, inverted: Index) {
    && term.term == t && t in inverted
    && RowOf(RangeOf(term, postings)) == inverted[t] && term.count == |inverted[t]| < 0x1_0000_0000
  }

  /** The rows name documents only. */
  lemma PostingFrom(postings: seq<Posting>, texts: seq<Bytes>, i: nat)
    requires FromRows(postings, Inverted(texts)) && i < |postings|
    ensures postings[i].frequency != 0 && postings[i].localId < |texts|
  {
    hide Tokens, Count;
    assert InSomeRow(Inverted(texts), postings[i].localId);
  }

  /** `terms` and `postings` hold the rows of the first terms in order. */
  ghost predicate Flat(terms: seq<TermRecord>, postings: seq<Posting>, order: seq<Term>, inverted: Index) {
    && |terms| <= |order|
    && TermsSoFar(terms, postings) && Covered(terms) == |postings|
    && FromRows(postings, inverted)
    && forall k :: 0 <= k < |terms| ==> HoldsRow(terms[k], order[k], postings, inverted)
  }

  /** The last loop of the build: every term in order, with its postings. A term in more documents
      than a 32-bit count can say is an exception. */
  method Flatten(inverted: Index) returns (ok: bool, terms: seq<TermRecord>, postings: seq<Posting>)
    requires IndexFits(inverted)
    ensures ok <==> forall t <- inverted :: |inverted[t]| < 0x1_0000_0000
    ensures ok ==> TermsAccepted(terms, postings) && Unflatten(terms, postings) == inverted
    ensures ok ==> FromRows(postings, inverted)
  {
    hide Flat, TermsAccepted, Unflatten, FromRows, RowFits, RowOf, Increasing;
    OrdersTerms(inverted.Keys);
    var order := InOrder(inverted.Keys, Less);
    terms, postings := [], [];
    FlatStart(order, inverted);
    while |terms| < |order|
      invariant Flat(terms, postings, order, inverted) && |terms| <= |order|
    {
      var t := order[|terms|];
      assert t in inverted;
      var row := inverted[t];
      if |row| >= 0x1_0000_0000 {
        return false, [], [];
      }
      var list := FlattenRow(row);
      var term := TermRecord(t, |row|, |postings|, |row|);
      if terms != [] {
        FlatOrder(terms, postings, order, inverted);
      }
      FlatStep(terms, postings, term, list, order, inverted);
      terms := terms + [term];
      postings := postings + list;
    }
    FlatEnd(terms, postings, order, inverted);
    ok := true;
  }

  lemma FlatStart(order: seq<Term>, inverted: Index)
    ensures Flat([], [], order, inverted)
  {
  }

  lemma FlatOrder(terms: seq<TermRecord>, postings: seq<Posting>, order: seq<Term>, inverted: Index)
    requires Flat(terms, postings, order, inverted) && Sorted(order, Less) && 0 < |terms| < |order|
    ensures Less(terms[|terms| - 1].term, order[|terms|])
  {
    hide Less;
    assert HoldsRow(terms[|terms| - 1], order[|terms| - 1], postings, inverted);
  }

  lemma FlatStep(terms: seq<TermRecord>, postings: seq<Posting>, term: TermRecord, list: seq<Posting>,
                 order: seq<Term>, inverted: Index)
    requires Flat(terms, postings, order, inverted) && |terms| < |order|
    requires order[|terms|] == term.term && (terms != [] ==> Less(terms[|terms| - 1].term, term.term))
    requires term.term in inverted && term.term != [] && inverted[term.term] != map[]
    requires term.begin == |postings|
    requires term.count == term.documentFrequency == |inverted[term.term]| == |list| < 0x1_0000_0000
    requires Increasing(list) && RowOf(list) == inverted[term.term]
    requires forall i :: 0 <= i < |list| ==> list[i].frequency != 0 && list[i].localId in inverted[term.term]
    ensures Flat(terms + [term], postings + list, order, inverted)
  {
    hide Less, RowOf, Increasing, TermsSoFar, FromRows, RangeOf;
    NextTermFits(terms, term, postings, list);
    RowsAppend(postings, list, term.term, inverted);
    PostingsAppend(terms, postings, list);
    forall k | 0 <= k < |terms + [term]|
      ensures HoldsRow((terms + [term])[k], order[k], postings + list, inverted)
    {
      if k < |terms| {
        assert HoldsRow(terms[k], order[k], postings, inverted);
        assert RangeOf(terms[k], postings + list) == RangeOf(terms[k], postings);
      }
    }
  }

  lemma NextTermFits(terms: seq<TermRecord>, term: TermRecord, postings: seq<Posting>, list: seq<Posting>)
    requires TermsSoFar(terms, postings) && Covered(terms) == |postings| && term.term != []
    requires terms != [] ==> Less(terms[|terms| - 1].term, term.term)
    requires term.begin == |postings| && term.count == term.documentFrequency == |list| > 0 && Increasing(list)
    ensures TermsSoFar(terms + [term], postings + list)
    ensures Covered(terms + [term]) == |postings + list| && RangeOf(term, postings + list) == list
  {
    hide Less, Increasing, TermsSoFar;
    PostingsAppend(terms, postings, list);
    NextTermOk(terms, term, postings + list);
    assert (terms + [term])[..|terms|] == terms;
    assert (postings + list)[term.begin..term.begin + term.count] == list;
  }

  lemma RowsAppend(postings: seq<Posting>, list: seq<Posting>, t: Term, inverted: Index)
    requires FromRows(postings, inverted) && t in inverted
    requires forall i :: 0 <= i < |list| ==> list[i].frequency != 0 && list[i].localId in inverted[t]
    ensures FromRows(postings + list, inverted)
  {
  }

  lemma FlatEnd(terms: seq<TermRecord>, postings: seq<Posting>, order: seq<Term>, inverted: Index)
    requires Flat(terms, postings, order, inverted) && |terms| == |order|
    requires Lists(order, inverted.Keys, Less)
    ensures TermsAccepted(terms, postings) && Unflatten(terms, postings) == inverted
    ensures FromRows(postings, inverted) && forall t <- inverted :: |inverted[t]| < 0x1_0000_0000
  {
    hide Less, RowOf, Increasing, TermsSoFar, FromRows, Unflatten, RangeOf;
    UnflattenTerms(terms, postings);
    var whole := Unflatten(terms, postings);
    forall t
      ensures t in whole <==> t in inverted
    {
      if t in whole {
        var i :| 0 <= i < |terms| && terms[i].term == t;
        assert HoldsRow(terms[i], order[i], postings, inverted);
      }
      if t in inverted {
        assert t in order;
        var i :| 0 <= i < |order| && order[i] == t;
        assert HoldsRow(terms[i], order[i], postings, inverted) && terms[i].term == t;
      }
    }
    forall t | t in inverted
      ensures whole[t] == inverted[t] && |inverted[t]| < 0x1_0000_0000
    {
      assert t in order;
      var i :| 0 <= i < |order| && order[i] == t;
      assert HoldsRow(terms[i], order[i], postings, inverted);
    }
  }
}
