// Batches that are built and then refused: any number of documents with any number of terms up to ten thousand.

module LargeBatches {
  import opened BinaryRecords
  import opened Common
  import opened ParsedBatches
  import opened SegmentBuild
  import opened SegmentLoad
  import opened SegmentPostings
  import opened SegmentRecords
  import opened SegmentTables
  import opened SearchIndex
  import opened Terms

  /** The number of documents and of terms in each of them. */
  predicate Sizes(documents: nat, terms: nat) {
    0 < documents < 0x1_0000_0000 && 0 < terms <= 10000
  }

  // ---------------------------------------------------------------- the text of a document

  /** Two bytes that no lower-casing changes. */
  function TermAt(i: nat): (t: Term)
    requires i < 10000
    ensures |t| == 2
  {
    [128 + i / 100, 128 + i % 100]
  }

  lemma TermsAscend(i: nat, j: nat)
    requires i < j < 10000
    ensures Less(TermAt(i), TermAt(j)) && TermAt(i) != TermAt(j)
  {
    assert i / 100 <= j / 100;
    var a, b := TermAt(i), TermAt(j);
    assert a[1..] == [a[1]] && b[1..] == [b[1]];
  }

  /** The terms from `i` on, each with a space behind it. */
  function TextFrom(i: nat, terms: nat): (text: Bytes)
    requires i <= terms <= 10000
    ensures |text| == 3 * (terms - i)
    decreases terms - i
  {
    if i == terms then [] else TermAt(i) + [32] + TextFrom(i + 1, terms)
  }

  function TermsFrom(i: nat, terms: nat): seq<Term>
    requires i <= terms <= 10000
  {
    seq(terms - i, k requires 0 <= k < terms - i => TermAt(i + k))
  }

  lemma FirstToken(t: Term, rest: Bytes)
    requires |t| == 2 && t[0] >= 128 && t[1] >= 128
    ensures Tokens(t + [32] + rest) == [t] + Tokens(rest)
  {
    var text := t + [32] + rest;
    assert text[2] == 32 && !IsTermByte(text[2]);
    assert text[1..][0] == t[1] && text[1..][1..][0] == 32;
    assert RunLength(text[1..][1..]) == 0;
    assert RunLength(text[1..]) == 1;
    assert RunLength(text) == 2;
    assert Lower(text[..2]) == t;
    assert text[2..] == [32] + rest && text[2..][1..] == rest;
  }

  lemma {:induction false} TokensFrom(i: nat, terms: nat)
    requires i <= terms <= 10000
    ensures Tokens(TextFrom(i, terms)) == TermsFrom(i, terms)
    decreases terms - i
  {
    hide Tokens;
    if i == terms {
      NoTokens();
    } else {
      FirstToken(TermAt(i), TextFrom(i + 1, terms));
      TokensFrom(i + 1, terms);
      assert TermsFrom(i, terms) == [TermAt(i)] + TermsFrom(i + 1, terms);
    }
  }

  lemma NoTokens()
    ensures Tokens([]) == []
  {
  }

  lemma {:induction false} CountOne(s: seq<Term>, k: nat)
    requires k < |s| && forall i, j :: 0 <= i < j < |s| ==> s[i] != s[j]
    ensures Count(s, s[k]) == 1
  {
    assert s == s[..k] + [s[k]] + s[k + 1..];
    assert multiset(s) == multiset(s[..k]) + multiset{s[k]} + multiset(s[k + 1..]);
    assert s[k] !in s[..k] && s[k] !in s[k + 1..];
  }

  lemma CountTerm(terms: nat, k: nat)
    requires k < terms <= 10000
    ensures Count(TermsFrom(0, terms), TermAt(k)) == 1
  {
    var s := TermsFrom(0, terms);
    forall i, j | 0 <= i < j < |s|
      ensures s[i] != s[j]
    {
      TermsAscend(i, j);
    }
    CountOne(s, k);
    assert s[k] == TermAt(k);
  }

  // ---------------------------------------------------------------- the archived file

  /** The same line again and again. */
  function Content(documents: nat, terms: nat): (content: Bytes)
    requires terms <= 10000
    ensures |content| == documents * (3 * terms + 1)
  {
    if documents == 0 then []
    else
      assert (documents - 1) * (3 * terms + 1) + (3 * terms + 1) == documents * (3 * terms + 1);
      Content(documents - 1, terms) + TextFrom(0, terms) + [10]
  }

  lemma LineWithin(documents: nat, terms: nat, i: nat)
    requires i < documents
    ensures i * (3 * terms + 1) + (3 * terms + 1) <= documents * (3 * terms + 1)
  {
    MulMonotone(i + 1, documents, 3 * terms + 1);
    assert (i + 1) * (3 * terms + 1) == i * (3 * terms + 1) + (3 * terms + 1);
  }

  lemma LastLine(documents: nat, terms: nat)
    requires terms <= 10000 && 0 < documents
    ensures Content(documents, terms) == Content(documents - 1, terms) + TextFrom(0, terms) + [10]
  {
  }

  lemma SliceOfPrefix(a: Bytes, b: Bytes, from: nat, to: nat)
    requires from <= to <= |a|
    ensures (a + b)[from..to] == a[from..to]
  {
  }

  lemma {:induction false} ContentAt(documents: nat, terms: nat, i: nat)
    requires terms <= 10000 && i < documents
    ensures i * (3 * terms + 1) + 3 * terms < documents * (3 * terms + 1)
    ensures Content(documents, terms)[i * (3 * terms + 1)..i * (3 * terms + 1) + 3 * terms] == TextFrom(0, terms)
  {
    hide Content, TextFrom;
    LineWithin(documents, terms, i);
    LastLine(documents, terms);
    var shorter, text := Content(documents - 1, terms), TextFrom(0, terms);
    assert Content(documents, terms) == shorter + (text + [10]);
    if i < documents - 1 {
      LineWithin(documents - 1, terms, i);
      ContentAt(documents - 1, terms, i);
      SliceOfPrefix(shorter, text + [10], i * (3 * terms + 1), i * (3 * terms + 1) + 3 * terms);
    } else {
      assert (shorter + (text + [10]))[|shorter|..|shorter| + |text|] == text;
    }
  }

  lemma Bounds(documents: nat, terms: nat)
    requires Sizes(documents, terms)
    ensures documents * (3 * terms + 1) < 0x1_0000_0000_0000_0000 && documents * terms < 0x1_0000_0000_0000_0000
    ensures documents * (3 * terms + 1) > 0
  {
    MulMonotone(3 * terms + 1, 30001, documents);
    MulMonotone(terms, 10000, documents);
    assert documents * (3 * terms + 1) >= documents;
  }

  // ---------------------------------------------------------------- the parsed batch

  const P: Bytes := [112]

  /** A file of the archive: its only line, `documents` times. */
  function Archive(documents: nat, terms: nat, sha: Bytes -> Bytes): ArchiveRecord
    requires Sizes(documents, terms)
  {
    Bounds(documents, terms);
    ArchiveRecord(1, P, P, P, P, [], [], P, P, |Content(documents, terms)|, sha(Content(documents, terms)), 0)
  }

  function Document(i: nat, documents: nat, terms: nat): ParsedDocument
    requires Sizes(documents, terms) && i < documents
  {
    Bounds(documents, terms);
    MulMonotone(i, documents, 3 * terms + 1);
    ParsedDocument(i, 1, i * (3 * terms + 1), 3 * terms, 0, 0, P, P, P, P, [], [], P, P, P, [], [], terms)
  }

  function Documents(documents: nat, terms: nat): seq<ParsedDocument>
    requires Sizes(documents, terms)
  {
    seq(documents, i requires 0 <= i < documents => Document(i, documents, terms))
  }

  function Batch(documents: nat, terms: nat, sha: Bytes -> Bytes): ParsedBatch
    requires Sizes(documents, terms)
  {
    ParsedBatch(BatchDescriptor(1, 1, 1, 1, documents), 1, 0,
                [ParsedFile(Archive(documents, terms, sha), "p", 1, documents)], Documents(documents, terms))
  }

  function Stored(documents: nat, terms: nat): Storage
    requires terms <= 10000
  {
    map[P := Content(documents, terms)]
  }

  lemma {:induction false} AllCounted(documents: seq<ParsedDocument>)
    requires forall i :: 0 <= i < |documents| ==> documents[i].archiveId == 1
    ensures CountOf(documents, 1) == |documents|
  {
    if documents != [] {
      AllCounted(documents[..|documents| - 1]);
    }
  }

  lemma BatchIsOk(documents: nat, terms: nat, sha: Bytes -> Bytes)
    requires Sizes(documents, terms) && ValidSha256(sha(Content(documents, terms)))
    ensures BatchOk(Batch(documents, terms, sha))
  {
    hide Content, ValidSha256;
    var b := Batch(documents, terms, sha);
    Bounds(documents, terms);
    AllCounted(b.documents);
    forall i | 0 <= i < documents
      ensures ParsedDocumentOk(b.files, b.documents, i)
    {
      MulMonotone(i + 1, documents, 3 * terms + 1);
      assert (i + 1) * (3 * terms + 1) == i * (3 * terms + 1) + (3 * terms + 1);
      assert Matches(b.documents[i], b.files[0].archive);
    }
  }

  lemma TextIs(documents: nat, terms: nat, sha: Bytes -> Bytes, i: nat)
    requires Sizes(documents, terms) && i < documents
    ensures Texts(Stored(documents, terms), Batch(documents, terms, sha))[i] == TextFrom(0, terms)
  {
    hide Content;
    ContentAt(documents, terms, i);
    var b := Batch(documents, terms, sha);
    assert OrdinalOf(b.files, 1) == 0;
  }

  // ---------------------------------------------------------------- its index

  function FullList(documents: nat): seq<Posting>
    requires documents < 0x1_0000_0000
  {
    seq(documents, d requires 0 <= d < documents => Posting(d, 1))
  }

  /** Every document has the term once. */
  function FullRow(documents: nat): Row
    requires documents < 0x1_0000_0000
  {
    RowOf(FullList(documents))
  }

  lemma FullRowIs(documents: nat)
    requires documents < 0x1_0000_0000
    ensures |FullList(documents)| == documents && Increasing(FullList(documents)) && |FullRow(documents)| == documents
    ensures forall d: nat :: d in FullRow(documents) <==> d < documents
    ensures forall d <- FullRow(documents) :: FullRow(documents)[d] == 1
  {
    hide RowOf;
    var list := FullList(documents);
    RowOfList(list);
    forall d: nat
      ensures d in RowOf(list) <==> d < documents
      ensures d in RowOf(list) ==> RowOf(list)[d] == 1
    {
      if d < documents {
        assert list[d].localId == d;
      }
    }
  }

  function AllPostings(documents: nat, terms: nat): (list: seq<Posting>)
    requires Sizes(documents, terms)
    ensures |list| == documents * terms
  {
    seq(documents * terms, p requires 0 <= p < documents * terms => Posting(p % documents, 1))
  }

  function TermTable(documents: nat, terms: nat): seq<TermRecord>
    requires Sizes(documents, terms)
  {
    seq(terms, i requires 0 <= i < terms => TermRecord(TermAt(i), documents, i * documents, documents))
  }

  lemma RangeIs(documents: nat, terms: nat, i: nat)
    requires Sizes(documents, terms) && i < terms
    ensures i * documents + documents <= documents * terms
    ensures RangeOf(TermTable(documents, terms)[i], AllPostings(documents, terms)) == FullList(documents)
  {
    MulMonotone(i + 1, terms, documents);
    assert (i + 1) * documents == i * documents + documents && terms * documents == documents * terms;
    var list := AllPostings(documents, terms)[i * documents..i * documents + documents];
    forall d | 0 <= d < documents
      ensures list[d] == FullList(documents)[d]
    {
      Remainder(i, documents, d);
    }
  }

  lemma Remainder(i: nat, n: nat, d: nat)
    requires d < n
    ensures (i * n + d) % n == d
  {
    DivUnique(i * n + d, n, i, d);
  }

  lemma CoveredIs(documents: nat, terms: nat, i: nat)
    requires Sizes(documents, terms) && i <= terms
    ensures Covered(TermTable(documents, terms)[..i]) == i * documents
  {
    assert i > 0 ==> (i - 1) * documents + documents == i * documents;
  }

  lemma TableAccepted(documents: nat, terms: nat)
    requires Sizes(documents, terms)
    ensures TermsAccepted(TermTable(documents, terms), AllPostings(documents, terms))
  {
    hide Increasing, Less, Covered, FullRow, FullList, AllPostings, TermAt;
    var table, postings := TermTable(documents, terms), AllPostings(documents, terms);
    FullRowIs(documents);
    forall i | 0 <= i < terms
      ensures TermOk(table, i, postings)
    {
      RangeIs(documents, terms, i);
      CoveredIs(documents, terms, i);
      if i > 0 {
        TermsAscend(i - 1, i);
      }
    }
    CoveredIs(documents, terms, terms);
    assert table[..terms] == table;
  }

  /** The index of one text, again and again. */
  lemma SameTexts(texts: seq<Bytes>, text: Bytes, t: Term)
    requires 0 < |texts| < 0x1_0000_0000 && forall i :: 0 <= i < |texts| ==> texts[i] == text
    ensures t in Inverted(texts) <==> t in Tokens(text)
    ensures t in Inverted(texts) && Count(Tokens(text), t) == 1 ==> Inverted(texts)[t] == FullRow(|texts|)
  {
    hide Tokens, Inverted, Count, FullRow;
    InvertedHas(texts, t);
    FullRowIs(|texts|);
    assert texts[0] == text;
    if t in Tokens(text) {
      assert 0 in Holders(texts, t);
      assert InvertedRow(texts, t).Keys == FullRow(|texts|).Keys;
    }
  }

  lemma IndexIs(documents: nat, terms: nat, texts: seq<Bytes>)
    requires Sizes(documents, terms) && |texts| == documents
    requires forall i :: 0 <= i < |texts| ==> texts[i] == TextFrom(0, terms)
    ensures Unflatten(TermTable(documents, terms), AllPostings(documents, terms)) == Inverted(texts)
    ensures forall t <- Inverted(texts) :: Inverted(texts)[t] == FullRow(documents)
    ensures TermAt(0) in Inverted(texts)
  {
    hide Tokens, Inverted, Count, TermAt, TextFrom, Unflatten, RangeOf, RowOf, TermsSoFar;
    var table, postings := TermTable(documents, terms), AllPostings(documents, terms);
    TableAccepted(documents, terms);
    UnflattenTerms(table, postings);
    FullRowIs(documents);
    TokensFrom(0, terms);
    forall t
      ensures t in Inverted(texts) <==> t in Unflatten(table, postings)
      ensures t in Inverted(texts) ==> Inverted(texts)[t] == FullRow(documents) == Unflatten(table, postings)[t]
    {
      SameTexts(texts, TextFrom(0, terms), t);
      if t in Inverted(texts) {
        var i :| 0 <= i < terms && TermsFrom(0, terms)[i] == t;
        CountTerm(terms, i);
        RangeIs(documents, terms, i);
        assert table[i].term == t;
      }
      if t in Unflatten(table, postings) {
        var i :| 0 <= i < |table| && table[i].term == t;
        assert TermsFrom(0, terms)[i] == t;
      }
    }
    assert TermsFrom(0, terms)[0] == TermAt(0);
    SameTexts(texts, TextFrom(0, terms), TermAt(0));
  }

  // ---------------------------------------------------------------- the Segment

  function Records(documents: nat, terms: nat): seq<DocumentRecord>
    requires Sizes(documents, terms)
  {
    seq(documents, i requires 0 <= i < documents => RecordAt(i, documents, terms))
  }

  function RecordAt(i: nat, documents: nat, terms: nat): DocumentRecord
    requires Sizes(documents, terms) && i < documents
  {
    var d := Document(i, documents, terms);
    DocumentRecord(0x1_0000_0000 + i, i, 0, 1, d.byteOffset, d.byteLength, 0, 0, terms,
                   P, P, P, P, [], [], P, P, P, [], [])
  }

  function Segment(documents: nat, terms: nat, sha: Bytes -> Bytes): SegmentContent
    requires Sizes(documents, terms)
  {
    var records := Records(documents, terms);
    SegmentContent([FileOfArchive(Archive(documents, terms, sha))], records, TermTable(documents, terms),
                   AllPostings(documents, terms), TotalTerms(records), MinTime(records), MaxTime(records))
  }

  lemma SegmentIsBuilt(documents: nat, terms: nat, sha: Bytes -> Bytes)
    requires Sizes(documents, terms) && ValidSha256(sha(Content(documents, terms)))
    ensures Built(Segment(documents, terms, sha), Stored(documents, terms), sha, Batch(documents, terms, sha))
  {
    hide Content, ValidSha256, Documents, Records, TermTable, AllPostings, BatchOk, Buildable, IsBuilt, TotalTerms,
         MinTime, MaxTime;
    BatchIsOk(documents, terms, sha);
    BatchIsBuildable(documents, terms, sha);
    SegmentIsOf(documents, terms, sha);
    BuiltIs(Segment(documents, terms, sha), Stored(documents, terms), sha, Batch(documents, terms, sha));
  }

  lemma BuiltIs(c: SegmentContent, storage: Storage, sha: Bytes -> Bytes, b: ParsedBatch)
    requires BatchOk(b) && Buildable(storage, sha, b) && IsBuilt(c, storage, b)
    ensures Built(c, storage, sha, b)
  {
  }

  lemma TextsAre(documents: nat, terms: nat, sha: Bytes -> Bytes, texts: seq<Bytes>)
    requires Sizes(documents, terms) && texts == Texts(Stored(documents, terms), Batch(documents, terms, sha))
    ensures |texts| == documents && forall i :: 0 <= i < |texts| ==> texts[i] == TextFrom(0, terms)
  {
    hide Texts, TextFrom, Stored;
    assert |Batch(documents, terms, sha).documents| == documents;
    forall i | 0 <= i < |texts|
      ensures texts[i] == TextFrom(0, terms)
    {
      TextIs(documents, terms, sha, i);
    }
  }

  lemma BatchIsBuildable(documents: nat, terms: nat, sha: Bytes -> Bytes)
    requires Sizes(documents, terms)
    ensures Buildable(Stored(documents, terms), sha, Batch(documents, terms, sha))
  {
    hide Tokens, Inverted, TextFrom, Texts, Content, TermAt, FullRow;
    var storage, b := Stored(documents, terms), Batch(documents, terms, sha);
    var texts := Texts(storage, b);
    TextsAre(documents, terms, sha, texts);
    TokensFrom(0, terms);
    IndexIs(documents, terms, texts);
    FullRowIs(documents);
  }

  lemma SegmentIsOf(documents: nat, terms: nat, sha: Bytes -> Bytes)
    requires Sizes(documents, terms) && BatchOk(Batch(documents, terms, sha))
    ensures IsBuilt(Segment(documents, terms, sha), Stored(documents, terms), Batch(documents, terms, sha))
  {
    hide Tokens, Inverted, TextFrom, Texts, Content, TermAt, FullRow, TotalTerms, MinTime, MaxTime, BatchOk, Unflatten,
         TermsAccepted;
    var storage, b := Stored(documents, terms), Batch(documents, terms, sha);
    var c, texts := Segment(documents, terms, sha), Texts(storage, b);
    TextsAre(documents, terms, sha, texts);
    IndexIs(documents, terms, texts);
    TableAccepted(documents, terms);
    FullRowIs(documents);
    forall i | 0 <= i < documents
      ensures IsDocument(c.documents[i], b, i)
    {
      assert OrdinalOf(b.files, 1) == 0;
    }
    forall p | 0 <= p < |c.postings|
      ensures c.postings[p].frequency != 0 && InSomeRow(Inverted(texts), c.postings[p].localId)
    {
      assert c.postings[p].localId in Inverted(texts)[TermAt(0)];
    }
  }

  lemma FilesSerializable(documents: nat, terms: nat, sha: Bytes -> Bytes)
    requires Sizes(documents, terms) && ValidSha256(sha(Content(documents, terms)))
    ensures AllWritable(FILES, [FileOfArchive(Archive(documents, terms, sha))])
  {
    hide Content, ValidSha256, Pow256, HexToBytes;
    LimitFits();
  }

  lemma RecordWritable(i: nat, documents: nat, terms: nat)
    requires Sizes(documents, terms) && i < documents
    ensures Writable(DOCUMENTS, RecordAt(i, documents, terms))
  {
    hide Pow256;
    LimitFits();
  }

  lemma TermWritable(i: nat, documents: nat, terms: nat)
    requires Sizes(documents, terms) && i < terms
    ensures Writable(TERMS, TermTable(documents, terms)[i])
  {
    hide Pow256, AllPostings, FullList, RangeOf;
    LimitFits();
    Bounds(documents, terms);
    RangeIs(documents, terms, i);
  }

  lemma PostingWritable(p: Posting)
    ensures Writable(POSTINGS, p)
  {
    hide Pow256;
    LimitFits();
  }

  lemma SegmentSerializable(documents: nat, terms: nat, sha: Bytes -> Bytes)
    requires Sizes(documents, terms) && ValidSha256(sha(Content(documents, terms)))
    ensures Serializable(Segment(documents, terms, sha))
  {
    hide Content, ValidSha256, TotalTerms, MinTime, MaxTime, Writable, RecordAt, TermAt, Archive;
    var c := Segment(documents, terms, sha);
    Bounds(documents, terms);
    FilesSerializable(documents, terms, sha);
    forall i | 0 <= i < documents
      ensures Writable(DOCUMENTS, c.documents[i])
    {
      RecordWritable(i, documents, terms);
    }
    forall i | 0 <= i < terms
      ensures Writable(TERMS, c.terms[i])
    {
      TermWritable(i, documents, terms);
    }
    forall i | 0 <= i < |c.postings|
      ensures Writable(POSTINGS, c.postings[i])
    {
      PostingWritable(c.postings[i]);
    }
  }

  // ---------------------------------------------------------------- refused

  /** For any numbers of documents and terms a batch exists that is built, with a posting for every
      document and term. When these are more than 268435453, nothing can load what was written. */
  lemma LargeBatchRefused(documents: nat, terms: nat, sha: Bytes -> Bytes)
    requires Sizes(documents, terms) && forall x: Bytes :: ValidSha256(sha(x))
    ensures var c, b := Segment(documents, terms, sha), Batch(documents, terms, sha);
            && Built(c, Stored(documents, terms), sha, b) && Serializable(c) && c.documents != []
            && |c.postings| == documents * terms
            && (documents * terms > 268435453 ==> !LoadsAsBuilt(c, b.descriptor, sha))
  {
    hide Built, Serializable, LoadsAsBuilt, ValidSha256;
    SegmentIsBuilt(documents, terms, sha);
    SegmentSerializable(documents, terms, sha);
    if documents * terms > 268435453 {
      TooManyPostings(Segment(documents, terms, sha), Stored(documents, terms), sha, Batch(documents, terms, sha));
    }
  }

  /** Such a batch is within the shipped limits: 100000 documents in a batch and 65536 bytes in a line. */
  lemma RefusedWithinLimits(sha: Bytes -> Bytes)
    requires forall x: Bytes :: ValidSha256(sha(x))
    ensures exists c, storage, b ::
              && Built(c, storage, sha, b) && Serializable(c) && |c.documents| == |b.documents| == 100000
              && (forall i :: 0 <= i < |b.documents| ==> b.documents[i].byteLength <= 65536)
              && !LoadsAsBuilt(c, b.descriptor, sha)
  {
    hide Built, Serializable, LoadsAsBuilt, ValidSha256;
    LargeBatchRefused(100000, 2700, sha);
    var b := Batch(100000, 2700, sha);
    assert forall i :: 0 <= i < |b.documents| ==> b.documents[i].byteLength == 8100;
  }
}
