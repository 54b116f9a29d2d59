// Terms: the byte order of std::string, and the tokenizer shared by index and query.

module Terms {
  import opened Common
  import opened Ranking

  type Term = Bytes

  // ---------------------------------------------------------------- byte order

  /** std::string::operator<, comparing unsigned bytes. */
  predicate Less(a: Term, b: Term) {
    b != [] && (a == [] || a[0] < b[0] || (a[0] == b[0] && Less(a[1..], b[1..])))
  }

  lemma {:induction false} LessIrreflexive(a: Term)
    ensures !Less(a, a)
  {
    if a != [] {
      LessIrreflexive(a[1..]);
    }
  }

  lemma {:induction false} LessTransitive(a: Term, b: Term, c: Term)
    requires Less(a, b) && Less(b, c)
    ensures Less(a, c)
  {
    if a != [] && a[0] == b[0] == c[0] {
      LessTransitive(a[1..], b[1..], c[1..]);
    }
  }

  lemma {:induction false} LessTotal(a: Term, b: Term)
    requires a != b
    ensures Less(a, b) || Less(b, a)
  {
    if a != [] && b != [] && a[0] == b[0] {
      assert a == [a[0]] + a[1..] && b == [b[0]] + b[1..];
      LessTotal(a[1..], b[1..]);
    }
  }

  /** The first byte in which two terms differ decides, and a proper prefix comes first. */
  lemma {:induction false} FirstDifferenceDecides(p: Term, x: Byte, u: Term, y: Byte, v: Term)
    requires x != y
    ensures Less(p + [x] + u, p + [y] + v) <==> x < y
    ensures Less(p, p + [y] + v) && !Less(p + [y] + v, p)
  {
    var a, b := p + [x] + u, p + [y] + v;
    if p != [] {
      FirstDifferenceDecides(p[1..], x, u, y, v);
      assert a[1..] == p[1..] + [x] + u && b[1..] == p[1..] + [y] + v;
    }
  }

  /** Every set of terms can be listed in exactly one way: the order of std::set and std::map. */
  lemma OrdersTerms(x: set<Term>)
    ensures Orders(x, Less)
  {
    forall a
      ensures !Less(a, a)
    {
      LessIrreflexive(a);
    }
    forall a, b, c | Less(a, b) && Less(b, c)
      ensures Less(a, c)
    {
      LessTransitive(a, b, c);
    }
    forall a <- x, b <- x | a != b
      ensures Less(a, b) || Less(b, a)
    {
      LessTotal(a, b);
    }
  }

  // ---------------------------------------------------------------- tokenizer

  predicate IsTermByte(b: Byte) {
    || ('a' as nat <= b <= 'z' as nat) || ('A' as nat <= b <= 'Z' as nat) || ('0' as nat <= b <= '9' as nat)
    || b == '_' as nat || b == '-' as nat || b >= 0x80
  }

  function LowerByte(b: Byte): Byte {
    if 'A' as nat <= b <= 'Z' as nat then b + 32 else b
  }

  function Lower(s: Bytes): (r: Bytes)
    ensures |r| == |s|
  {
    seq(|s|, i requires 0 <= i < |s| => LowerByte(s[i]))
  }

  /** How many term bytes the text starts with. */
  function RunLength(text: Bytes): (n: nat)
    ensures n <= |text|
    ensures forall i :: 0 <= i < n ==> IsTermByte(text[i])
    ensures n < |text| ==> !IsTermByte(text[n])
  {
    if text == [] || !IsTermByte(text[0]) then 0 else 1 + RunLength(text[1..])
  }

  /** The terms of a text: its maximal runs of term bytes, in lower case. */
  function Tokens(text: Bytes): seq<Term>
    decreases |text|
  {
    if text == [] then []
    else if !IsTermByte(text[0]) then Tokens(text[1..])
    else
      var n := RunLength(text);
      [Lower(text[..n])] + Tokens(text[n..])
  }

  /** What the loop of the tokenizer still has to produce when `current` is pending. */
  function Pending(current: Term, rest: Bytes): seq<Term> {
    if current == [] then Tokens(rest)
    else
      var n := RunLength(rest);
      [current + Lower(rest[..n])] + Tokens(rest[n..])
  }

  lemma PendingStep(current: Term, rest: Bytes)
    requires rest != []
    ensures IsTermByte(rest[0]) ==> Pending(current, rest) == Pending(current + [LowerByte(rest[0])], rest[1..])
    ensures !IsTermByte(rest[0]) ==>
              Pending(current, rest) == (if current == [] then [] else [current]) + Pending([], rest[1..])
  {
    if IsTermByte(rest[0]) {
      var n := RunLength(rest[1..]);
      assert RunLength(rest) == n + 1;
      assert Lower(rest[..n + 1]) == [LowerByte(rest[0])] + Lower(rest[1..][..n]);
      assert rest[n + 1..] == rest[1..][n..];
      assert current + ([LowerByte(rest[0])] + Lower(rest[1..][..n]))
             == current + [LowerByte(rest[0])] + Lower(rest[1..][..n]);
      if current == [] {
        assert [] + [LowerByte(rest[0])] + Lower(rest[1..][..n]) == Lower(rest[..n + 1]);
      }
    } else {
      assert RunLength(rest) == 0;
      assert current + Lower(rest[..0]) == current;
      assert rest[0..] == rest;
    }
  }

  lemma PendingAtStart(text: Bytes)
    ensures Pending([], text) == Tokens(text)
  {
  }

  lemma PendingAtEnd(current: Term)
    ensures Pending(current, []) == if current == [] then [] else [current]
  {
    assert current + Lower([]) == current;
  }

  /** tokenizeTerms */
  method TokenizeTerms(text: Bytes) returns (terms: seq<Term>)
    ensures terms == Tokens(text)
  {
    hide Tokens, RunLength, Lower, Pending;
    PendingAtStart(text);
    terms := [];
    var current: Term := [];
    var i := 0;
    assert text[0..] == text;
    while i < |text|
      invariant i <= |text|
      invariant Tokens(text) == terms + Pending(current, text[i..])
    {
      ghost var before, after := text[i..], text[i + 1..];
      PendingStep(current, before);
      assert before[0] == text[i] && before[1..] == after;
      if !IsTermByte(text[i]) {
        if current != [] {
          assert terms + ([current] + Pending([], after)) == terms + [current] + Pending([], after);
          terms := terms + [current];
          current := [];
        }
      } else if 'A' as nat <= text[i] <= 'Z' as nat {
        current := current + [text[i] + 32];
      } else {
        current := current + [text[i]];
      }
      i := i + 1;
    }
    assert text[i..] == [];
    PendingAtEnd(current);
    if current != [] {
      terms := terms + [current];
    }
  }

  // ---------------------------------------------------------------- what terms look like

  predicate IsNormal(t: Term) {
    t != [] && forall i :: 0 <= i < |t| ==> IsTermByte(t[i]) && LowerByte(t[i]) == t[i]
  }

  /** Terms are not empty and hold lower-case letters, digits, underscores, hyphens and bytes from 0x80 on. */
  predicate IsPlain(t: Term) {
    && t != []
    && forall i :: 0 <= i < |t| ==>
         || 97 <= t[i] <= 122 || 48 <= t[i] <= 57 || t[i] == 95 || t[i] == 45 || 128 <= t[i]
  }

  lemma {:induction false} TokensAreNormal(text: Bytes)
    ensures forall t :: t in Tokens(text) ==> IsNormal(t) && IsPlain(t)
    decreases |text|
  {
    if text != [] {
      if !IsTermByte(text[0]) {
        TokensAreNormal(text[1..]);
      } else {
        var n := RunLength(text);
        TokensAreNormal(text[n..]);
        assert IsNormal(Lower(text[..n]));
        assert IsPlain(Lower(text[..n]));
      }
    }
  }

  /** No byte of the text separates terms. */
  predicate Solid(text: Bytes) {
    forall i :: 0 <= i < |text| ==>
      || 97 <= text[i] <= 122 || 65 <= text[i] <= 90 || 48 <= text[i] <= 57 || text[i] == 95 || text[i] == 45
      || 128 <= text[i]
  }

  lemma {:induction false} SolidRun(text: Bytes)
    requires Solid(text)
    ensures RunLength(text) == |text|
  {
    if text != [] {
      assert forall i :: 0 <= i < |text[1..]| ==> text[1..][i] == text[i + 1];
      SolidRun(text[1..]);
    }
  }

  /** A solid text is one term, with its capitals lowered. */
  lemma SolidText(text: Bytes, t: Term)
    requires Solid(text) && text != [] && |t| == |text|
    requires forall i :: 0 <= i < |t| ==> t[i] == if 65 <= text[i] <= 90 then text[i] + 32 else text[i]
    ensures Tokens(text) == [t]
  {
    hide RunLength;
    SolidRun(text);
    assert Lower(text) == t;
    assert text[..|text|] == text && text[|text|..] == [];
    assert Tokens([]) == [];
    assert [t] + [] == [t];
  }

  /** Every byte that is no term byte separates: the terms of a text are those before it and those after it. With
      `SolidText` this decides the terms of every text. */
  lemma {:induction false} TokensSplit(a: Bytes, separator: Byte, b: Bytes)
    requires !Solid([separator])
    ensures Tokens(a + [separator] + b) == Tokens(a) + Tokens(b) && Tokens([]) == []
    decreases |a|
  {
    var text := a + [separator] + b;
    assert [separator][0] == separator;
    if a == [] {
      assert text[0] == separator && text[1..] == b;
    } else if !IsTermByte(a[0]) {
      TokensSplit(a[1..], separator, b);
      assert text[1..] == a[1..] + [separator] + b;
    } else {
      RunStops(a, [separator] + b);
      var n := RunLength(a);
      assert text == a + ([separator] + b);
      TokensSplit(a[n..], separator, b);
      FirstRun(a, [separator] + b);
      assert a[n..] + ([separator] + b) == a[n..] + [separator] + b;
      var first := [Lower(a[..n])];
      assert first + (Tokens(a[n..]) + Tokens(b)) == first + Tokens(a[n..]) + Tokens(b);
    }
  }

  /** The first term of a longer text is that of the text, when a separator follows. */
  lemma FirstRun(a: Bytes, rest: Bytes)
    requires a != [] && IsTermByte(a[0]) && RunLength(a + rest) == RunLength(a)
    ensures var n := RunLength(a);
            && Tokens(a) == [Lower(a[..n])] + Tokens(a[n..])
            && Tokens(a + rest) == [Lower(a[..n])] + Tokens(a[n..] + rest)
  {
    hide RunLength, Lower;
    var n := RunLength(a);
    assert (a + rest)[..n] == a[..n] && (a + rest)[n..] == a[n..] + rest;
  }

  lemma {:induction false} RunStops(a: Bytes, rest: Bytes)
    requires rest != [] && !IsTermByte(rest[0])
    ensures RunLength(a + rest) == RunLength(a)
  {
    if a == [] {
      assert a + rest == rest;
    } else if IsTermByte(a[0]) {
      RunStops(a[1..], rest);
      assert (a + rest)[1..] == a[1..] + rest;
    }
  }

  /** Tokenizing a term gives the term back: what a query normalises to is what the index holds. */
  lemma TokenizingATerm(t: Term)
    requires IsNormal(t)
    ensures Tokens(t) == [t]
  {
    var n := RunLength(t);
    assert n == |t|;
    assert t[..n] == t && t[n..] == [];
    assert Lower(t) == t;
  }

  // ---------------------------------------------------------------- counting

  function Count(s: seq<Term>, t: Term): nat {
    multiset(s)[t]
  }

  ghost function SumCounts(s: seq<Term>, x: set<Term>): nat {
    if x == {} then 0 else var t :| t in x; Count(s, t) + SumCounts(s, x - {t})
  }

  lemma {:induction false} SumCountsRemove(s: seq<Term>, x: set<Term>, t: Term)
    requires t in x
    ensures SumCounts(s, x) == Count(s, t) + SumCounts(s, x - {t})
  {
    var p :| p in x && SumCounts(s, x) == Count(s, p) + SumCounts(s, x - {p});
    if p != t {
      SumCountsRemove(s, x - {p}, t);
      SumCountsRemove(s, x - {t}, p);
      assert x - {p} - {t} == x - {t} - {p};
    }
  }

  lemma {:induction false} SumCountsExtend(s: seq<Term>, e: Term, x: set<Term>)
    ensures SumCounts(s + [e], x) == SumCounts(s, x) + if e in x then 1 else 0
  {
    if x != {} {
      var t :| t in x;
      SumCountsRemove(s, x, t);
      SumCountsRemove(s + [e], x, t);
      SumCountsExtend(s, e, x - {t});
      assert multiset(s + [e]) == multiset(s) + multiset{e};
    }
  }

  /** The frequencies of all terms of a document sum to its term count. */
  lemma {:induction false} FrequenciesSum(s: seq<Term>, x: set<Term>)
    requires forall t :: t in s ==> t in x
    ensures SumCounts(s, x) == |s|
  {
    if s == [] {
      NothingCounts(x);
    } else {
      var init, last := s[..|s| - 1], s[|s| - 1];
      assert s == init + [last];
      FrequenciesSum(init, x);
      SumCountsExtend(init, last, x);
    }
  }

  lemma {:induction false} NothingCounts(x: set<Term>)
    ensures SumCounts([], x) == 0
  {
    if x != {} {
      var t :| t in x;
      SumCountsRemove([], x, t);
      NothingCounts(x - {t});
    }
  }
}
