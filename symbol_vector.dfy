/** One transition's per-tape condition (backend/symbolVector.py). */
module SymbolVectors {
  import opened Basics
  import opened Tapes

  /** The constructor keeps the list as given; iterating yields `vector` in order. */
  datatype SymbolVector = SymbolVector(vector: seq<char>)

  /** `zip(vector, tapes)` pairs up entries only as far as the shorter of the two. */
  function Span(vec: seq<char>, tapes: seq<TapeView>): nat {
    Min(|vec|, |tapes|)
  }

  /** A vector entry accepts a tape when it is the wildcard or names the tape's current symbol. */
  predicate Agrees(c: char, t: TapeView) {
    c == Blank || c == t.symbol
  }

  /** Index of the first entry that rejects its tape, or the span if none does. */
  function FirstMismatch(vec: seq<char>, tapes: seq<TapeView>): (k: nat)
    ensures k <= Span(vec, tapes)
    ensures forall i :: 0 <= i < k ==> Agrees(vec[i], tapes[i])
    ensures k < Span(vec, tapes) ==> !Agrees(vec[k], tapes[k])
  {
    if |vec| == 0 || |tapes| == 0 then 0
    else if vec[0] == Blank || vec[0] == tapes[0].symbol then 1 + FirstMismatch(vec[1..], tapes[1..])
    else 0
  }

  /** The tapes after the entries before `stop` have been processed: literal entries read their tape once. */
  function ReadUpTo(vec: seq<char>, tapes: seq<TapeView>, stop: nat): (r: seq<TapeView>)
    requires stop <= Span(vec, tapes)
    ensures |r| == |tapes|
  {
    seq(|tapes|, i requires 0 <= i < |tapes| =>
      if i < stop && vec[i] != Blank then Advanced(tapes[i]) else tapes[i])
  }

  /** The symbol each tape shows, in order: `[tape.symbol for tape in tapes]`. */
  function Symbols(vs: seq<TapeView>): (r: seq<char>)
    ensures |r| == |vs| && forall i :: 0 <= i < |vs| ==> r[i] == vs[i].symbol
  {
    seq(|vs|, i requires 0 <= i < |vs| => vs[i].symbol)
  }

  /** What `matches` returns and what it leaves on the tapes. */
  datatype MatchOutcome = MatchOutcome(ok: bool, tapes: seq<TapeView>)

  /** What `matches` returns and leaves on the tapes: the tapes read up to the first mismatching entry. */
  function MatchResult(vec: seq<char>, tapes: seq<TapeView>): (r: MatchOutcome)
    ensures |r.tapes| == |tapes|
  {
    var k := FirstMismatch(vec, tapes);
    MatchOutcome(k == Span(vec, tapes), ReadUpTo(vec, tapes, k))
  }

  /**
   * The meaning of `matches`: every compared symbol is the one captured on entry, the result is true iff
   * every paired entry agrees, a success reads exactly the literal entries' tapes, and a failure stops at
   * the first mismatch with the tapes already read staying read (the "restore" only rebinds a local name).
   */
  lemma MatchResultMeaning(vec: seq<char>, tapes: seq<TapeView>)
    ensures MatchResult(vec, tapes).ok <==> forall i :: 0 <= i < Span(vec, tapes) ==> Agrees(vec[i], tapes[i])
    ensures MatchResult(vec, tapes).ok ==> forall i :: 0 <= i < |tapes| ==>
      MatchResult(vec, tapes).tapes[i] == if i < |vec| && vec[i] != Blank then Advanced(tapes[i]) else tapes[i]
    ensures !MatchResult(vec, tapes).ok ==> exists k :: (0 <= k < Span(vec, tapes) && !Agrees(vec[k], tapes[k])
      && (forall i :: k <= i < |tapes| ==> MatchResult(vec, tapes).tapes[i] == tapes[i])
      && (forall i :: 0 <= i < k ==>
            MatchResult(vec, tapes).tapes[i] == if vec[i] != Blank then Advanced(tapes[i]) else tapes[i]))
  {
  }

  /** A match never changes a word, and each tape is either left alone or read once. */
  lemma MatchReadsAtMostOnce(vec: seq<char>, tapes: seq<TapeView>)
    ensures forall i :: 0 <= i < |tapes| ==> MatchResult(vec, tapes).tapes[i].symbols == tapes[i].symbols
    ensures forall i :: 0 <= i < |tapes| ==>
      MatchResult(vec, tapes).tapes[i] == tapes[i] || MatchResult(vec, tapes).tapes[i] == Advanced(tapes[i])
  {
  }

  /**
   * backend/symbolVector.py `matches`: compares each entry with the symbol its tape showed on entry,
   * reads the tape on a literal match, skips it on the wildcard, and returns false at the first mismatch.
   */
  method Matches(sv: SymbolVector, tapes: seq<Tape>) returns (ok: bool)
    requires Distinct(tapes)
    modifies set t | t in tapes
    ensures ok == MatchResult(sv.vector, old(Views(tapes))).ok
    ensures Views(tapes) == MatchResult(sv.vector, old(Views(tapes))).tapes
  {
    ghost var before := Views(tapes);
    var tapesSymbols := Symbols(Views(tapes));
    var i := 0;
    var n := Min(|sv.vector|, |tapes|);
    while i < n
      invariant 0 <= i <= n
      invariant forall j :: 0 <= j < i ==> Agrees(sv.vector[j], before[j])
      invariant forall j :: 0 <= j < |tapes| ==>
        tapes[j].View() == if j < i && sv.vector[j] != Blank then Advanced(before[j]) else before[j]
    {
      var c := sv.vector[i];
      if c == Blank {
        i := i + 1;
      } else if c == tapesSymbols[i] {
        ReadOne(tapes, i);
        i := i + 1;
      } else {
        FirstMismatchAt(sv.vector, before, i);
        assert Views(tapes) == ReadUpTo(sv.vector, before, i);
        assert MatchResult(sv.vector, before) == MatchOutcome(false, ReadUpTo(sv.vector, before, i));
        return false;
      }
    }
    FirstMismatchAt(sv.vector, before, n);
    assert Views(tapes) == ReadUpTo(sv.vector, before, n);
    assert MatchResult(sv.vector, before) == MatchOutcome(true, ReadUpTo(sv.vector, before, n));
    return true;
  }

  /** `tapes[i].read()`: that tape advances and, the tapes being distinct, no other one changes. */
  method ReadOne(tapes: seq<Tape>, i: nat)
    requires Distinct(tapes) && i < |tapes|
    modifies tapes[i]
    ensures forall j :: 0 <= j < |tapes| ==>
      tapes[j].View() == if j == i then Advanced(old(tapes[j].View())) else old(tapes[j].View())
  {
    tapes[i].Read();
  }

  /** The first mismatch is the first entry that does not agree, or the span when all agree. */
  lemma FirstMismatchAt(vec: seq<char>, tapes: seq<TapeView>, k: nat)
    requires k <= Span(vec, tapes) && forall i :: 0 <= i < k ==> Agrees(vec[i], tapes[i])
    requires k < Span(vec, tapes) ==> !Agrees(vec[k], tapes[k])
    ensures FirstMismatch(vec, tapes) == k
  {
  }

  /** An all-wildcard vector matches any tapes and reads none of them. */
  lemma WildcardsAlwaysMatch(vec: seq<char>, tapes: seq<TapeView>)
    requires forall i :: 0 <= i < |vec| ==> vec[i] == Blank
    ensures MatchResult(vec, tapes) == MatchOutcome(true, tapes)
  {
  }

  /**
   * No vector can ask for "end of tape": '#' is tested first and is a wildcard, so a tape that shows
   * the blank is only ever accepted by the wildcard and is never read by a successful match.
   */
  lemma ExhaustedTapeOnlyByWildcard(vec: seq<char>, tapes: seq<TapeView>, i: nat)
    requires i < Span(vec, tapes) && tapes[i].symbol == Blank
    requires MatchResult(vec, tapes).ok
    ensures vec[i] == Blank && MatchResult(vec, tapes).tapes[i] == tapes[i]
  {
  }

  /** A failed match is not all-or-nothing: ["a","c"] against tapes at 'a','b' returns false with tape 0 read. */
  lemma FailedMatchKeepsEarlierReads()
    ensures MatchResult(['a', 'c'], [TapeView("ab", 0, 'a'), TapeView("bb", 0, 'b')])
      == MatchOutcome(false, [TapeView("ab", 1, 'b'), TapeView("bb", 0, 'b')])
  {
    var tapes := [TapeView("ab", 0, 'a'), TapeView("bb", 0, 'b')];
    assert FirstMismatch(['a', 'c'], tapes) == 1 by {
      assert FirstMismatch(['a', 'c'][1..], tapes[1..]) == 0;
    }
    assert ReadUpTo(['a', 'c'], tapes, 1) == [TapeView("ab", 1, 'b'), TapeView("bb", 0, 'b')];
  }

  /** The test scenario: tapes at b,b accept ["b","b"] and move on to c,c, which then reject ["b","c"]. */
  lemma MatchesTestScenario()
    ensures MatchResult(['b', 'b'], [TapeView("abc", 1, 'b'), TapeView("bbc", 1, 'b')])
      == MatchOutcome(true, [TapeView("abc", 2, 'c'), TapeView("bbc", 2, 'c')])
    ensures !MatchResult(['b', 'c'], [TapeView("abc", 2, 'c'), TapeView("bbc", 2, 'c')]).ok
  {
    var r := MatchResult(['b', 'b'], [TapeView("abc", 1, 'b'), TapeView("bbc", 1, 'b')]);
    assert r.tapes[0] == TapeView("abc", 2, 'c');
    assert r.tapes[1] == TapeView("bbc", 2, 'c');
  }
}
