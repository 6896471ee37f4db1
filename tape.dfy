/** A cursor over one input word (backend/tape.py). */
module Tapes {
  import opened Basics

  /** The reserved symbol shown by a tape that is past the end of its word. */
  const Blank: char := '#'

  /** The three fields of a Tape, as a value. */
  datatype TapeView = TapeView(symbols: string, currentPos: nat, symbol: char)

  /** The symbol a tape over `symbols` shows at position `pos`. */
  function SymbolAt(symbols: string, pos: nat): char {
    if pos < |symbols| then symbols[pos] else Blank
  }

  /** The cached `symbol` field agrees with the position. */
  predicate Coherent(v: TapeView) {
    v.symbol == SymbolAt(v.symbols, v.currentPos)
  }

  /** The position has not run past the end of the word. */
  predicate InBounds(v: TapeView) {
    v.currentPos <= |v.symbols|
  }

  /** The effect of `read()` on the fields of a tape. */
  function Advanced(v: TapeView): (r: TapeView)
    ensures r.symbols == v.symbols
    ensures v.currentPos < |v.symbols| ==> r.currentPos == v.currentPos + 1
    ensures v.currentPos >= |v.symbols| ==> r.currentPos == v.currentPos && r.symbol == Blank
    ensures Coherent(r)
    ensures InBounds(v) ==> InBounds(r)
  {
    if v.currentPos < |v.symbols| then
      var p := v.currentPos + 1;
      TapeView(v.symbols, p, if p < |v.symbols| then v.symbols[p] else Blank)
    else
      TapeView(v.symbols, v.currentPos, Blank)
  }

  /** A tape moved to `pos` with its symbol recomputed, as the snapshot-restoring code does. */
  function Seek(v: TapeView, pos: nat): (r: TapeView)
    ensures r.symbols == v.symbols && r.currentPos == pos
    ensures Coherent(r)
  {
    TapeView(v.symbols, pos, if pos >= |v.symbols| then Blank else v.symbols[pos])
  }

  /** `k` successive reads. */
  function ReadTimes(v: TapeView, k: nat): TapeView
    decreases k
  {
    if k == 0 then v else ReadTimes(Advanced(v), k - 1)
  }

  /** Reading stops exactly at the end of the word and then shows the blank. */
  lemma {:induction false} ReadTimesPosition(v: TapeView, k: nat)
    requires InBounds(v)
    ensures ReadTimes(v, k).symbols == v.symbols
    ensures ReadTimes(v, k).currentPos == Min(v.currentPos + k, |v.symbols|)
    ensures k > 0 ==> Coherent(ReadTimes(v, k))
    decreases k
  {
    if k > 0 {
      ReadTimesPosition(Advanced(v), k - 1);
    }
  }

  /** At the end of the word a read changes nothing but the symbol, so a second one changes nothing. */
  lemma ReadIdempotentAtEnd(v: TapeView)
    requires v.currentPos >= |v.symbols|
    ensures Advanced(v) == TapeView(v.symbols, v.currentPos, Blank)
    ensures Advanced(Advanced(v)) == Advanced(v)
  {
  }

  /** Reading "abc" from the start shows b, then c, then the blank, and stays there. */
  lemma ReadAbcExample()
    ensures Advanced(TapeView("abc", 0, 'a')) == TapeView("abc", 1, 'b')
    ensures Advanced(TapeView("abc", 1, 'b')) == TapeView("abc", 2, 'c')
    ensures Advanced(TapeView("abc", 2, 'c')) == TapeView("abc", 3, Blank)
    ensures ReadTimes(TapeView("abc", 0, 'a'), 5) == TapeView("abc", 3, Blank)
  {
    ReadTimesPosition(TapeView("abc", 0, 'a'), 5);
  }

  class Tape {
    var symbols: string
    var currentPos: nat
    var symbol: char

    function View(): TapeView
      reads this
    {
      TapeView(symbols, currentPos, symbol)
    }

    /** Python's Tape(symbols) reads symbols[0], so the word must not be empty. */
    constructor (symbols: string)
      requires |symbols| > 0
      ensures View() == TapeView(symbols, 0, symbols[0])
      ensures Coherent(View()) && InBounds(View())
    {
      this.symbols := symbols;
      this.currentPos := 0;
      this.symbol := symbols[0];
    }

    /** The copy Python's copy.deepcopy makes of a tape: a new object with the same fields. */
    constructor Clone(v: TapeView)
      ensures View() == v
    {
      symbols, currentPos, symbol := v.symbols, v.currentPos, v.symbol;
    }

    /** Advance the cursor by one unless it is already past the end. */
    method Read()
      modifies this
      ensures View() == Advanced(old(View()))
    {
      if currentPos < |symbols| {
        currentPos := currentPos + 1;
        if currentPos < |symbols| {
          symbol := symbols[currentPos];
        } else {
          symbol := Blank;
        }
      } else {
        symbol := Blank;
      }
    }
  }

  /** The values of a list of tapes. */
  function Views(ts: seq<Tape>): (r: seq<TapeView>)
    reads ts
    ensures |r| == |ts|
    ensures forall i :: 0 <= i < |ts| ==> r[i] == ts[i].View()
  {
    seq(|ts|, i requires 0 <= i < |ts| reads ts => ts[i].View())
  }

  /** No tape occurs twice in the list. */
  predicate Distinct(ts: seq<Tape>) {
    forall i, j :: 0 <= i < j < |ts| ==> ts[i] != ts[j]
  }

  /** The word on each tape, in order. */
  function Words(vs: seq<TapeView>): (r: seq<string>)
    ensures |r| == |vs| && forall i :: 0 <= i < |vs| ==> r[i] == vs[i].symbols
  {
    seq(|vs|, i requires 0 <= i < |vs| => vs[i].symbols)
  }

  /** The cursor of each tape, in order. */
  function Positions(vs: seq<TapeView>): (r: seq<nat>)
    ensures |r| == |vs| && forall i :: 0 <= i < |vs| ==> r[i] == vs[i].currentPos
  {
    seq(|vs|, i requires 0 <= i < |vs| => vs[i].currentPos)
  }

  /** A fresh tape over each word, at position 0. */
  function Rewound(words: seq<string>): (r: seq<TapeView>)
    requires forall i :: 0 <= i < |words| ==> |words[i]| > 0
    ensures |r| == |words| && Words(r) == words
    ensures forall i :: 0 <= i < |words| ==> r[i] == TapeView(words[i], 0, words[i][0])
  {
    seq(|words|, i requires 0 <= i < |words| => TapeView(words[i], 0, words[i][0]))
  }

  /** Some word is empty, so building its tape raises. */
  predicate HasEmptyWord(words: seq<string>) {
    exists i :: 0 <= i < |words| && |words[i]| == 0
  }

  /** Fresh tape objects holding the given values: Python's copy.deepcopy of a tape list. */
  method Copies(vs: seq<TapeView>) returns (ts: seq<Tape>)
    ensures Views(ts) == vs
    ensures Distinct(ts)
    ensures forall i :: 0 <= i < |ts| ==> fresh(ts[i])
  {
    ts := [];
    var i := 0;
    while i < |vs|
      invariant 0 <= i <= |vs|
      invariant |ts| == i
      invariant forall j :: 0 <= j < i ==> fresh(ts[j]) && ts[j].View() == vs[j]
      invariant Distinct(ts)
    {
      var t := new Tape.Clone(vs[i]);
      ts := ts + [t];
      i := i + 1;
    }
  }

  /**
   * `[Tape(w) for w in words]`: a fresh tape over each word, or the IndexError of the first empty
   * word, in which case no list is built.
   */
  method NewTapes(words: seq<string>) returns (ts: seq<Tape>, st: Status)
    ensures st == if HasEmptyWord(words) then Failed(EmptyWord) else Done
    ensures st == Done ==> Distinct(ts) && (forall i :: 0 <= i < |ts| ==> fresh(ts[i])) && Views(ts) == Rewound(words)
  {
    ts := [];
    var i := 0;
    while i < |words|
      invariant 0 <= i <= |words| && |ts| == i
      invariant forall j :: 0 <= j < i ==> |words[j]| > 0 && fresh(ts[j]) && ts[j].View() == TapeView(words[j], 0, words[j][0])
      invariant Distinct(ts)
    {
      if |words[i]| == 0 {
        assert HasEmptyWord(words);
        return [], Failed(EmptyWord);
      }
      var t := new Tape(words[i]);
      ts := ts + [t];
      i := i + 1;
    }
    assert Views(ts) == Rewound(words);
    st := Done;
  }
}
