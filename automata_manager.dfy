/** The editor's list of states and transitions (components/managers/automata_manager.py). */
module AutomataManagers {
  import opened Basics
  import opened Tapes
  import G = GuiTransitions

  /** `n` blanks. */
  function Blanks(n: nat): (r: seq<char>)
    ensures |r| == n && forall i :: 0 <= i < n ==> r[i] == Blank
  {
    seq(n, i => Blank)
  }

  /**
   * One vector brought to width `n`: padded with blanks when shorter, cut with Python's `lst[:n]` when
   * longer. For a negative `n` that slice drops the last `-n` entries.
   */
  function Fit(vec: seq<char>, n: int): seq<char> {
    if |vec| < n then vec + Blanks(n - |vec|)
    else if |vec| > n then (if n >= 0 then vec[..n] else vec[..Max(0, |vec| + n)])
    else vec
  }

  /** Every vector of a transition brought to width `n`, in order. */
  function FitAll(vecs: seq<seq<char>>, n: int): (r: seq<seq<char>>)
    ensures |r| == |vecs| && forall i :: 0 <= i < |vecs| ==> r[i] == Fit(vecs[i], n)
  {
    seq(|vecs|, i requires 0 <= i < |vecs| => Fit(vecs[i], n))
  }

  /** The inner loop of `set_word_count`: each vector of one transition fitted, appended in order. */
  method FitVectors(vecs: seq<seq<char>>, n: int) returns (r: seq<seq<char>>)
    ensures r == FitAll(vecs, n)
  {
    r := [];
    var j := 0;
    while j < |vecs|
      invariant 0 <= j <= |vecs|
      invariant r == FitAll(vecs[..j], n)
    {
      r := r + [Fit(vecs[j], n)];
      j := j + 1;
    }
    assert vecs[..j] == vecs;
  }

  /** A non-negative width is met exactly; the common prefix is kept and the rest is blank. */
  lemma FitShape(vec: seq<char>, n: nat)
    ensures |Fit(vec, n)| == n
    ensures forall i :: 0 <= i < Min(|vec|, n) ==> Fit(vec, n)[i] == vec[i]
    ensures forall i :: |vec| <= i < n ==> Fit(vec, n)[i] == Blank
  {
  }

  /** Fitting to the same non-negative width twice is fitting once. */
  lemma FitIdempotent(vec: seq<char>, n: nat)
    ensures Fit(Fit(vec, n), n) == Fit(vec, n)
  {
    FitShape(vec, n);
  }

  /** A vector already `n` wide is left alone. */
  lemma FitKeepsExactWidth(vec: seq<char>)
    ensures Fit(vec, |vec|) == vec
  {
  }

  /** With a negative width each call drops entries from the end again, so it is not idempotent. */
  lemma NegativeWidthDropsFromEnd()
    ensures Fit(['a', 'b', 'c'], -1) == ['a', 'b']
    ensures Fit(Fit(['a', 'b', 'c'], -1), -1) == ['a']
  {
  }

  /** No transition object occurs twice in the list. */
  predicate DistinctTransitions(ts: seq<G.Transition>) {
    forall i, j :: 0 <= i < j < |ts| ==> ts[i] != ts[j]
  }

  class AutomataManager {
    var states: seq<G.State>
    var transitions: seq<G.Transition>
    var wordCount: int

    /** Transitions are only ever created by `AddTransition`, so none is listed twice. */
    ghost predicate Valid()
      reads this
    {
      DistinctTransitions(transitions)
    }

    /** No states, no transitions, vectors one entry wide. */
    constructor ()
      ensures states == [] && transitions == [] && wordCount == 1 && Valid()
    {
      states, transitions, wordCount := [], [], 1;
    }

    /** Appends a new state with the given flags and returns it; names are not checked for uniqueness. */
    method AddState(name: string, x: int, y: int, isStart: bool, isAccept: bool) returns (st: G.State)
      modifies this
      ensures fresh(st) && states == old(states) + [st]
      ensures st.name == name && st.x == x && st.y == y && st.isStart == isStart && st.isAccept == isAccept
      ensures st.outgoing == [] && st.incoming == []
      ensures transitions == old(transitions) && wordCount == old(wordCount)
    {
      st := new G.State(name, x, y, isStart, isAccept);
      states := states + [st];
    }

    /**
     * Appends a new transition and returns it; its constructor has registered it in the source's
     * outgoing and the target's incoming list.
     */
    method AddTransition(src: G.State, tgt: G.State, vectors: seq<seq<char>>) returns (tr: G.Transition)
      requires Valid()
      modifies this, src, tgt
      ensures Valid() && fresh(tr) && transitions == old(transitions) + [tr]
      ensures tr.source == src && tr.target == tgt && tr.transitionVectors == vectors && !tr.requiresUpdate
      ensures src.outgoing == old(src.outgoing) + [tr] && tgt.incoming == old(tgt.incoming) + [tr]
      ensures src != tgt ==> src.incoming == old(src.incoming) && tgt.outgoing == old(tgt.outgoing)
      ensures states == old(states) && wordCount == old(wordCount)
    {
      tr := new G.Transition(src, tgt, vectors);
      transitions := transitions + [tr];
    }

    /**
     * `set_word_count(n)`: records the width and brings every vector of every transition to it.
     * The lists of states and transitions, and the number and order of each transition's vectors,
     * stay as they were.
     */
    method SetWordCount(n: int)
      requires Valid()
      modifies this`wordCount, (set t | t in transitions)`transitionVectors
      ensures Valid() && wordCount == n
      ensures forall i :: 0 <= i < |transitions| ==>
        transitions[i].transitionVectors == FitAll(old(transitions[i].transitionVectors), n)
    {
      wordCount := n;
      var k := 0;
      while k < |transitions|
        invariant 0 <= k <= |transitions| && wordCount == n
        invariant forall i :: 0 <= i < |transitions| ==>
          transitions[i].transitionVectors
          == if i < k then FitAll(old(transitions[i].transitionVectors), n) else old(transitions[i].transitionVectors)
      {
        var tr := transitions[k];
        var newVecs := FitVectors(tr.transitionVectors, n);
        tr.transitionVectors := newVecs;
        k := k + 1;
      }
    }
  }

  /** After `SetWordCount(n)` with `n >= 0` every vector is exactly `n` wide and a second call changes nothing. */
  lemma FitAllShape(vecs: seq<seq<char>>, n: nat)
    ensures forall i :: 0 <= i < |vecs| ==> |FitAll(vecs, n)[i]| == n
    ensures FitAll(FitAll(vecs, n), n) == FitAll(vecs, n)
  {
    forall i | 0 <= i < |vecs|
      ensures |FitAll(vecs, n)[i]| == n
    {
      FitShape(vecs[i], n);
    }
    forall i | 0 <= i < |vecs|
      ensures FitAll(FitAll(vecs, n), n)[i] == FitAll(vecs, n)[i]
    {
      FitIdempotent(vecs[i], n);
    }
  }
}
