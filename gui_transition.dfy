/**
 * The editor's states and transitions (components/state.py, components/transition.py), without the
 * canvas: a state is a record with its adjacency lists, a transition registers itself in them.
 */
module GuiTransitions {
  import opened Constants

  /** An editor state; only the fields the modelled code reads or writes. */
  class State {
    var name: string
    var x: int
    var y: int
    var isStart: bool
    var isAccept: bool
    var outgoing: seq<Transition>
    var incoming: seq<Transition>

    constructor (name: string, x: int, y: int, isStart: bool, isAccept: bool)
      ensures this.name == name && this.x == x && this.y == y
      ensures this.isStart == isStart && this.isAccept == isAccept
      ensures outgoing == [] && incoming == []
    {
      this.name, this.x, this.y := name, x, y;
      this.isStart, this.isAccept := isStart, isAccept;
      outgoing, incoming := [], [];
    }
  }

  /** An editor transition: two states and the condition vectors drawn on its label. */
  class Transition {
    const source: State
    const target: State
    var transitionVectors: seq<seq<char>>
    var canvasIds: seq<int>
    var offsetIndex: int
    var color: string
    var requiresUpdate: bool

    /**
     * The new transition is black, unflagged, undrawn and first of its parallels, and it is appended
     * once to the source's outgoing list and once to the target's incoming list, which for a self-loop
     * are the two lists of the same state. Nothing else about the states changes.
     */
    constructor (source: State, target: State, vectors: seq<seq<char>>)
      modifies source`outgoing, target`incoming
      ensures this.source == source && this.target == target && transitionVectors == vectors
      ensures canvasIds == [] && offsetIndex == 0 && color == ColorBlack && !requiresUpdate
      ensures source.outgoing == old(source.outgoing) + [this]
      ensures target.incoming == old(target.incoming) + [this]
      ensures source != target ==> source.incoming == old(source.incoming) && target.outgoing == old(target.outgoing)
      ensures source.name == old(source.name) && source.isStart == old(source.isStart) && source.isAccept == old(source.isAccept)
      ensures target.name == old(target.name) && target.isStart == old(target.isStart) && target.isAccept == old(target.isAccept)
    {
      this.source, this.target := source, target;
      transitionVectors := vectors;
      canvasIds, offsetIndex, color, requiresUpdate := [], 0, ColorBlack, false;
      new;
      source.outgoing := source.outgoing + [this];
      target.incoming := target.incoming + [this];
    }

    /** `label_text`: the loop collecting one braced group per vector, then the join. */
    method LabelText() returns (s: string)
      ensures s == Label(transitionVectors)
    {
      var parts: seq<string> := [];
      var i := 0;
      while i < |transitionVectors|
        invariant 0 <= i <= |transitionVectors|
        invariant parts == Groups(transitionVectors[..i])
      {
        assert transitionVectors[..i + 1] == transitionVectors[..i] + [transitionVectors[i]];
        GroupsAppend(transitionVectors[..i], transitionVectors[i]);
        parts := parts + [Braced(transitionVectors[i])];
        i := i + 1;
      }
      assert transitionVectors[..i] == transitionVectors;
      s := JoinWith(parts, ", ");
    }

    /** The signed distance of this arrow from the straight line between the two states. */
    function Offset(): int
      reads this
    {
      ParallelShift(offsetIndex)
    }
  }

  /** Python's `sep.join(parts)`. */
  function JoinWith(parts: seq<string>, sep: string): string
    decreases |parts|
  {
    if |parts| == 0 then ""
    else if |parts| == 1 then parts[0]
    else parts[0] + sep + JoinWith(parts[1..], sep)
  }

  /** Each entry of a vector as a one-character string. */
  function Entries(vec: seq<char>): (r: seq<string>)
    ensures |r| == |vec| && forall i :: 0 <= i < |vec| ==> r[i] == [vec[i]]
  {
    seq(|vec|, i requires 0 <= i < |vec| => [vec[i]])
  }

  /** One vector on the label: its entries separated by commas, in braces. */
  function Braced(vec: seq<char>): string {
    "{" + JoinWith(Entries(vec), ",") + "}"
  }

  /** The braced group of every vector, in order. */
  function Groups(vecs: seq<seq<char>>): (r: seq<string>)
    ensures |r| == |vecs| && forall i :: 0 <= i < |vecs| ==> r[i] == Braced(vecs[i])
  {
    seq(|vecs|, i requires 0 <= i < |vecs| => Braced(vecs[i]))
  }

  /** The label of a transition: the groups separated by a comma and a space. */
  function Label(vecs: seq<seq<char>>): string {
    JoinWith(Groups(vecs), ", ")
  }

  lemma GroupsAppend(vecs: seq<seq<char>>, v: seq<char>)
    ensures Groups(vecs + [v]) == Groups(vecs) + [Braced(v)]
  {
  }

  /** Joining one more part appends the separator and the part. */
  lemma {:induction false} JoinWithAppend(parts: seq<string>, p: string, sep: string)
    requires |parts| > 0
    ensures JoinWith(parts + [p], sep) == JoinWith(parts, sep) + sep + p
    decreases |parts|
  {
    if |parts| == 1 {
      assert (parts + [p])[1..] == [p];
    } else {
      assert (parts + [p])[1..] == parts[1..] + [p];
      JoinWithAppend(parts[1..], p, sep);
    }
  }

  /** A vector of `n` entries takes `2n + 1` characters on the label (two for the empty vector). */
  lemma {:induction false} BracedLength(vec: seq<char>)
    ensures |Braced(vec)| == if |vec| == 0 then 2 else 2 * |vec| + 1
  {
    JoinedEntriesLength(vec);
  }

  lemma {:induction false} JoinedEntriesLength(vec: seq<char>)
    ensures |JoinWith(Entries(vec), ",")| == if |vec| == 0 then 0 else 2 * |vec| - 1
    decreases |vec|
  {
    if |vec| > 1 {
      assert Entries(vec)[1..] == Entries(vec[1..]);
      JoinedEntriesLength(vec[1..]);
    }
  }

  /** Adding a vector to a transition adds ", " and its group at the end of the label. */
  lemma LabelAppend(vecs: seq<seq<char>>, v: seq<char>)
    ensures Label(vecs + [v]) == if |vecs| == 0 then Braced(v) else Label(vecs) + ", " + Braced(v)
  {
    GroupsAppend(vecs, v);
    if |vecs| > 0 {
      JoinWithAppend(Groups(vecs), Braced(v), ", ");
    }
  }

  /** The label of the two vectors (a, #) and (b, c). */
  lemma LabelExample()
    ensures Label([['a', '#'], ['b', 'c']]) == "{a,#}, {b,c}"
  {
    assert Entries(['a', '#']) == ["a", "#"];
    assert JoinWith(["a", "#"], ",") == "a" + "," + JoinWith(["#"], ",");
    assert Braced(['a', '#']) == "{a,#}";
    assert Entries(['b', 'c']) == ["b", "c"];
    assert JoinWith(["b", "c"], ",") == "b" + "," + JoinWith(["c"], ",");
    assert Braced(['b', 'c']) == "{b,c}";
    assert Groups([['a', '#'], ['b', 'c']]) == ["{a,#}", "{b,c}"];
    assert JoinWith(["{a,#}", "{b,c}"], ", ") == "{a,#}" + ", " + JoinWith(["{b,c}"], ", ");
  }

  /**
   * The parallel-offset rule: arrows with an even index go to the negative side, odd ones to the
   * positive side, each pair one `ParallelOffset` further out than the previous pair. Python's `%`
   * and `//` by 2 agree with Dafny's.
   */
  function ParallelShift(index: int): int {
    var sign := if index % 2 == 0 then -1 else 1;
    var steps := index / 2 + 1;
    sign * steps * ParallelOffset
  }

  /** Side and magnitude of the offset of a non-negative index. */
  lemma ParallelShiftSides(index: nat)
    ensures index % 2 == 0 ==> ParallelShift(index) == -(index / 2 + 1) * ParallelOffset < 0
    ensures index % 2 == 1 ==> ParallelShift(index) == (index / 2 + 1) * ParallelOffset > 0
  {
  }

  /** Indices `2k` and `2k + 1` are drawn mirrored on the two sides of the line. */
  lemma ParallelShiftMirrors(k: nat)
    ensures ParallelShift(2 * k + 1) == -ParallelShift(2 * k)
  {
  }

  /** No two parallel transitions with non-negative indices are drawn on top of each other. */
  lemma ParallelShiftInjective(i: nat, j: nat)
    requires ParallelShift(i) == ParallelShift(j)
    ensures i == j
  {
    ParallelShiftSides(i);
    ParallelShiftSides(j);
  }
}
