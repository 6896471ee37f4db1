/** The breadth-first search over (state, positions) and its manager object (backend/manager.py). */
module Managers {
  import opened Basics
  import opened Tapes
  import opened SymbolVectors
  import opened Transitions
  import opened Automatas
  import opened Simulations

  /**
   * How `mainLoop` ends: a dequeued node that is accepting with every tape showing the blank, a
   * dequeued node whose tapes all show the blank although it is not accepting, or an exception.
   * In the first two cases the method returns that node's history.
   */
  datatype SearchResult =
    | Accepted(history: seq<Snapshot>)
    | StoppedConsumed(history: seq<Snapshot>)
    | Aborted(fault: Fault)

  /** What the search returns together with the manager's `tapes`, `visited` and `queue` afterwards. */
  datatype Run = Run(result: SearchResult, tapes: seq<TapeView>, visited: set<Snapshot>, queue: seq<Simulation>)

  /** The visited set and the queue while a node is being expanded. */
  datatype Frontier = Frontier(visited: set<Snapshot>, queue: seq<Simulation>)

  /** Every tape shows the blank: `all(tape.symbol == '#' for tape in tapes)`. */
  predicate Consumed(tapes: seq<TapeView>) {
    forall i :: 0 <= i < |tapes| ==> tapes[i].symbol == Blank
  }

  /** The node a transition leads to from `cur`, if its vector matches a deep copy of `cur`'s tapes. */
  function Successor(cur: Simulation, t: Transition): Option<Simulation> {
    var m := MatchResult(t.symbolsVector.vector, cur.tapes);
    if m.ok then
      var snap := Snapshot(t.targetState, Positions(m.tapes));
      Some(Simulation(m.tapes, cur.history + [snap], t.targetState, snap))
    else None
  }

  /**
   * The cursors after a transition whose vector is `vec` fires: a literal entry (not the wildcard) reads
   * its tape, which moves the cursor by one unless it is already at the end; every other cursor stays.
   */
  function StepCursors(vec: seq<char>, words: seq<string>, ps: seq<nat>): (r: seq<nat>)
    requires |ps| == |words|
    ensures |r| == |ps|
    ensures forall i :: 0 <= i < |ps| ==> r[i] == ps[i] || (ps[i] < |words[i]| && r[i] == ps[i] + 1)
  {
    seq(|ps|, i requires 0 <= i < |ps| =>
      if i < |vec| && vec[i] != Blank && ps[i] < |words[i]| then ps[i] + 1 else ps[i])
  }

  /**
   * A successor extends its parent's history by exactly one entry, the target state followed by the
   * positions after the match; the words stay, and the cursors move as `StepCursors` says for the
   * transition's vector: by one on the tapes of literal entries not yet at their end, by nothing elsewhere.
   */
  lemma SuccessorStep(cur: Simulation, t: Transition)
    requires Successor(cur, t).Some?
    ensures var c := Successor(cur, t).value;
      && c.history == cur.history + [c.id]
      && c.id == Snapshot(t.targetState, Positions(c.tapes)) && c.currentState == t.targetState
      && |c.tapes| == |cur.tapes| && Words(c.tapes) == Words(cur.tapes)
      && c.id.positions == StepCursors(t.symbolsVector.vector, Words(cur.tapes), Positions(cur.tapes))
      && forall i :: 0 <= i < |cur.tapes| ==>
           c.tapes[i].symbols == cur.tapes[i].symbols
           && (c.id.positions[i] == cur.tapes[i].currentPos
               || (cur.tapes[i].currentPos < |cur.tapes[i].symbols| && c.id.positions[i] == cur.tapes[i].currentPos + 1))
  {
    var vec := t.symbolsVector.vector;
    var m := MatchResult(vec, cur.tapes);
    var moved := StepCursors(vec, Words(cur.tapes), Positions(cur.tapes));
    assert m.tapes == ReadUpTo(vec, cur.tapes, Span(vec, cur.tapes));
    forall i | 0 <= i < |cur.tapes|
      ensures m.tapes[i].symbols == cur.tapes[i].symbols && m.tapes[i].currentPos == moved[i]
    {
      if i < |vec| && vec[i] != Blank {
        assert m.tapes[i] == Advanced(cur.tapes[i]);
      }
    }
    assert Words(m.tapes) == Words(cur.tapes);
    assert Positions(m.tapes) == moved;
  }

  /**
   * The inner `for` loop of `mainLoop`: the transitions of the current state are tried in stored order,
   * and each successor whose id is not yet visited is marked visited and appended to the queue.
   */
  function Expand(cur: Simulation, bucket: seq<Transition>, visited: set<Snapshot>, queue: seq<Simulation>)
    : (r: Frontier)
    ensures visited <= r.visited
    ensures |queue| <= |r.queue| && r.queue[..|queue|] == queue
    ensures r.visited == visited <==> r.queue == queue
    decreases |bucket|
  {
    if bucket == [] then Frontier(visited, queue)
    else
      var c := Successor(cur, bucket[0]);
      var r := if c.Some? && c.value.id !in visited
        then Expand(cur, bucket[1..], visited + {c.value.id}, queue + [c.value])
        else Expand(cur, bucket[1..], visited, queue);
      r
  }

  /** Each node the expansion appends has an id that was not visited before and is visited after. */
  lemma {:induction false} ExpandAppendsNewIds(cur: Simulation, bucket: seq<Transition>,
                                               visited: set<Snapshot>, queue: seq<Simulation>)
    ensures forall i :: |queue| <= i < |Expand(cur, bucket, visited, queue).queue| ==>
      Expand(cur, bucket, visited, queue).queue[i].id in Expand(cur, bucket, visited, queue).visited
      && Expand(cur, bucket, visited, queue).queue[i].id !in visited
    decreases |bucket|
  {
    if bucket != [] {
      var c := Successor(cur, bucket[0]);
      var tail := bucket[1..];
      if c.Some? && c.value.id !in visited {
        var q' := queue + [c.value];
        ExpandAppendsNewIds(cur, tail, visited + {c.value.id}, q');
        var r := Expand(cur, tail, visited + {c.value.id}, q');
        assert r == Expand(cur, bucket, visited, queue);
        assert r.queue[..|q'|] == q';
        forall i | |queue| <= i < |r.queue|
          ensures r.queue[i].id in r.visited && r.queue[i].id !in visited
        {
          if i == |queue| {
            assert r.queue[i] == q'[i] == c.value;
          }
        }
      } else {
        ExpandAppendsNewIds(cur, tail, visited, queue);
        assert Expand(cur, bucket, visited, queue) == Expand(cur, tail, visited, queue);
      }
    }
  }

  /** Each node the expansion appends is the successor of `cur` by one of the tried transitions. */
  lemma {:induction false} ExpandAppendsSuccessors(cur: Simulation, bucket: seq<Transition>,
                                                   visited: set<Snapshot>, queue: seq<Simulation>)
    ensures forall i :: |queue| <= i < |Expand(cur, bucket, visited, queue).queue| ==>
      exists j :: 0 <= j < |bucket| && Successor(cur, bucket[j]) == Some(Expand(cur, bucket, visited, queue).queue[i])
    decreases |bucket|
  {
    if bucket != [] {
      var c := Successor(cur, bucket[0]);
      var tail := bucket[1..];
      var added := c.Some? && c.value.id !in visited;
      var v' := if added then visited + {c.value.id} else visited;
      var q' := if added then queue + [c.value] else queue;
      assert Expand(cur, bucket, visited, queue) == Expand(cur, tail, v', q');
      ExpandAppendsSuccessors(cur, tail, v', q');
      var r := Expand(cur, tail, v', q');
      assert r.queue[..|q'|] == q';
      forall i | |queue| <= i < |r.queue|
        ensures exists j :: 0 <= j < |bucket| && Successor(cur, bucket[j]) == Some(r.queue[i])
      {
        if i < |q'| {
          assert r.queue[i] == q'[i] == c.value;
          assert Successor(cur, bucket[0]) == Some(r.queue[i]);
        } else {
          var j :| 0 <= j < |tail| && Successor(cur, tail[j]) == Some(r.queue[i]);
          assert bucket[j + 1] == tail[j];
        }
      }
    } else {
      assert Expand(cur, bucket, visited, queue).queue == queue;
    }
  }

  /** Every index shifted up by one, for a list of transitions with one more in front. */
  function Shifted(js: seq<nat>): (r: seq<nat>)
    ensures |r| == |js| && forall i :: 0 <= i < |js| ==> r[i] == js[i] + 1
  {
    seq(|js|, i requires 0 <= i < |js| => js[i] + 1)
  }

  /**
   * `appended` are successors by transitions of `bucket`, in bucket order: `js` gives for each node the
   * index of the transition it came from, and these indices strictly increase.
   */
  predicate InBucketOrder(cur: Simulation, bucket: seq<Transition>, js: seq<nat>, appended: seq<Simulation>) {
    |js| == |appended|
    && (forall i :: 0 <= i < |js| ==> js[i] < |bucket| && Successor(cur, bucket[js[i]]) == Some(appended[i]))
    && forall i, i' :: 0 <= i < i' < |js| ==> js[i] < js[i']
  }

  /** An order for the rest of the bucket is one for the whole bucket with every index shifted up. */
  lemma ShiftedOrder(cur: Simulation, bucket: seq<Transition>, js: seq<nat>, appended: seq<Simulation>)
    requires bucket != [] && InBucketOrder(cur, bucket[1..], js, appended)
    ensures InBucketOrder(cur, bucket, Shifted(js), appended)
  {
    assert forall j :: 0 <= j < |bucket[1..]| ==> bucket[1..][j] == bucket[j + 1];
  }

  /** The successor by the first transition goes in front, with index 0. */
  lemma ConsOrder(cur: Simulation, bucket: seq<Transition>, js: seq<nat>, appended: seq<Simulation>, x: Simulation)
    requires bucket != [] && Successor(cur, bucket[0]) == Some(x)
    requires InBucketOrder(cur, bucket, Shifted(js), appended)
    ensures InBucketOrder(cur, bucket, [0] + Shifted(js), [x] + appended)
  {
    var sh := Shifted(js);
    var ks, xs := [0] + sh, [x] + appended;
    forall i | 0 <= i < |ks|
      ensures ks[i] < |bucket| && Successor(cur, bucket[ks[i]]) == Some(xs[i])
    {
      if i > 0 {
        assert ks[i] == sh[i - 1] && xs[i] == appended[i - 1];
      }
    }
    forall i, i' | 0 <= i < i' < |ks|
      ensures ks[i] < ks[i']
    {
      assert ks[i'] == sh[i' - 1];
      if i > 0 {
        assert ks[i] == sh[i - 1];
      }
    }
  }

  /** The expansion appends successors in bucket order. */
  lemma {:induction false} ExpandInBucketOrder(cur: Simulation, bucket: seq<Transition>,
                                               visited: set<Snapshot>, queue: seq<Simulation>)
    returns (js: seq<nat>)
    ensures InBucketOrder(cur, bucket, js, Expand(cur, bucket, visited, queue).queue[|queue|..])
    decreases |bucket|
  {
    if bucket == [] {
      js := [];
    } else {
      var c := Successor(cur, bucket[0]);
      var tail := bucket[1..];
      var added := c.Some? && c.value.id !in visited;
      var v' := if added then visited + {c.value.id} else visited;
      var q' := if added then queue + [c.value] else queue;
      var r := Expand(cur, tail, v', q');
      assert Expand(cur, bucket, visited, queue) == r;
      var rest := ExpandInBucketOrder(cur, tail, v', q');
      ShiftedOrder(cur, bucket, rest, r.queue[|q'|..]);
      if added {
        assert r.queue[..|q'|] == q';
        assert r.queue[|queue|..] == [c.value] + r.queue[|q'|..];
        ConsOrder(cur, bucket, rest, r.queue[|q'|..], c.value);
        js := [0] + Shifted(rest);
      } else {
        js := Shifted(rest);
      }
    }
  }

  /** The nodes one expansion appends have pairwise distinct ids. */
  lemma {:induction false} ExpandAppendsDistinct(cur: Simulation, bucket: seq<Transition>,
                                                 visited: set<Snapshot>, queue: seq<Simulation>)
    ensures forall i, i' :: |queue| <= i < i' < |Expand(cur, bucket, visited, queue).queue| ==>
      Expand(cur, bucket, visited, queue).queue[i].id != Expand(cur, bucket, visited, queue).queue[i'].id
    decreases |bucket|
  {
    if bucket != [] {
      var c := Successor(cur, bucket[0]);
      var tail := bucket[1..];
      if c.Some? && c.value.id !in visited {
        var v', q' := visited + {c.value.id}, queue + [c.value];
        var r := Expand(cur, tail, v', q');
        assert Expand(cur, bucket, visited, queue) == r;
        ExpandAppendsDistinct(cur, tail, v', q');
        ExpandAppendsNewIds(cur, tail, v', q');
        assert r.queue[..|q'|] == q';
        assert r.queue[|queue|] == q'[|queue|];
      } else {
        assert Expand(cur, bucket, visited, queue) == Expand(cur, tail, visited, queue);
        ExpandAppendsDistinct(cur, tail, visited, queue);
      }
    }
  }

  /** Every successor by a transition of `bucket` whose id is not in `visited` has its id among `appended`. */
  predicate FreshListed(cur: Simulation, bucket: seq<Transition>, visited: set<Snapshot>, appended: seq<Simulation>) {
    forall j :: 0 <= j < |bucket| && Successor(cur, bucket[j]).Some? && Successor(cur, bucket[j]).value.id !in visited ==>
      exists i :: 0 <= i < |appended| && appended[i].id == Successor(cur, bucket[j]).value.id
  }

  /** Every successor of the bucket whose id was not yet visited has that id appended by the expansion. */
  lemma {:induction false} ExpandAppendsAllFresh(cur: Simulation, bucket: seq<Transition>,
                                                 visited: set<Snapshot>, queue: seq<Simulation>)
    ensures FreshListed(cur, bucket, visited, Expand(cur, bucket, visited, queue).queue[|queue|..])
    decreases |bucket|
  {
    if bucket != [] {
      var c := Successor(cur, bucket[0]);
      var tail := bucket[1..];
      var added := c.Some? && c.value.id !in visited;
      var v' := if added then visited + {c.value.id} else visited;
      var q' := if added then queue + [c.value] else queue;
      var r := Expand(cur, tail, v', q');
      assert Expand(cur, bucket, visited, queue) == r;
      ExpandAppendsAllFresh(cur, tail, v', q');
      assert r.queue[..|q'|] == q';
      var app, rest := r.queue[|queue|..], r.queue[|q'|..];
      forall j | 0 <= j < |bucket| && Successor(cur, bucket[j]).Some? && Successor(cur, bucket[j]).value.id !in visited
        ensures exists i :: 0 <= i < |app| && app[i].id == Successor(cur, bucket[j]).value.id
      {
        if added && Successor(cur, bucket[j]).value.id == c.value.id {
          assert app[0] == q'[|queue|];
        } else {
          assert bucket[j] == tail[j - 1];
          var i :| 0 <= i < |rest| && rest[i].id == Successor(cur, tail[j - 1]).value.id;
          assert app[i + |q'| - |queue|] == rest[i];
        }
      }
    }
  }

  /** Every id the expansion marks visited belongs to a node it appended. */
  lemma {:induction false} ExpandMarksOnlyAppended(cur: Simulation, bucket: seq<Transition>,
                                                   visited: set<Snapshot>, queue: seq<Simulation>)
    ensures forall x :: x in Expand(cur, bucket, visited, queue).visited && x !in visited ==>
      exists i :: |queue| <= i < |Expand(cur, bucket, visited, queue).queue|
        && Expand(cur, bucket, visited, queue).queue[i].id == x
    decreases |bucket|
  {
    if bucket != [] {
      var c := Successor(cur, bucket[0]);
      var tail := bucket[1..];
      var r := Expand(cur, bucket, visited, queue);
      if c.Some? && c.value.id !in visited {
        var v', q' := visited + {c.value.id}, queue + [c.value];
        ExpandMarksOnlyAppended(cur, tail, v', q');
        forall x | x in r.visited && x !in visited
          ensures exists i :: |queue| <= i < |r.queue| && r.queue[i].id == x
        {
          if x == c.value.id {
            assert r.queue[..|q'|] == q';
            assert r.queue[|queue|] == q'[|queue|];
          } else {
            var i :| |q'| <= i < |r.queue| && r.queue[i].id == x;
          }
        }
      } else {
        ExpandMarksOnlyAppended(cur, tail, visited, queue);
      }
    }
  }

  /** Every state some transition of the table leads to. */
  function Targets(trans: Table): set<StateId> {
    set k, t | k in trans && t in trans[k] :: t.targetState
  }

  /** The cursor values `0..b`. */
  function Upto(b: nat): (r: set<nat>)
    ensures forall x: nat :: x in r <==> x <= b
  {
    if b == 0 then {0} else Upto(b - 1) + {b}
  }

  /** All position lists of length at most `n` whose entries are at most `b`. */
  function Grid(n: nat, b: nat): set<seq<nat>>
    decreases n
  {
    if n == 0 then {[]}
    else Grid(n - 1, b) + set p, x | p in Grid(n - 1, b) && x in Upto(b) :: p + [x]
  }

  lemma {:induction false} InGrid(ps: seq<nat>, n: nat, b: nat)
    requires |ps| <= n && forall i :: 0 <= i < |ps| ==> ps[i] <= b
    ensures ps in Grid(n, b)
    decreases n
  {
    if n > 0 {
      if |ps| < n {
        InGrid(ps, n - 1, b);
      } else {
        var p := ps[..n - 1];
        InGrid(p, n - 1, b);
        assert ps == p + [ps[n - 1]];
        assert ps[n - 1] in Upto(b);
      }
    }
  }

  /** The ids a search over `trans` can ever mark visited besides the root's: a finite set. */
  function KeySpace(trans: Table, n: nat, b: nat): set<Snapshot> {
    set s, ps | s in Targets(trans) && ps in Grid(n, b) :: Snapshot(s, ps)
  }

  /** A node with at most `n` tapes whose cursors and word lengths are at most `b`. */
  predicate Fits(node: Simulation, n: nat, b: nat) {
    |node.tapes| <= n && forall i :: 0 <= i < |node.tapes| ==> node.tapes[i].currentPos <= b && |node.tapes[i].symbols| <= b
  }

  predicate AllFit(queue: seq<Simulation>, n: nat, b: nat) {
    forall i :: 0 <= i < |queue| ==> Fits(queue[i], n, b)
  }

  /** A bound on the tape count, the cursors and the word lengths of some tapes. */
  function TapesBound(ts: seq<TapeView>): (r: nat)
    ensures |ts| <= r && forall i :: 0 <= i < |ts| ==> ts[i].currentPos <= r && |ts[i].symbols| <= r
  {
    if ts == [] then 0
    else
      var rest := TapesBound(ts[1..]);
      var m := if ts[0].currentPos <= |ts[0].symbols| then |ts[0].symbols| else ts[0].currentPos;
      var r := if rest + 1 <= m then m else rest + 1;
      assert forall i :: 1 <= i < |ts| ==> ts[i] == ts[1..][i - 1];
      r
  }

  /** A bound every node of the queue fits. */
  function Bound(queue: seq<Simulation>): (r: nat)
    ensures AllFit(queue, r, r)
  {
    if queue == [] then 0
    else
      var rest := Bound(queue[1..]);
      var m := TapesBound(queue[0].tapes);
      var r := if rest <= m then m else rest;
      assert forall i :: 1 <= i < |queue| ==> queue[i] == queue[1..][i - 1];
      r
  }

  /** A successor of a fitting node fits, and its id lies in the key space. */
  lemma SuccessorFits(trans: Table, cur: Simulation, j: nat, n: nat, b: nat)
    requires Fits(cur, n, b) && j < |Bucket(trans, cur.currentState)|
    requires Successor(cur, Bucket(trans, cur.currentState)[j]).Some?
    ensures Fits(Successor(cur, Bucket(trans, cur.currentState)[j]).value, n, b)
    ensures Successor(cur, Bucket(trans, cur.currentState)[j]).value.id in KeySpace(trans, n, b)
  {
    var t := Bucket(trans, cur.currentState)[j];
    var c := Successor(cur, t).value;
    SuccessorStep(cur, t);
    assert t.targetState in Targets(trans) by {
      assert cur.currentState in trans && t in trans[cur.currentState];
    }
    InGrid(c.id.positions, n, b);
  }

  /** Expanding a fitting node keeps the queue fitting and marks only ids of the key space. */
  lemma ExpandStaysInSpace(trans: Table, cur: Simulation, visited: set<Snapshot>, queue: seq<Simulation>,
                           n: nat, b: nat)
    requires Fits(cur, n, b) && AllFit(queue, n, b)
    ensures AllFit(Expand(cur, Bucket(trans, cur.currentState), visited, queue).queue, n, b)
    ensures forall x :: x in Expand(cur, Bucket(trans, cur.currentState), visited, queue).visited ==>
      x in visited || x in KeySpace(trans, n, b)
  {
    var bucket := Bucket(trans, cur.currentState);
    var f := Expand(cur, bucket, visited, queue);
    ExpandAppendsSuccessors(cur, bucket, visited, queue);
    ExpandMarksOnlyAppended(cur, bucket, visited, queue);
    forall i | 0 <= i < |f.queue|
      ensures Fits(f.queue[i], n, b) && (i >= |queue| ==> f.queue[i].id in KeySpace(trans, n, b))
    {
      if i < |queue| {
        assert f.queue[..|queue|][i] == queue[i];
      } else {
        var j :| 0 <= j < |bucket| && Successor(cur, bucket[j]) == Some(f.queue[i]);
        SuccessorFits(trans, cur, j, n, b);
      }
    }
  }

  /** Marking new ids of a finite set shrinks what is left of it. */
  lemma Shrink(k: set<Snapshot>, v: set<Snapshot>, v': set<Snapshot>)
    requires v <= v' && forall x :: x in v' && x !in v ==> x in k
    ensures |k - v'| <= |k - v|
    ensures v != v' ==> |k - v'| < |k - v|
  {
    var big, small := k - v, k - v';
    assert small <= big;
    assert big == small + (big - small);
    assert |big| == |small| + |big - small|;
    if v != v' {
      var x :| x in v' && x !in v;
      assert x in big - small;
    }
  }

  /**
   * The `while` loop of `mainLoop` from a popped node `cur`: expand it, pop the next node (raising on an
   * empty queue), stop when the popped node's tapes all show the blank (accepted when its state is
   * accepting), and otherwise go on from it. The measure is the pair (ids of the key space not yet
   * visited, queue length): every round either marks a new id or shortens the queue.
   */
  function Explore(trans: Table, accept: set<StateId>, cur: Simulation, queue: seq<Simulation>,
                   visited: set<Snapshot>, n: nat, b: nat): (r: Run)
    requires Fits(cur, n, b) && AllFit(queue, n, b)
    ensures visited <= r.visited
    decreases |KeySpace(trans, n, b) - visited|, |queue|
  {
    var f := Expand(cur, Bucket(trans, cur.currentState), visited, queue);
    ExpandStaysInSpace(trans, cur, visited, queue, n, b);
    if f.queue == [] then Run(Aborted(PopFromEmptyQueue), cur.tapes, f.visited, [])
    else
      var next := f.queue[0];
      if Consumed(next.tapes) then
        Run(if next.currentState in accept then Accepted(next.history) else StoppedConsumed(next.history),
            next.tapes, f.visited, f.queue[1..])
      else
        Shrink(KeySpace(trans, n, b), visited, f.visited);
        Explore(trans, accept, next, f.queue[1..], f.visited, n, b)
  }

  /** One round of `Explore`, in terms of the frontier after expanding `cur`. */
  lemma ExploreUnfold(trans: Table, accept: set<StateId>, cur: Simulation, queue: seq<Simulation>,
                      visited: set<Snapshot>, n: nat, b: nat)
    requires Fits(cur, n, b) && AllFit(queue, n, b)
    ensures var f := Expand(cur, Bucket(trans, cur.currentState), visited, queue);
      && (f.queue == [] ==>
            Explore(trans, accept, cur, queue, visited, n, b) == Run(Aborted(PopFromEmptyQueue), cur.tapes, f.visited, []))
      && (f.queue != [] && Consumed(f.queue[0].tapes) ==>
            Explore(trans, accept, cur, queue, visited, n, b)
            == Run(if f.queue[0].currentState in accept then Accepted(f.queue[0].history)
                   else StoppedConsumed(f.queue[0].history), f.queue[0].tapes, f.visited, f.queue[1..]))
      && (f.queue != [] && !Consumed(f.queue[0].tapes) ==>
            AllFit(f.queue[1..], n, b) && Fits(f.queue[0], n, b) &&
            Explore(trans, accept, cur, queue, visited, n, b)
            == Explore(trans, accept, f.queue[0], f.queue[1..], f.visited, n, b))
  {
    var f := Expand(cur, Bucket(trans, cur.currentState), visited, queue);
    ExpandStaysInSpace(trans, cur, visited, queue, n, b);
    if f.queue != [] {
      assert forall i :: 0 <= i < |f.queue[1..]| ==> f.queue[1..][i] == f.queue[i + 1];
    }
  }

  /**
   * `mainLoop` on the manager's tapes, queue and visited set: the loop never starts when every tape
   * already shows the blank (leaving `sim` unbound), and the first pop raises on an empty queue.
   */
  function Search(trans: Table, accept: set<StateId>, tapes: seq<TapeView>, queue: seq<Simulation>,
                  visited: set<Snapshot>): (r: Run)
    ensures Consumed(tapes) ==> r.result == Aborted(UnboundSim)
    ensures !Consumed(tapes) && queue == [] ==> r.result == Aborted(PopFromEmptyQueue)
    ensures visited <= r.visited
  {
    if Consumed(tapes) then Run(Aborted(UnboundSim), tapes, visited, queue)
    else if queue == [] then Run(Aborted(PopFromEmptyQueue), tapes, visited, queue)
    else
      var b := Bound(queue);
      Explore(trans, accept, queue[0], queue[1..], visited, b, b)
  }

  /**
   * `s'` can follow an entry in state `state` whose tapes hold `words` at cursors `ps`: some transition
   * leaving `state` leads to the state of `s'`, and the cursors of `s'` are those that transition's
   * vector moves `ps` to.
   */
  predicate Step(trans: Table, words: seq<string>, state: StateId, ps: seq<nat>, s': Snapshot) {
    |ps| == |words|
    && exists t :: t in Bucket(trans, state) && t.targetState == s'.state
         && s'.positions == StepCursors(t.symbolsVector.vector, words, ps)
  }

  /**
   * Every entry of `h` from index `from` on follows the entry before it over the words `words`; the
   * entry at `from` follows from the root's cursors `p0`, the later ones from the recorded cursors.
   */
  predicate PathFrom(trans: Table, words: seq<string>, p0: seq<nat>, h: seq<Snapshot>, from: nat) {
    forall k :: 0 < k < |h| && from <= k ==>
      Step(trans, words, h[k - 1].state, if k == from then p0 else h[k - 1].positions, h[k])
  }

  /**
   * A node whose history extends the root history `h0` along transitions from the root tapes `rt` and
   * ends in its own state; its tapes hold the root's words, at the root's cursors when it is the root
   * and at its last entry's cursors otherwise.
   */
  predicate Rooted(trans: Table, rt: seq<TapeView>, h0: seq<Snapshot>, node: Simulation) {
    0 < |h0| <= |node.history| && node.history[..|h0|] == h0
    && node.currentState == node.history[|node.history| - 1].state
    && Words(node.tapes) == Words(rt)
    && Positions(node.tapes) == (if |node.history| == |h0| then Positions(rt) else node.history[|node.history| - 1].positions)
    && PathFrom(trans, Words(rt), Positions(rt), node.history, |h0|)
  }

  /** A node created by the search below the root: a longer history whose last entry is its id. */
  predicate Below(trans: Table, rt: seq<TapeView>, h0: seq<Snapshot>, node: Simulation) {
    Rooted(trans, rt, h0, node) && |h0| < |node.history|
    && node.id == node.history[|node.history| - 1]
  }

  predicate AllBelow(trans: Table, rt: seq<TapeView>, h0: seq<Snapshot>, queue: seq<Simulation>) {
    forall i :: 0 <= i < |queue| ==> Below(trans, rt, h0, queue[i])
  }

  /** A successor of a rooted node is below the root. */
  lemma SuccessorBelow(trans: Table, rt: seq<TapeView>, h0: seq<Snapshot>, cur: Simulation, j: nat)
    requires Rooted(trans, rt, h0, cur) && j < |Bucket(trans, cur.currentState)|
    requires Successor(cur, Bucket(trans, cur.currentState)[j]).Some?
    ensures Below(trans, rt, h0, Successor(cur, Bucket(trans, cur.currentState)[j]).value)
  {
    var t := Bucket(trans, cur.currentState)[j];
    var c := Successor(cur, t).value;
    SuccessorStep(cur, t);
    var h := c.history;
    var words, p0 := Words(rt), Positions(rt);
    assert h[..|cur.history|] == cur.history;
    assert h[..|h0|] == h0 by {
      assert h[..|h0|] == h[..|cur.history|][..|h0|];
    }
    forall k | 0 < k < |h| && |h0| <= k
      ensures Step(trans, words, h[k - 1].state, if k == |h0| then p0 else h[k - 1].positions, h[k])
    {
      if k == |h| - 1 {
        assert h[k - 1] == cur.history[|cur.history| - 1];
        assert (if k == |h0| then p0 else h[k - 1].positions) == Positions(cur.tapes);
        assert t in Bucket(trans, h[k - 1].state) && t.targetState == h[k].state;
      } else {
        assert h[k - 1] == cur.history[k - 1] && h[k] == cur.history[k];
      }
    }
  }

  /** Expanding a rooted node keeps every queued node below the root. */
  lemma ExpandStaysBelow(trans: Table, rt: seq<TapeView>, h0: seq<Snapshot>, cur: Simulation, visited: set<Snapshot>,
                         queue: seq<Simulation>)
    requires Rooted(trans, rt, h0, cur) && AllBelow(trans, rt, h0, queue)
    ensures AllBelow(trans, rt, h0, Expand(cur, Bucket(trans, cur.currentState), visited, queue).queue)
  {
    var bucket := Bucket(trans, cur.currentState);
    var f := Expand(cur, bucket, visited, queue);
    ExpandAppendsSuccessors(cur, bucket, visited, queue);
    forall i | 0 <= i < |f.queue|
      ensures Below(trans, rt, h0, f.queue[i])
    {
      if i < |queue| {
        assert f.queue[..|queue|][i] == queue[i];
      } else {
        var j :| 0 <= j < |bucket| && Successor(cur, bucket[j]) == Some(f.queue[i]);
        SuccessorBelow(trans, rt, h0, cur, j);
      }
    }
  }

  /**
   * A returned history: it extends the root history `h0` by at least one entry, every new entry follows
   * the one before it along a transition (the first from the root tapes `rt`), its last entry records
   * the final cursors, and every final tape holds its root word and shows the blank.
   */
  predicate Reached(trans: Table, rt: seq<TapeView>, h0: seq<Snapshot>, h: seq<Snapshot>, tapes: seq<TapeView>) {
    |h0| < |h| && h[..|h0|] == h0 && PathFrom(trans, Words(rt), Positions(rt), h, |h0|)
    && h[|h| - 1].positions == Positions(tapes) && Words(tapes) == Words(rt) && Consumed(tapes)
  }

  /** What a search run reports: an accepted history ends in an accept state, a stopped one does not. */
  predicate Reports(trans: Table, accept: set<StateId>, rt: seq<TapeView>, h0: seq<Snapshot>, run: Run) {
    match run.result
    case Accepted(h) => Reached(trans, rt, h0, h, run.tapes) && h[|h| - 1].state in accept
    case StoppedConsumed(h) => Reached(trans, rt, h0, h, run.tapes) && h[|h| - 1].state !in accept
    case Aborted(_) => true
  }

  lemma {:induction false} ExploreReports(trans: Table, accept: set<StateId>, rt: seq<TapeView>, h0: seq<Snapshot>,
                                          cur: Simulation, queue: seq<Simulation>, visited: set<Snapshot>, n: nat, b: nat)
    requires Fits(cur, n, b) && AllFit(queue, n, b)
    requires Rooted(trans, rt, h0, cur) && AllBelow(trans, rt, h0, queue)
    ensures Reports(trans, accept, rt, h0, Explore(trans, accept, cur, queue, visited, n, b))
    decreases |KeySpace(trans, n, b) - visited|, |queue|
  {
    ExploreUnfold(trans, accept, cur, queue, visited, n, b);
    var f := Expand(cur, Bucket(trans, cur.currentState), visited, queue);
    ExpandStaysInSpace(trans, cur, visited, queue, n, b);
    ExpandStaysBelow(trans, rt, h0, cur, visited, queue);
    if f.queue != [] {
      var next := f.queue[0];
      assert Below(trans, rt, h0, next);
      if !Consumed(next.tapes) {
        Shrink(KeySpace(trans, n, b), visited, f.visited);
        QueueTail(trans, rt, h0, f.queue, n, b);
        ExploreReports(trans, accept, rt, h0, next, f.queue[1..], f.visited, n, b);
      }
    }
  }

  /** The nodes behind the head of a queue of nodes below the root that fit the bounds are such nodes too. */
  lemma QueueTail(trans: Table, rt: seq<TapeView>, h0: seq<Snapshot>, queue: seq<Simulation>, n: nat, b: nat)
    requires queue != [] && AllBelow(trans, rt, h0, queue) && AllFit(queue, n, b)
    ensures AllBelow(trans, rt, h0, queue[1..]) && AllFit(queue[1..], n, b)
  {
    assert forall i :: 0 <= i < |queue[1..]| ==> queue[1..][i] == queue[i + 1];
  }

  /**
   * The breadth-first invariant of the FIFO queue: the queued histories are in non-decreasing order of
   * length, none shorter than the current node's and none more than one entry longer.
   */
  predicate Levelled(cur: Simulation, queue: seq<Simulation>) {
    (forall i :: 0 <= i < |queue| ==> |cur.history| <= |queue[i].history| <= |cur.history| + 1)
    && forall i, j :: 0 <= i < j < |queue| ==> |queue[i].history| <= |queue[j].history|
  }

  /**
   * One round keeps the invariant: the successors land at the back of the queue one entry deeper than
   * `cur`, so the node popped next is no shallower than `cur` (nodes leave the queue in non-decreasing
   * depth) and the invariant holds again around it.
   */
  lemma ExpandKeepsLevels(trans: Table, cur: Simulation, visited: set<Snapshot>, queue: seq<Simulation>)
    requires Levelled(cur, queue)
    ensures var f := Expand(cur, Bucket(trans, cur.currentState), visited, queue);
      f.queue != [] ==> |cur.history| <= |f.queue[0].history| && Levelled(f.queue[0], f.queue[1..])
  {
    var bucket := Bucket(trans, cur.currentState);
    var f := Expand(cur, bucket, visited, queue);
    var d := |cur.history|;
    ExpandAppendsSuccessors(cur, bucket, visited, queue);
    forall i | 0 <= i < |f.queue|
      ensures d <= |f.queue[i].history| <= d + 1 && (i >= |queue| ==> |f.queue[i].history| == d + 1)
    {
      if i < |queue| {
        assert f.queue[..|queue|][i] == queue[i];
      } else {
        var j :| 0 <= j < |bucket| && Successor(cur, bucket[j]) == Some(f.queue[i]);
        SuccessorStep(cur, bucket[j]);
      }
    }
    forall i, j | 0 <= i < j < |f.queue|
      ensures |f.queue[i].history| <= |f.queue[j].history|
    {
      if j < |queue| {
        assert f.queue[..|queue|][i] == queue[i] && f.queue[..|queue|][j] == queue[j];
      }
    }
    if f.queue != [] {
      assert forall i :: 0 <= i < |f.queue[1..]| ==> f.queue[1..][i] == f.queue[i + 1];
    }
  }

  /** The history a run returns is no longer than that of any node left in the queue, and at most one shorter. */
  predicate Shallowest(run: Run) {
    match run.result
    case Accepted(h) => forall i :: 0 <= i < |run.queue| ==> |h| <= |run.queue[i].history| <= |h| + 1
    case StoppedConsumed(h) => forall i :: 0 <= i < |run.queue| ==> |h| <= |run.queue[i].history| <= |h| + 1
    case Aborted(_) => true
  }

  /** The search loop is breadth-first: the node it stops at is no deeper than any node still queued. */
  lemma {:induction false} ExploreLevels(trans: Table, accept: set<StateId>, cur: Simulation, queue: seq<Simulation>,
                                         visited: set<Snapshot>, n: nat, b: nat)
    requires Fits(cur, n, b) && AllFit(queue, n, b) && Levelled(cur, queue)
    ensures Shallowest(Explore(trans, accept, cur, queue, visited, n, b))
    decreases |KeySpace(trans, n, b) - visited|, |queue|
  {
    ExploreUnfold(trans, accept, cur, queue, visited, n, b);
    var f := Expand(cur, Bucket(trans, cur.currentState), visited, queue);
    ExpandKeepsLevels(trans, cur, visited, queue);
    if f.queue != [] && !Consumed(f.queue[0].tapes) {
      ExpandStaysInSpace(trans, cur, visited, queue, n, b);
      Shrink(KeySpace(trans, n, b), visited, f.visited);
      ExploreLevels(trans, accept, f.queue[0], f.queue[1..], f.visited, n, b);
    }
  }

  /** The node `update(history)` starts from: the manager's tapes, the history, and its last entry's state. */
  function Root(tapes: seq<TapeView>, h0: seq<Snapshot>): (r: Simulation)
    requires |h0| > 0
    ensures Make(tapes, Some(h0), h0[|h0| - 1].state) == Ok(r)
  {
    Simulation(tapes, h0, h0[|h0| - 1].state, h0[|h0| - 1])
  }

  /**
   * The central property of `update`: a history it returns extends the given history by at least one
   * entry, each along a transition of the automaton that moves exactly the cursors its vector reads
   * (the first from the manager's tapes), and ends with every tape showing the blank at the recorded
   * cursors; it ends in an accept state exactly when the search reports acceptance.
   */
  lemma UpdateReports(trans: Table, accept: set<StateId>, tapes: seq<TapeView>, h0: seq<Snapshot>)
    requires |h0| > 0
    ensures Reports(trans, accept, tapes, h0, Search(trans, accept, tapes, [Root(tapes, h0)], {h0[|h0| - 1]}))
  {
    var root := Root(tapes, h0);
    assert root.history[..|h0|] == h0;
    if !Consumed(tapes) {
      var b := Bound([root]);
      ExploreReports(trans, accept, tapes, h0, root, [], {h0[|h0| - 1]}, b, b);
    }
  }

  /** `update` searches breadth-first: the history it returns is no longer than any node it leaves queued. */
  lemma UpdateBreadthFirst(trans: Table, accept: set<StateId>, tapes: seq<TapeView>, h0: seq<Snapshot>)
    requires |h0| > 0
    ensures Shallowest(Search(trans, accept, tapes, [Root(tapes, h0)], {h0[|h0| - 1]}))
  {
    var root := Root(tapes, h0);
    if !Consumed(tapes) {
      var b := Bound([root]);
      ExploreLevels(trans, accept, root, [], {h0[|h0| - 1]}, b, b);
    }
  }

  /**
   * A wildcard self-loop on a non-accepting state over the word "x": the only successor is the root
   * again, which is already visited, so the queue runs dry and the next pop raises.
   */
  lemma SelfLoopWildcardRaises()
    ensures var t := Transition(IntId(0), SymbolVector([Blank]), IntId(0));
      var tapes := [TapeView("x", 0, 'x')];
      var h0 := [Snapshot(IntId(0), [0])];
      Search(map[IntId(0) := [t]], {}, tapes, [Root(tapes, h0)], {h0[0]}).result == Aborted(PopFromEmptyQueue)
  {
    var t := Transition(IntId(0), SymbolVector([Blank]), IntId(0));
    var trans := map[IntId(0) := [t]];
    var tapes := [TapeView("x", 0, 'x')];
    var h0 := [Snapshot(IntId(0), [0])];
    var root := Root(tapes, h0);
    var b := Bound([root]);
    assert !Consumed(tapes);
    WildcardsAlwaysMatch([Blank], tapes);
    assert Positions(tapes) == [0];
    assert Successor(root, t).value.id == h0[0];
    assert Expand(root, [t], {h0[0]}, []) == Frontier({h0[0]}, []) by {
      assert Expand(root, [t], {h0[0]}, []) == Expand(root, [t][1..], {h0[0]}, []);
    }
    ExploreUnfold(trans, {}, root, [], {h0[0]}, b, b);
  }

  /**
   * One transition q0 -> q1 reading 'a', with q1 accepting, over the word "a": the search returns the
   * root entry followed by [q1, 1].
   */
  lemma SingleReadAccepts()
    ensures var t := Transition(IntId(0), SymbolVector(['a']), IntId(1));
      var tapes := [TapeView("a", 0, 'a')];
      var h0 := [Snapshot(IntId(0), [0])];
      Search(map[IntId(0) := [t]], {IntId(1)}, tapes, [Root(tapes, h0)], {h0[0]}).result
        == Accepted([Snapshot(IntId(0), [0]), Snapshot(IntId(1), [1])])
  {
    var t := Transition(IntId(0), SymbolVector(['a']), IntId(1));
    var trans := map[IntId(0) := [t]];
    var tapes := [TapeView("a", 0, 'a')];
    var h0 := [Snapshot(IntId(0), [0])];
    var root := Root(tapes, h0);
    var b := Bound([root]);
    assert !Consumed(tapes);
    var child := SingleReadFrontier();
    assert Bucket(trans, root.currentState) == [t];
    ExploreUnfold(trans, {IntId(1)}, root, [], {h0[0]}, b, b);
  }

  /** The expansion behind `SingleReadAccepts`: reading 'a' gives the one new node [q1, 1], its tapes all read. */
  lemma SingleReadFrontier() returns (child: Simulation)
    ensures var t := Transition(IntId(0), SymbolVector(['a']), IntId(1));
      var root := Root([TapeView("a", 0, 'a')], [Snapshot(IntId(0), [0])]);
      && Expand(root, [t], {Snapshot(IntId(0), [0])}, []) == Frontier({Snapshot(IntId(0), [0]), child.id}, [child])
      && Consumed(child.tapes) && child.currentState == IntId(1)
      && child.history == [Snapshot(IntId(0), [0]), Snapshot(IntId(1), [1])]
  {
    var t := Transition(IntId(0), SymbolVector(['a']), IntId(1));
    var tapes := [TapeView("a", 0, 'a')];
    var h0 := [Snapshot(IntId(0), [0])];
    var root := Root(tapes, h0);
    var read := [TapeView("a", 1, Blank)];
    assert MatchResult(['a'], tapes) == MatchOutcome(true, read) by {
      FirstMismatchAt(['a'], tapes, 1);
      assert ReadUpTo(['a'], tapes, 1) == read;
    }
    assert Positions(read) == [1];
    child := Simulation(read, h0 + [Snapshot(IntId(1), [1])], IntId(1), Snapshot(IntId(1), [1]));
    assert Successor(root, t) == Some(child);
    assert Expand(root, [t], {h0[0]}, []) == Expand(root, [t][1..], {h0[0], child.id}, [child]);
    assert Consumed(read);
  }

  /**
   * Over the word "abcde" from cursor 0, with the only transition q0 -> q1 reading 'a', the first entry a
   * returned history adds is [q1, 1]: a jump of the cursor to 5, say, is not a returned history.
   */
  lemma FirstStepReadsOne(h: seq<Snapshot>, tapes: seq<TapeView>)
    requires Reached(map[IntId(0) := [Transition(IntId(0), SymbolVector(['a']), IntId(1))]],
                     [TapeView("abcde", 0, 'a')], [Snapshot(IntId(0), [0])], h, tapes)
    ensures h[1] == Snapshot(IntId(1), [1])
  {
    var t := Transition(IntId(0), SymbolVector(['a']), IntId(1));
    var trans, rt := map[IntId(0) := [t]], [TapeView("abcde", 0, 'a')];
    var h0 := [Snapshot(IntId(0), [0])];
    assert Words(rt) == ["abcde"] && Positions(rt) == [0];
    assert h[0] == h[..|h0|][0] == Snapshot(IntId(0), [0]);
    assert Step(trans, Words(rt), h[0].state, Positions(rt), h[1]);
    var t' :| t' in Bucket(trans, IntId(0)) && t'.targetState == h[1].state
      && h[1].positions == StepCursors(t'.symbolsVector.vector, ["abcde"], [0]);
    assert t' == t;
    assert StepCursors(['a'], ["abcde"], [0]) == [1];
  }

  /** Every cursor of the snapshot written onto the tape at the same index, the symbol recomputed. */
  function Restored(vs: seq<TapeView>, positions: seq<nat>): (r: seq<TapeView>)
    ensures |r| == |vs|
    ensures forall i :: 0 <= i < |vs| ==> r[i] == if i < |positions| then Seek(vs[i], positions[i]) else vs[i]
  {
    seq(|vs|, i requires 0 <= i < |vs| => if i < |positions| then Seek(vs[i], positions[i]) else vs[i])
  }

  /**
   * The search engine. `accepting_states` is the automaton's own set object, so it is read through
   * `automata`; the queue and the visited set are held as values.
   */
  class Manager {
    var automata: Automata
    var tapes: seq<Tape>
    var sim: Simulation
    var visited: set<Snapshot>
    var queue: seq<Simulation>

    /** No tape object occurs twice in the manager's list. */
    ghost predicate Valid()
      reads this
    {
      Distinct(tapes)
    }

    function AcceptingStates(): set<StateId>
      reads this, automata
    {
      automata.acceptStates
    }

    /** The root node holds the tapes' values with the default history; it is the only visited and queued node. */
    constructor (automata: Automata, tapes: seq<Tape>)
      requires Distinct(tapes)
      ensures this.automata == automata && this.tapes == tapes && Valid()
      ensures sim == Simulation(Views(tapes), DefaultHistory(|tapes|), IntId(0), Snapshot(IntId(0), Zeros(|tapes|)))
      ensures visited == {sim.id} && queue == [sim]
    {
      this.automata := automata;
      this.tapes := tapes;
      var root := Make(Views(tapes)).value;
      this.sim := root;
      this.visited := {root.id};
      this.queue := [root];
    }

    /**
     * One pass of that loop before the visited test: the transition is tried on a fresh deep copy of
     * the tapes, and on a match the child node holds the copy, the extended history and the target.
     */
    method Candidate(cur: Simulation, t: Transition) returns (c: Option<Simulation>)
      requires Views(tapes) == cur.tapes
      ensures c == Successor(cur, t)
    {
      var copies := Copies(Views(tapes));
      var ok := Matches(t.symbolsVector, copies);
      if ok {
        var snap := Snapshot(t.targetState, Positions(Views(copies)));
        return Some(Simulation(Views(copies), cur.history + [snap], t.targetState, snap));
      }
      return None;
    }

    /** The `for` loop over the current node's transitions, each tried on a fresh deep copy of the tapes. */
    method ExpandCurrent(cur: Simulation)
      requires Views(tapes) == cur.tapes
      modifies this
      ensures automata == old(automata) && sim == old(sim) && tapes == old(tapes)
      ensures Frontier(visited, queue) == Expand(cur, Bucket(automata.transitions, cur.currentState), old(visited), old(queue))
    {
      var bucket := Bucket(automata.transitions, cur.currentState);
      var j := 0;
      while j < |bucket|
        invariant 0 <= j <= |bucket|
        invariant automata == old(automata) && sim == old(sim) && tapes == old(tapes)
        invariant Expand(cur, bucket[j..], visited, queue) == Expand(cur, bucket, old(visited), old(queue))
      {
        var c := Candidate(cur, bucket[j]);
        if c.Some? && c.value.id !in visited {
          visited := visited + {c.value.id};
          queue := queue + [c.value];
        }
        assert bucket[j..][1..] == bucket[j + 1..];
        j := j + 1;
      }
    }

    /**
     * One round of the `while` loop after `cur` was popped: expand it, pop the next node and rebind the
     * tapes to a copy of its tapes, and say whether the loop ends there and with what.
     */
    method Round(cur: Simulation) returns (done: bool, r: SearchResult, next: Simulation)
      requires Valid() && Views(tapes) == cur.tapes
      modifies this
      ensures Valid() && automata == old(automata) && sim == old(sim)
      ensures var f := Expand(cur, Bucket(automata.transitions, cur.currentState), old(visited), old(queue));
        && visited == f.visited
        && (f.queue == [] ==> done && r == Aborted(PopFromEmptyQueue) && queue == [] && Views(tapes) == cur.tapes)
        && (f.queue != [] ==>
              next == f.queue[0] && queue == f.queue[1..] && Views(tapes) == next.tapes
              && (done <==> Consumed(next.tapes))
              && (done ==> r == if next.currentState in AcceptingStates() then Accepted(next.history)
                                else StoppedConsumed(next.history)))
    {
      ExpandCurrent(cur);
      if |queue| == 0 {
        return true, Aborted(PopFromEmptyQueue), cur;
      }
      next := queue[0];
      queue := queue[1..];
      tapes := Copies(next.tapes);
      if next.currentState in AcceptingStates() && Consumed(Views(tapes)) {
        return true, Accepted(next.history), next;
      }
      if Consumed(Views(tapes)) {
        return true, StoppedConsumed(next.history), next;
      }
      done, r := false, Aborted(PopFromEmptyQueue);
    }

    /**
     * The `while` loop of `mainLoop` once `cur` has been popped, proved to compute `Explore`. The test
     * `len(self.queue) >= 0` is always true and is left out.
     */
    method Continue(cur: Simulation, ghost b: nat) returns (r: SearchResult)
      requires Valid() && Views(tapes) == cur.tapes && Fits(cur, b, b) && AllFit(queue, b, b)
      modifies this
      ensures Valid() && automata == old(automata) && sim == old(sim)
      ensures Run(r, Views(tapes), visited, queue)
        == Explore(automata.transitions, AcceptingStates(), cur, old(queue), old(visited), b, b)
    {
      ghost var trans, accept := automata.transitions, AcceptingStates();
      ghost var run := Explore(trans, accept, cur, queue, visited, b, b);
      var node := cur;
      while true
        invariant Valid() && automata == old(automata) && sim == old(sim)
        invariant automata.transitions == trans && AcceptingStates() == accept
        invariant Views(tapes) == node.tapes
        invariant Fits(node, b, b) && AllFit(queue, b, b)
        invariant Explore(trans, accept, node, queue, visited, b, b) == run
        decreases |KeySpace(trans, b, b) - visited|, |queue|
      {
        ghost var visited0 := visited;
        ExpandStaysInSpace(trans, node, visited, queue, b, b);
        ExploreUnfold(trans, accept, node, queue, visited, b, b);
        var done, res, next := Round(node);
        if done {
          return res;
        }
        Shrink(KeySpace(trans, b, b), visited0, visited);
        node := next;
      }
    }

    /**
     * `mainLoop`, proved to compute `Search` on the state it starts from and to leave the manager's
     * tapes, visited set and queue as `Search` says. The first round pops before it expands (the `flag`
     * of the source).
     */
    method MainLoop() returns (r: SearchResult)
      requires Valid()
      modifies this
      ensures Valid() && automata == old(automata) && sim == old(sim)
      ensures Run(r, Views(tapes), visited, queue)
        == Search(automata.transitions, AcceptingStates(), old(Views(tapes)), old(queue), old(visited))
    {
      if Consumed(Views(tapes)) {
        return Aborted(UnboundSim);
      }
      if |queue| == 0 {
        return Aborted(PopFromEmptyQueue);
      }
      ghost var b := Bound(queue);
      var cur := queue[0];
      queue := queue[1..];
      tapes := Copies(cur.tapes);
      assert AllFit(queue, b, b) by {
        assert forall i :: 0 <= i < |queue| ==> queue[i] == old(queue)[i + 1];
      }
      r := Continue(cur, b);
    }

    /**
     * `update(history)`: re-root the search at a node holding the current tapes, the given history and
     * the state of its last entry, then run the search. An empty history raises before anything changes.
     */
    method Update(history: seq<Snapshot>) returns (r: SearchResult)
      requires Valid()
      modifies this
      ensures Valid() && automata == old(automata)
      ensures |history| == 0 ==> r == Aborted(EmptyHistory) && unchanged(this)
      ensures |history| > 0 ==> sim == Root(old(Views(tapes)), history)
      ensures |history| > 0 ==>
        Run(r, Views(tapes), visited, queue)
        == Search(automata.transitions, AcceptingStates(), old(Views(tapes)), [sim], {sim.id})
    {
      if |history| == 0 {
        return Aborted(EmptyHistory);
      }
      var root := Make(Views(tapes), Some(history), history[|history| - 1].state).value;
      visited := {root.id};
      queue := [root];
      sim := root;
      r := MainLoop();
    }

    /**
     * `setTapes(snapShot)`: move tape `i` to the snapshot's `i`-th cursor and recompute its symbol. A
     * snapshot with more cursors than there are tapes raises once every tape has been moved.
     */
    method SetTapes(snapshot: Snapshot) returns (st: Status)
      requires Valid()
      modifies set t | t in tapes
      ensures st == if |snapshot.positions| <= |tapes| then Done else Failed(TapeIndexOutOfRange)
      ensures Views(tapes) == Restored(old(Views(tapes)), snapshot.positions)
    {
      var ps := snapshot.positions;
      var i := 0;
      while i < |ps|
        invariant 0 <= i <= |ps| && i <= |tapes|
        invariant forall j :: 0 <= j < |tapes| ==>
          tapes[j].View() == if j < i then Seek(old(tapes[j].View()), ps[j]) else old(tapes[j].View())
      {
        if i >= |tapes| {
          return Failed(TapeIndexOutOfRange);
        }
        tapes[i].currentPos := ps[i];
        if ps[i] >= |tapes[i].symbols| {
          tapes[i].symbol := Blank;
        } else {
          tapes[i].symbol := tapes[i].symbols[ps[i]];
        }
        i := i + 1;
      }
      return Done;
    }

    /**
     * `addTape(tape, history)`: a word with a symbol outside the alphabet is refused and nothing changes;
     * otherwise the cursors are restored from the last history entry and a new tape over the word is
     * appended. The empty word passes the alphabet test and raises when its tape is built.
     */
    method AddTape(word: string, history: seq<Snapshot>) returns (st: Status)
      requires Valid()
      modifies this, set t | t in tapes
      ensures Valid() && automata == old(automata) && sim == old(sim)
      ensures visited == old(visited) && queue == old(queue)
      ensures !InAlphabet(word, old(automata.alphabet)) ==>
        st == Done && tapes == old(tapes) && Views(tapes) == old(Views(tapes))
      ensures InAlphabet(word, old(automata.alphabet)) && |history| == 0 ==>
        st == Failed(EmptyHistory) && tapes == old(tapes) && Views(tapes) == old(Views(tapes))
      ensures InAlphabet(word, old(automata.alphabet)) && |history| > 0 ==>
        var ps := history[|history| - 1].positions;
        var restored := Restored(old(Views(tapes)), ps);
        if |ps| > |old(tapes)| then
          st == Failed(TapeIndexOutOfRange) && tapes == old(tapes) && Views(tapes) == restored
        else if |word| == 0 then
          st == Failed(EmptyWord) && tapes == old(tapes) && Views(tapes) == restored
        else
          st == Done && |tapes| == |old(tapes)| + 1 && tapes[..|old(tapes)|] == old(tapes)
          && fresh(tapes[|old(tapes)|]) && Views(tapes) == restored + [TapeView(word, 0, word[0])]
    {
      var i := 0;
      while i < |word|
        invariant 0 <= i <= |word|
        invariant forall j :: 0 <= j < i ==> word[j] in automata.alphabet
      {
        if word[i] !in automata.alphabet {
          return Done;
        }
        i := i + 1;
      }
      if |history| == 0 {
        return Failed(EmptyHistory);
      }
      st := SetTapes(history[|history| - 1]);
      if st.Failed? {
        return;
      }
      if |word| == 0 {
        return Failed(EmptyWord);
      }
      var t := new Tape(word);
      ghost var before := Views(tapes);
      tapes := tapes + [t];
      assert Views(tapes) == before + [t.View()];
    }
  }

  /** Every symbol of the word is in the alphabet. */
  predicate InAlphabet(word: string, alphabet: set<char>) {
    forall i :: 0 <= i < |word| ==> word[i] in alphabet
  }
}
