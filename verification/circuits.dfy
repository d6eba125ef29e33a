/** Circuits as instruction lists, and the verbatim-box scans every gate
    validator is built from.  A verbatim box is the stretch of instructions
    after a StartVerbatimBox up to the next EndVerbatimBox. */
module Circuits {
  import opened Wrappers

  /** One circuit instruction.  A gate carries its Braket name, its
      operator's own qubit count (which ignores control modifiers), and the
      instruction's control and target qubits.  The verbatim-box markers are
      compiler directives with no qubits; any other instruction (a
      measurement or a noise channel) is kept with its target qubits only. */
  datatype Instruction =
    | Gate(name: string, qubitCount: nat, controls: seq<nat>, targets: seq<nat>)
    | StartVerbatim
    | EndVerbatim
    | Other(targets: seq<nat>)

  /** A result type requested of the circuit: whether it measures an
      observable, and the qubits it targets (none means all qubits). */
  datatype ResultType = ResultType(observable: bool, targets: seq<nat>)

  /** The qubits an instruction acts on. */
  function InstructionQubits(ins: Instruction): (r: set<nat>)
    ensures ins.StartVerbatim? || ins.EndVerbatim? ==> r == {}
    ensures ins.Gate? ==> forall q :: q in r <==> q in ins.controls || q in ins.targets
    ensures ins.Other? ==> forall q :: q in r <==> q in ins.targets
  {
    match ins
    case Gate(_, _, controls, targets) => (set q | q in controls) + (set q | q in targets)
    case Other(targets) => set q | q in targets
    case _ => {}
  }

  /** The instruction qubits of a circuit: those some instruction acts on. */
  function CircuitQubits(c: seq<Instruction>): (r: set<nat>)
    ensures forall q :: q in r <==> exists k :: 0 <= k < |c| && q in InstructionQubits(c[k])
  {
    if |c| == 0 then {}
    else
      var rest := CircuitQubits(c[1..]);
      assert forall k :: 1 <= k < |c| ==> c[k] == c[1..][k - 1];
      InstructionQubits(c[0]) + rest
  }

  /** The qubits observable result types add to a circuit: the targets of
      each observable result type; other result types add none. */
  function ResultTypeQubits(rts: seq<ResultType>): (r: set<nat>)
    ensures forall q :: q in r <==> exists k :: 0 <= k < |rts| && rts[k].observable && q in rts[k].targets
  {
    set k, q | 0 <= k < |rts| && rts[k].observable && q in rts[k].targets :: q
  }

  /** The circuit's qubit set, instructions and observables together; its
      `qubit_count` is the size of this set. */
  function UsedQubits(c: seq<Instruction>, rts: seq<ResultType>): (r: set<nat>)
    ensures forall q :: q in r <==>
      (exists k :: 0 <= k < |c| && q in InstructionQubits(c[k]))
      || (exists k :: 0 <= k < |rts| && rts[k].observable && q in rts[k].targets)
  {
    CircuitQubits(c) + ResultTypeQubits(rts)
  }

  predicate NoEndBetween(c: seq<Instruction>, a: nat, b: nat)
    requires a <= b <= |c|
  {
    forall j :: a <= j < b ==> !c[j].EndVerbatim?
  }

  /** Instruction k lies inside a verbatim box: some StartVerbatimBox comes
      before it with no EndVerbatimBox in between. */
  ghost predicate InVerbatim(c: seq<Instruction>, k: nat)
    requires k < |c|
  {
    exists s :: 0 <= s < k && c[s].StartVerbatim? && NoEndBetween(c, s + 1, k)
  }

  /** Some StartVerbatimBox is never followed by an EndVerbatimBox. */
  ghost predicate Unterminated(c: seq<Instruction>) {
    exists s :: 0 <= s < |c| && c[s].StartVerbatim? && NoEndBetween(c, s + 1, |c|)
  }

  predicate HasVerbatim(c: seq<Instruction>) {
    exists s :: 0 <= s < |c| && c[s].StartVerbatim?
  }

  /** Index of the first EndVerbatimBox at or after j, or |c| if none. */
  function BoxEnd(c: seq<Instruction>, j: nat): (e: nat)
    requires j <= |c|
    ensures j <= e <= |c|
    ensures NoEndBetween(c, j, e)
    ensures e < |c| ==> c[e].EndVerbatim?
    decreases |c| - j
  {
    if j == |c| || c[j].EndVerbatim? then j else BoxEnd(c, j + 1)
  }

  /** How a scan ends: nothing wrong, a per-gate error, or a box still open
      when the instructions ran out (at index |c|). */
  datatype ScanResult<+E> = Clean | Bad(error: E) | Unclosed(index: nat)

  /** The inner `while` of every box scan: from j, apply `check` to each
      gate until an EndVerbatimBox; running off the end is `Unclosed`. */
  function ScanBox<E>(c: seq<Instruction>, check: Instruction -> Option<E>, j: nat): (r: ScanResult<E>)
    requires j <= |c|
    ensures r.Unclosed? ==> r.index == |c| && NoEndBetween(c, j, |c|)
    ensures r.Clean? ==> BoxEnd(c, j) < |c|
    ensures r.Bad? ==> exists k :: j <= k < |c| && c[k].Gate? && check(c[k]) == Some(r.error)
    decreases |c| - j
  {
    if j == |c| then Unclosed(|c|)
    else if c[j].EndVerbatim? then Clean
    else if c[j].Gate? && check(c[j]).Some? then Bad(check(c[j]).value)
    else ScanBox(c, check, j + 1)
  }

  /** The outer `for idx in range(len(...))` scan.  Rebinding `idx` inside
      the body does not move the loop, so every StartVerbatimBox index
      starts a box scan, including one inside an earlier box. */
  function ScanEveryBox<E>(c: seq<Instruction>, check: Instruction -> Option<E>, i: nat): (r: ScanResult<E>)
    requires i <= |c|
    ensures r.Unclosed? ==> r.index == |c|
    ensures r.Unclosed? ==> exists s :: i <= s < |c| && c[s].StartVerbatim? && NoEndBetween(c, s + 1, |c|)
    ensures r.Bad? ==> exists k :: i <= k < |c| && c[k].Gate? && check(c[k]) == Some(r.error)
    decreases |c| - i
  {
    if i == |c| then Clean
    else if c[i].StartVerbatim? then
      var box := ScanBox(c, check, i + 1);
      if box.Clean? then ScanEveryBox(c, check, i + 1) else box
    else ScanEveryBox(c, check, i + 1)
  }

  /** A `while` scan that really advances past each box: gates inside a box
      get `inside`, gates outside get `outside`. */
  function ScanSequential<E>(c: seq<Instruction>, inside: Instruction -> Option<E>, outside: Instruction -> Option<E>, i: nat): (r: ScanResult<E>)
    requires i <= |c|
    ensures r.Unclosed? ==> r.index == |c|
    ensures r.Unclosed? ==> exists s :: i <= s < |c| && c[s].StartVerbatim? && NoEndBetween(c, s + 1, |c|)
    ensures r.Bad? ==> exists k :: i <= k < |c| && c[k].Gate? && (inside(c[k]) == Some(r.error) || outside(c[k]) == Some(r.error))
    decreases |c| - i
  {
    if i == |c| then Clean
    else if c[i].StartVerbatim? then
      var box := ScanBox(c, inside, i + 1);
      if box.Clean? then ScanSequential(c, inside, outside, BoxEnd(c, i + 1) + 1) else box
    else if c[i].Gate? && outside(c[i]).Some? then Bad(outside(c[i]).value)
    else ScanSequential(c, inside, outside, i + 1)
  }

  /** A scan of every gate of the circuit, boxes or not. */
  function ScanAll<E>(c: seq<Instruction>, check: Instruction -> Option<E>, i: nat): (r: ScanResult<E>)
    requires i <= |c|
    ensures !r.Unclosed?
    ensures r.Bad? ==> exists k :: i <= k < |c| && c[k].Gate? && check(c[k]) == Some(r.error)
    decreases |c| - i
  {
    if i == |c| then Clean
    else if c[i].Gate? && check(c[i]).Some? then Bad(check(c[i]).value)
    else ScanAll(c, check, i + 1)
  }

  /** Turns a scan into a validator's outcome; `unclosed` says what a box
      left open at the end is raised as. */
  function ToOutcome<E>(r: ScanResult<E>, unclosed: nat -> E): (o: Outcome<E>)
    ensures o.Pass? <==> r.Clean?
    ensures r.Bad? ==> o == Fail(r.error)
    ensures r.Unclosed? ==> o == Fail(unclosed(r.index))
  {
    match r
    case Clean => Pass
    case Bad(e) => Fail(e)
    case Unclosed(i) => Fail(unclosed(i))
  }

  /** A whole-circuit scan as a validator's outcome: a pass exactly when
      every gate passes the check, otherwise the error of the gate the scan
      stopped at.  No box can be left open, since boxes are not tracked. */
  function ScanAllOutcome<E>(c: seq<Instruction>, check: Instruction -> Option<E>): (o: Outcome<E>)
    ensures o.Pass? <==> GatesOk(c, check, 0, |c|)
    ensures o.Fail? <==> ScanAll(c, check, 0).Bad?
    ensures o.Fail? ==> o.error == ScanAll(c, check, 0).error
    ensures o.Fail? ==> exists k :: 0 <= k < |c| && c[k].Gate? && check(c[k]) == Some(o.error)
  {
    ScanAllClean(c, check, 0);
    match ScanAll(c, check, 0)
    case Bad(e) => Fail(e)
    case _ => Pass
  }

  // ---------------------------------------------------------------------
  // What a clean scan means
  // ---------------------------------------------------------------------

  ghost predicate GatesOk<E>(c: seq<Instruction>, check: Instruction -> Option<E>, a: nat, b: nat)
    requires a <= b <= |c|
  {
    forall k :: a <= k < b && c[k].Gate? ==> check(c[k]).None?
  }

  lemma {:induction false} ScanBoxClean<E>(c: seq<Instruction>, check: Instruction -> Option<E>, j: nat)
    requires j <= |c|
    ensures ScanBox(c, check, j).Clean? <==> BoxEnd(c, j) < |c| && GatesOk(c, check, j, BoxEnd(c, j))
    decreases |c| - j
  {
    if j < |c| && !c[j].EndVerbatim? {
      ScanBoxClean(c, check, j + 1);
    }
  }

  lemma {:induction false} ScanAllClean<E>(c: seq<Instruction>, check: Instruction -> Option<E>, i: nat)
    requires i <= |c|
    ensures ScanAll(c, check, i).Clean? <==> GatesOk(c, check, i, |c|)
    decreases |c| - i
  {
    if i < |c| {
      ScanAllClean(c, check, i + 1);
    }
  }

  /** A gate at k lies in the box scanned from Start s exactly when no End
      separates them. */
  lemma InBoxOf(c: seq<Instruction>, s: nat, k: nat)
    requires s < k < |c| && !c[k].EndVerbatim?
    ensures k < BoxEnd(c, s + 1) <==> NoEndBetween(c, s + 1, k)
  {
    var e := BoxEnd(c, s + 1);
    if k < e {
      assert NoEndBetween(c, s + 1, k);
    } else {
      assert e < k ==> c[e].EndVerbatim?;
    }
  }

  /** The box scans started at or after i are all clean. */
  ghost predicate BoxesFromOk<E>(c: seq<Instruction>, check: Instruction -> Option<E>, i: nat)
    requires i <= |c|
  {
    forall s :: i <= s < |c| && c[s].StartVerbatim? ==>
      BoxEnd(c, s + 1) < |c| && GatesOk(c, check, s + 1, BoxEnd(c, s + 1))
  }

  lemma {:induction false} ScanEveryBoxClean<E>(c: seq<Instruction>, check: Instruction -> Option<E>, i: nat)
    requires i <= |c|
    ensures ScanEveryBox(c, check, i).Clean? <==> BoxesFromOk(c, check, i)
    decreases |c| - i
  {
    if i < |c| {
      ScanEveryBoxClean(c, check, i + 1);
      if c[i].StartVerbatim? {
        ScanBoxClean(c, check, i + 1);
      }
    }
  }

  /** The scan of every box is clean exactly when every box is closed and
      every gate inside a box passes `check`; gates outside boxes are never
      looked at. */
  lemma ScanEveryBoxMeaning<E>(c: seq<Instruction>, check: Instruction -> Option<E>)
    ensures ScanEveryBox(c, check, 0).Clean? <==>
      !Unterminated(c) && forall k :: 0 <= k < |c| && c[k].Gate? && InVerbatim(c, k) ==> check(c[k]).None?
  {
    ScanEveryBoxClean(c, check, 0);
    if BoxesFromOk(c, check, 0) {
      forall s | 0 <= s < |c| && c[s].StartVerbatim?
        ensures !NoEndBetween(c, s + 1, |c|)
      {
        assert c[BoxEnd(c, s + 1)].EndVerbatim?;
      }
      forall k | 0 <= k < |c| && c[k].Gate? && InVerbatim(c, k)
        ensures check(c[k]).None?
      {
        var s :| 0 <= s < k && c[s].StartVerbatim? && NoEndBetween(c, s + 1, k);
        InBoxOf(c, s, k);
      }
    }
    if !Unterminated(c) && forall k :: 0 <= k < |c| && c[k].Gate? && InVerbatim(c, k) ==> check(c[k]).None? {
      forall s | 0 <= s < |c| && c[s].StartVerbatim?
        ensures BoxEnd(c, s + 1) < |c| && GatesOk(c, check, s + 1, BoxEnd(c, s + 1))
      {
        assert !NoEndBetween(c, s + 1, |c|);
        forall k | s + 1 <= k < BoxEnd(c, s + 1) && c[k].Gate?
          ensures check(c[k]).None?
        {
          InBoxOf(c, s, k);
          assert InVerbatim(c, k);
        }
      }
    }
  }

  /** Every StartVerbatimBox before i is closed before i: the sequential
      scan is between boxes at i. */
  ghost predicate ClosedBefore(c: seq<Instruction>, i: nat)
    requires i <= |c|
  {
    forall s :: 0 <= s < i && c[s].StartVerbatim? ==> !NoEndBetween(c, s + 1, i)
  }

  /** Gates from i on, each judged by whether it is inside a box. */
  ghost predicate SequentialOk<E>(c: seq<Instruction>, inside: Instruction -> Option<E>, outside: Instruction -> Option<E>, i: nat)
    requires i <= |c|
  {
    && (forall s :: i <= s < |c| && c[s].StartVerbatim? ==> !NoEndBetween(c, s + 1, |c|))
    && (forall k :: i <= k < |c| && c[k].Gate? ==>
         (if InVerbatim(c, k) then inside(c[k]) else outside(c[k])).None?)
  }

  lemma ClosedBeforeStep(c: seq<Instruction>, i: nat)
    requires i < |c| && ClosedBefore(c, i) && !c[i].StartVerbatim?
    ensures ClosedBefore(c, i + 1)
  {
    forall s | 0 <= s < i + 1 && c[s].StartVerbatim?
      ensures !NoEndBetween(c, s + 1, i + 1)
    {
      assert !NoEndBetween(c, s + 1, i);
      var j :| s + 1 <= j < i && c[j].EndVerbatim?;
    }
  }

  /** Between boxes, a gate is inside a box only through a later Start. */
  lemma OutsideWhenClosed(c: seq<Instruction>, i: nat)
    requires i < |c| && ClosedBefore(c, i) && c[i].Gate?
    ensures !InVerbatim(c, i)
  {
    forall s | 0 <= s < i && c[s].StartVerbatim?
      ensures !NoEndBetween(c, s + 1, i)
    {
    }
  }

  lemma {:induction false} ScanSequentialClean<E>(c: seq<Instruction>, inside: Instruction -> Option<E>, outside: Instruction -> Option<E>, i: nat)
    requires i <= |c| && ClosedBefore(c, i)
    ensures ScanSequential(c, inside, outside, i).Clean? <==> SequentialOk(c, inside, outside, i)
    decreases |c| - i
  {
    if i < |c| {
      if c[i].StartVerbatim? {
        var e := BoxEnd(c, i + 1);
        ScanBoxClean(c, inside, i + 1);
        if e < |c| {
          ClosedAfterBox(c, i);
          ScanSequentialClean(c, inside, outside, e + 1);
          SequentialStartCase(c, inside, outside, i);
        } else {
          assert !SequentialOk(c, inside, outside, i) by {
            assert NoEndBetween(c, i + 1, |c|);
          }
        }
      } else {
        ClosedBeforeStep(c, i);
        ScanSequentialClean(c, inside, outside, i + 1);
        if c[i].Gate? {
          OutsideWhenClosed(c, i);
        }
      }
    }
  }

  /** A box opened where every earlier box is closed leaves every box
      closed once its End is passed. */
  lemma ClosedAfterBox(c: seq<Instruction>, i: nat)
    requires i < |c| && ClosedBefore(c, i) && c[i].StartVerbatim?
    requires BoxEnd(c, i + 1) < |c|
    ensures ClosedBefore(c, BoxEnd(c, i + 1) + 1)
  {
    var e := BoxEnd(c, i + 1);
    forall s | 0 <= s < e + 1 && c[s].StartVerbatim?
      ensures !NoEndBetween(c, s + 1, e + 1)
    {
      if s < i {
        var j :| s + 1 <= j < i && c[j].EndVerbatim?;
      } else {
        assert c[e].EndVerbatim?;
      }
    }
  }

  /** At a Start between boxes, the obligations from i split into the box's
      gates (inside) and the obligations after its End. */
  lemma SequentialStartCase<E>(c: seq<Instruction>, inside: Instruction -> Option<E>, outside: Instruction -> Option<E>, i: nat)
    requires i < |c| && ClosedBefore(c, i) && c[i].StartVerbatim?
    requires BoxEnd(c, i + 1) < |c|
    ensures SequentialOk(c, inside, outside, i) <==>
      GatesOk(c, inside, i + 1, BoxEnd(c, i + 1)) && SequentialOk(c, inside, outside, BoxEnd(c, i + 1) + 1)
  {
    var e := BoxEnd(c, i + 1);
    forall k | i < k < e
      ensures InVerbatim(c, k)
    {
      assert NoEndBetween(c, i + 1, k);
    }
    forall s | i < s < e && c[s].StartVerbatim?
      ensures !NoEndBetween(c, s + 1, |c|)
    {
      assert c[e].EndVerbatim?;
    }
    assert !NoEndBetween(c, i + 1, |c|) by {
      assert c[e].EndVerbatim?;
    }
  }

  /** The sequential scan is clean exactly when every box is closed, every
      gate inside a box passes `inside` and every gate outside passes
      `outside`. */
  lemma ScanSequentialMeaning<E>(c: seq<Instruction>, inside: Instruction -> Option<E>, outside: Instruction -> Option<E>)
    ensures ScanSequential(c, inside, outside, 0).Clean? <==>
      && !Unterminated(c)
      && (forall k :: 0 <= k < |c| && c[k].Gate? && InVerbatim(c, k) ==> inside(c[k]).None?)
      && (forall k :: 0 <= k < |c| && c[k].Gate? && !InVerbatim(c, k) ==> outside(c[k]).None?)
  {
    ScanSequentialClean(c, inside, outside, 0);
  }
}
