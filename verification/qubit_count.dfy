/** The qubit-count validator: a circuit may use at most as many distinct
    qubits as the device has. */
module QubitCount {
  import opened Wrappers
  import opened Circuits

  datatype QubitCountError =
    | NotPositive(requested: int)
    | TooManyQubits(limit: nat, used: nat)

  /** Every failure is a ValueError. */
  function Raises(e: QubitCountError): (x: PyException)
    ensures x == ValueError
  {
    ValueError
  }

  datatype QubitCountCriterion = QubitCountCriterion(limit: nat)

  /** The constructor: the qubit count must be a positive integer. */
  function NewQubitCountCriterion(n: int): (r: Result<QubitCountCriterion, QubitCountError>)
    ensures r.Success? <==> n > 0
    ensures r.Success? ==> r.value.limit == n
    ensures r.Failure? ==> r.error == NotPositive(n)
  {
    if n <= 0 then Failure(NotPositive(n)) else Success(QubitCountCriterion(n))
  }

  /** `validate`: fails exactly when the circuit's `qubit_count` exceeds
      the limit, and the error reports both numbers.  That count takes the
      distinct qubits of every instruction, measurements and noise included,
      together with the targets of observable result types. */
  function QubitCountValidate(crit: QubitCountCriterion, c: seq<Instruction>, rts: seq<ResultType>): (r: Outcome<QubitCountError>)
    ensures r.Pass? <==> |UsedQubits(c, rts)| <= crit.limit
    ensures r.Fail? ==> r.error.TooManyQubits? && r.error.limit == crit.limit && r.error.used > crit.limit
    ensures r.Fail? ==> r.error.used == |UsedQubits(c, rts)|
  {
    var used := |UsedQubits(c, rts)|;
    if used > crit.limit then Fail(TooManyQubits(crit.limit, used)) else Pass
  }

  /** Dropping instructions from the end never adds qubits, so a prefix of
      a passing circuit, with the same result types, passes. */
  lemma PrefixPasses(crit: QubitCountCriterion, c: seq<Instruction>, rts: seq<ResultType>, n: nat)
    requires n <= |c|
    requires QubitCountValidate(crit, c, rts).Pass?
    ensures QubitCountValidate(crit, c[..n], rts).Pass?
  {
    assert UsedQubits(c[..n], rts) <= UsedQubits(c, rts) by {
      forall q | q in CircuitQubits(c[..n])
        ensures q in CircuitQubits(c)
      {
        var k :| 0 <= k < n && q in InstructionQubits(c[..n][k]);
        assert c[..n][k] == c[k];
      }
    }
    SubsetSize(UsedQubits(c[..n], rts), UsedQubits(c, rts));
  }

  /** Appending an instruction on qubits the circuit already uses keeps the
      verdict. */
  lemma ReusingQubitsKeepsVerdict(crit: QubitCountCriterion, c: seq<Instruction>, rts: seq<ResultType>, ins: Instruction)
    requires InstructionQubits(ins) <= UsedQubits(c, rts)
    ensures QubitCountValidate(crit, c + [ins], rts) == QubitCountValidate(crit, c, rts)
  {
    var d := c + [ins];
    assert UsedQubits(d, rts) == UsedQubits(c, rts) by {
      forall q | q in CircuitQubits(d)
        ensures q in UsedQubits(c, rts)
      {
        var k :| 0 <= k < |d| && q in InstructionQubits(d[k]);
        if k < |c| {
          assert d[k] == c[k];
        }
      }
      forall q | q in CircuitQubits(c)
        ensures q in CircuitQubits(d)
      {
        var k :| 0 <= k < |c| && q in InstructionQubits(c[k]);
        assert d[k] == c[k];
      }
    }
  }

  /** A larger limit accepts everything a smaller one does. */
  lemma LargerLimitAccepts(a: QubitCountCriterion, b: QubitCountCriterion, c: seq<Instruction>, rts: seq<ResultType>)
    requires a.limit <= b.limit
    requires QubitCountValidate(a, c, rts).Pass?
    ensures QubitCountValidate(b, c, rts).Pass?
  {
  }

  /** The count is not just the gates: a Hadamard on qubit 0 with an
      observable on qubit 1, or with a measurement of qubit 1, uses two
      qubits and is rejected under a limit of one, while the Hadamard alone
      passes. */
  lemma NonGateQubitsCount()
    ensures QubitCountValidate(QubitCountCriterion(1), [Gate("h", 1, [], [0])], []) == Pass
    ensures QubitCountValidate(QubitCountCriterion(1), [Gate("h", 1, [], [0])], [ResultType(true, [1])])
      == Fail(TooManyQubits(1, 2))
    ensures QubitCountValidate(QubitCountCriterion(1), [Gate("h", 1, [], [0]), Other([1])], [])
      == Fail(TooManyQubits(1, 2))
  {
    var h := [Gate("h", 1, [], [0])];
    assert InstructionQubits(h[0]) == {0};
    assert UsedQubits(h, []) == {0};
    assert ResultTypeQubits([ResultType(true, [1])]) == {1} by {
      var rts := [ResultType(true, [1])];
      assert 1 in rts[0].targets;
    }
    assert UsedQubits(h, [ResultType(true, [1])]) == {0, 1};
    var hm := [Gate("h", 1, [], [0]), Other([1])];
    assert InstructionQubits(hm[1]) == {1};
    assert hm[1..] == [Other([1])];
    assert UsedQubits(hm, []) == {0, 1};
  }

  lemma {:induction false} SubsetSize<T>(a: set<T>, b: set<T>)
    requires a <= b
    ensures |a| <= |b|
    decreases |b|
  {
    if a != {} {
      var x :| x in a;
      SubsetSize(a - {x}, b - {x});
    }
  }
}
