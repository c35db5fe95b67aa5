/**
 * Choosing the cost ("energy") and move ("explore") functions handed to the
 * annealer, and extracting the active index pairs of a Hamiltonian for the
 * subspace strategy.
 */
module Strategy {
  import opened Wrappers
  import opened PyStr
  import opened MapperTypes
  import opened Labels

  const ConnectivityName := "connectivity"
  const SubspaceName := "subspace"
  const CliffordName := "clifford_assisted"

  const Int64Min: int := -0x8000_0000_0000_0000
  const Int64Max: int := 0x7FFF_FFFF_FFFF_FFFF

  /** The mode indices of one two-operator term, `[i, j]`. */
  datatype IndexPair = IndexPair(i: int, j: int)

  /** The cost function and the side data it closes over. */
  datatype Energy =
    | QuadraticTermMeanWeight
    | ConnectivityAwareCost(distances: seq<seq<real>>)
    | SubspaceOptimizedCost(active: seq<IndexPair>)

  /** The move function. */
  datatype Explore = SpreadNode | CliffordJump

  datatype Selection = Selection(energy: Energy, explore: Explore)

  const DefaultSelection := Selection(QuadraticTermMeanWeight, SpreadNode)

  /** The keys that split into exactly two tokens, split, in iteration order. */
  function TwoTokenKeys(terms: seq<Term>): (r: seq<seq<string>>)
    ensures forall k :: 0 <= k < |r| ==> |r[k]| == 2
    ensures |r| <= |terms|
    decreases |terms|
  {
    if terms == [] then []
    else
      var ops := Split(terms[|terms| - 1].key);
      TwoTokenKeys(terms[..|terms| - 1]) + (if |ops| == 2 then [ops] else [])
  }

  /** A single item is kept, split, exactly when its key has two tokens. */
  lemma TwoTokenKeysSingle(t: Term)
    ensures TwoTokenKeys([t]) == if |Split(t.key)| == 2 then [Split(t.key)] else []
  {
    assert [t][..0] == [];
  }

  /** The filter keeps the order of the items: it distributes over concatenation. */
  lemma {:induction false} TwoTokenKeysAppend(a: seq<Term>, b: seq<Term>)
    ensures TwoTokenKeys(a + b) == TwoTokenKeys(a) + TwoTokenKeys(b)
    decreases |b|
  {
    if b == [] {
      assert a + b == a;
    } else {
      var init, last := b[..|b| - 1], b[|b| - 1];
      var ops := Split(last.key);
      var tail := if |ops| == 2 then [ops] else [];
      assert (a + b)[..|a + b| - 1] == a + init;
      assert (a + b)[|a + b| - 1] == last;
      assert TwoTokenKeys(a + b) == TwoTokenKeys(a + init) + tail;
      assert TwoTokenKeys(b) == TwoTokenKeys(init) + tail;
      TwoTokenKeysAppend(a, init);
      assert TwoTokenKeys(a) + TwoTokenKeys(init) + tail == TwoTokenKeys(a) + (TwoTokenKeys(init) + tail);
    }
  }

  /** The index list of lines 58-62: for every key of exactly two tokens, in
      order, the indices of both tokens; the first token that does not parse
      aborts the extraction. */
  function ActiveIndices(terms: seq<Term>): Result<seq<IndexPair>, MapperError>
    decreases |terms|
  {
    if terms == [] then Ok([])
    else
      match ActiveIndices(terms[..|terms| - 1])
      case Err(e) => Err(e)
      case Ok(acc) =>
        var ops := Split(terms[|terms| - 1].key);
        if |ops| != 2 then Ok(acc)
        else
          match ParseIndex(ops[0])
          case Err(e) => Err(e)
          case Ok(i) =>
            match ParseIndex(ops[1])
            case Err(e) => Err(e)
            case Ok(j) => Ok(acc + [IndexPair(i, j)])
  }

  predicate PairParses(ops: seq<string>)
    requires |ops| == 2
  {
    ParseIndex(ops[0]).Ok? && ParseIndex(ops[1]).Ok?
  }

  /** Both tokens of every two-token key parse. */
  predicate AllPairsParse(terms: seq<Term>) {
    var keys := TwoTokenKeys(terms);
    forall k :: 0 <= k < |keys| ==> PairParses(keys[k])
  }

  /** Extraction succeeds exactly when every token of every two-token key
      parses, and then pair k holds the indices of the k-th two-token key. */
  lemma {:induction false} ActiveIndicesSpec(terms: seq<Term>)
    ensures ActiveIndices(terms).Ok? <==> AllPairsParse(terms)
    ensures var keys := TwoTokenKeys(terms);
      ActiveIndices(terms).Ok? ==>
        |ActiveIndices(terms).value| == |keys| &&
        forall k :: 0 <= k < |keys| ==>
          ActiveIndices(terms).value[k] ==
            IndexPair(ParseIndex(keys[k][0]).value, ParseIndex(keys[k][1]).value)
    decreases |terms|
  {
    if terms != [] {
      var init := terms[..|terms| - 1];
      ActiveIndicesSpec(init);
      var ops := Split(terms[|terms| - 1].key);
      var keys, initKeys := TwoTokenKeys(terms), TwoTokenKeys(init);
      var whole, prev := ActiveIndices(terms), ActiveIndices(init);
      if |ops| != 2 {
        assert keys == initKeys;
        assert whole == prev;
      } else {
        assert keys == initKeys + [ops];
        assert forall k :: 0 <= k < |initKeys| ==> keys[k] == initKeys[k];
        assert keys[|initKeys|] == ops;
        if prev.Ok? && PairParses(ops) {
          var p := IndexPair(ParseIndex(ops[0]).value, ParseIndex(ops[1]).value);
          assert whole == Ok(prev.value + [p]);
          assert whole.value[|initKeys|] == p;
        } else if prev.Ok? {
          assert whole.Err?;
          assert !PairParses(keys[|initKeys|]);
        } else {
          assert whole.Err?;
        }
      }
    }
  }

  /** An error in a prefix of the items is the error of the whole extraction. */
  lemma {:induction false} ActiveIndicesErrorPersists(terms: seq<Term>, n: nat)
    requires n <= |terms|
    requires ActiveIndices(terms[..n]).Err?
    ensures ActiveIndices(terms) == ActiveIndices(terms[..n])
    decreases |terms|
  {
    if n < |terms| {
      var init := terms[..|terms| - 1];
      assert init[..n] == terms[..n];
      ActiveIndicesErrorPersists(init, n);
    } else {
      assert terms[..n] == terms;
    }
  }

  /** The loop of lines 58-62. */
  method ExtractIndices(terms: seq<Term>) returns (r: Result<seq<IndexPair>, MapperError>)
    ensures r == ActiveIndices(terms)
  {
    var indices: seq<IndexPair> := [];
    var n := 0;
    while n < |terms|
      invariant 0 <= n <= |terms|
      invariant ActiveIndices(terms[..n]) == Ok(indices)
    {
      assert terms[..n + 1][..n] == terms[..n];
      var ops := Split(terms[n].key);
      if |ops| == 2 {
        var i := ParseIndex(ops[0]);
        if i.Err? {
          ActiveIndicesErrorPersists(terms, n + 1);
          return Err(i.error);
        }
        var j := ParseIndex(ops[1]);
        if j.Err? {
          ActiveIndicesErrorPersists(terms, n + 1);
          return Err(j.error);
        }
        indices := indices + [IndexPair(i.value, j.value)];
      }
      n := n + 1;
    }
    assert terms[..n] == terms;
    r := Ok(indices);
  }

  /** `np.array(indices, dtype=np.int64)` accepts every index. */
  predicate FitsInt64(indices: seq<IndexPair>) {
    forall k :: 0 <= k < |indices| ==>
      Int64Min <= indices[k].i <= Int64Max && Int64Min <= indices[k].j <= Int64Max
  }

  /** The strategy dispatch of lines 51-67. A coupling map is present when it
      is not None; a Hamiltonian is present when it has at least one item. */
  function SelectStrategy(strategy: string, couplingMap: Option<CouplingMap>, hamiltonian: Option<FermionicOp>)
    : (r: Result<Selection, MapperError>)
    ensures r.Err? <==>
      strategy == SubspaceName && hamiltonian.Some? &&
      (ActiveIndices(hamiltonian.value.terms).Err? ||
       !FitsInt64(ActiveIndices(hamiltonian.value.terms).value))
    ensures r.Err? ==>
      r.error == if ActiveIndices(hamiltonian.value.terms).Err?
                 then ActiveIndices(hamiltonian.value.terms).error else Int64Overflow
    ensures r.Ok? ==> (r.value.explore == CliffordJump <==> strategy == CliffordName)
    ensures r.Ok? ==> (r.value.energy.ConnectivityAwareCost? <==>
      strategy == ConnectivityName && couplingMap.Some?)
    ensures r.Ok? && r.value.energy.ConnectivityAwareCost? ==>
      r.value.energy.distances == couplingMap.value.distances
    ensures r.Ok? ==> (r.value.energy.SubspaceOptimizedCost? <==>
      strategy == SubspaceName && hamiltonian.Some? && ActiveIndices(hamiltonian.value.terms).value != [])
    ensures r.Ok? && r.value.energy.SubspaceOptimizedCost? ==>
      r.value.energy.active == ActiveIndices(hamiltonian.value.terms).value
    ensures strategy !in {ConnectivityName, SubspaceName, CliffordName} ==> r == Ok(DefaultSelection)
  {
    if strategy == ConnectivityName && couplingMap.Some? then
      Ok(Selection(ConnectivityAwareCost(couplingMap.value.distances), SpreadNode))
    else if strategy == SubspaceName && hamiltonian.Some? && |hamiltonian.value.terms| > 0 then
      match ActiveIndices(hamiltonian.value.terms)
      case Err(e) => Err(e)
      case Ok(indices) =>
        if indices == [] then Ok(DefaultSelection)
        else if !FitsInt64(indices) then Err(Int64Overflow)
        else Ok(Selection(SubspaceOptimizedCost(indices), SpreadNode))
    else if strategy == CliffordName then
      Ok(Selection(QuadraticTermMeanWeight, CliffordJump))
    else
      Ok(DefaultSelection)
  }
}
