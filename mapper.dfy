/**
 * The orchestration layer: the process-wide mode count and the mapper object
 * with its per-instance pair-table cache.
 *
 * `bk_majoranas` and `anneal` are not modelled here; they are passed in as
 * functions. The randomness of annealing belongs to the function handed to
 * each call, so two calls may receive different ones.
 */
module Mapper {
  import opened Wrappers
  import opened MapperTypes
  import opened Paulis
  import opened Strategy
  import opened Terms

  /** The cooling rate passed to the annealer. */
  const CoolingRate: real := 0.99995

  /** The arguments of one call to `anneal`. */
  datatype AnnealCall = AnnealCall(initial: Tableau, explore: Explore, energy: Energy, coolingRate: real)

  /** `bk_majoranas(N)`: the initial tableau for N modes. */
  type BkOracle = int -> Tableau

  /** `anneal(...)`: the optimised tableau returned for one call. */
  type AnnealOracle = AnnealCall -> Tableau

  /** `obtain_n() or register_length`: the configured count unless it is 0. */
  function EffectiveN(configured: int, registerLength: int): int {
    if configured != 0 then configured else registerLength
  }

  predicate AllPhasesZero(table: seq<PauliPair>) {
    forall p :: p in table ==> p.first.phase == 0 && p.second.phase == 0
  }

  /** Lines 102-117 once the table is known: every mode of the register must
      have a pair (line 103 indexes `pauli_table[i]` for each of them), then
      the items are translated one by one. */
  function MapWithTable(terms: seq<Term>, len: int, table: seq<PauliPair>): Result<seq<Summand>, MapperError> {
    if |table| < ModeCount(len) then Err(TableTooShort(|table|, len))
    else MapTerms(terms, len, table)
  }

  /** The module-level mode count `_n`. */
  class Config {
    var n: int

    constructor ()
      ensures n == 0
    {
      n := 0;
    }

    /** `obtain_n()`. */
    function ObtainN(): int
      reads this
    {
      n
    }

    /** `set_n(new_n)`: the last write wins. */
    method SetN(newN: int)
      modifies this
      ensures ObtainN() == newN
    {
      n := newN;
    }
  }

  class MajoranaMapper {
    var strategy: string
    var couplingMap: Option<CouplingMap>
    var hamiltonian: Option<FermionicOp>
    var cachedTable: Option<seq<PauliPair>>
    var cachedN: Option<int>
    /** Every call this object has made to `anneal`, in order. */
    ghost var annealLog: seq<AnnealCall>

    constructor (strategy: string, couplingMap: Option<CouplingMap>, hamiltonian: Option<FermionicOp>)
      ensures this.strategy == strategy && this.couplingMap == couplingMap && this.hamiltonian == hamiltonian
      ensures Valid()
      ensures cachedTable == None && cachedN == None && annealLog == []
    {
      this.strategy := strategy;
      this.couplingMap := couplingMap;
      this.hamiltonian := hamiltonian;
      cachedTable := None;
      cachedN := None;
      annealLog := [];
    }

    /** `MajoranaMapper()` with its default arguments. */
    constructor Default()
      ensures strategy == "baseline" && couplingMap == None && hamiltonian == None
      ensures Valid()
      ensures cachedTable == None && cachedN == None && annealLog == []
    {
      strategy := "baseline";
      couplingMap := None;
      hamiltonian := None;
      cachedTable := None;
      cachedN := None;
      annealLog := [];
    }

    /** The cache holds a table exactly when it holds its N, and every
        operator in a cached table has phase 0. */
    ghost predicate Valid()
      reads this
    {
      (cachedTable.Some? <==> cachedN.Some?) &&
      (cachedTable.Some? ==> AllPhasesZero(cachedTable.value))
    }

    /** A call with mode count `n` would be answered from the cache. */
    predicate Hit(n: int)
      reads this
    {
      cachedTable.Some? && cachedN == Some(n)
    }

    /** `pauli_table(register_length)`. */
    method PauliTable(config: Config, registerLength: int, bk: BkOracle, anneal: AnnealOracle)
      returns (r: Result<seq<PauliPair>, MapperError>)
      requires Valid()
      modifies this`cachedTable, this`cachedN, this`annealLog
      ensures Valid()
      ensures r.Ok? ==> AllPhasesZero(r.value)
      // cache hit: the stored table, no annealing, nothing changes
      ensures old(Hit(EffectiveN(config.n, registerLength))) ==>
        r == Ok(old(cachedTable).value) &&
        cachedTable == old(cachedTable) && cachedN == old(cachedN) && annealLog == old(annealLog)
      // the dispatch fails: the error, no annealing, nothing changes
      ensures !old(Hit(EffectiveN(config.n, registerLength))) &&
              SelectStrategy(strategy, couplingMap, hamiltonian).Err? ==>
        r == Err(SelectStrategy(strategy, couplingMap, hamiltonian).error) &&
        cachedTable == old(cachedTable) && cachedN == old(cachedN) && annealLog == old(annealLog)
      // cache miss: exactly one annealing run, its pairs returned and cached under N
      ensures !old(Hit(EffectiveN(config.n, registerLength))) &&
              SelectStrategy(strategy, couplingMap, hamiltonian).Ok? ==>
        var n := EffectiveN(config.n, registerLength);
        var sel := SelectStrategy(strategy, couplingMap, hamiltonian).value;
        var call := AnnealCall(bk(n), sel.explore, sel.energy, CoolingRate);
        r == Ok(PairsOf(FromSymplectic(anneal(call)))) &&
        annealLog == old(annealLog) + [call] &&
        cachedTable == Some(r.value) && cachedN == Some(n)
      // whatever happened, a successful call leaves its result cached under N
      ensures r.Ok? ==> Hit(EffectiveN(config.n, registerLength)) && cachedTable == Some(r.value)
    {
      var n := EffectiveN(config.ObtainN(), registerLength);
      if cachedTable.Some? && cachedN == Some(n) {
        return Ok(cachedTable.value);
      }
      var initial := bk(n);
      var energy := QuadraticTermMeanWeight;
      var explore := SpreadNode;
      if strategy == ConnectivityName && couplingMap.Some? {
        energy := ConnectivityAwareCost(couplingMap.value.distances);
      } else if strategy == SubspaceName && hamiltonian.Some? && |hamiltonian.value.terms| > 0 {
        var indices := ExtractIndices(hamiltonian.value.terms);
        if indices.Err? {
          return Err(indices.error);
        }
        if |indices.value| > 0 {
          if !FitsInt64(indices.value) {
            return Err(Int64Overflow);
          }
          energy := SubspaceOptimizedCost(indices.value);
        }
      } else if strategy == CliffordName {
        explore := CliffordJump;
      }
      var call := AnnealCall(initial, explore, energy, CoolingRate);
      annealLog := annealLog + [call];
      var annealed := anneal(call);
      var table := BuildPairTable(FromSymplectic(annealed));
      cachedTable := Some(table);
      cachedN := Some(n);
      r := Ok(table);
    }

    /** `_map_single(second_q_op, register_length)`, up to the final `simplify()`. */
    method MapSingle(config: Config, op: FermionicOp, registerLength: Option<int>, bk: BkOracle, anneal: AnnealOracle)
      returns (r: Result<seq<Summand>, MapperError>)
      requires Valid()
      modifies this`cachedTable, this`cachedN, this`annealLog
      ensures Valid()
      // cache hit: the stored table is used, no annealing, nothing changes
      ensures var len := if registerLength.Some? then registerLength.value else op.registerLength;
        old(Hit(EffectiveN(config.n, len))) ==>
          r == MapWithTable(op.terms, len, old(cachedTable).value) &&
          cachedTable == old(cachedTable) && cachedN == old(cachedN) && annealLog == old(annealLog)
      // the dispatch fails: the error, no annealing, nothing changes
      ensures var len := if registerLength.Some? then registerLength.value else op.registerLength;
        !old(Hit(EffectiveN(config.n, len))) && SelectStrategy(strategy, couplingMap, hamiltonian).Err? ==>
          r == Err(SelectStrategy(strategy, couplingMap, hamiltonian).error) &&
          cachedTable == old(cachedTable) && cachedN == old(cachedN) && annealLog == old(annealLog)
      // cache miss: one annealing run, whose pairs are cached under N and used
      ensures var len := if registerLength.Some? then registerLength.value else op.registerLength;
        !old(Hit(EffectiveN(config.n, len))) && SelectStrategy(strategy, couplingMap, hamiltonian).Ok? ==>
          var n := EffectiveN(config.n, len);
          var sel := SelectStrategy(strategy, couplingMap, hamiltonian).value;
          var call := AnnealCall(bk(n), sel.explore, sel.energy, CoolingRate);
          var table := PairsOf(FromSymplectic(anneal(call)));
          r == MapWithTable(op.terms, len, table) &&
          annealLog == old(annealLog) + [call] &&
          cachedTable == Some(table) && cachedN == Some(n)
    {
      var len := if registerLength.Some? then registerLength.value else op.registerLength;
      var table := PauliTable(config, len, bk, anneal);
      if table.Err? {
        return Err(table.error);
      }
      if |table.value| < ModeCount(len) {
        return Err(TableTooShort(|table.value|, len));
      }
      r := TranslateTerms(op.terms, len, table.value);
    }
  }

  /** `set_n(4); obtain_n() == 4; set_n(8); obtain_n() == 8`. */
  method NManagementScenario() returns (first: int, second: int)
    ensures first == 4 && second == 8
  {
    var config := new Config();
    config.SetN(4);
    first := config.ObtainN();
    config.SetN(8);
    second := config.ObtainN();
  }

  /** `set_n(4)`, a default mapper, `pauli_table(register_length=4)`: one
      baseline annealing run on `bk_majoranas(4)`, and four pairs from eight rows. */
  method DefaultTableScenario(bk: BkOracle, anneal: AnnealOracle) returns (r: Result<seq<PauliPair>, MapperError>)
    ensures var call := AnnealCall(bk(4), SpreadNode, QuadraticTermMeanWeight, CoolingRate);
      r == Ok(PairsOf(FromSymplectic(anneal(call))))
    ensures r.Ok? && |r.value| == |anneal(AnnealCall(bk(4), SpreadNode, QuadraticTermMeanWeight, CoolingRate))| / 2
    ensures forall p :: p in r.value ==> p.first.phase == 0 && p.second.phase == 0
  {
    var config := new Config();
    config.SetN(4);
    var mapper := new MajoranaMapper.Default();
    r := mapper.PauliTable(config, 4, bk, anneal);
  }

  /** Two calls with the same effective N: the second is answered from the
      cache, whatever the annealer would have returned the second time. */
  method RepeatedCallScenario(config: Config, strategy: string, couplingMap: Option<CouplingMap>,
                              hamiltonian: Option<FermionicOp>, registerLength: int,
                              bk: BkOracle, anneal1: AnnealOracle, anneal2: AnnealOracle)
    returns (first: Result<seq<PauliPair>, MapperError>, second: Result<seq<PauliPair>, MapperError>, ghost calls: nat)
    ensures second == first
    ensures calls == if first.Ok? then 1 else 0
  {
    var mapper := new MajoranaMapper(strategy, couplingMap, hamiltonian);
    first := mapper.PauliTable(config, registerLength, bk, anneal1);
    second := mapper.PauliTable(config, registerLength, bk, anneal2);
    calls := |mapper.annealLog|;
  }

  /** The cache is keyed on N alone: after the strategy and the Hamiltonian
      change, a call with the same N still returns the table built before. */
  method StaleCacheScenario(config: Config, couplingMap: Option<CouplingMap>, hamiltonian: Option<FermionicOp>,
                            registerLength: int, bk: BkOracle, anneal1: AnnealOracle, anneal2: AnnealOracle)
    returns (first: Result<seq<PauliPair>, MapperError>, second: Result<seq<PauliPair>, MapperError>)
    ensures first.Ok? && second == first
  {
    var mapper := new MajoranaMapper("baseline", None, None);
    first := mapper.PauliTable(config, registerLength, bk, anneal1);
    mapper.strategy := CliffordName;
    mapper.couplingMap := couplingMap;
    mapper.hamiltonian := hamiltonian;
    second := mapper.PauliTable(config, registerLength, bk, anneal2);
  }
}
