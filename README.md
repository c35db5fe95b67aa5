# Majorana mapper orchestration, modelled in Dafny

This project models the orchestration layer of `MajoranaMapper`. That layer turns an annealed
symplectic tableau into a table of Pauli pairs, one pair per fermionic mode. It then uses that table
to translate fermionic terms such as `"+_0 -_1"` into products of creation and annihilation operators.

What is modelled:

- **Mode count.** The module-level mode count `_n` with `set_n` and `obtain_n` is the class `Mapper.Config`.
- **Mapper object.** `Mapper.MajoranaMapper` holds the strategy, the optional coupling map and the
  optional Hamiltonian, plus the per-instance cache (`cachedTable`, `cachedN`).
  - A ghost log `annealLog` records every call to the annealer with its arguments.
  - The contracts say when annealing happens (a cache miss) and when it does not (a cache hit, or a
    dispatch error).
- **Effective N.** The effective N is `obtain_n() or register_length` (`Mapper.EffectiveN`): the
  configured count unless it is 0.
- **Strategy dispatch.** Lines 51-67 choose an `Energy` (cost function plus the side data it uses) and
  an `Explore` (move function), in module `Strategy`.
- **Index extraction.** For the subspace strategy, the active index pairs come from the Hamiltonian's keys.
  - Only keys that split into exactly two tokens are kept.
  - Each token's index is `int(token.split('_')[1])`.
  - The loop is a method proved equal to a recursive reference definition. A lemma then characterises
    that definition index by index.
- **Pair table.** The operators are split into two halves, the halves are zipped, and every phase is
  set to 0 (`Paulis.BuildPairTable`).
- **Token loop of `_map_single`.** A `+` token selects the creation operator of its mode; any other
  token selects the annihilation operator.
  - Operators are composed left to right.
  - The weighted terms are accumulated in iteration order (module `Terms`).
- **Python string built-ins.** The code relies on `str.split()`, `str.split('_')` and `int()`,
  modelled in module `PyStr`. Round-trip lemmas tie each split to a join. The decimal rendering
  `ShowInt` is not used by the code. It exists only to build tokens such as `"+_3"` for the round-trip
  lemmas `int(str(i)) == i` and `Terms.KeyRoundTrip`.

**Error paths.** Every exception the orchestration code itself can raise is an `Err` of `MapperError`,
not a precondition:

- a token without `_` (IndexError);
- a field `int()` rejects (ValueError);
- an index outside the int64 range when the index list becomes an `np.int64` array (OverflowError);
- a pair table shorter than `register_length` at lines 103-104 (IndexError);
- a mode index outside the operator list at lines 114-116 (IndexError).

Python's negative list indexing is modelled: index `-1` selects the last mode (`Terms.ListIndex`).

**External calls.** `bk_majoranas` and `anneal` are function-valued parameters of `PauliTable`.
Annealing is random, but that randomness belongs to the function passed to each call. So two calls
may get different annealers, and the cache contract says which one's result is returned.

**Edge cases of the code:**

- The configured mode count wins over `register_length` whenever it is non-zero, so a negative
  configured count is used as it is.
- The pair table has `len(rows) // 2` pairs of whatever the annealer returns. For an odd row count the
  last operator is in no pair (`Paulis.PairsOfUnzip`). The table has N pairs when the annealer returns 2N rows.
- For the subspace strategy, a Hamiltonian whose extracted index list is empty keeps the baseline cost.
  A token of a two-token key that does not parse raises, and the table is not built. Keys of any other token count are skipped without their tokens being parsed.
- The cache is keyed on N alone. `Mapper.StaleCacheScenario` proves that changing the strategy and the
  Hamiltonian does not invalidate it.
- Every operator the cache ever holds has phase 0, because the cache is written only with a freshly
  built pair table (`MajoranaMapper.Valid`).

## Model

| member | source | states |
|---|---|---|
| `Mapper.Config.constructor` | src/majorana_mapper/majorana_mapper.py:19-20 | the mode count starts at 0 |
| `Mapper.Config.SetN` | src/majorana_mapper/majorana_mapper.py:22-27 | after `set_n(k)`, `obtain_n()` returns k |
| `Mapper.NManagementScenario` | tests/test_majorana_mapper.py:5-9 | two writes in a row: each read returns the last value written (4, then 8) |
| `Mapper.MajoranaMapper.constructor` | src/majorana_mapper/majorana_mapper.py:32-38 | stores strategy, coupling map and Hamiltonian; the cache starts empty and nothing has been annealed |
| `Mapper.MajoranaMapper.Default` | src/majorana_mapper/majorana_mapper.py:32-38 | the default arguments: strategy "baseline", no coupling map, no Hamiltonian, empty cache |
| `Mapper.MajoranaMapper.PauliTable` | src/majorana_mapper/majorana_mapper.py:40-87 | N is the configured count when non-zero, else `register_length`. Hit (table cached for N): that table is returned and nothing changes, not even the anneal log. Dispatch error: it is returned and nothing changes. Miss: exactly one anneal call, on `bk_majoranas(N)` with the selected move and cost functions and rate 0.99995; the pairs of its result are returned and cached under N. A successful call always leaves a hit for N. It keeps the cache invariant (a table is cached iff its N is, and every cached operator has phase 0), so every returned operator has phase 0 |
| `Mapper.MajoranaMapper.MapSingle` | src/majorana_mapper/majorana_mapper.py:90-117 | `register_length` defaults to the operator's own. The same three cases as `pauli_table` with that length. Hit: the cached table is used and nothing changes. Dispatch error: that error, nothing changes. Miss: one anneal call, whose pairs are cached under N and used. With the table used: an error if it has fewer pairs than `register_length` (line 103), else the term-by-term translation over it. Keeps the cache invariant |
| `Mapper.DefaultTableScenario` | tests/test_majorana_mapper.py:11-21 | with N set to 4, a default mapper makes one baseline annealing run on `bk_majoranas(4)`. It returns half as many pairs as the annealer returns rows (4 from 8), each operator with phase 0 |
| `Mapper.RepeatedCallScenario` | src/majorana_mapper/majorana_mapper.py:44-87 | two calls with the same effective N return the same result, whatever the annealer would return the second time. The annealer runs once if the first call succeeded and not at all if it failed |
| `Mapper.StaleCacheScenario` | src/majorana_mapper/majorana_mapper.py:44-46 | the cache is keyed on N only: after the strategy, coupling map and Hamiltonian change, a second call with the same N returns the first table |
| `Strategy.SelectStrategy` | src/majorana_mapper/majorana_mapper.py:51-67 | the default is (baseline cost, spread_node). Cost is connectivity-aware iff strategy "connectivity" and a coupling map is present, using its distances. Cost is subspace iff strategy "subspace", a Hamiltonian, and a non-empty extracted list, which is the cost's data. Explore is clifford_jump iff strategy "clifford_assisted". Errors only from subspace extraction (its first failing token's error) or, failing that, int64 overflow. Any other name gives the defaults |
| `Strategy.TwoTokenKeys` | src/majorana_mapper/majorana_mapper.py:59-61 | every kept key has exactly two tokens, and there are never more kept keys than items |
| `Strategy.TwoTokenKeysSingle` | src/majorana_mapper/majorana_mapper.py:59-61 | a single item is kept, as its two tokens, exactly when its key splits into two tokens |
| `Strategy.TwoTokenKeysAppend` | src/majorana_mapper/majorana_mapper.py:59-61 | the filter of a concatenation is the concatenation of the filters: the kept keys come in iteration order |
| `Strategy.ExtractIndices` | src/majorana_mapper/majorana_mapper.py:58-62 | the appending loop computes exactly the reference extraction `ActiveIndices`, including its first error |
| `Strategy.ActiveIndicesSpec` | src/majorana_mapper/majorana_mapper.py:58-62 | extraction succeeds iff both tokens of every two-token key parse. Then there is one pair per two-token key, and pair k holds the two parsed indices of the k-th such key |
| `Labels.ParseIndex` | src/majorana_mapper/majorana_mapper.py:62 | a token without `_` is the IndexError case (no other outcome has it). With a `_`, it succeeds iff `int()` accepts the field after the first `_`, giving that value; otherwise it is the ValueError case for that field |
| `Labels.ParseIndexOfToken` | src/majorana_mapper/majorana_mapper.py:62 | every token rendered as sign, `_`, decimal index parses back to that index and contains no whitespace |
| `Paulis.BuildPairTable` | src/majorana_mapper/majorana_mapper.py:77-82 | from L operators: L//2 pairs. Pair i is (operator i, operator L//2+i), phases zeroed. Every operator in the table has phase 0 |
| `Paulis.PairsOfUnzip` | src/majorana_mapper/majorana_mapper.py:78-82 | the first components of the table followed by the second components are the input operators with phases zeroed, the odd last one dropped |
| `Terms.ListIndex` | src/majorana_mapper/majorana_mapper.py:114-116 | list indexing succeeds iff `-len <= idx < len`, selecting idx or idx+len |
| `Terms.ResolveToken` | src/majorana_mapper/majorana_mapper.py:112-116 | a token's operator is for the mode its parsed index selects and uses that pair-table entry. It is creation iff the token starts with `+`. It succeeds iff the index parses and lies in `[-len, len)`; parse errors and out-of-range indices are the corresponding errors |
| `Terms.ResolveTokensSpec` | src/majorana_mapper/majorana_mapper.py:111-116 | a term translates iff every token does. Then it has one factor per token, factor k being token k's operator (left-to-right composition) |
| `Terms.ComposeTerm` | src/majorana_mapper/majorana_mapper.py:110-116 | the inner loop computes exactly the reference translation of the key's tokens |
| `Terms.KeyRoundTrip` | src/majorana_mapper/majorana_mapper.py:109-116 | translating the key rendered from a sequence of in-range factors (e.g. "+_0 -_1") gives those factors back |
| `Terms.TranslateTerms` | src/majorana_mapper/majorana_mapper.py:107-117 | the outer loop computes exactly the reference mapping `MapTerms` of all items |
| `Terms.MapTermsSpec` | src/majorana_mapper/majorana_mapper.py:108-117 | mapping succeeds iff every item translates. Then addend k is coefficient k times the factors of key k, in iteration order |
| `PyStr.Split` | src/majorana_mapper/majorana_mapper.py:60 | every word of `str.split()` is non-empty and whitespace-free |
| `PyStr.SplitJoin` | src/majorana_mapper/majorana_mapper.py:60 | splitting non-empty, whitespace-free words joined by spaces gives the words back |
| `PyStr.SplitOn` | src/majorana_mapper/majorana_mapper.py:62 | `s.split(sep)` has at least one field and no field contains sep. It has a second field iff sep occurs in s |
| `PyStr.JoinSplitOn` | src/majorana_mapper/majorana_mapper.py:62 | joining the fields with the separator gives the string back |
| `PyStr.SplitOnJoin` | src/majorana_mapper/majorana_mapper.py:62 | splitting separator-free fields joined by the separator gives the fields back |
| `PyStr.ParseShowInt` | src/majorana_mapper/majorana_mapper.py:62 | `int(str(i)) == i` for every integer |

## Left out

- Mapper.MajoranaMapper.MapSingle: when the configured N is non-zero and differs from `register_length`, the pair-table operators act on N qubits while `term_op` starts on `register_length` qubits. The library's `compose` at lines 114/116 then raises on the mismatch, but the model returns `Ok`, because qubit counts belong to the operator algebra, which is not modelled.
- The bodies of `bk_majoranas`, `anneal`, `spread_node`, `clifford_jump`, `quadratic_term_mean_weight`, `connectivity_aware_cost` and `subspace_optimized_cost`: these modules are not part of this model. The first two are parameters; the others appear only as the names the dispatch selects.
- The operator algebra of the quantum library: `SparsePauliOp` construction, the ½(P1 ∓ iP2) combination, `compose`, `+=`, the identity seed `"I" * n`, and `simplify()`. These are foreign calls with complex floating-point coefficients. A composed term is the ordered sequence of its factors, and the mapped operator is the ordered list of (coefficient, factors) addends.
- `PauliList.from_symplectic` is reduced to one operator per row with group phase 0. Its check that the X and Z arrays have the same shape is not modelled: a tableau here is a sequence of rows.
- The conversion of the coupling map's distance matrix to a float array (line 55): the distances are carried as they are.
- The truth value of a `CouplingMap` object is modelled as "not None"; whether an empty coupling map is false is left to the library. A `FermionicOp` is a mapping, so it is true iff it has an item.
- `Config.ObtainN` returns the configured value; it carries no contract of its own beyond `SetN`'s.
- `PyStr.ParseInt` covers `int()` on ASCII digits with an optional sign. It leaves out Unicode digits, surrounding whitespace (a token from `split()` has none) and `_` separators (a field from `split('_')` has none). `PyStr.IsSpace` covers ASCII whitespace only.
- The `print` at line 48 (I/O) and the `x.copy()` at line 70, which has no observable effect here.
- Aliasing: the cached list is returned by reference, so a caller who mutates it changes the cache. The model returns values.
- The qiskit base class `FermionicMapper` and its other entry points; the benchmark scripts, the example program and the test file. The test file's asserted properties appear as the two scenario methods.
- Concurrency: the mode count and the cache are unsynchronised shared state in the source; the model is sequential.
