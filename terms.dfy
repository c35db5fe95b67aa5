/**
 * The term translation loop of `_map_single`: every token of a term key
 * selects the creation or annihilation operator of its mode, and the
 * selected operators are composed in token order. The operator algebra is
 * abstract: a composed term is the sequence of its factors, and each factor
 * names the pair-table entry its operator is built from.
 */
module Terms {
  import opened Wrappers
  import opened PyStr
  import opened MapperTypes
  import opened Paulis
  import opened Labels

  datatype Kind = Creation | Annihilation

  /** `creation_ops[mode]` or `annihilation_ops[mode]`: one half of
      (first -/+ i * second) of pair-table entry `pair`. */
  datatype Ladder = Ladder(kind: Kind, mode: nat, pair: PauliPair)

  /** One addend of the qubit operator: the coefficient and the composed factors. */
  datatype Summand = Summand(coeff: Complex, factors: seq<Ladder>)

  /** `len(range(n))`: the number of operators built for a register of length n. */
  function ModeCount(n: int): nat {
    if n < 0 then 0 else n
  }

  /** Python list indexing on a list of length `len`: negative indices count
      from the end; anything outside [-len, len) is an IndexError. */
  function ListIndex(index: int, size: nat): (r: Option<nat>)
    ensures r.Some? <==> -(size as int) <= index < size
    ensures r.Some? ==> r.value < size && (r.value == index || r.value == index + size)
  {
    if index < -(size as int) || index >= size then None
    else if index < 0 then Some(index + size)
    else Some(index)
  }

  /** The operator one token selects (lines 112-116): `+` in front means
      creation, anything else annihilation. */
  function ResolveToken(token: string, n: int, table: seq<PauliPair>): (r: Result<Ladder, MapperError>)
    requires ModeCount(n) <= |table|
    ensures r.Ok? <==> ParseIndex(token).Ok? && ListIndex(ParseIndex(token).value, ModeCount(n)).Some?
    ensures r.Ok? ==> ParseIndex(token).Ok? && ListIndex(ParseIndex(token).value, ModeCount(n)) == Some(r.value.mode)
    ensures r.Ok? ==> r.value.pair == table[r.value.mode]
    ensures r.Ok? ==> (r.value.kind == Creation <==> |token| > 0 && token[0] == '+')
    ensures ParseIndex(token).Err? ==> r == Err(ParseIndex(token).error)
    ensures ParseIndex(token).Ok? && ListIndex(ParseIndex(token).value, ModeCount(n)).None? ==>
      r == Err(ModeOutOfRange(ParseIndex(token).value))
  {
    match ParseIndex(token)
    case Err(e) => Err(e)
    case Ok(index) =>
      match ListIndex(index, ModeCount(n))
      case None => Err(ModeOutOfRange(index))
      case Some(mode) =>
        var kind := if |token| > 0 && token[0] == '+' then Creation else Annihilation;
        Ok(Ladder(kind, mode, table[mode]))
  }

  /** The factors of a token sequence, left to right; the first token that
      fails aborts the translation. */
  function ResolveTokens(tokens: seq<string>, n: int, table: seq<PauliPair>): Result<seq<Ladder>, MapperError>
    requires ModeCount(n) <= |table|
    decreases |tokens|
  {
    if tokens == [] then Ok([])
    else
      match ResolveTokens(tokens[..|tokens| - 1], n, table)
      case Err(e) => Err(e)
      case Ok(acc) =>
        match ResolveToken(tokens[|tokens| - 1], n, table)
        case Err(e) => Err(e)
        case Ok(op) => Ok(acc + [op])
  }

  function ResolveTerm(key: string, n: int, table: seq<PauliPair>): Result<seq<Ladder>, MapperError>
    requires ModeCount(n) <= |table|
  {
    ResolveTokens(Split(key), n, table)
  }

  /** A token sequence translates exactly when every token does, and then
      factor k is the operator token k selects: composition in token order. */
  lemma {:induction false} ResolveTokensSpec(tokens: seq<string>, n: int, table: seq<PauliPair>)
    requires ModeCount(n) <= |table|
    ensures ResolveTokens(tokens, n, table).Ok? <==>
      forall k :: 0 <= k < |tokens| ==> ResolveToken(tokens[k], n, table).Ok?
    ensures ResolveTokens(tokens, n, table).Ok? ==>
      |ResolveTokens(tokens, n, table).value| == |tokens| &&
      forall k :: 0 <= k < |tokens| ==>
        ResolveTokens(tokens, n, table).value[k] == ResolveToken(tokens[k], n, table).value
    decreases |tokens|
  {
    if tokens != [] {
      var init := tokens[..|tokens| - 1];
      ResolveTokensSpec(init, n, table);
      assert forall k :: 0 <= k < |init| ==> tokens[k] == init[k];
    }
  }

  lemma {:induction false} ResolveTokensErrorPersists(tokens: seq<string>, m: nat, n: int, table: seq<PauliPair>)
    requires ModeCount(n) <= |table|
    requires m <= |tokens|
    requires ResolveTokens(tokens[..m], n, table).Err?
    ensures ResolveTokens(tokens, n, table) == ResolveTokens(tokens[..m], n, table)
    decreases |tokens|
  {
    if m < |tokens| {
      var init := tokens[..|tokens| - 1];
      assert init[..m] == tokens[..m];
      ResolveTokensErrorPersists(init, m, n, table);
    } else {
      assert tokens[..m] == tokens;
    }
  }

  /** The inner loop of lines 110-116, building `term_op`. */
  method ComposeTerm(key: string, n: int, table: seq<PauliPair>) returns (r: Result<seq<Ladder>, MapperError>)
    requires ModeCount(n) <= |table|
    ensures r == ResolveTerm(key, n, table)
  {
    var tokens := Split(key);
    var termOp: seq<Ladder> := [];
    var k := 0;
    while k < |tokens|
      invariant 0 <= k <= |tokens|
      invariant ResolveTokens(tokens[..k], n, table) == Ok(termOp)
    {
      assert tokens[..k + 1][..k] == tokens[..k];
      var op := tokens[k];
      var index := ParseIndex(op);
      if index.Err? {
        ResolveTokensErrorPersists(tokens, k + 1, n, table);
        return Err(index.error);
      }
      var mode := ListIndex(index.value, ModeCount(n));
      if mode.None? {
        ResolveTokensErrorPersists(tokens, k + 1, n, table);
        return Err(ModeOutOfRange(index.value));
      }
      if |op| > 0 && op[0] == '+' {
        termOp := termOp + [Ladder(Creation, mode.value, table[mode.value])];
      } else {
        termOp := termOp + [Ladder(Annihilation, mode.value, table[mode.value])];
      }
      k := k + 1;
    }
    assert tokens[..k] == tokens;
    r := Ok(termOp);
  }

  /** The key that names a sequence of factors, e.g. "+_0 -_1". */
  function KeyOf(ops: seq<Ladder>): string {
    Join(seq(|ops|, k requires 0 <= k < |ops| => TokenText(ops[k].kind == Creation, ops[k].mode)), " ")
  }

  /** The token rendered for a factor selects that factor. */
  lemma ResolveTokenText(op: Ladder, n: int, table: seq<PauliPair>)
    requires ModeCount(n) <= |table|
    requires op.mode < ModeCount(n) && op.pair == table[op.mode]
    ensures ResolveToken(TokenText(op.kind == Creation, op.mode), n, table) == Ok(op)
  {
    ParseIndexOfToken(op.kind == Creation, op.mode);
  }

  /** Translating the key of a sequence of factors gives those factors back,
      provided each names a mode of the register and its own table entry. */
  lemma KeyRoundTrip(ops: seq<Ladder>, n: int, table: seq<PauliPair>)
    requires ModeCount(n) <= |table|
    requires forall k :: 0 <= k < |ops| ==> ops[k].mode < ModeCount(n) && ops[k].pair == table[ops[k].mode]
    ensures ResolveTerm(KeyOf(ops), n, table) == Ok(ops)
  {
    var tokens := seq(|ops|, k requires 0 <= k < |ops| => TokenText(ops[k].kind == Creation, ops[k].mode));
    forall k | 0 <= k < |ops| ensures tokens[k] != [] && NoSpace(tokens[k]) {
      ParseIndexOfToken(ops[k].kind == Creation, ops[k].mode);
    }
    forall k | 0 <= k < |ops| ensures ResolveToken(tokens[k], n, table) == Ok(ops[k]) {
      ResolveTokenText(ops[k], n, table);
    }
    SplitJoin(tokens);
    assert Split(KeyOf(ops)) == tokens;
    ResolveTokensSpec(tokens, n, table);
    var r := ResolveTokens(tokens, n, table);
    assert r.Ok?;
    assert r.value == ops;
  }

  /** The summands of all items, in iteration order (lines 108-117). */
  function MapTerms(terms: seq<Term>, n: int, table: seq<PauliPair>): Result<seq<Summand>, MapperError>
    requires ModeCount(n) <= |table|
    decreases |terms|
  {
    if terms == [] then Ok([])
    else
      match MapTerms(terms[..|terms| - 1], n, table)
      case Err(e) => Err(e)
      case Ok(acc) =>
        var t := terms[|terms| - 1];
        match ResolveTerm(t.key, n, table)
        case Err(e) => Err(e)
        case Ok(factors) => Ok(acc + [Summand(t.coeff, factors)])
  }

  /** Mapping succeeds exactly when every item translates, and then addend k
      is coefficient k times the factors of key k. */
  lemma {:induction false} MapTermsSpec(terms: seq<Term>, n: int, table: seq<PauliPair>)
    requires ModeCount(n) <= |table|
    ensures MapTerms(terms, n, table).Ok? <==>
      forall k :: 0 <= k < |terms| ==> ResolveTerm(terms[k].key, n, table).Ok?
    ensures MapTerms(terms, n, table).Ok? ==>
      |MapTerms(terms, n, table).value| == |terms| &&
      forall k :: 0 <= k < |terms| ==>
        MapTerms(terms, n, table).value[k] ==
          Summand(terms[k].coeff, ResolveTerm(terms[k].key, n, table).value)
    decreases |terms|
  {
    if terms != [] {
      var init := terms[..|terms| - 1];
      MapTermsSpec(init, n, table);
      assert forall k :: 0 <= k < |init| ==> terms[k] == init[k];
    }
  }

  lemma {:induction false} MapTermsErrorPersists(terms: seq<Term>, m: nat, n: int, table: seq<PauliPair>)
    requires ModeCount(n) <= |table|
    requires m <= |terms|
    requires MapTerms(terms[..m], n, table).Err?
    ensures MapTerms(terms, n, table) == MapTerms(terms[..m], n, table)
    decreases |terms|
  {
    if m < |terms| {
      var init := terms[..|terms| - 1];
      assert init[..m] == terms[..m];
      MapTermsErrorPersists(init, m, n, table);
    } else {
      assert terms[..m] == terms;
    }
  }

  /** The outer loop of lines 108-117, accumulating `qubit_op`. */
  method TranslateTerms(terms: seq<Term>, n: int, table: seq<PauliPair>) returns (r: Result<seq<Summand>, MapperError>)
    requires ModeCount(n) <= |table|
    ensures r == MapTerms(terms, n, table)
  {
    var qubitOp: seq<Summand> := [];
    var k := 0;
    while k < |terms|
      invariant 0 <= k <= |terms|
      invariant MapTerms(terms[..k], n, table) == Ok(qubitOp)
    {
      assert terms[..k + 1][..k] == terms[..k];
      var termOp := ComposeTerm(terms[k].key, n, table);
      if termOp.Err? {
        MapTermsErrorPersists(terms, k + 1, n, table);
        return Err(termOp.error);
      }
      qubitOp := qubitOp + [Summand(terms[k].coeff, termOp.value)];
      k := k + 1;
    }
    assert terms[..k] == terms;
    r := Ok(qubitOp);
  }
}
