/**
 * Reading the mode index out of one token of a term key: the token "+_3"
 * or "-_3" names mode `int(token.split('_')[1])`.
 */
module Labels {
  import opened Wrappers
  import opened PyStr
  import opened MapperTypes

  /** `int(token.split('_')[1])`, with Python's IndexError and ValueError as errors. */
  function ParseIndex(token: string): (r: Result<int, MapperError>)
    ensures r == Err(MissingUnderscore(token)) <==> '_' !in token
    ensures r.Ok? ==> '_' in token && ParseInt(SplitOn(token, '_')[1]) == Some(r.value)
    ensures '_' in token ==> (r.Ok? <==> ParseInt(SplitOn(token, '_')[1]).Some?)
    ensures '_' in token && ParseInt(SplitOn(token, '_')[1]).None? ==> r == Err(NotAnInteger(SplitOn(token, '_')[1]))
  {
    var fields := SplitOn(token, '_');
    if |fields| < 2 then Err(MissingUnderscore(token))
    else
      match ParseInt(fields[1])
      case None => Err(NotAnInteger(fields[1]))
      case Some(v) => Ok(v)
  }

  /** The token for an operator on mode `index`: sign, underscore, decimal index. */
  function TokenText(creation: bool, index: int): string {
    (if creation then "+" else "-") + "_" + ShowInt(index)
  }

  /** Every rendered token reads back as the index it was rendered from. */
  lemma ParseIndexOfToken(creation: bool, index: int)
    ensures ParseIndex(TokenText(creation, index)) == Ok(index)
    ensures TokenText(creation, index) != [] && NoSpace(TokenText(creation, index))
  {
    var sign := if creation then "+" else "-";
    var digits := ShowInt(index);
    ShowIntPlain(index);
    assert Join([sign, digits], "_") == sign + "_" + digits;
    SplitOnJoin([sign, digits], '_');
    ParseShowInt(index);
    var t := TokenText(creation, index);
    assert t == sign + "_" + digits;
    forall k | 0 <= k < |t| ensures !IsSpace(t[k]) {
      if k >= 2 { assert t[k] == digits[k - 2]; }
    }
  }
}
