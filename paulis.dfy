/**
 * Single-qubit-register Pauli operators as symplectic bit rows, and the pair
 * table the mapper builds from the 2N rows that annealing returns.
 */
module Paulis {

  /** One row of a symplectic tableau: its X bits and its Z bits. */
  datatype Row = Row(x: seq<bool>, z: seq<bool>)

  type Tableau = seq<Row>

  /** A Pauli operator: its Z and X bits and its group phase (a power of -i). */
  datatype Pauli = Pauli(z: seq<bool>, x: seq<bool>, phase: int)

  datatype PauliPair = PauliPair(first: Pauli, second: Pauli)

  /** `PauliList.from_symplectic(z, x)`: one operator per row, group phase 0. */
  function FromSymplectic(t: Tableau): (ps: seq<Pauli>)
    ensures |ps| == |t|
    ensures forall i :: 0 <= i < |t| ==> ps[i].z == t[i].z && ps[i].x == t[i].x
  {
    seq(|t|, i requires 0 <= i < |t| => Pauli(t[i].z, t[i].x, 0))
  }

  /** The operator with its phase set to 0 (`p.phase = 0`). */
  function ZeroPhase(p: Pauli): Pauli {
    p.(phase := 0)
  }

  /** Pair i is (operator i, operator half + i), both with phase 0, where half
      is `len(paulis) // 2`; an odd last operator is in no pair. */
  function PairsOf(ps: seq<Pauli>): seq<PauliPair> {
    var half := |ps| / 2;
    seq(half, i requires 0 <= i < half => PauliPair(ZeroPhase(ps[i]), ZeroPhase(ps[half + i])))
  }

  function Firsts(table: seq<PauliPair>): (r: seq<Pauli>)
    ensures |r| == |table|
  {
    seq(|table|, i requires 0 <= i < |table| => table[i].first)
  }

  function Seconds(table: seq<PauliPair>): (r: seq<Pauli>)
    ensures |r| == |table|
  {
    seq(|table|, i requires 0 <= i < |table| => table[i].second)
  }

  function ZeroPhases(ps: seq<Pauli>): (r: seq<Pauli>)
    ensures |r| == |ps|
  {
    seq(|ps|, i requires 0 <= i < |ps| => ZeroPhase(ps[i]))
  }

  /** The loop of `pauli_table` that zips the two halves of the operator list. */
  method BuildPairTable(ps: seq<Pauli>) returns (table: seq<PauliPair>)
    ensures table == PairsOf(ps)
    ensures |table| == |ps| / 2
    ensures forall i :: 0 <= i < |table| ==>
      table[i].first == ZeroPhase(ps[i]) && table[i].second == ZeroPhase(ps[|ps| / 2 + i])
    ensures forall i :: 0 <= i < |table| ==> table[i].first.phase == 0 && table[i].second.phase == 0
  {
    var half := |ps| / 2;
    table := [];
    var i := 0;
    while i < half
      invariant 0 <= i <= half
      invariant |table| == i
      invariant forall k :: 0 <= k < i ==>
        table[k] == PauliPair(ZeroPhase(ps[k]), ZeroPhase(ps[half + k]))
    {
      var p1, p2 := ps[i], ps[half + i];
      p1 := p1.(phase := 0);
      p2 := p2.(phase := 0);
      table := table + [PauliPair(p1, p2)];
      i := i + 1;
    }
  }

  /** Unzipping the pair table gives back the operators it was built from,
      phases zeroed, with the first halves in front: all of them when there
      is an even number, all but the last otherwise. */
  lemma PairsOfUnzip(ps: seq<Pauli>)
    ensures Firsts(PairsOf(ps)) + Seconds(PairsOf(ps)) == ZeroPhases(ps[..2 * (|ps| / 2)])
  {
    var half := |ps| / 2;
    var u := Firsts(PairsOf(ps)) + Seconds(PairsOf(ps));
    var w := ZeroPhases(ps[..2 * half]);
    assert |u| == |w|;
    forall k | 0 <= k < |u| ensures u[k] == w[k] {
      if k >= half {
        assert u[k] == Seconds(PairsOf(ps))[k - half];
      }
    }
  }
}
