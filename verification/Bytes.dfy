/** Octets, polling results and the few sequence facts every other module uses. */
module Bytes {

  type Byte = b: int | 0 <= b < 256 witness 0
  type ByteSeq = seq<Byte>

  const TAB: Byte := 9
  const LF: Byte := 10
  const CR: Byte := 13
  const SP: Byte := 32
  const COMMA: Byte := 44
  const COLON: Byte := 58
  const SEMICOLON: Byte := 59
  const ZERO: Byte := 48
  const CRLF: ByteSeq := [CR, LF]

  const TWO_64: nat := 0x1_0000_0000_0000_0000

  datatype Option<+T> = None | Some(value: T)
  datatype Result<+T, +E> = Ok(value: T) | Err(error: E)
  datatype Poll<+T> = Pending | Ready(value: T)

  function Min(a: nat, b: nat): nat {
    if a <= b then a else b
  }

  function Max(a: nat, b: nat): nat {
    if a >= b then a else b
  }

  function Pow2(k: nat): (r: nat)
    ensures r > 0
  {
    if k == 0 then 1 else 2 * Pow2(k - 1)
  }

  predicate AllNonEmpty(ss: seq<ByteSeq>) {
    forall i :: 0 <= i < |ss| ==> ss[i] != []
  }

  /** Concatenation of a list of sequences, taken from the right so that appending unfolds at once. */
  function Flatten<T>(ss: seq<seq<T>>): seq<T> {
    if ss == [] then [] else Flatten(ss[..|ss| - 1]) + ss[|ss| - 1]
  }

  lemma FlattenSnoc<T>(ss: seq<seq<T>>, s: seq<T>)
    ensures Flatten(ss + [s]) == Flatten(ss) + s
  {
    assert (ss + [s])[..|ss|] == ss;
  }

  lemma {:induction false} FlattenCons<T>(s: seq<T>, ss: seq<seq<T>>)
    ensures Flatten([s] + ss) == s + Flatten(ss)
  {
    if ss == [] {
      assert [s] + ss == [s];
    } else {
      var init, last := ss[..|ss| - 1], ss[|ss| - 1];
      FlattenCons(s, init);
      assert ([s] + ss)[..|ss|] == [s] + init;
      assert Flatten([s] + ss) == (s + Flatten(init)) + last;
    }
  }
}
