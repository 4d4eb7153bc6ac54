/** Types shared by the file-level models. */
module Common {

  type byte = x: int | 0 <= x < 256
  type Bytes = seq<byte>

  datatype Option<+T> = None | Some(value: T)

  const NEWLINE: byte := 10

  /** What a read of `len` bytes at `at` returns: less at the end of the file. */
  function ReadAt(f: Bytes, at: nat, len: nat): Bytes {
    if at >= |f| then [] else if at + len > |f| then f[at..] else f[at..at + len]
  }

  /** Behind the first newline from index i on; 0 when there is none. */
  function LineEnd(data: Bytes, i: nat): (n: nat)
    requires i <= |data|
    ensures n == 0 ==> forall x | i <= x < |data| :: data[x] != NEWLINE
    ensures n > 0 ==> i < n <= |data| && data[n - 1] == NEWLINE && forall x | i <= x < n - 1 :: data[x] != NEWLINE
    decreases |data| - i
  {
    if i == |data| then 0 else if data[i] == NEWLINE then i + 1 else LineEnd(data, i + 1)
  }

  /** Length of the first line, newline included; 0 when no line is complete yet. */
  function LineLength(data: Bytes): (n: nat)
    ensures n == 0 ==> forall x | 0 <= x < |data| :: data[x] != NEWLINE
    ensures n > 0 ==> n <= |data| && data[n - 1] == NEWLINE && forall x | 0 <= x < n - 1 :: data[x] != NEWLINE
  {
    LineEnd(data, 0)
  }

  lemma LineLengthIs(data: Bytes, n: nat)
    requires 0 < n <= |data| && data[n - 1] == NEWLINE && forall x | 0 <= x < n - 1 :: data[x] != NEWLINE
    ensures LineLength(data) == n
  {
  }

  lemma LineLengthGrows(data: Bytes, more: Bytes)
    requires LineLength(data) > 0 && data <= more
    ensures LineLength(more) == LineLength(data)
  {
    LineLengthIs(more, LineLength(data));
  }

  /** The complete lines of a file; a half-written last line is not one. */
  function Lines(data: Bytes): seq<Bytes> {
    var n := LineLength(data);
    if n == 0 then [] else [data[..n]] + Lines(data[n..])
  }
}
