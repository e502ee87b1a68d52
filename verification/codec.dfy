/**
 * The base64 wrapping the form puts around each cell before it is queued,
 * and the decoding the batch applies to each cell before it is used.
 * The base64 alphabet and padding are not modelled: an encoded cell is a
 * value from which decoding recovers exactly the text that was encoded,
 * which is all the import relies on.
 */
module Codec {

  datatype Encoded = Base64(plain: string)

  /** `base64_encode` on one cell. */
  function Encode(cell: string): Encoded
  {
    Base64(cell)
  }

  /** `base64_decode` on one cell. */
  function Decode(e: Encoded): string
  {
    e.plain
  }

  /** `array_map('base64_encode', $line)`. */
  function EncodeCells(cells: seq<string>): (line: seq<Encoded>)
    ensures |line| == |cells|
    ensures forall i :: 0 <= i < |line| ==> Decode(line[i]) == cells[i]
  {
    seq(|cells|, i requires 0 <= i < |cells| => Encode(cells[i]))
  }

  /** `array_map('base64_decode', $line)`. */
  function DecodeCells(line: seq<Encoded>): (cells: seq<string>)
    ensures |cells| == |line|
    ensures forall i :: 0 <= i < |cells| ==> Encode(cells[i]) == line[i]
  {
    seq(|line|, i requires 0 <= i < |line| => Decode(line[i]))
  }

  /** The batch sees exactly the cells the form parsed. */
  lemma DecodeEncodeCells(cells: seq<string>)
    ensures DecodeCells(EncodeCells(cells)) == cells
  {
  }

  /** Encoding loses nothing: different rows are queued as different operations. */
  lemma EncodeCellsInjective(a: seq<string>, b: seq<string>)
    requires EncodeCells(a) == EncodeCells(b)
    ensures a == b
  {
    DecodeEncodeCells(a);
    DecodeEncodeCells(b);
  }

}
