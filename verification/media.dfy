/** The values that flow through the scanner: frames handed to the decoder
    and the symbols the decoder reports for them. */
module Media {

  /** A QR payload as the decoder returns it: raw bytes. */
  type Payload = seq<bv8>

  /** Bounding box of a decoded symbol, in frame pixel coordinates. */
  datatype Rect = Rect(left: int, top: int, width: int, height: int)

  /** One decoded symbol: its payload and where it was found. */
  datatype Symbol = Symbol(data: Payload, rect: Rect)

  /** A frame as handed to the decoder: an image of `height` rows, `width`
      columns and `channels` bytes per pixel, with its pixel bytes. */
  datatype Frame = Frame(height: nat, width: nat, channels: nat, pixels: seq<bv8>)

  /** Number of elements of the frame's pixel array (height * width * channels). */
  function Size(f: Frame): (n: nat)
    ensures n > 0 <==> f.height > 0 && f.width > 0 && f.channels > 0
  {
    f.height * f.width * f.channels
  }

  /** The set of distinct payloads carried by a list of symbols. */
  function Payloads(symbols: seq<Symbol>): (ps: set<Payload>)
    ensures forall p :: p in ps <==> exists i :: 0 <= i < |symbols| && symbols[i].data == p
  {
    set i | 0 <= i < |symbols| :: symbols[i].data
  }
}
