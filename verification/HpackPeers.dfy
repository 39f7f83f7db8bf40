/** The two running ends together. */
module HpackPeers {
  import opened Prelude
  import opened HpackHeader
  import opened HpackString
  import opened HpackWire
  import HpackSession
  import HpackEncoder
  import HpackDecoder

  /** One block from the hashed table of the sender to the list of the receiver: the
      headers arrive, and whatever was inserted, evicted or resized at one end was at the
      other. */
  method Exchange(enc: HpackEncoder.Encoder, dec: HpackDecoder.Decoder, items: seq<Item>)
    returns (headers: seq<Header>, error: Option<DecoderError>)
    requires enc.Valid() && dec.Valid() && enc.env == dec.env
    requires dec.maxSizeUpdate.None? && dec.buffer == []
    requires HpackSession.Serves(enc.Abstract(), dec.lastMaxUpdate)
    requires enc.table.Contents() == dec.table.Contents()
    requires AllSendable(enc.env, None, items) && HpackEncoder.CanEncode(enc.env, None, items)
    modifies enc, enc.table, dec, dec.table
    ensures enc.Valid() && dec.Valid() && dec.maxSizeUpdate.None? && dec.buffer == []
    ensures error.None? && headers == Meant(Status, items)
    ensures enc.table.Contents() == dec.table.Contents()
    ensures dec.lastMaxUpdate == old(dec.lastMaxUpdate) && HpackSession.Serves(enc.Abstract(), dec.lastMaxUpdate)
  {
    HpackSession.EncodeDecode(enc.env, enc.Abstract(), dec.lastMaxUpdate, items);
    var bytes := enc.Encode(items, []);
    var cursor := new HpackDecoder.Cursor(bytes);
    headers, error := dec.Decode(cursor);
  }
}
