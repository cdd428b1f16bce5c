/** A forest written by the daemon and read back by both readers. */
module TlvRoundTrip {
  import opened Tlv
  import opened TlvEncoder
  import opened TlvDecoder
  import opened TlvPageDecoder
  import opened TlvAgreement

  /** The daemon reads the normal form, which is the forest itself if and only if all its fields are
      normal; the page reads the same tree if and only if all its fields are safe for the page. */
  method ThroughTheWire(cs: seq<Collection>) returns (daemon: seq<Collection>, page: seq<Collection>)
    requires forall i :: 0 <= i < |cs| ==> |CollectionValue(cs[i])| < LIMIT
    ensures daemon == ReadCollections(Daemon, cs) && page == ReadCollections(Page, cs)
    ensures daemon == cs <==> forall f :: f in FieldsOf(cs) ==> Normal(f)
    ensures ReadCollections(AbsentUsages, page) == daemon <==> forall f :: f in FieldsOf(cs) ==> PageSafe(f)
  {
    hide ReadCollections, EncodeCollections, CollectionValue, FieldsOf, Normal, PageSafe;
    var buf := Serialize(cs);
    var decoder := new Decoder(buf.bytes);
    daemon := decoder.Deserialize(cs);
    var pageDecoder := new PageDecoder(buf.bytes);
    page := pageDecoder.DecodeCollectionsTlv(cs);
    LosslessIffNormal(cs);
    PageAgreesIff(cs);
  }
}
