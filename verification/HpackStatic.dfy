/** The static table of RFC 7541 appendix A, and the tables of the program put together. */
module HpackStatic {
  import opened Text
  import opened HuffmanTable
  import opened HpackDecoding

  function Field(name: string, value: string): Header {
    Header(Ascii(name), Ascii(value))
  }

  const STATIC_TABLE: seq<Header> := [
    Field(":authority", ""),
    Field(":method", "GET"),
    Field(":method", "POST"),
    Field(":path", "/"),
    Field(":path", "/index.html"),
    Field(":scheme", "http"),
    Field(":scheme", "https"),
    Field(":status", "200"),
    Field(":status", "204"),
    Field(":status", "206"),
    Field(":status", "304"),
    Field(":status", "400"),
    Field(":status", "404"),
    Field(":status", "500"),
    Field("accept-charset", ""),
    Field("accept-encoding", "gzip, deflate"),
    Field("accept-language", ""),
    Field("accept-ranges", ""),
    Field("accept", ""),
    Field("access-control-allow-origin", ""),
    Field("age", ""),
    Field("allow", ""),
    Field("authorization", ""),
    Field("cache-control", ""),
    Field("content-disposition", ""),
    Field("content-encoding", ""),
    Field("content-language", ""),
    Field("content-length", ""),
    Field("content-location", ""),
    Field("content-range", ""),
    Field("content-type", ""),
    Field("cookie", ""),
    Field("date", ""),
    Field("etag", ""),
    Field("expect", ""),
    Field("expires", ""),
    Field("from", ""),
    Field("host", ""),
    Field("if-match", ""),
    Field("if-modified-since", ""),
    Field("if-none-match", ""),
    Field("if-range", ""),
    Field("if-unmodified-since", ""),
    Field("last-modified", ""),
    Field("link", ""),
    Field("location", ""),
    Field("max-forwards", ""),
    Field("proxy-authenticate", ""),
    Field("proxy-authorization", ""),
    Field("range", ""),
    Field("referer", ""),
    Field("refresh", ""),
    Field("retry-after", ""),
    Field("server", ""),
    Field("set-cookie", ""),
    Field("strict-transport-security", ""),
    Field("transfer-encoding", ""),
    Field("user-agent", ""),
    Field("vary", ""),
    Field("via", ""),
    Field("www-authenticate", "")
  ]

  const HPACK: Codec := Codec(HPACK_HUFFMAN_CODES, STATIC_TABLE)

  lemma HpackIsValid()
    ensures HPACK.Valid()
  {
    HpackCodeIsComplete();
  }
}
