/** The HTTP values the webhook path reads: methods, header values and bodies. */
module Http {

  import opened Wrappers

  newtype byte = x: int | 0 <= x < 256

  datatype Method = Get | Post | Put | Delete | Other

  /** A raw header value; it need not be text. */
  datatype HeaderValue = HeaderValue(bytes: seq<byte>)

  /** Header maps keyed by lower-case header name (names are case-insensitive). */
  type Headers = map<string, HeaderValue>

  /** Visible ASCII or horizontal tab: the bytes `HeaderValue::to_str` accepts. */
  predicate VisibleAscii(b: byte)
  {
    (32 <= b < 127) || b == 9
  }

  /** `HeaderValue::to_str`: the value as text when every byte is visible ASCII. */
  function ToStr(v: HeaderValue): (r: Option<string>)
    ensures r.Some? <==> forall i :: 0 <= i < |v.bytes| ==> VisibleAscii(v.bytes[i])
    ensures r.Some? ==>
      |r.value| == |v.bytes| && forall i :: 0 <= i < |v.bytes| ==> r.value[i] as int == v.bytes[i] as int
  {
    if forall i :: 0 <= i < |v.bytes| ==> VisibleAscii(v.bytes[i]) then
      Some(seq(|v.bytes|, i requires 0 <= i < |v.bytes| => v.bytes[i] as int as char))
    else None
  }

  /** The header value whose bytes spell the ASCII text `s`. */
  function FromText(s: string): (v: HeaderValue)
    requires forall i :: 0 <= i < |s| ==> 32 <= s[i] as int < 127
    ensures ToStr(v) == Some(s)
  {
    var v := HeaderValue(seq(|s|, i requires 0 <= i < |s| => s[i] as int as byte));
    assert forall i :: 0 <= i < |s| ==> VisibleAscii(v.bytes[i]);
    assert ToStr(v).value == s;
    v
  }

  /** All the bytes of a body, chunk after chunk. */
  function Flatten(chunks: seq<seq<byte>>): seq<byte>
  {
    if chunks == [] then [] else chunks[0] + Flatten(chunks[1..])
  }

  /** `Body::from(Vec<u8>)`: an empty buffer becomes an empty body, any other one chunk. */
  function BodyFrom(bytes: seq<byte>): (chunks: seq<seq<byte>>)
    ensures Flatten(chunks) == bytes
  {
    if bytes == [] then [] else (assert [bytes][1..] == []; [bytes])
  }
}
