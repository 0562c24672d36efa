/** `wsHandshake`: the server's answer to an opening handshake (section 4.2.2 of RFC 6455). */
module WebSocketHandshake {
  import Bytes
  import opened Sha1Spec
  import Sha1
  import Base64

  const GUID := "258EAFA5-E914-47DA-95CA-C5AB0DC85B11"

  const RESPONSE_HEAD :=
    "HTTP/1.1 101 Switching Protocols\r\nUpgrade: websocket\r\nConnection: Upgrade\r\nSec-WebSocket-Accept: "

  /** Characters as the bytes they are stored in. */
  function Stored(s: seq<char>): (b: seq<bv8>)
    ensures |b| == |s|
  {
    seq(|s|, i requires 0 <= i < |s| => Bytes.ByteOf(s[i] as nat))
  }

  /** The accept value: the Base64 form of the SHA-1 of the key and the GUID. */
  function Accept(secKey: seq<char>): seq<char> { Base64.Encoding(Sha1Spec.Sha1(Stored(secKey + GUID))) }

  lemma DigestLength(m: seq<bv8>)
    ensures |Sha1Spec.Sha1(m)| == 20
  {}

  lemma EncodedDigest(digest: seq<bv8>)
    requires |digest| == 20
    ensures var a := Base64.Encoding(digest); |a| == 28 && Base64.Decoding(a[..Base64.Leading(a)]) == digest
  {
    hide Base64.Encoding, Base64.Decoding;
    Base64.EncodingLength(digest);
    Base64.RoundTrip(digest);
  }

  /** The accept value has 28 characters and decodes to the digest. */
  lemma AcceptDecodes(secKey: seq<char>)
    ensures var a := Accept(secKey);
            |a| == 28 && Base64.Decoding(a[..Base64.Leading(a)]) == Sha1Spec.Sha1(Stored(secKey + GUID))
  {
    DigestLength(Stored(secKey + GUID));
    hide Sha1Spec.Sha1, Stored;
    EncodedDigest(Sha1Spec.Sha1(Stored(secKey + GUID)));
  }

  method Handshake(secKey: seq<char>) returns (response: seq<char>)
    requires |secKey| + |GUID| < Sha1.TWO_32 - 64
    ensures response == RESPONSE_HEAD + Accept(secKey) + "\r\n\r\n"
  {
    hide Sha1Spec.Blocks, Sha1Spec.Pad, Base64.Encoding;
    var key := secKey + GUID;
    var s1 := new Sha1.CSHA1();
    s1.Update(Stored(key));
    assert [] + Stored(key) == Stored(key);
    s1.Final();
    var puDest := s1.GetHash();
    var base64Str := Base64.Encode(puDest);
    response := RESPONSE_HEAD;
    response := response + base64Str;
    response := response + "\r\n\r\n";
  }
}
