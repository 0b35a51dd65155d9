/** The two stored records, and the values of their fields. */
module Records {
  import opened Wrappers
  import opened Bytes

  type U16 = n: int | 0 <= n < 0x1_0000

  type Bytes4 = s: seq<Byte> | |s| == 4 witness [0, 0, 0, 0]
  type Bytes12 = s: seq<Byte> | |s| == 12 witness seq(12, _ => 0)
  type Bytes16 = s: seq<Byte> | |s| == 16 witness seq(16, _ => 0)
  type Bytes32 = s: seq<Byte> | |s| == 32 witness seq(32, _ => 0)

  /** A compressed secp256k1 point: a parity byte and the x coordinate. */
  type PublicKey = s: seq<Byte> | IsCompressedKey(s) witness [2] + seq(32, _ => 0)

  predicate IsCompressedKey(s: seq<Byte>) {
    |s| == 33 && (s[0] == 2 || s[0] == 3)
  }

  /** ASCII letters, digits, '.', '-' and '_'; at most 255 bytes. */
  type HostnameText = s: seq<Byte> | IsHostname(s)

  predicate IsHostname(s: seq<Byte>) {
    |s| <= 255 && forall i :: 0 <= i < |s| ==> IsHostnameByte(s[i])
  }

  predicate IsHostnameByte(b: Byte) {
    || 'a' as int <= b <= 'z' as int
    || 'A' as int <= b <= 'Z' as int
    || '0' as int <= b <= '9' as int
    || b == '.' as int || b == '-' as int || b == '_' as int
  }

  datatype PaymentDirection = Inbound | Outbound

  datatype PaymentStatus = Pending | Succeeded | Failed

  type PaymentId = Bytes32

  datatype Payment = Payment(
    paymentId: PaymentId,
    paymentHash: Bytes32,
    paymentPreimage: Option<Bytes32>,
    direction: PaymentDirection,
    amountMsat: Option<U64>,
    feePaidMsat: Option<U64>,
    status: PaymentStatus)

  /** Every payment is filed under its own id. */
  ghost predicate FiledById(m: map<PaymentId, Payment>) {
    forall id :: id in m ==> m[id].paymentId == id
  }

  datatype SocketAddress =
    | TcpIpV4(addr4: Bytes4, port: U16)
    | TcpIpV6(addr16: Bytes16, port: U16)
    | OnionV2(bytes: Bytes12)
    | OnionV3(ed25519: Bytes32, checksum: U16, version: Byte, port: U16)
    | Hostname(name: HostnameText, port: U16)

  datatype PeerInfo = PeerInfo(nodeId: PublicKey, address: SocketAddress)

  function PaymentIdOf(p: Payment): PaymentId {
    p.paymentId
  }

  function NodeIdOf(p: PeerInfo): PublicKey {
    p.nodeId
  }
}
