/** Vocabulary shared by every component: machine integers, optional values, the status codes of
    util/Error.h and the IBC packet of ibc/IBCTypes.h.  A C++ std::string is a string here: one
    char stands for one byte. */
module Basics {

  const MAX64: nat := 0xFFFF_FFFF_FFFF_FFFF

  type Uint64 = n: nat | n <= 0xFFFF_FFFF_FFFF_FFFF

  type Int32 = n: int | -0x8000_0000 <= n < 0x8000_0000

  /** uint64_t increment, which wraps to zero. */
  function Increment(n: Uint64): Uint64 {
    if n == MAX64 then 0 else n + 1
  }

  datatype Option<+T> = None | Some(value: T)

  datatype ErrorCode = Ok | NetworkDrop | InvalidState | ConsensusFault | ChannelClosed | NotFound

  /** The digit std::hex prints. */
  function HexChar(d: nat): char
    requires d < 16
  {
    if d < 10 then '0' + d as char else 'a' + (d - 10) as char
  }

  lemma HexDigits()
    ensures forall d :: 0 <= d < 16 ==> HexChar(d) == "0123456789abcdef"[d]
  {
  }

  lemma SubsetSize<T>(a: set<T>, b: set<T>)
    requires a <= b
    ensures |a| <= |b|
  {
    assert b == a + (b - a);
  }

  /** An IBC packet.  Its type is the integer behind the C++ enum class, because the parser casts any
      int into the enum. */
  datatype Packet = Packet(kind: Int32, srcChain: string, dstChain: string,
                           srcPort: string, srcChannel: string, dstPort: string, dstChannel: string,
                           sequence: Uint64, payload: string)

  const DATA: Int32 := 0
  const ACK: Int32 := 1
}
