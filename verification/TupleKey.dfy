/**
  The 64-bit socket key. The Rust loader, the PHP loader and the BPF program each build it
  from their own view of one socket; the kernel lookup only works if all three agree.
 */
module TupleKey {
  import opened Wrappers

  /** A key as it is stored in the kernel map. */
  datatype Key = Key(bits: bv64)

  /** A connected socket: the fields of the two `sockaddr_in` as the kernel returns them, in network order. */
  datatype Socket = Socket(
    localPort: bv16,
    remotePort0: bv8, remotePort1: bv8,
    remoteIp0: bv8, remoteIp1: bv8, remoteIp2: bv8, remoteIp3: bv8)

  function Le16(b0: bv8, b1: bv8): bv16 {
    (b0 as bv16) | ((b1 as bv16) << 8)
  }

  function Le32(b0: bv8, b1: bv8, b2: bv8, b3: bv8): bv32 {
    (b0 as bv32) | ((b1 as bv32) << 8) | ((b2 as bv32) << 16) | ((b3 as bv32) << 24)
  }

  // ---------------------------------------------------------------- three encoders

  /** `tuple_key` of the Rust loader: shift an accumulator. */
  function RustPlace(lport: bv16, rport: bv16, rip: bv32): bv64 {
    var k0 := (lport as bv64) & 0xffff;
    var k1 := (k0 << 16) | ((rport as bv64) & 0xffff);
    (k1 << 32) | (rip as bv64)
  }

  function RustPack(s: Socket): bv64 {
    RustPlace(s.localPort, Le16(s.remotePort0, s.remotePort1), Le32(s.remoteIp0, s.remoteIp1, s.remoteIp2, s.remoteIp3))
  }

  /** PHP `unpack('v', ..)` and `unpack('V', ..)` on 64-bit integers. */
  function PhpUnpackV16(b0: bv8, b1: bv8): bv64 {
    (b0 as bv64) + ((b1 as bv64) << 8)
  }

  function PhpUnpackV32(b0: bv8, b1: bv8, b2: bv8, b3: bv8): bv64 {
    (b0 as bv64) + ((b1 as bv64) << 8) + ((b2 as bv64) << 16) + ((b3 as bv64) << 24)
  }

  /** `tupleKey` of the PHP loader: `unpack` each field little-endian, then place it. */
  function PhpPack(s: Socket): bv64 {
    var rport := PhpUnpackV16(s.remotePort0, s.remotePort1);
    var rip := PhpUnpackV32(s.remoteIp0, s.remoteIp1, s.remoteIp2, s.remoteIp3);
    PhpPlace(s.localPort as bv64, rport, rip)
  }

  function PhpPlace(lport: bv64, rport: bv64, rip: bv64): bv64 {
    ((lport & 0xffff) << 48) | ((rport & 0xffff) << 32) | (rip & 0xffffffff)
  }

  /** The fields of `__sk_buff` the BPF program reads. */
  datatype SkBuff = SkBuff(localPort: bv32, remotePort: bv32, remoteIp4: bv32)

  /** What the kernel exposes for a socket: the remote port sits in the upper half, in network order. */
  function Exposed(s: Socket): SkBuff {
    ExposedFields(s.localPort, Le16(s.remotePort0, s.remotePort1), Le32(s.remoteIp0, s.remoteIp1, s.remoteIp2, s.remoteIp3))
  }

  function ExposedFields(lport: bv16, rport: bv16, rip: bv32): SkBuff {
    SkBuff(lport as bv32, (rport as bv32) << 16, rip)
  }

  function BpfPack(skb: SkBuff): bv64 {
    var k0 := (skb.localPort & 0xffff) as bv64;
    var k1 := (k0 << 16) | (((skb.remotePort >> 16) & 0xffff) as bv64);
    (k1 << 32) | (skb.remoteIp4 as bv64)
  }

  lemma UnpackV16(b0: bv8, b1: bv8)
    ensures PhpUnpackV16(b0, b1) == Le16(b0, b1) as bv64
  {
  }

  lemma UnpackV32(b0: bv8, b1: bv8, b2: bv8, b3: bv8)
    ensures PhpUnpackV32(b0, b1, b2, b3) == Le32(b0, b1, b2, b3) as bv64
  {
  }

  lemma PhpPlacement(lport: bv16, rport: bv16, rip: bv32)
    ensures PhpPlace(lport as bv64, rport as bv64, rip as bv64) == RustPlace(lport, rport, rip)
  {
  }

  lemma PhpAgrees(s: Socket)
    ensures PhpPack(s) == RustPack(s)
  {
    var rport, rip := Le16(s.remotePort0, s.remotePort1), Le32(s.remoteIp0, s.remoteIp1, s.remoteIp2, s.remoteIp3);
    UnpackV16(s.remotePort0, s.remotePort1);
    UnpackV32(s.remoteIp0, s.remoteIp1, s.remoteIp2, s.remoteIp3);
    PhpPlacement(s.localPort, rport, rip);
  }

  lemma BpfPlacement(lport: bv16, rport: bv16, rip: bv32)
    ensures BpfPack(ExposedFields(lport, rport, rip)) == RustPlace(lport, rport, rip)
  {
  }

  lemma BpfAgrees(s: Socket)
    ensures BpfPack(Exposed(s)) == RustPack(s)
  {
    BpfPlacement(s.localPort, Le16(s.remotePort0, s.remotePort1), Le32(s.remoteIp0, s.remoteIp1, s.remoteIp2, s.remoteIp3));
  }

  /** For every socket the three encoders give the same key. */
  lemma EncodersAgree(s: Socket)
    ensures RustPack(s) == PhpPack(s) == BpfPack(Exposed(s))
  {
    PhpAgrees(s);
    BpfAgrees(s);
  }

  // ---------------------------------------------------------------- decoding

  function Unpack(k: bv64): Socket {
    Socket((k >> 48) as bv16,
           ((k >> 32) & 0xff) as bv8, ((k >> 40) & 0xff) as bv8,
           (k & 0xff) as bv8, ((k >> 8) & 0xff) as bv8, ((k >> 16) & 0xff) as bv8, ((k >> 24) & 0xff) as bv8)
  }

  lemma UnpackPack(s: Socket)
    ensures Unpack(RustPack(s)) == s
  {
  }

  lemma PackUnpack(k: bv64)
    ensures RustPack(Unpack(k)) == k
  {
  }

  /** The key determines local port, remote port and remote address. */
  lemma KeysAreInjective(s: Socket, t: Socket)
    requires KeyOf(s) == KeyOf(t)
    ensures s == t
  {
    UnpackPack(s);
    UnpackPack(t);
  }

  /** The layout on one socket: port 50000 here, 127.0.0.1:8080 there. */
  lemma LayoutExample()
    ensures RustPack(Socket(50000, 0x1F, 0x90, 0x7F, 0, 0, 1)) == 0xC350_901F_0100_007F
  {
  }

  // ---------------------------------------------------------------- the loaders' key functions

  function KeyOf(s: Socket): Key {
    Key(RustPack(s))
  }

  /** `build_tuple_key`: a socket with no local port, or no address at all, has no key. */
  function RustKey(s: Option<Socket>): Option<Key> {
    if s.None? || s.value.localPort == 0 then None else Some(KeyOf(s.value))
  }

  /** `tupleKey` in PHP: 0 stands for failure. */
  function PhpKey(s: Option<Socket>): Key {
    Key(if s.None? || s.value.localPort == 0 then 0 else PhpPack(s.value))
  }

  /** The sentinel is never a real key, so both loaders reject the same sockets and agree on the rest. */
  lemma SentinelIsSafe(s: Option<Socket>)
    ensures PhpKey(s) == Key(0) <==> RustKey(s).None?
    ensures RustKey(s).Some? ==> RustKey(s).value == PhpKey(s)
  {
    if s.Some? && s.value.localPort != 0 {
      PhpAgrees(s.value);
      UnpackPack(s.value);
      assert Unpack(0).localPort == 0;
    }
  }
}
