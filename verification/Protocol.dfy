/** The constants of `fastcgi.h` and the fixed-size record bodies. */
module Protocol {
  import opened Bytes

  const BEGIN_REQUEST: byte := 1
  const ABORT_REQUEST: byte := 2
  const END_REQUEST: byte := 3
  const PARAMS: byte := 4
  const STDIN: byte := 5
  const STDOUT: byte := 6
  const STDERR: byte := 7
  const DATA: byte := 8
  const GET_VALUES: byte := 9
  const GET_VALUES_RESULT: byte := 10
  const UNKNOWN_TYPE: byte := 11

  const KEEP_CONN := 1
  const RESPONDER := 1

  const REQUEST_COMPLETE: byte := 0
  const UNKNOWN_ROLE: byte := 3

  const BODY_LEN := 8

  /** `FCGI_EndRequestBody`: the status as four octets, two's complement. */
  function EndRequestBody(status: int, protocolStatus: byte): bytes {
    [status / 0x100_0000 % 256, status / 0x1_0000 % 256, status / 256 % 256, status % 256, protocolStatus, 0, 0, 0]
  }

  function UnknownTypeBody(kind: byte): bytes {
    [kind, 0, 0, 0, 0, 0, 0, 0]
  }

  /** The status a peer reads back as a signed 32-bit number. */
  function StatusIn(body: bytes): int
    requires |body| >= 4
  {
    Int32(body[0] as int * 0x100_0000 + body[1] as int * 0x1_0000 + body[2] as int * 256 + body[3])
  }

  lemma FourOctets(n: int)
    ensures n % TWO_32 == n / 0x100_0000 % 256 * 0x100_0000 + n / 0x1_0000 % 256 * 0x1_0000
            + n / 256 % 256 * 256 + n % 256
  {
    var a := n / 256;
    var b := a / 256;
    var c := b / 256;
    assert n / 0x1_0000 == b;
    assert n / 0x100_0000 == c;
    assert n == (c / 256) * TWO_32 + c % 256 * 0x100_0000 + b % 256 * 0x1_0000 + a % 256 * 256 + n % 256;
  }

  lemma StatusRoundTrip(status: int, protocolStatus: byte)
    ensures StatusIn(EndRequestBody(status, protocolStatus)) == Int32(status)
  {
    FourOctets(status);
  }

  function RoleIn(body: bytes): nat
    requires |body| >= BODY_LEN
  {
    U16(body[0], body[1])
  }

  predicate KeepsConnection(body: bytes)
    requires |body| >= BODY_LEN
  {
    body[2] % 2 == KEEP_CONN
  }
}
