/** Reading and writing datagrams through pooled buffers (pkg/core/udpovertcp.go), and the session
    header (pkg/core/gvisortcpforwarder.go), as programs tied to the stream functions of Framing. */
module TunnelConn {
  import opened Lists
  import opened Framing

  /** One direction of a connection: the bytes that were written and not yet read. */
  class Conn {
    var bytes: Bytes

    constructor ()
      ensures bytes == []
    {
      bytes := [];
    }
  }

  /** io.ReadFull into the first n bytes of a buffer; whatever was there is overwritten. */
  method ReadFullInto(conn: Conn, b: array<byte>, n: nat) returns (err: Option<Error>)
    requires n <= b.Length
    modifies conn, b
    ensures var r := ReadFull(old(conn.bytes), n);
            if r.Ok? then err == None && b[..n] == r.value && conn.bytes == r.rest
            else err == Some(r.error) && conn.bytes == []
    ensures b[n..] == old(b[n..])
  {
    var all := conn.bytes;
    var i := 0;
    while i < n && conn.bytes != []
      invariant 0 <= i <= n && i <= |all|
      invariant conn.bytes == all[i..]
      invariant b[..i] == all[..i]
      invariant b[n..] == old(b[n..])
    {
      b[i] := conn.bytes[0];
      conn.bytes := conn.bytes[1..];
      assert all[..i + 1] == all[..i] + [all[i]];
      i := i + 1;
    }
    if i == n {
      return None;
    }
    return Some(if i == 0 then EOF else UnexpectedEOF);
  }

  /** readDatagramPacket and readDatagramPacketServer: the length lands in the buffer first and the
      data over it. Any announced length fits, since the buffer is as long as the largest uint16. */
  method ReadDatagramPacket(conn: Conn, b: array<byte>) returns (err: Option<Error>, length: nat)
    requires b.Length == LARGE
    modifies conn, b
    ensures var r := ParseDatagram(old(conn.bytes));
            if r.Ok? then err == None && length == |r.value| && b[..length] == r.value && conn.bytes == r.rest
            else err == Some(r.error)
    ensures length <= b.Length
  {
    length := 0;
    err := ReadFullInto(conn, b, 2);
    if err.Some? {
      return;
    }
    assert [b[0], b[1]] == b[..2];
    var announced := FromU16([b[0], b[1]]);
    err := ReadFullInto(conn, b, announced);
    if err.None? {
      length := announced;
    }
  }

  /** datagramPacket.Write through a pooled buffer with arbitrary old contents. */
  method WriteDatagram(conn: Conn, data: Bytes, b: array<byte>)
    requires b.Length == LARGE
    modifies conn, b
    ensures conn.bytes == old(conn.bytes) + Frame(data)
  {
    var header := U16(|data| % 65536);
    b[0], b[1] := header[0], header[1];
    var n := 0;
    while n < |data| && n + 2 < b.Length
      invariant 0 <= n <= Min(|data|, LARGE - 2)
      invariant b[0] == header[0] && b[1] == header[1]
      invariant b[2..n + 2] == data[..n]
      invariant conn.bytes == old(conn.bytes)
    {
      b[n + 2] := data[n];
      assert b[2..n + 3] == b[2..n + 2] + [data[n]];
      n := n + 1;
    }
    assert b[..n + 2] == b[..2] + b[2..n + 2];
    assert b[..2] == header;
    assert n == Min(|data|, LARGE - 2);
    conn.bytes := conn.bytes + b[..n + 2];
  }

  /** WriteProxyInfo */
  method WriteProxyInfo(conn: Conn, i: Info)
    requires Sendable(i)
    modifies conn
    ensures conn.bytes == old(conn.bytes) + WriteInfo(i)
  {
    var buffer: Bytes := [];
    buffer := buffer + U16(i.localPort);
    buffer := buffer + U16(i.remotePort);
    buffer := buffer + [|i.local|];
    buffer := buffer + i.local;
    buffer := buffer + [|i.remote|];
    buffer := buffer + i.remote;
    assert buffer == WriteInfo(i);
    conn.bytes := conn.bytes + buffer;
  }

  /** ParseProxyInfo */
  method ParseProxyInfo(conn: Conn) returns (err: Option<Error>, i: Info)
    modifies conn
    ensures var r := ParseInfo(old(conn.bytes));
            if r.Ok? then err == None && i == r.value && conn.bytes == r.rest else err == Some(r.error)
  {
    i := Info(0, 0, [], []);
    var port := new byte[2];
    err := ReadFullInto(conn, port, 2);
    if err.Some? { return; }
    assert [port[0], port[1]] == port[..2];
    i := i.(localPort := FromU16([port[0], port[1]]));
    err := ReadFullInto(conn, port, 2);
    if err.Some? { return; }
    assert [port[0], port[1]] == port[..2];
    i := i.(remotePort := FromU16([port[0], port[1]]));
    var address: Bytes;
    err, address := ParseAddress(conn, port);
    if err.Some? { return; }
    i := i.(local := address);
    err, address := ParseAddress(conn, port);
    if err.Some? { return; }
    i := i.(remote := address);
  }

  method ParseAddress(conn: Conn, port: array<byte>) returns (err: Option<Error>, address: Bytes)
    requires port.Length == 2
    modifies conn, port
    ensures var r := ReadAddress(old(conn.bytes));
            if r.Ok? then err == None && address == r.value && conn.bytes == r.rest else err == Some(r.error)
  {
    address := [];
    err := ReadFullInto(conn, port, 1);
    if err.Some? { return; }
    assert port[0] == port[..1][0];
    var slice := new byte[port[0]];
    err := ReadFullInto(conn, slice, slice.Length);
    if err.Some? { return; }
    address := AddrFromSlice(slice[..]);
    assert slice[..slice.Length] == slice[..];
  }
}
