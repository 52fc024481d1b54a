/** Datagrams over a byte stream and the header that opens a proxied session
    (pkg/core/udpovertcp.go, pkg/core/gvisortcpforwarder.go, pkg/core/gvisorudphandler.go). */
module Framing {
  type byte = b: int | 0 <= b < 256
  type Bytes = seq<byte>

  /** Size of a pooled buffer, which is also the largest uint16. */
  const LARGE: nat := 65535

  // ---- Big-endian numbers ----

  function U16(n: nat): (r: Bytes)
    ensures |r| == 2
  {
    [(n / 256) % 256, n % 256]
  }

  function FromU16(b: Bytes): (n: nat)
    requires |b| == 2
    ensures n < 65536
  {
    (b[0] as int) * 256 + b[1] as int
  }

  lemma U16RoundTrip(n: nat)
    ensures FromU16(U16(n)) == n % 65536
  {
  }

  // ---- Streams ----

  datatype Error = EOF | UnexpectedEOF
  datatype Read<+T> = Ok(value: T, rest: Bytes) | Fail(error: Error)

  /** io.ReadFull on what is left of a stream. */
  function ReadFull(s: Bytes, n: nat): Read<Bytes> {
    if n <= |s| then Ok(s[..n], s[n..])
    else if s == [] then Fail(EOF) else Fail(UnexpectedEOF)
  }

  // ---- One datagram ----

  function Min(a: nat, b: nat): nat { if a < b then a else b }

  /** What datagramPacket.Write puts on the stream: the length as uint16, then as much of the data
      as fits a pooled buffer behind it. */
  function Frame(d: Bytes): Bytes {
    U16(|d| % 65536) + d[..Min(|d|, LARGE - 2)]
  }

  /** A frame, byte by byte: the length with its high byte first, then the data. */
  lemma FrameLayout(d: Bytes)
    ensures var f, n := Frame(d), if |d| <= 65533 then |d| else 65533;
            && |f| == n + 2 && (f[0] as int) * 256 + f[1] as int == |d| % 65536 && f[2..] == d[..n]
  {
    U16RoundTrip(|d| % 65536);
  }

  /** readDatagramPacket */
  function ParseDatagram(s: Bytes): Read<Bytes> {
    var header := ReadFull(s, 2);
    if header.Fail? then header else ReadFull(header.rest, FromU16(header.value))
  }

  lemma ReadFullAppend(a: Bytes, b: Bytes)
    ensures ReadFull(a + b, |a|) == Ok(a, b)
  {
    assert (a + b)[..|a|] == a && (a + b)[|a|..] == b;
  }

  /** What the reader finds behind a written datagram, for any data at all. */
  lemma ParseBehindFrame(d: Bytes, rest: Bytes)
    ensures ParseDatagram(Frame(d) + rest) == ReadFull(d[..Min(|d|, LARGE - 2)] + rest, |d| % 65536)
  {
    var header, body := U16(|d| % 65536), d[..Min(|d|, LARGE - 2)];
    assert Frame(d) + rest == header + (body + rest);
    ReadFullAppend(header, body + rest);
    U16RoundTrip(|d| % 65536);
  }

  /** A datagram comes back, and leaves the stream in step, exactly when it is at most 65533 bytes
      long. One of 65534 or 65535 bytes is announced in full but sent without its last bytes. */
  lemma FrameRoundTripIff(d: Bytes, rest: Bytes)
    ensures ParseDatagram(Frame(d) + rest) == Ok(d, rest) <==> |d| <= LARGE - 2
  {
    var body := d[..Min(|d|, LARGE - 2)];
    ParseBehindFrame(d, rest);
    if |d| <= LARGE - 2 {
      assert body == d;
      ReadFullAppend(d, rest);
    }
  }

  /** However the stream was cut, a parsed datagram fits the buffer it is read into. */
  lemma ParsedFitsBuffer(s: Bytes)
    ensures ParseDatagram(s).Ok? ==> |ParseDatagram(s).value| <= LARGE
    ensures ParseDatagram(s).Ok? ==> |ParseDatagram(s).rest| <= |s| - 2
  {
  }

  // ---- A stream of datagrams ----

  datatype Session = Session(datagrams: seq<Bytes>, error: Error)

  /** Reading datagrams until the stream ends. */
  function ParseAll(s: Bytes): Session
    decreases |s|
  {
    var r := ParseDatagram(s);
    if r.Fail? then Session([], r.error) else
      var more := ParseAll(r.rest);
      Session([r.value] + more.datagrams, more.error)
  }

  function FrameAll(ds: seq<Bytes>): Bytes {
    if ds == [] then [] else Frame(ds[0]) + FrameAll(ds[1..])
  }

  predicate AllFit(ds: seq<Bytes>) {
    forall d | d in ds :: |d| <= LARGE - 2
  }

  /** How many whole frames lie within the first k bytes. */
  function WholeFrames(ds: seq<Bytes>, k: nat): (m: nat)
    ensures m <= |ds|
  {
    if ds == [] || k < |Frame(ds[0])| then 0 else 1 + WholeFrames(ds[1..], k - |Frame(ds[0])|)
  }

  /** What a reader should see of the first k bytes. */
  function Arriving(ds: seq<Bytes>, k: nat): Session {
    if ds == [] then Session([], EOF)
    else if k < |Frame(ds[0])| then Session([], if k == 0 || k == 2 then EOF else UnexpectedEOF)
    else
      var more := Arriving(ds[1..], k - |Frame(ds[0])|);
      Session([ds[0]] + more.datagrams, more.error)
  }

  lemma {:induction false} CutStreamParses(ds: seq<Bytes>, k: nat)
    requires AllFit(ds) && k <= |FrameAll(ds)|
    ensures ParseAll(FrameAll(ds)[..k]) == Arriving(ds, k)
  {
    if ds != [] {
      var first, tail := Frame(ds[0]), FrameAll(ds[1..]);
      assert ds[0] in ds;
      if k < |first| {
        assert FrameAll(ds)[..k] == first[..k];
        CutFrame(ds[0], k);
      } else {
        var n := k - |first|;
        assert forall d | d in ds[1..] :: d in ds;
        CutStreamParses(ds[1..], n);
        assert FrameAll(ds)[..k] == first + tail[..n];
        ParseAllStep(ds[0], tail[..n]);
      }
    }
  }

  lemma {:induction false} ArrivingIsWhole(ds: seq<Bytes>, k: nat)
    requires k <= |FrameAll(ds)|
    ensures var m := WholeFrames(ds, k);
            && Arriving(ds, k).datagrams == ds[..m]
            && Arriving(ds, k).error
               == if k == |FrameAll(ds[..m])| || (m < |ds| && k == |FrameAll(ds[..m])| + 2) then EOF else UnexpectedEOF
  {
    if ds != [] {
      var n := |Frame(ds[0])|;
      if k < n {
        assert ds[..0] == [];
      } else {
        ArrivingIsWhole(ds[1..], k - n);
        PrefixStep(ds, WholeFrames(ds[1..], k - n));
      }
    }
  }

  /** A stream of datagrams that is cut anywhere yields exactly the datagrams that arrived whole,
      in order and unaltered, and then an error. The error is EOF when the cut falls between two
      frames, but also when it falls right behind a frame's length field. */
  lemma CutStreamYieldsPrefix(ds: seq<Bytes>, k: nat)
    requires AllFit(ds) && k <= |FrameAll(ds)|
    ensures var m := WholeFrames(ds, k);
            && ParseAll(FrameAll(ds)[..k]).datagrams == ds[..m]
            && ParseAll(FrameAll(ds)[..k]).error
               == if k == |FrameAll(ds[..m])| || (m < |ds| && k == |FrameAll(ds[..m])| + 2) then EOF else UnexpectedEOF
  {
    CutStreamParses(ds, k);
    ArrivingIsWhole(ds, k);
  }

  lemma ParseAllStep(d: Bytes, rest: Bytes)
    requires |d| <= LARGE - 2
    ensures ParseAll(Frame(d) + rest) == Session([d] + ParseAll(rest).datagrams, ParseAll(rest).error)
  {
    FrameRoundTripIff(d, rest);
  }

  lemma PrefixStep(ds: seq<Bytes>, m: nat)
    requires m < |ds|
    ensures ds[..m + 1] == [ds[0]] + ds[1..][..m]
    ensures |FrameAll(ds[..m + 1])| == |Frame(ds[0])| + |FrameAll(ds[1..][..m])|
  {
    assert ds[..m + 1][1..] == ds[1..][..m];
  }

  lemma CutFrame(d: Bytes, k: nat)
    requires |d| <= LARGE - 2 && k < |Frame(d)|
    ensures ParseDatagram(Frame(d)[..k]) == Fail(if k == 0 || k == 2 then EOF else UnexpectedEOF)
  {
    var s, header := Frame(d)[..k], U16(|d|);
    if k >= 2 {
      assert s[..2] == header && s[2..] == d[..k - 2];
      U16RoundTrip(|d|);
    }
  }

  lemma {:induction false} WholeStream(ds: seq<Bytes>)
    ensures WholeFrames(ds, |FrameAll(ds)|) == |ds|
  {
    if ds != [] {
      WholeStream(ds[1..]);
    }
  }

  /** The bytes that datagrams of these sizes take, each behind its length. */
  function WireSize(ds: seq<Bytes>): nat {
    if ds == [] then 0 else 2 + |ds[0]| + WireSize(ds[1..])
  }

  lemma {:induction false} ParsedSize(s: Bytes)
    ensures WireSize(ParseAll(s).datagrams) <= |s|
    decreases |s|
  {
    var r := ParseDatagram(s);
    if r.Ok? {
      ParsedSize(r.rest);
      var more := ParseAll(r.rest).datagrams;
      assert ([r.value] + more)[1..] == more;
    }
  }

  lemma {:induction false} FrameAllSize(ds: seq<Bytes>)
    ensures |FrameAll(ds)| <= WireSize(ds)
    ensures |FrameAll(ds)| == WireSize(ds) <==> AllFit(ds)
  {
    if ds != [] {
      FrameAllSize(ds[1..]);
      assert ds == [ds[0]] + ds[1..];
    }
  }

  /** Nothing is lost, altered or merged: the reader gets back the datagrams that were written, exactly
      when each of them is at most 65533 bytes long. */
  lemma StreamRoundTrip(ds: seq<Bytes>)
    ensures ParseAll(FrameAll(ds)).datagrams == ds <==> AllFit(ds)
    ensures AllFit(ds) ==> ParseAll(FrameAll(ds)).error == EOF
  {
    ParsedSize(FrameAll(ds));
    FrameAllSize(ds);
    if AllFit(ds) {
      CutStreamYieldsPrefix(ds, |FrameAll(ds)|);
      WholeStream(ds);
      assert FrameAll(ds)[..|FrameAll(ds)|] == FrameAll(ds);
      assert ds[..|ds|] == ds;
    }
  }

  // ---- The session header ----

  datatype Info = Info(localPort: nat, remotePort: nat, local: Bytes, remote: Bytes)

  /** tcpip.AddrFromSlice keeps addresses of four and of sixteen bytes and nothing else. */
  function AddrFromSlice(b: Bytes): Bytes {
    if |b| == 4 || |b| == 16 then b else []
  }

  ghost predicate Sendable(i: Info) {
    i.localPort < 65536 && i.remotePort < 65536 && |i.local| <= 16 && |i.remote| <= 16
  }

  predicate IsAddress(b: Bytes) {
    |b| == 0 || |b| == 4 || |b| == 16
  }

  function WriteInfo(i: Info): Bytes
    requires Sendable(i)
  {
    U16(i.localPort) + (U16(i.remotePort) + ([|i.local|] + (i.local + ([|i.remote|] + i.remote))))
  }

  /** The header, byte by byte: both ports with their high byte first, then both addresses, each behind its length. */
  lemma InfoLayout(i: Info)
    requires Sendable(i)
    ensures var s, n := WriteInfo(i), |i.local|;
            && |s| == 6 + n + |i.remote|
            && (s[0] as int) * 256 + s[1] as int == i.localPort
            && (s[2] as int) * 256 + s[3] as int == i.remotePort
            && s[4] == n && s[5..5 + n] == i.local
            && s[5 + n] == |i.remote| && s[6 + n..] == i.remote
  {
    U16RoundTrip(i.localPort);
    U16RoundTrip(i.remotePort);
    var tail := [|i.remote|] + i.remote;
    assert WriteInfo(i)[5..] == i.local + tail;
  }

  function ReadAddress(s: Bytes): Read<Bytes> {
    var n := ReadFull(s, 1);
    if n.Fail? then n else
      var b := ReadFull(n.rest, n.value[0]);
      if b.Fail? then b else Ok(AddrFromSlice(b.value), b.rest)
  }

  /** ParseProxyInfo: field after field, stopping at the first that does not arrive. */
  function ParseInfo(s: Bytes): Read<Info> {
    var a := ReadFull(s, 2);
    if a.Fail? then Fail(a.error) else
      var b := ReadFull(a.rest, 2);
      if b.Fail? then Fail(b.error) else
        var l := ReadAddress(b.rest);
        if l.Fail? then Fail(l.error) else
          var r := ReadAddress(l.rest);
          if r.Fail? then Fail(r.error) else
            Ok(Info(FromU16(a.value), FromU16(b.value), l.value, r.value), r.rest)
  }

  lemma AddressRoundTrip(a: Bytes, rest: Bytes)
    requires |a| <= 16
    ensures ReadAddress([|a|] + (a + rest)) == Ok(AddrFromSlice(a), rest)
  {
    ReadFullAppend([|a|], a + rest);
    ReadFullAppend(a, rest);
  }

  lemma InfoIsPorts(i: Info, rest: Bytes)
    requires Sendable(i)
    ensures WriteInfo(i) + rest ==
            U16(i.localPort) + (U16(i.remotePort) + ([|i.local|] + (i.local + ([|i.remote|] + (i.remote + rest)))))
  {
    var u, v := [|i.remote|] + i.remote, [|i.remote|] + (i.remote + rest);
    assert u + rest == v;
    assert i.local + u + rest == i.local + v;
  }

  /** The parse, field by field, over what each field leaves. */
  lemma FieldsParse(s: Bytes, s2: Bytes, s3: Bytes, s4: Bytes, rest: Bytes, i: Info)
    requires Sendable(i)
    requires ReadFull(s, 2) == Ok(U16(i.localPort), s2) && ReadFull(s2, 2) == Ok(U16(i.remotePort), s3)
    requires ReadAddress(s3) == Ok(AddrFromSlice(i.local), s4) && ReadAddress(s4) == Ok(AddrFromSlice(i.remote), rest)
    ensures ParseInfo(s) == Ok(i.(local := AddrFromSlice(i.local), remote := AddrFromSlice(i.remote)), rest)
  {
    U16RoundTrip(i.localPort);
    U16RoundTrip(i.remotePort);
  }

  lemma InfoParses(i: Info, rest: Bytes)
    requires Sendable(i)
    ensures ParseInfo(WriteInfo(i) + rest)
         == Ok(i.(local := AddrFromSlice(i.local), remote := AddrFromSlice(i.remote)), rest)
  {
    var s4 := [|i.remote|] + (i.remote + rest);
    var s3 := [|i.local|] + (i.local + s4);
    var s2 := U16(i.remotePort) + s3;
    InfoIsPorts(i, rest);
    ReadFullAppend(U16(i.localPort), s2);
    ReadFullAppend(U16(i.remotePort), s3);
    AddressRoundTrip(i.local, s4);
    AddressRoundTrip(i.remote, rest);
    FieldsParse(WriteInfo(i) + rest, s2, s3, s4, rest, i);
  }

  /** The header comes back as it was sent exactly when both addresses have a length an address can have. */
  lemma InfoRoundTripIff(i: Info, rest: Bytes)
    requires Sendable(i)
    ensures ParseInfo(WriteInfo(i) + rest) == Ok(i, rest) <==> IsAddress(i.local) && IsAddress(i.remote)
  {
    InfoParses(i, rest);
  }

  /** A header cut short is an error, never a shorter header. */
  lemma CutInfoFails(i: Info, k: nat)
    requires Sendable(i) && k < |WriteInfo(i)|
    ensures ParseInfo(WriteInfo(i)[..k]).Fail?
  {
    var s := WriteInfo(i);
    var s1 := U16(i.remotePort) + ([|i.local|] + (i.local + ([|i.remote|] + i.remote)));
    var s2 := [|i.local|] + (i.local + ([|i.remote|] + i.remote));
    var s3 := [|i.remote|] + i.remote;
    if 2 <= k {
      assert s[..k][2..] == s1[..k - 2];
      if 4 <= k {
        assert s1[..k - 2][2..] == s2[..k - 4];
        CutAddresses(i.local, i.remote, k - 4);
      }
    }
  }

  lemma AddressCut(a: Bytes, tail: Bytes, k: nat)
    requires |a| <= 16 && k <= 1 + |a| + |tail|
    ensures var r := ReadAddress(([|a|] + (a + tail))[..k]);
            if k < 1 + |a| then r.Fail? else r == Ok(AddrFromSlice(a), tail[..k - 1 - |a|])
  {
    var s := ([|a|] + (a + tail))[..k];
    if k >= 1 {
      assert s[1..] == (a + tail)[..k - 1];
      if k >= 1 + |a| {
        assert s[1..] == a + tail[..k - 1 - |a|];
        ReadFullAppend(a, tail[..k - 1 - |a|]);
      }
    }
  }

  lemma CutAddresses(a: Bytes, b: Bytes, k: nat)
    requires |a| <= 16 && |b| <= 16 && k < |a| + |b| + 2
    ensures var s := ([|a|] + (a + ([|b|] + b)))[..k];
            ReadAddress(s).Fail? || ReadAddress(ReadAddress(s).rest).Fail?
  {
    var tail := [|b|] + b;
    AddressCut(a, tail, k);
    if k >= 1 + |a| {
      assert tail == [|b|] + (b + []);
      AddressCut(b, [], k - 1 - |a|);
    }
  }

  // ---- The whole session ----

  datatype Parsed = NoHeader(error: Error) | Parsed(info: Info, session: Session)

  function ParseSession(s: Bytes): Parsed {
    var i := ParseInfo(s);
    if i.Fail? then NoHeader(i.error) else Parsed(i.value, ParseAll(i.rest))
  }

  /** A proxied session arrives as sent: the endpoint first and then every datagram. */
  lemma SessionRoundTrip(i: Info, ds: seq<Bytes>)
    requires Sendable(i) && IsAddress(i.local) && IsAddress(i.remote) && AllFit(ds)
    ensures ParseSession(WriteInfo(i) + FrameAll(ds)) == Parsed(i, Session(ds, EOF))
  {
    InfoRoundTripIff(i, FrameAll(ds));
    StreamRoundTrip(ds);
  }

  lemma TakeOfConcat(a: Bytes, b: Bytes, k: nat)
    requires k <= |a| + |b|
    ensures (a + b)[..k] == if k < |a| then a[..k] else a + b[..k - |a|]
  {
  }

  lemma CutBehindHeader(i: Info, ds: seq<Bytes>, n: nat)
    requires Sendable(i) && IsAddress(i.local) && IsAddress(i.remote) && AllFit(ds) && n <= |FrameAll(ds)|
    ensures var r := ParseSession(WriteInfo(i) + FrameAll(ds)[..n]);
            r.Parsed? && r.info == i && r.session.datagrams == ds[..WholeFrames(ds, n)]
  {
    InfoRoundTripIff(i, FrameAll(ds)[..n]);
    CutStreamYieldsPrefix(ds, n);
  }

  /** Cut anywhere behind the header it yields the endpoint and the datagrams that arrived whole;
      cut inside the header it yields an error. */
  lemma CutSession(i: Info, ds: seq<Bytes>, k: nat)
    requires Sendable(i) && IsAddress(i.local) && IsAddress(i.remote) && AllFit(ds)
    requires k <= |WriteInfo(i)| + |FrameAll(ds)|
    ensures var r, h := ParseSession((WriteInfo(i) + FrameAll(ds))[..k]), |WriteInfo(i)|;
            if k < h then r.NoHeader? else
              r.Parsed? && r.info == i && r.session.datagrams == ds[..WholeFrames(ds, k - h)]
  {
    var h := |WriteInfo(i)|;
    TakeOfConcat(WriteInfo(i), FrameAll(ds), k);
    if k < h {
      CutInfoFails(i, k);
    } else {
      CutBehindHeader(i, ds, k - h);
    }
  }
}
