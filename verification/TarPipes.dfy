/** The resuming reader of pkg/cp/cp.go: it reads a remote archive through a command that may stop at
    any point, and starts the command again behind the bytes it already has. */
module TarPipes {
  import opened Framing

  /** What the remote side decides: how many bytes the pipe hands over now, and after how many bytes
      the next command, if one is started, stops. */
  datatype Chance = Chance(take: nat, cut: nat)

  datatype Pipe = Pipe(archive: Bytes, maxTries: int, stream: Bytes, bytesRead: nat, retries: nat)

  /** tail -c+n counts bytes from 1; 0 means the same as 1. */
  function Tail(a: Bytes, n: nat): Bytes {
    if n <= 1 then a else if n - 1 <= |a| then a[n - 1..] else []
  }

  function Cut(a: Bytes, n: nat): Bytes {
    a[..Min(n, |a|)]
  }

  /** With retries off the command is tar alone. */
  function Command(a: Bytes, maxTries: int, n: nat, cut: nat): Bytes {
    Cut(if maxTries != 0 then Tail(a, n) else a, cut)
  }

  function Open(a: Bytes, maxTries: int, cut: nat): Pipe {
    Pipe(a, maxTries, Command(a, maxTries, 0, cut), 0, 0)
  }

  /** What a read returns: the pipe ends with EOF, which gives no bytes. */
  function Got(p: Pipe, c: Chance): Bytes {
    Cut(p.stream, c.take)
  }

  predicate Fails(p: Pipe) {
    p.stream == [] && 0 <= p.maxTries <= p.retries
  }

  function Next(p: Pipe, c: Chance): Pipe {
    if p.stream == [] then
      if Fails(p) then p
      else p.(retries := p.retries + 1, stream := Command(p.archive, p.maxTries, p.bytesRead + 1, c.cut))
    else
      var n := |Got(p, c)|;
      p.(stream := p.stream[n..], bytesRead := p.bytesRead + n)
  }

  class TarPipe {
    const archive: Bytes
    const maxTries: int
    var stream: Bytes
    var bytesRead: nat
    var retries: nat

    ghost function State(): Pipe
      reads this
    {
      Pipe(archive, maxTries, stream, bytesRead, retries)
    }

    /** newTarPipe */
    constructor (a: Bytes, maxTries: int, cut: nat)
      ensures State() == Open(a, maxTries, cut)
    {
      archive, this.maxTries := a, maxTries;
      bytesRead, retries := 0, 0;
      new;
      InitReadFrom(0, cut);
    }

    /** initReadFrom */
    method InitReadFrom(n: nat, cut: nat)
      modifies this`stream
      ensures stream == Command(archive, maxTries, n, cut)
    {
      stream := archive;
      if maxTries != 0 {
        stream := Tail(archive, n);
      }
      stream := Cut(stream, cut);
    }

    /** Read */
    method Read(c: Chance) returns (p: Bytes, eof: bool)
      modifies this
      ensures State() == Next(old(State()), c)
      ensures p == Got(old(State()), c)
      ensures eof <==> Fails(old(State()))
    {
      eof := |stream| == 0;
      p := stream[..Min(c.take, |stream|)];
      stream := stream[|p|..];
      if eof {
        if maxTries < 0 || retries < maxTries {
          retries := retries + 1;
          InitReadFrom(bytesRead + 1, c.cut);
          eof := false;
        }
      } else {
        bytesRead := bytesRead + |p|;
      }
    }
  }

  /** The reader after some reads, and all the bytes they delivered. */
  function Run(p: Pipe, cs: seq<Chance>): (Pipe, Bytes) {
    if cs == [] then (p, [])
    else
      var (q, bytes) := Run(p, cs[..|cs| - 1]);
      (Next(q, cs[|cs| - 1]), bytes + Got(q, cs[|cs| - 1]))
  }

  /** What is still to come is a part of the archive that joins on to what has been read. */
  ghost predicate Joined(p: Pipe) {
    && p.bytesRead + |p.stream| <= |p.archive|
    && p.stream == p.archive[p.bytesRead..p.bytesRead + |p.stream|]
    && (p.maxTries >= 0 ==> p.retries <= p.maxTries)
  }

  /** A command started behind the first n bytes joins on to them. */
  lemma RestartJoins(p: Pipe, cut: nat)
    requires Joined(p) && p.maxTries != 0
    ensures var s := Command(p.archive, p.maxTries, p.bytesRead + 1, cut);
            && |s| == Min(cut, |p.archive| - p.bytesRead)
            && s == p.archive[p.bytesRead..p.bytesRead + |s|]
  {
    assert Tail(p.archive, p.bytesRead + 1) == p.archive[p.bytesRead..];
  }

  /** Reading the first n bytes of the stream leaves the rest of it behind them. */
  lemma SplitAt(p: Pipe, n: nat)
    requires Joined(p) && n <= |p.stream|
    ensures p.stream[n..] == p.archive[p.bytesRead + n..p.bytesRead + |p.stream|]
    ensures p.archive[..p.bytesRead + n] == p.archive[..p.bytesRead] + p.stream[..n]
  {
    forall i | 0 <= i < |p.stream|
      ensures p.stream[i] == p.archive[p.bytesRead + i]
    {
    }
  }

  lemma NextKeepsJoined(p: Pipe, c: Chance)
    requires Joined(p)
    ensures Joined(Next(p, c)) && Next(p, c).archive == p.archive && Next(p, c).maxTries == p.maxTries
    ensures p.archive[..Next(p, c).bytesRead] == p.archive[..p.bytesRead] + Got(p, c)
  {
    if p.stream == [] {
      if !Fails(p) {
        RestartJoins(p, c.cut);
      }
    } else {
      SplitAt(p, |Got(p, c)|);
    }
  }

  /** However often the command breaks off, the bytes delivered are the first bytesRead bytes of the
      archive, and restarts stay within a non-negative limit. */
  lemma {:induction false} DeliversPrefix(a: Bytes, maxTries: int, cut: nat, cs: seq<Chance>)
    ensures var (p, bytes) := Run(Open(a, maxTries, cut), cs);
            && Joined(p) && p.archive == a && p.maxTries == maxTries
            && bytes == a[..p.bytesRead]
            && (maxTries >= 0 ==> p.retries <= maxTries)
  {
    if cs != [] {
      DeliversPrefix(a, maxTries, cut, cs[..|cs| - 1]);
      NextKeepsJoined(Run(Open(a, maxTries, cut), cs[..|cs| - 1]).0, cs[|cs| - 1]);
    }
  }

  /** Over every run: a reader at the end of a stream gives up exactly when it has a limit and has used it up.
      Otherwise it starts the command again, behind the bytes it has. */
  lemma GivesUpIff(a: Bytes, maxTries: int, cut: nat, cs: seq<Chance>, c: Chance)
    ensures var p := Run(Open(a, maxTries, cut), cs).0;
            && (Fails(p) <==> p.stream == [] && maxTries >= 0 && p.retries == maxTries)
            && (p.stream == [] && (maxTries < 0 || p.retries < maxTries) ==>
                  && Next(p, c).retries == p.retries + 1 && Next(p, c).bytesRead == p.bytesRead
                  && p.bytesRead <= |a| && Next(p, c).stream == Cut(a[p.bytesRead..], c.cut))
  {
    DeliversPrefix(a, maxTries, cut, cs);
    var p := Run(Open(a, maxTries, cut), cs).0;
    if p.stream == [] && !Fails(p) {
      RestartJoins(p, c.cut);
    }
  }

  /** In particular a reader without a limit never gives up. */
  lemma UnlimitedNeverGivesUp(a: Bytes, maxTries: int, cut: nat, cs: seq<Chance>)
    requires maxTries < 0
    ensures !Fails(Run(Open(a, maxTries, cut), cs).0)
  {
    GivesUpIff(a, maxTries, cut, cs, Chance(0, 0));
  }

  // ---- When the end is the end ----

  /** The command that was started last: behind how many bytes, and after how many it stops. */
  datatype Started = Started(from: nat, cut: nat)

  function Last(a: Bytes, maxTries: int, cut: nat, cs: seq<Chance>): Started {
    if cs == [] then Started(0, cut)
    else
      var init := cs[..|cs| - 1];
      var p := Run(Open(a, maxTries, cut), init).0;
      if p.stream == [] && !Fails(p) then Started(p.bytesRead, cs[|cs| - 1].cut) else Last(a, maxTries, cut, init)
  }

  /** The stream is what this command has still to give. */
  ghost predicate Feeds(c: Started, p: Pipe) {
    c.from <= |p.archive| && p.bytesRead + |p.stream| == c.from + Min(c.cut, |p.archive| - c.from)
  }

  lemma {:induction false} LastFeeds(a: Bytes, maxTries: int, cut: nat, cs: seq<Chance>)
    ensures Feeds(Last(a, maxTries, cut, cs), Run(Open(a, maxTries, cut), cs).0)
  {
    if cs != [] {
      var init := cs[..|cs| - 1];
      var p := Run(Open(a, maxTries, cut), init).0;
      LastFeeds(a, maxTries, cut, init);
      DeliversPrefix(a, maxTries, cut, init);
      if p.stream == [] && !Fails(p) {
        RestartJoins(p, cs[|cs| - 1].cut);
      }
    }
  }

  /** Over every run: a reader that ends has the whole archive exactly when the command it started last was
      not cut short. */
  lemma EndsWholeIff(a: Bytes, maxTries: int, cut: nat, cs: seq<Chance>)
    ensures var (p, bytes) := Run(Open(a, maxTries, cut), cs);
            var last := Last(a, maxTries, cut, cs);
            Fails(p) ==> (bytes == a <==> last.from + last.cut >= |a|)
  {
    DeliversPrefix(a, maxTries, cut, cs);
    LastFeeds(a, maxTries, cut, cs);
  }

  /** In particular, if every command runs to its end the reader gives up only when it has the whole archive. */
  lemma {:induction false} UncutIsWhole(a: Bytes, maxTries: int, cut: nat, cs: seq<Chance>)
    requires cut >= |a| && forall c | c in cs :: c.cut >= |a|
    ensures Last(a, maxTries, cut, cs).cut >= |a|
    ensures var (p, bytes) := Run(Open(a, maxTries, cut), cs); Fails(p) ==> bytes == a
  {
    if cs != [] {
      var init := cs[..|cs| - 1];
      assert cs[|cs| - 1] in cs && forall x | x in init :: x in cs;
      UncutIsWhole(a, maxTries, cut, init);
    }
    EndsWholeIff(a, maxTries, cut, cs);
  }

  /** Reads that find a command broken off at once, n times. */
  function Stalls(n: nat): seq<Chance> {
    if n == 0 then [] else Stalls(n - 1) + [Chance(0, 0)]
  }

  lemma OneMoreRead(start: Pipe, cs: seq<Chance>, c: Chance, p: Pipe, before: Bytes, q: Pipe, after: Bytes)
    requires Run(start, cs) == (p, before) && Next(p, c) == q && before + Got(p, c) == after
    ensures Run(start, cs + [c]) == (q, after)
  {
    assert (cs + [c])[..|cs|] == cs;
  }

  /** One read takes all that a command cut at k bytes has to give. */
  lemma ReadsCut(a: Bytes, maxTries: int, k: nat)
    requires 0 < k <= |a|
    ensures Run(Open(a, maxTries, k), [Chance(k, 0)]) == (Pipe(a, maxTries, [], k, 0), a[..k])
  {
    var start, c := Open(a, maxTries, k), Chance(k, 0);
    var none: seq<Chance>, nothing: Bytes := [], [];
    assert start.stream == a[..k] && Got(start, c) == a[..k] && start.stream[k..] == [];
    assert nothing + Got(start, c) == a[..k];
    OneMoreRead(start, none, c, start, nothing, Pipe(a, maxTries, [], k, 0), a[..k]);
    assert none + [c] == [c];
  }

  lemma {:induction false} CutThenStalls(a: Bytes, maxTries: nat, k: nat, n: nat)
    requires 0 < k <= |a| && n <= maxTries
    ensures Run(Open(a, maxTries, k), [Chance(k, 0)] + Stalls(n)) == (Pipe(a, maxTries, [], k, n), a[..k])
  {
    var start, cs := Open(a, maxTries, k), [Chance(k, 0)];
    if n == 0 {
      ReadsCut(a, maxTries, k);
      assert cs + Stalls(n) == cs;
    } else {
      CutThenStalls(a, maxTries, k, n - 1);
      StallUsesTry(a, maxTries, k, n - 1);
      OneMoreRead(start, cs + Stalls(n - 1), Chance(0, 0), Pipe(a, maxTries, [], k, n - 1), a[..k],
                  Pipe(a, maxTries, [], k, n), a[..k]);
      assert cs + Stalls(n) == cs + Stalls(n - 1) + [Chance(0, 0)];
    }
  }

  lemma StallUsesTry(a: Bytes, maxTries: nat, k: nat, n: nat)
    requires k <= |a| && n < maxTries
    ensures var p := Pipe(a, maxTries, [], k, n);
            Next(p, Chance(0, 0)) == Pipe(a, maxTries, [], k, n + 1) && a[..k] + Got(p, Chance(0, 0)) == a[..k]
  {
  }

  /** A command that breaks off looks like one that is finished: whatever the limit, any proper prefix of the
      archive can be all that comes, and the reader ends as it does at the end of the archive. */
  lemma CutLooksLikeEnd(a: Bytes, maxTries: nat, k: nat)
    requires 0 < k < |a|
    ensures var (p, bytes) := Run(Open(a, maxTries, k), [Chance(k, 0)] + Stalls(maxTries));
            Fails(p) && bytes == a[..k] && bytes != a
  {
    CutThenStalls(a, maxTries, k, maxTries);
  }

  /** A retry can complete what the first command left: the reader ends with the whole archive although a
      command was cut short. */
  lemma RetryCompletes(a: Bytes, k: nat)
    requires 0 < k < |a|
    ensures var (p, bytes) := Run(Open(a, 1, k), [Chance(k, 0)] + [Chance(0, |a|)] + [Chance(|a|, 0)]);
            Fails(p) && bytes == a
  {
    var start, c0, c1, c2 := Open(a, 1, k), Chance(k, 0), Chance(0, |a|), Chance(|a|, 0);
    var p, q, r := Pipe(a, 1, [], k, 0), Pipe(a, 1, a[k..], k, 1), Pipe(a, 1, [], |a|, 1);
    ReadsCut(a, 1, k);
    assert Next(p, c1) == q && a[..k] + Got(p, c1) == a[..k];
    OneMoreRead(start, [c0], c1, p, a[..k], q, a[..k]);
    assert Next(q, c2) == r && a[..k] + Got(q, c2) == a;
    OneMoreRead(start, [c0] + [c1], c2, q, a[..k], r, a);
  }
}
