/** The bounded buffer behind a spawned engine's output, and the choice of CallStdio's result. */
module Buffers {

  type Byte = bv8

  datatype Kept = Kept(content: seq<Byte>, truncated: bool)

  /** One Write on values. */
  function Store(b: Kept, limit: int, p: seq<Byte>): Kept {
    var room := limit - |b.content|;
    if b.truncated then b
    else if room <= 0 then b.(truncated := true)
    else if |p| > room then Kept(b.content + p[..room], true)
    else b.(content := b.content + p)
  }

  class BoundedBuffer {
    var buf: seq<Byte>
    const limit: int
    var truncated: bool

    function View(): Kept
      reads this
    {
      Kept(buf, truncated)
    }

    constructor (limit: int)
      ensures this.limit == limit && View() == Kept([], false)
    {
      this.limit := limit;
      buf, truncated := [], false;
    }

    /** Always reports the whole of `p` as written. */
    method Write(p: seq<Byte>) returns (n: nat)
      modifies this
      ensures n == |p| && View() == Store(old(View()), limit, p)
    {
      if truncated {
        return |p|;
      }
      var room := limit - |buf|;
      if room <= 0 {
        truncated := true;
        return |p|;
      }
      if |p| > room {
        buf := buf + p[..room];
        truncated := true;
        return |p|;
      }
      buf := buf + p;
      return |p|;
    }
  }

  function Flat(ws: seq<seq<Byte>>): seq<Byte> {
    if ws == [] then [] else Flat(ws[..|ws| - 1]) + ws[|ws| - 1]
  }

  function RunWrites(limit: int, ws: seq<seq<Byte>>): Kept {
    if ws == [] then Kept([], false) else Store(RunWrites(limit, ws[..|ws| - 1]), limit, ws[|ws| - 1])
  }

  function Prefix(s: seq<Byte>, limit: int): seq<Byte> {
    if limit <= 0 then [] else if |s| <= limit then s else s[..limit]
  }

  /** Some write found no room at all, or more than there was room for. */
  ghost predicate Overflowed(limit: int, ws: seq<seq<Byte>>) {
    exists k :: 0 <= k < |ws| && Overflows(limit, ws, k)
  }

  predicate Overflows(limit: int, ws: seq<seq<Byte>>, k: nat)
    requires k < |ws|
  {
    |Flat(ws[..k])| >= limit || |Flat(ws[..k])| + |ws[k]| > limit
  }

  /** The buffer keeps a prefix of what was written, however it was cut into writes, and is truncated
      exactly when a write found too little room. */
  lemma {:induction false} WritesKeepPrefix(limit: int, ws: seq<seq<Byte>>)
    ensures RunWrites(limit, ws).content == Prefix(Flat(ws), limit)
    ensures RunWrites(limit, ws).truncated <==> Overflowed(limit, ws)
    ensures !RunWrites(limit, ws).truncated ==> |Flat(ws)| <= limit || ws == []
  {
    if ws != [] {
      var init, last := ws[..|ws| - 1], ws[|ws| - 1];
      WritesKeepPrefix(limit, init);
      forall k | 0 <= k < |init| ensures Overflows(limit, init, k) <==> Overflows(limit, ws, k) {
        assert init[..k] == ws[..k];
      }
      assert Overflows(limit, ws, |ws| - 1) <==> |Flat(init)| >= limit || |Flat(init)| + |last| > limit;
      if Overflowed(limit, init) {
        var k :| 0 <= k < |init| && Overflows(limit, init, k);
        assert Overflows(limit, ws, k);
        FlatGrows(init, k);
      }
    }
  }

  lemma {:induction false} FlatGrows(ws: seq<seq<Byte>>, k: nat)
    requires k < |ws|
    ensures |Flat(ws[..k])| + |ws[k]| <= |Flat(ws)|
  {
    if k == |ws| - 1 {
    } else {
      FlatGrows(ws[..|ws| - 1], k);
      assert ws[..|ws| - 1][..k] == ws[..k];
    }
  }

  /** When no write is empty, that is exactly when there was more than the limit. */
  lemma TruncatedMeansTooLong(limit: nat, ws: seq<seq<Byte>>)
    requires forall k | 0 <= k < |ws| :: ws[k] != []
    ensures RunWrites(limit, ws).truncated <==> |Flat(ws)| > limit
  {
    WritesKeepPrefix(limit, ws);
    if k :| 0 <= k < |ws| && Overflows(limit, ws, k) {
      FlatGrows(ws, k);
    }
  }

  /** An empty write does it too, once the buffer is full. */
  lemma EmptyWriteTruncates(limit: nat, w: seq<Byte>)
    requires |w| == limit
    ensures !RunWrites(limit, [w]).truncated <==> limit > 0
    ensures RunWrites(limit, [w, []]).truncated && |Flat([w, []])| == limit
  {
    assert [w][..0] == [] && [w, []][..1] == [w];
    assert RunWrites(limit, [w]) == Store(Kept([], false), limit, w);
    assert Flat([w]) == Flat([]) + w;
  }

  // ---- CallStdio ----

  datatype Result<R> = EngineFailed | ResponseTooLong | BadResponse | Reply(response: R)
  datatype Decoded<R> = Malformed | Value(value: R)

  /** `decode` stands for decoding the trimmed bytes as one JSON response. */
  function CallResult<R>(runFailed: bool, stdout: Kept, decode: seq<Byte> -> Decoded<R>): Result<R> {
    if runFailed then EngineFailed
    else if stdout.truncated then ResponseTooLong
    else
      match decode(stdout.content)
      case Malformed => BadResponse
      case Value(r) => Reply(r)
  }

  /** A cut response is never decoded. Whatever the writes, a reply is the decoding of everything the engine
      wrote; and there is one exactly when the run succeeded, no write overflowed and the whole decodes. */
  lemma {:induction false} RepliesAreWhole<R>(
      limit: nat, ws: seq<seq<Byte>>, runFailed: bool, decode: seq<Byte> -> Decoded<R>, r: R)
    ensures CallResult(runFailed, RunWrites(limit, ws), decode) == Reply(r)
            ==> !runFailed && |Flat(ws)| <= limit && decode(Flat(ws)) == Value(r)
    ensures CallResult(runFailed, RunWrites(limit, ws), decode) == Reply(r)
            <==> !runFailed && !Overflowed(limit, ws) && decode(Flat(ws)) == Value(r)
  {
    WritesKeepPrefix(limit, ws);
  }

  /** Every other end is told by its own cause, the engine's failure first, then the overflow, then the decoding. */
  lemma {:induction false} FailuresNameTheirCause<R>(
      limit: nat, ws: seq<seq<Byte>>, runFailed: bool, decode: seq<Byte> -> Decoded<R>)
    ensures var r := CallResult(runFailed, RunWrites(limit, ws), decode);
            && (r == EngineFailed <==> runFailed)
            && (r == ResponseTooLong <==> !runFailed && Overflowed(limit, ws))
            && (r == BadResponse <==> !runFailed && !Overflowed(limit, ws) && decode(Flat(ws)) == Malformed)
  {
    WritesKeepPrefix(limit, ws);
  }

  /** Without empty writes it is the length alone that decides. */
  lemma {:induction false} FittingResponsesAreDecoded<R>(
      limit: nat, ws: seq<seq<Byte>>, runFailed: bool, decode: seq<Byte> -> Decoded<R>, r: R)
    requires forall k | 0 <= k < |ws| :: ws[k] != []
    ensures CallResult(runFailed, RunWrites(limit, ws), decode) == Reply(r)
            <==> !runFailed && |Flat(ws)| <= limit && decode(Flat(ws)) == Value(r)
  {
    TruncatedMeansTooLong(limit, ws);
    WritesKeepPrefix(limit, ws);
  }
}
