/** The capped capture of php-fpm's output and the fresh parse behind it (config.go). */
module BoundedCapture {
  import opened Wrappers
  import opened ConfigParser
  import opened Text

  /** What a capped capture holds. */
  datatype Capture = Capture(captured: string, remaining: int, truncated: bool)

  /** One write: the capture it leaves and the count it reports, which on the write that crosses the
      cap is the shortened one. */
  function Accept(c: Capture, p: string): (Capture, nat) {
    if c.remaining <= 0 then (c.(truncated := true), |p|)
    else if |p| > c.remaining then (Capture(c.captured + p[..c.remaining], 0, true), c.remaining)
    else (Capture(c.captured + p, c.remaining - |p|, c.truncated), |p|)
  }

  function AcceptAll(c: Capture, writes: seq<string>): Capture {
    if writes == [] then c
    else Accept(AcceptAll(c, writes[..|writes| - 1]), writes[|writes| - 1]).0
  }

  function Concat(writes: seq<string>): string {
    if writes == [] then "" else Concat(writes[..|writes| - 1]) + writes[|writes| - 1]
  }

  function Take(s: string, n: nat): string {
    if |s| <= n then s else s[..n]
  }

  class LimitedWriter {
    var captured: string
    var remaining: int
    var truncated: bool

    ghost function State(): Capture
      reads this
    {
      Capture(captured, remaining, truncated)
    }

    constructor (limit: int)
      ensures State() == Capture("", limit, false)
    {
      captured, remaining, truncated := "", limit, false;
    }

    method Write(p: string) returns (n: nat)
      modifies this
      ensures (State(), n) == Accept(old(State()), p)
    {
      var kept := p;
      if remaining <= 0 {
        truncated := true;
        return |p|;
      }
      if |p| > remaining {
        kept := p[..remaining];
        truncated := true;
      }
      captured := captured + kept;
      remaining := remaining - |kept|;
      n := |kept|;
    }
  }

  /** A write finds the buffer already full: the one way, beside overflow, to be marked truncated. */
  ghost predicate WriteAfterFull(writes: seq<string>, limit: nat) {
    exists i | 0 <= i < |writes| :: |Concat(writes[..i])| >= limit
  }

  /** Any sequence of writes leaves exactly the first `limit` bytes, marked truncated when something
      was lost or when anything, even nothing, was written to a full buffer. */
  lemma {:induction false} CaptureIsPrefix(writes: seq<string>, limit: nat)
    ensures var c := AcceptAll(Capture("", limit, false), writes);
            && c.captured == Take(Concat(writes), limit)
            && c.remaining == limit - |c.captured|
            && (c.truncated <==> |Concat(writes)| > limit || WriteAfterFull(writes, limit))
  {
    if writes != [] {
      var front := writes[..|writes| - 1];
      CaptureIsPrefix(front, limit);
      forall i | 0 <= i < |front|
        ensures front[..i] == writes[..i]
      {
      }
      if WriteAfterFull(front, limit) {
        var i :| 0 <= i < |front| && |Concat(front[..i])| >= limit;
        assert |Concat(writes[..i])| >= limit;
      }
      if |Concat(front)| >= limit {
        assert writes[..|front|] == front;
        assert WriteAfterFull(writes, limit);
      } else if WriteAfterFull(writes, limit) {
        var i :| 0 <= i < |writes| && |Concat(writes[..i])| >= limit;
        assert i < |front|;
        assert |Concat(front[..i])| >= limit;
      }
    }
  }

  // ----- The copy loop and the fresh parse -----

  /** The bytes the copy loop hands over: reads that returned nothing are not written. */
  function Written(chunks: seq<string>): seq<string> {
    if chunks == [] then []
    else if chunks[|chunks| - 1] == "" then Written(chunks[..|chunks| - 1])
    else Written(chunks[..|chunks| - 1]) + [chunks[|chunks| - 1]]
  }

  lemma {:induction false} WrittenIsEverything(chunks: seq<string>)
    ensures Concat(Written(chunks)) == Concat(chunks)
    ensures forall i | 0 <= i < |Written(chunks)| :: Written(chunks)[i] != ""
  {
    if chunks != [] {
      var front, last := chunks[..|chunks| - 1], chunks[|chunks| - 1];
      WrittenIsEverything(front);
      if last != "" {
        assert Written(chunks) == Written(front) + [last];
        assert Written(chunks)[..|Written(front)|] == Written(front);
      }
    }
  }

  lemma {:induction false} ConcatGrows(writes: seq<string>, i: nat)
    requires i < |writes| && forall k | 0 <= k < |writes| :: writes[k] != ""
    ensures |Concat(writes[..i])| < |Concat(writes)|
  {
    var front := writes[..|writes| - 1];
    if i == |front| {
      assert writes[..i] == front;
    } else {
      ConcatGrows(front, i);
      assert front[..i] == writes[..i];
    }
  }

  /** When nothing empty is written, truncation is marked exactly when output was lost. */
  lemma NonEmptyCapture(writes: seq<string>, limit: nat)
    requires forall k | 0 <= k < |writes| :: writes[k] != ""
    ensures var c := AcceptAll(Capture("", limit, false), writes);
            c.captured == Take(Concat(writes), limit) && (c.truncated <==> |Concat(writes)| > limit)
  {
    CaptureIsPrefix(writes, limit);
    if i :| 0 <= i < |writes| && |Concat(writes[..i])| >= limit {
      ConcatGrows(writes, i);
    }
  }

  /** Some chunk begins before the cap and ends after it. */
  ghost predicate Straddles(chunks: seq<string>, limit: nat) {
    exists i | 0 <= i < |chunks| :: |Concat(chunks[..i])| < limit < |Concat(chunks[..i])| + |chunks[i]|
  }

  /** Some chunk ends exactly on the cap, or nothing is to be captured at all. */
  ghost predicate EndsOnCap(chunks: seq<string>, limit: nat) {
    exists i | 0 <= i <= |chunks| :: |Concat(chunks[..i])| == limit
  }

  lemma {:induction false} FirstPast(chunks: seq<string>, limit: nat) returns (i: nat)
    requires |Concat(chunks)| > limit
    ensures i < |chunks| && |Concat(chunks[..i])| <= limit < |Concat(chunks[..i])| + |chunks[i]|
  {
    var n := |chunks| - 1;
    if |Concat(chunks[..n])| <= limit {
      i := n;
    } else {
      i := FirstPast(chunks[..n], limit);
      assert chunks[..n][..i] == chunks[..i];
    }
  }

  lemma {:induction false} ConcatUpTo(chunks: seq<string>, i: nat, j: nat)
    requires i < j <= |chunks|
    ensures |Concat(chunks[..i])| + |chunks[i]| <= |Concat(chunks[..j])|
  {
    assert chunks[..j][..i] == chunks[..i];
    ConcatPrefix(chunks[..j], i);
  }

  /** Output that overflows the cap either straddles it or has a chunk that ends on it. */
  lemma OverflowStraddlesOrFills(chunks: seq<string>, limit: nat)
    requires |Concat(chunks)| > limit
    ensures Straddles(chunks, limit) <==> !EndsOnCap(chunks, limit)
  {
    var i := FirstPast(chunks, limit);
    if |Concat(chunks[..i])| < limit {
      assert Straddles(chunks, limit);
    }
    if k :| 0 <= k < |chunks| && |Concat(chunks[..k])| < limit < |Concat(chunks[..k])| + |chunks[k]| {
      forall e | 0 <= e <= |chunks|
        ensures |Concat(chunks[..e])| != limit
      {
        if k < e {
          ConcatUpTo(chunks, k, e);
        } else if e < k {
          ConcatUpTo(chunks, e, k);
        }
      }
    }
  }

  /** One write to the capture of `before` comes back short exactly when it crosses the cap. */
  lemma WriteIsShortIff(before: seq<string>, limit: nat, p: string)
    ensures var c := AcceptAll(Capture("", limit, false), Written(before));
            Accept(c, p).1 != |p| <==> |Concat(before)| < limit < |Concat(before)| + |p|
  {
    CaptureIsPrefix(Written(before), limit);
    WrittenIsEverything(before);
  }

  lemma WrittenStep(chunks: seq<string>, n: nat)
    requires n < |chunks|
    ensures chunks[n] == "" ==> Written(chunks[..n + 1]) == Written(chunks[..n])
    ensures chunks[n] != "" ==>
              && Written(chunks[..n + 1]) == Written(chunks[..n]) + [chunks[n]]
              && Written(chunks[..n + 1])[..|Written(chunks[..n])|] == Written(chunks[..n])
  {
    assert chunks[..n + 1][..n] == chunks[..n];
  }

  /** None of the first `n` chunks straddles the cap. */
  ghost predicate NoneStraddles(chunks: seq<string>, limit: nat, n: nat)
    requires n <= |chunks|
  {
    forall i | 0 <= i < n :: !(|Concat(chunks[..i])| < limit < |Concat(chunks[..i])| + |chunks[i]|)
  }

  /** One chunk, as the loop takes it: an empty one is not written, and a write is short exactly when its
      chunk is the first to straddle the cap. */
  lemma CopyStep(chunks: seq<string>, n: nat, limit: nat)
    requires n < |chunks| && NoneStraddles(chunks, limit, n)
    ensures var c := AcceptAll(Capture("", limit, false), Written(chunks[..n]));
            var next := AcceptAll(Capture("", limit, false), Written(chunks[..n + 1]));
            && next == (if chunks[n] == "" then c else Accept(c, chunks[n]).0)
            && (Accept(c, chunks[n]).1 != |chunks[n]| ==> Straddles(chunks, limit))
            && (chunks[n] == "" || Accept(c, chunks[n]).1 == |chunks[n]| ==> NoneStraddles(chunks, limit, n + 1))
  {
    WrittenStep(chunks, n);
    WriteIsShortIff(chunks[..n], limit, chunks[n]);
  }

  /** `io.Copy` into the capped writer: it stops with an error on a short write, which there is exactly
      when some chunk straddles the cap. */
  method CopyOutput(chunks: seq<string>, w: LimitedWriter) returns (short: bool)
    requires w.State().remaining >= 0 && w.captured == "" && !w.truncated
    modifies w
    ensures short <==> Straddles(chunks, old(w.remaining))
    ensures !short ==> w.State() == AcceptAll(old(w.State()), Written(chunks))
  {
    ghost var limit: nat := w.remaining;
    ghost var start := w.State();
    for n := 0 to |chunks|
      invariant w.State() == AcceptAll(start, Written(chunks[..n]))
      invariant NoneStraddles(chunks, limit, n)
    {
      CopyStep(chunks, n, limit);
      if chunks[n] == "" {
        continue;
      }
      var nw := w.Write(chunks[n]);
      if nw != |chunks[n]| {
        return true;
      }
    }
    assert chunks[..|chunks|] == chunks;
    short := false;
  }

  lemma {:induction false} ConcatPrefix(writes: seq<string>, n: nat)
    requires n < |writes|
    ensures |Concat(writes)| >= |Concat(writes[..n])| + |writes[n]|
  {
    var front := writes[..|writes| - 1];
    if n == |front| {
      assert writes[..n] == front;
    } else {
      ConcatPrefix(front, n);
      assert front[..n] == writes[..n];
    }
  }

  datatype FreshError = RunFailed | TooMuchOutput | Unparseable(error: ParseError)

  /** The fork of `php-fpm -tt`: `chunks` is what its pipe delivered, `failed` says that it exited with
      an error or was killed at the deadline. Output past the cap is reported as such only when a chunk
      ends on the cap; otherwise the copy fails, and with it the run. */
  method FreshParse(chunks: seq<string>, failed: bool, limit: nat)
    returns (r: Result<EffectiveConfig, FreshError>)
    ensures r.Ok? <==> !failed && |Concat(chunks)| <= limit && Parsed(Concat(chunks)).Ok?
    ensures r.Ok? ==> Ok(r.value) == Parsed(Concat(chunks))
    ensures r == Err(RunFailed) <==> failed || Straddles(chunks, limit)
    ensures r == Err(TooMuchOutput) <==> !failed && |Concat(chunks)| > limit && EndsOnCap(chunks, limit)
  {
    StraddlingOverflows(chunks, limit);
    if |Concat(chunks)| > limit {
      OverflowStraddlesOrFills(chunks, limit);
    }
    var w := new LimitedWriter(limit);
    var short := CopyOutput(chunks, w);
    if failed || short {
      return Err(RunFailed);
    }
    WrittenIsEverything(chunks);
    NonEmptyCapture(Written(chunks), limit);
    if w.truncated {
      return Err(TooMuchOutput);
    }
    var parsed := ParseFPMConfigOutput(w.captured);
    r := if parsed.Ok? then Ok(parsed.value) else Err(Unparseable(parsed.error));
  }

  lemma StraddlingOverflows(chunks: seq<string>, limit: nat)
    ensures Straddles(chunks, limit) ==> |Concat(chunks)| > limit
  {
    if i :| 0 <= i < |chunks| && |Concat(chunks[..i])| < limit < |Concat(chunks[..i])| + |chunks[i]| {
      ConcatPrefix(chunks, i);
    }
  }
}
