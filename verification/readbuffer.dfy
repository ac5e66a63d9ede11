/**
 * flushReadBuffer: while the state attribute reports READ_AVAIL, read one
 * frame and throw it away; stop at the first other state.
 */
module ReadBuffer {
  import opened CanBus

  /**
   * `k` is the length of the run of Ready events that opens `s`: the first
   * `k` events are Ready, and the one after them, if any, is not.
   */
  ghost predicate IsReadyRun(s: Script, k: nat)
  {
    && k <= |s|
    && (forall i | 0 <= i < k :: s[i].Ready?)
    && (k < |s| ==> s[k].NotReady?)
  }

  /** The script left after a run of `k` Ready events and the NotReady event that ended it. */
  function AfterRun(s: Script, k: nat): Script
    requires k <= |s|
  {
    if k < |s| then s[k + 1..] else []
  }

  /** Number of frames read and discarded (`readCount`), and the script left afterwards. */
  datatype Flushed = Flushed(readCount: nat, rest: Script)

  /**
   * One state query per iteration; a READ_AVAIL answer is followed by a
   * read whose frame is dropped, any other answer ends the loop.
   */
  function Flush(s: Script): (r: Flushed)
    ensures IsReadyRun(s, r.readCount)
    ensures r.rest == AfterRun(s, r.readCount)
    decreases |s|
  {
    match Next(s)
    case NotReady => Flushed(0, Later(s))
    case Ready(_) =>
      var tail := Flush(s[1..]);
      Flushed(tail.readCount + 1, tail.rest)
  }

  /** A script opens with one Ready run only. */
  lemma ReadyRunUnique(s: Script, j: nat, k: nat)
    requires IsReadyRun(s, j) && IsReadyRun(s, k)
    ensures j == k
  {
  }

  /**
   * Flushing twice in a row, with nothing queued in between (the next
   * query finds the buffer empty), readCount nothing the second time and
   * consumes only that one query.
   */
  lemma FlushIdempotent(s: Script)
    requires Next(Flush(s).rest).NotReady?
    ensures Flush(Flush(s).rest).readCount == 0
    ensures Flush(Flush(s).rest).rest == Later(Flush(s).rest)
  {
  }
}
