/** The retry chain in its own form: attempts over a hold buffer that is committed to the
    client or dropped, each with its nested stream, and one stream of the plugin's own. */
module RetryRun {
  import opened Basics
  import opened Frames
  import opened RetrySpec

  datatype Result =
    | Committed(failed: bool)
    | Failed(retryable: bool, held: seq<Bytes>, heldFailure: bool)

  lemma TakenPart(part: seq<Bytes>, all: seq<Bytes>, k: nat)
    requires part <= all && k < |part|
    ensures Taken(all, k) == Taken(part, k)
  {}

  /** The hold buffer with its two counters. */
  datatype Hold = Hold(payloads: seq<Bytes>, bytes: nat, frames: nat)

  predicate Counted(rules: Rules, h: Hold) {
    h.bytes == SizeOf(h.payloads) && h.frames == FramesIn(rules, h.payloads)
  }

  function Added(rules: Rules, h: Hold, payload: Bytes): Hold {
    Hold(h.payloads + [payload], h.bytes + |payload|, h.frames + CountFrames(rules, payload))
  }

  lemma AddedCounted(rules: Rules, h: Hold, payload: Bytes)
    requires Counted(rules, h)
    ensures Counted(rules, Added(rules, h, payload))
  {
    assert (h.payloads + [payload])[..|h.payloads|] == h.payloads;
  }

  /** The assembler has seen what is held, and none of it decided. */
  ghost predicate InStep(rules: Rules, h: Hold, assembler: FrameAssembler)
    reads assembler, assembler.buffer
  {
    Counted(rules, h) && assembler.Valid() && Assembled(rules, h.payloads) == Scanned(None, assembler.Pending())
  }

  /** A chunk that is not empty: hold it, and let the assembler and the limits decide. */
  method Absorbing(rules: Rules, turns: seq<Turn>, n: nat, h: Hold, assembler: FrameAssembler)
    returns (decided: Option<Fate>, next: Hold)
    requires n < |turns| && h.payloads == Returned(turns[..n]) && InStep(rules, h, assembler)
    requires turns[n].read.Chunk? && turns[n].read.payload != []
    modifies assembler, assembler.buffer
    ensures assembler.buffer == old(assembler.buffer) || fresh(assembler.buffer)
    ensures next.payloads == Returned(turns[..n + 1])
    ensures decided ==
      if FailsAt(rules, turns, n) then Some(Fails(RetryableAt(rules, turns, n), n + 1, true))
      else if Assembled(rules, next.payloads).verdict.Some? || OverBudget(rules, next.payloads)
      then Some(Commits(n + 1))
      else None
    ensures decided.None? ==> InStep(rules, next, assembler)
  {
    hide Returned, Absorbed, SizeOf, FramesIn, CountFrames;
    var payload := turns[n].read.payload;
    ReturnedNext(turns, n);
    AssembledNext(rules, h.payloads, payload);
    AddedCounted(rules, h, payload);
    next := Added(rules, h, payload);
    hide Assembled;
    var verdict := assembler.Absorb(rules.classify, rules.trim, rules.valid, payload);
    if verdict.Some? {
      match verdict.value {
        case Failure(retryable) => decided := Some(Fails(retryable, n + 1, true));
        case Decisive => decided := Some(Commits(n + 1));
      }
    } else if (rules.limitFrames > 0 && next.frames > rules.limitFrames) ||
              (rules.limitBytes > 0 && next.bytes > rules.limitBytes) {
      decided := Some(Commits(n + 1));
    } else {
      decided := None;
    }
  }

  /** The turns whose reads are held when the attempt is decided. */
  function TurnsHeld(f: Fate): nat {
    if f.Commits? then f.from else f.upTo
  }

  /** One turn of the loop. */
  method Taking(rules: Rules, turns: seq<Turn>, n: nat, h: Hold, assembler: FrameAssembler)
    returns (decided: Option<Fate>, next: Hold)
    requires n < |turns| && h.payloads == Returned(turns[..n]) && InStep(rules, h, assembler)
    modifies assembler, assembler.buffer
    ensures assembler.buffer == old(assembler.buffer) || fresh(assembler.buffer)
    ensures decided.Some? ==> decided.value == FateFrom(rules, turns, n)
    ensures decided.Some? ==> next.payloads == Returned(turns[..TurnsHeld(decided.value)])
    ensures decided.None? ==> FateFrom(rules, turns, n) == FateFrom(rules, turns, n + 1)
    ensures decided.None? ==> next.payloads == Returned(turns[..n + 1]) && InStep(rules, next, assembler)
  {
    hide Returned, Assembled, OverBudget, Counted;
    ReturnedNext(turns, n);
    StartsEmpty(rules, turns);
    next := h;
    if turns[n].cancelled {
      return Some(Fails(false, 0, false)), Hold([], 0, 0);
    }
    if turns[n].windowClosed {
      return Some(Commits(n)), h;
    }
    match turns[n].read {
      case TimedOut(_) =>
        if |h.payloads| == 0 {
          return Some(Fails(true, 0, false)), h;
        }
        return Some(Commits(n + 1)), h;
      case ReadError(retryable) =>
        return Some(Fails(retryable, n, false)), h;
      case ErrorChunk(retryable) =>
        return Some(Fails(retryable, n, false)), h;
      case Chunk(payload, done) =>
        decided := None;
        if |payload| > 0 {
          decided, next := Absorbing(rules, turns, n, h, assembler);
        }
        if decided.None? && done {
          decided := Some(Commits(n + 1));
        }
    }
  }

  /** Read until something decides the attempt. */
  method Decide(rules: Rules, turns: seq<Turn>) returns (f: Fate, held: seq<Bytes>)
    ensures f == FateFrom(rules, turns, 0)
    ensures held == Returned(turns[..TurnsHeld(f)])
  {
    hide Returned, Assembled, Counted;
    var assembler := new FrameAssembler();
    var h, n := Hold([], 0, 0), 0;
    StartsEmpty(rules, turns);
    while n < |turns|
      invariant 0 <= n <= |turns| && h.payloads == Returned(turns[..n])
      invariant FateFrom(rules, turns, n) == FateFrom(rules, turns, 0)
      invariant fresh(assembler) && fresh(assembler.buffer) && InStep(rules, h, assembler)
    {
      hide FateFrom;
      var decided;
      decided, h := Taking(rules, turns, n, h, assembler);
      if decided.Some? {
        return decided.value, h.payloads;
      }
      n := n + 1;
    }
    return Fails(false, n, false), h.payloads;
  }

  class Session {
    var emitted: seq<Bytes>       // given to the client, in order
    var accepts: nat              // how many more emissions the host accepts
    var started: nat              // attempts started
    var nestedOpened: seq<nat>    // nested streams, in the order opened
    var nestedClosed: seq<nat>    // nested streams, in the order closed
    var closings: seq<bool>       // closings of the plugin's own stream; true without an error

    constructor (budget: nat)
      ensures emitted == [] && accepts == budget && started == 0
      ensures nestedOpened == [] && nestedClosed == [] && closings == []
    {
      emitted, accepts, started, nestedOpened, nestedClosed, closings := [], budget, 0, [], [], [];
    }

    method Emit(payload: Bytes) returns (ok: bool)
      modifies this`emitted, this`accepts
      ensures payload == [] ==> ok && emitted == old(emitted) && accepts == old(accepts)
      ensures payload != [] ==> (ok <==> old(accepts) > 0)
      ensures payload != [] ==> accepts == if ok then old(accepts) - 1 else 0
      ensures payload != [] ==> emitted == if ok then old(emitted) + [payload] else old(emitted)
    {
      if payload == [] {
        return true;
      }
      if accepts == 0 {
        return false;
      }
      accepts := accepts - 1;
      emitted := emitted + [payload];
      return true;
    }

    /** Stops at the first emission the host refuses. */
    method EmitAll(held: seq<Bytes>) returns (ok: bool)
      requires NonEmpty(held) && emitted == []
      modifies this`emitted, this`accepts
      ensures emitted == Taken(held, old(accepts)) && (ok <==> |held| <= old(accepts))
      ensures ok ==> accepts == old(accepts) - |held|
    {
      var n := 0;
      while n < |held|
        invariant 0 <= n <= |held| && emitted == held[..n] && accepts == old(accepts) - n
      {
        ok := Emit(held[n]);
        if !ok {
          return;
        }
        n := n + 1;
      }
      ok := true;
    }

    /** Pass the remaining reads through until the stream ends or something fails. Every exit
        closes the nested stream. */
    method PassThrough(a: nat, turns: seq<Turn>, from: nat) returns (failed: bool)
      requires from <= |turns| && emitted == Returned(turns[..from])
      modifies this`emitted, this`accepts, this`nestedClosed
      ensures var all, k := Returned(turns[..StopFrom(turns, from)]), |old(emitted)| + old(accepts);
              emitted == Taken(all, k) && (!failed <==> EndsFrom(turns, from) && |all| <= k)
      ensures nestedClosed == old(nestedClosed) + [a]
    {
      hide Returned, StopFrom;
      ghost var stop, k := StopFrom(turns, from), |emitted| + accepts;
      var n := from;
      while n < |turns|
        invariant from <= n <= |turns| && StopFrom(turns, n) == stop && nestedClosed == old(nestedClosed)
        invariant n > from ==> !EndsAt(turns, n - 1)
        invariant emitted == Returned(turns[..n]) && |emitted| + accepts == k
      {
        ReturnedNext(turns, n);
        StopNext(turns, n);
        match turns[n].read {
          case TimedOut(_) =>
          case ReadError(_) =>
            nestedClosed := nestedClosed + [a];
            return true;
          case ErrorChunk(_) =>
            nestedClosed := nestedClosed + [a];
            return true;
          case Chunk(payload, done) =>
            if |payload| > 0 {
              var sent := Emit(payload);
              if !sent {
                ReturnedGrows(turns, n + 1, stop);
                TakenPart(Returned(turns[..n + 1]), Returned(turns[..stop]), k);
                nestedClosed := nestedClosed + [a];
                return true;
              }
            }
            if done {
              nestedClosed := nestedClosed + [a];
              return false;
            }
        }
        n := n + 1;
      }
      StopAtEnd(turns);
      nestedClosed := nestedClosed + [a];
      return true;
    }

    /** Flush what was held and pass the rest through. Nothing after this is retried. */
    method ForwardCommitted(a: nat, held: seq<Bytes>, turns: seq<Turn>, from: nat, cancelled: bool)
      returns (failed: bool)
      requires from <= |turns| && held == Returned(turns[..from]) && emitted == []
      modifies this`emitted, this`accepts, this`nestedClosed
      ensures var stop := if cancelled then from else StopFrom(turns, from);
              && emitted == Taken(Returned(turns[..stop]), old(accepts))
              && (!failed <==> !cancelled && EndsFrom(turns, from) && |Returned(turns[..stop])| <= old(accepts))
      ensures nestedClosed == old(nestedClosed) + [a]
    {
      hide Returned, StopFrom, EndsFrom;
      ghost var stop := if cancelled then from else StopFrom(turns, from);
      ReturnedNonEmpty(turns[..from]);
      ReturnedGrows(turns, from, stop);
      var ok := EmitAll(held);
      if !ok {
        TakenPart(held, Returned(turns[..stop]), old(accepts));
        nestedClosed := nestedClosed + [a];
        return true;
      }
      if cancelled {
        nestedClosed := nestedClosed + [a];
        return true;
      }
      failed := PassThrough(a, turns, from);
    }

    /** One attempt: hold what is read until a frame, the buffer or the clock decides. */
    method Attempt(rules: Rules, a: nat, script: Script) returns (r: Result)
      requires emitted == []
      modifies this
      ensures started == old(started) && closings == old(closings)
      ensures r.Committed? <==> FateOf(rules, script).Commits?
      ensures r.Committed? ==> emitted == Taken(Visible(rules, script), old(accepts))
      ensures r.Committed? ==> (!r.failed <==> Completes(rules, script) && |Visible(rules, script)| <= old(accepts))
      ensures r.Failed? ==> emitted == [] && accepts == old(accepts) && r.held == Visible(rules, script)
      ensures r.Failed? ==> r.retryable == Retries(rules, script) && r.heldFailure == FailsByFrame(rules, script)
      ensures script.Refused? ==> nestedOpened == old(nestedOpened) && nestedClosed == old(nestedClosed)
      ensures script.Opened? ==> nestedOpened == old(nestedOpened) + [a] && nestedClosed == old(nestedClosed) + [a]
    {
      if script.Refused? {
        return Failed(script.retryable, [], false);
      }
      nestedOpened := nestedOpened + [a];
      hide Returned, StopFrom, EndsFrom, FateFrom, Assembled, OverBudget;
      var f, held := Decide(rules, script.turns);
      match f {
        case Fails(retryable, _, frame) =>
          nestedClosed := nestedClosed + [a];
          return Failed(retryable, held, frame);
        case Commits(from) =>
          var failed := ForwardCommitted(a, held, script.turns, from, script.cancelledLater);
          return Committed(failed);
      }
    }

    /** The frames a failed attempt had buffered are replayed. The stream is then closed
        without an error if the failure is already among them, and with it otherwise. */
    method FinishFailed(held: seq<Bytes>, heldFailure: bool, reason: bool)
      requires NonEmpty(held) && emitted == []
      modifies this`emitted, this`accepts, this`closings
      ensures emitted == Taken(held, old(accepts))
      ensures closings == old(closings) +
                [|held| <= old(accepts) && ((held != [] && heldFailure) || !reason)]
    {
      var ok := EmitAll(held);
      if !ok {
        closings := closings + [false];
        return;
      }
      if |held| > 0 && heldFailure {
        closings := closings + [true];
        return;
      }
      closings := closings + [!reason];
    }

    /** The whole chain. `late[k]`: the chain's deadline has passed before attempt k. */
    method Run(p: Plan, rules: Rules, scripts: seq<Script>, late: seq<bool>) returns (ok: bool)
      requires TargetCount(p) <= |scripts| && TargetCount(p) <= |late|
      requires emitted == [] && started == 0 && nestedOpened == [] && nestedClosed == [] && closings == []
      modifies this
      ensures started == Started(p, rules, scripts, late, 0)
      ensures nestedOpened == nestedClosed == OpenedBy(scripts, started)
      ensures started == 0 ==> !ok && emitted == [] && closings == [true]
      ensures started > 0 ==> emitted == Taken(Visible(rules, scripts[started - 1]), old(accepts))
      ensures started > 0 ==> closings == [Clean(rules, scripts[started - 1], old(accepts))]
      ensures started > 0 ==>
        (ok <==> Completes(rules, scripts[started - 1]) && |Visible(rules, scripts[started - 1])| <= old(accepts))
    {
      hide Visible, Completes, FateOf, Started, OpenedBy, Clean, FailsByFrame, Retries, NonEmpty, Taken;
      ok := false;
      var count := TargetCount(p);
      var held: seq<Bytes>, heldFailure, reason := [], false, false;
      var index := 0;
      Unstarted(scripts);
      while index < count
        invariant 0 <= index <= count && started == index && closings == [] && emitted == [] && accepts == old(accepts)
        invariant Started(p, rules, scripts, late, index) == Started(p, rules, scripts, late, 0)
        invariant nestedOpened == nestedClosed == OpenedBy(scripts, index)
        invariant NonEmpty(held) && reason == (index > 0)
        invariant index == 0 ==> held == []
        invariant index > 0 ==> held == Visible(rules, scripts[index - 1]) && FateOf(rules, scripts[index - 1]).Fails?
        invariant index > 0 ==> heldFailure == FailsByFrame(rules, scripts[index - 1])
      {
        StartedNext(p, rules, scripts, late, index);
        if late[index] {
          break;
        }
        OpenedNext(scripts, index);
        CleanOf(rules, scripts[index], accepts);
        started := started + 1;
        FailedShows(rules, scripts[index]);
        var r := Attempt(rules, index, scripts[index]);
        match r {
          case Committed(failed) =>
            closings := closings + [!failed];
            return !failed;
          case Failed(retryable, buffered, byFrame) =>
            held, heldFailure, reason := buffered, byFrame, true;
            if !retryable {
              FinishFailed(held, heldFailure, reason);
              return;
            }
        }
        index := index + 1;
      }
      StartedEnds(p, rules, scripts, late);
      if index > 0 {
        FailedShows(rules, scripts[index - 1]);
        CleanOf(rules, scripts[index - 1], accepts);
      }
      FinishFailed(held, heldFailure, reason);
    }
  }

  lemma StopNext(turns: seq<Turn>, n: nat)
    requires n < |turns|
    ensures var r := turns[n].read;
            StopFrom(turns, n) == if r.ReadError? || r.ErrorChunk? then n
                                  else if r.Chunk? && r.done then n + 1 else StopFrom(turns, n + 1)
  {}

  lemma Unstarted(scripts: seq<Script>)
    ensures OpenedBy(scripts, 0) == [] && NonEmpty([]) && forall k: nat :: Taken([], k) == []
  {}

  lemma OpenedNext(scripts: seq<Script>, k: nat)
    requires k < |scripts|
    ensures OpenedBy(scripts, k + 1) == OpenedBy(scripts, k) + (if scripts[k].Opened? then [k] else [])
  {}

  lemma StartedNext(p: Plan, rules: Rules, scripts: seq<Script>, late: seq<bool>, k: nat)
    requires k < TargetCount(p) <= |scripts| && TargetCount(p) <= |late|
    ensures Started(p, rules, scripts, late, k) ==
            if late[k] then k else if Retries(rules, scripts[k]) then Started(p, rules, scripts, late, k + 1) else k + 1
  {}

  lemma StartedEnds(p: Plan, rules: Rules, scripts: seq<Script>, late: seq<bool>)
    requires TargetCount(p) <= |scripts| && TargetCount(p) <= |late|
    ensures Started(p, rules, scripts, late, TargetCount(p)) == TargetCount(p)
  {}

  lemma CleanOf(rules: Rules, script: Script, accepts: nat)
    ensures Clean(rules, script, accepts) <==>
            |Visible(rules, script)| <= accepts && (Completes(rules, script) || FailsByFrame(rules, script))
  {}

  lemma StopAtEnd(turns: seq<Turn>)
    ensures StopFrom(turns, |turns|) == |turns|
  {}

  lemma StartsEmpty(rules: Rules, turns: seq<Turn>)
    ensures Returned(turns[..0]) == [] && Counted(rules, Hold([], 0, 0))
    ensures Assembled(rules, []) == Scanned(None, [])
  {}

  /** What an attempt shows has no empty chunks; one that failed cannot have completed, and a
      failure frame is among the chunks it shows. */
  lemma FailedShows(rules: Rules, script: Script)
    ensures NonEmpty(Visible(rules, script))
    ensures FateOf(rules, script).Fails? ==> !Completes(rules, script)
    ensures FateOf(rules, script).Commits? ==> !FailsByFrame(rules, script) && !Retries(rules, script)
    ensures FailsByFrame(rules, script) ==> Visible(rules, script) != []
  {
    FrameShows(rules, script);
    if script.Opened? {
      var f := FateOf(rules, script);
      if f.Fails? {
        ReturnedNonEmpty(script.turns[..f.upTo]);
      } else {
        ReturnedNonEmpty(script.turns[..if script.cancelledLater then f.from else StopFrom(script.turns, f.from)]);
      }
    }
  }
}
