/** What a run of the retry chain comes to, as a function of its plan and of the upstream.

    The upstream is a script: for each attempt what opening it and each read from it yields,
    with the clock and cancellation. What frames mean is a parameter. */
module RetrySpec {
  import opened Basics
  import opened Frames

  // ---- The plan ----

  type Target = nat

  datatype Plan = Plan(requested: Target, fallbacks: seq<Target>, maxAttempts: int)

  function TargetCount(p: Plan): (n: nat)
    ensures 1 <= n <= 1 + |p.fallbacks|
    ensures p.maxAttempts > 0 ==> n <= p.maxAttempts
  {
    if p.maxAttempts > 0 && 1 + |p.fallbacks| > p.maxAttempts then p.maxAttempts else 1 + |p.fallbacks|
  }

  function TargetAt(p: Plan, index: int): Option<Target> {
    if index < 0 || index >= TargetCount(p) then None
    else if index == 0 then Some(p.requested)
    else Some(p.fallbacks[index - 1])
  }

  /** The targets not used yet after attempt `index`, in the order they would be tried. */
  method Remaining(p: Plan, index: nat) returns (out: seq<Target>)
    ensures |out| == if index < TargetCount(p) then TargetCount(p) - 1 - index else 0
    ensures forall n | 0 <= n < |out| :: TargetAt(p, index + 1 + n) == Some(out[n])
  {
    out := [];
    var k := index + 1;
    while k < TargetCount(p)
      invariant index + 1 <= k && (if index < TargetCount(p) then k <= TargetCount(p) else k == index + 1)
      invariant |out| == k - index - 1
      invariant forall n | 0 <= n < |out| :: TargetAt(p, index + 1 + n) == Some(out[n])
    {
      var t := TargetAt(p, k);
      if t.Some? {
        out := out + [t.value];
      }
      k := k + 1;
    }
  }

  // ---- The upstream ----

  /** A frame that is no part of the handshake: a failure, or anything else. */
  datatype Verdict = Failure(retryable: bool) | Decisive

  /** How frames are read, and how much may be held back; a limit of zero is none. */
  datatype Rules = Rules(
    classify: Bytes -> Option<Verdict>,
    trim: Bytes -> Bytes,
    valid: Bytes -> bool,
    limitFrames: int,
    limitBytes: int)

  /** A read that times out is not called back: it may still swallow a chunk. */
  datatype Read =
    | TimedOut(swallowed: Bytes)
    | ReadError(retryable: bool)
    | ErrorChunk(retryable: bool)
    | Chunk(payload: Bytes, done: bool)

  /** One turn of a read loop: was the request cancelled, is the hold window over, what the
      read returns. */
  datatype Turn = Turn(cancelled: bool, windowClosed: bool, read: Read)

  /** Where a script ends without an end of the stream, the next read fails for good. */
  datatype Script = Refused(retryable: bool) | Opened(turns: seq<Turn>, cancelledLater: bool)

  /** What reads of the attempt returned, in order: the bytes a client could have seen. */
  function Returned(turns: seq<Turn>): seq<Bytes> {
    if turns == [] then []
    else
      var last := turns[|turns| - 1].read;
      Returned(turns[..|turns| - 1]) + (if last.Chunk? && last.payload != [] then [last.payload] else [])
  }

  lemma {:induction false} ReturnedNonEmpty(turns: seq<Turn>)
    ensures NonEmpty(Returned(turns))
    decreases |turns|
  {
    if turns != [] { ReturnedNonEmpty(turns[..|turns| - 1]); }
  }

  predicate NonEmpty(held: seq<Bytes>) {
    forall n | 0 <= n < |held| :: held[n] != []
  }

  lemma ReturnedNext(turns: seq<Turn>, n: nat)
    requires n < |turns|
    ensures var r := turns[n].read;
            Returned(turns[..n + 1]) == Returned(turns[..n]) + (if r.Chunk? && r.payload != [] then [r.payload] else [])
  {
    assert turns[..n + 1][..n] == turns[..n];
  }

  lemma {:induction false} ReturnedGrows(turns: seq<Turn>, m: nat, n: nat)
    requires m <= n <= |turns|
    ensures Returned(turns[..m]) <= Returned(turns[..n])
    decreases n
  {
    if m < n {
      ReturnedNext(turns, n - 1);
      ReturnedGrows(turns, m, n - 1);
    }
  }

  // ---- The hold buffer ----

  function SizeOf(held: seq<Bytes>): nat {
    if held == [] then 0 else SizeOf(held[..|held| - 1]) + |held[|held| - 1]|
  }

  /** Whole frames of a chunk, and one for a tail that is more than space. */
  function CountFrames(rules: Rules, payload: Bytes): nat {
    |FramesOf(payload)| + (if rules.trim(TailOf(payload)) != [] then 1 else 0)
  }

  function FramesIn(rules: Rules, held: seq<Bytes>): nat {
    if held == [] then 0 else FramesIn(rules, held[..|held| - 1]) + CountFrames(rules, held[|held| - 1])
  }

  /** Counted chunk by chunk, frames are those of the whole response, if no chunk ends within
      one; the budget counts chunks, not assembled frames, where they do. */
  lemma {:induction false} WholeFramesCounted(rules: Rules, held: seq<Bytes>)
    requires rules.trim([]) == [] && forall n | 0 <= n < |held| :: TailOf(held[n]) == []
    ensures FramesIn(rules, held) == |FramesOf(Join(held))| && TailOf(Join(held)) == []
    decreases |held|
  {
    if held != [] {
      var front, last := held[..|held| - 1], held[|held| - 1];
      assert forall n | 0 <= n < |front| :: front[n] == held[n];
      WholeFramesCounted(rules, front);
      JoinNext(front, last);
      assert held == front + [last];
      FramesOfJoin(Join(front), last);
      TailOfJoin(Join(front), last);
      assert [] + last == last;
    }
  }

  predicate OverBudget(rules: Rules, held: seq<Bytes>) {
    || (rules.limitFrames > 0 && FramesIn(rules, held) > rules.limitFrames)
    || (rules.limitBytes > 0 && SizeOf(held) > rules.limitBytes)
  }

  /** The assembler after the chunks held, the last of which may have decided. */
  function Assembled(rules: Rules, held: seq<Bytes>): Scanned<Verdict> {
    if held == [] then Scanned(None, [])
    else
      var r := Assembled(rules, held[..|held| - 1]);
      if r.verdict.Some? then r
      else Absorbed(rules.classify, rules.trim, rules.valid, r.pending, held[|held| - 1])
  }

  lemma AssembledNext(rules: Rules, held: seq<Bytes>, payload: Bytes)
    requires Assembled(rules, held).verdict.None?
    ensures Assembled(rules, held + [payload]) ==
            Absorbed(rules.classify, rules.trim, rules.valid, Assembled(rules, held).pending, payload)
  {
    assert (held + [payload])[..|held|] == held;
  }

  function AssembledFrom(rules: Rules, pending: Bytes, held: seq<Bytes>): Scanned<Verdict>
    decreases |held|
  {
    if held == [] then Scanned(None, pending)
    else
      var r := Absorbed(rules.classify, rules.trim, rules.valid, pending, held[0]);
      if r.verdict.Some? then r else AssembledFrom(rules, r.pending, held[1..])
  }

  lemma {:induction false} FoldIsAssembledFrom(rules: Rules, pending: Bytes, held: seq<Bytes>)
    ensures Fold(rules.classify, rules.trim, rules.valid, pending, held) == AssembledFrom(rules, pending, held).verdict
    decreases |held|
  {
    hide Absorbed;
    if held != [] {
      var r := Absorbed(rules.classify, rules.trim, rules.valid, pending, held[0]);
      FoldIsAssembledFrom(rules, r.pending, held[1..]);
    }
  }

  lemma {:induction false} AssembledFromNext(rules: Rules, pending: Bytes, held: seq<Bytes>, last: Bytes)
    ensures var r := AssembledFrom(rules, pending, held);
            AssembledFrom(rules, pending, held + [last]) ==
            if r.verdict.Some? then r else Absorbed(rules.classify, rules.trim, rules.valid, r.pending, last)
    decreases |held|
  {
    hide Absorbed;
    if held == [] {
      assert ([] + [last])[1..] == [];
    } else {
      assert (held + [last])[0] == held[0] && (held + [last])[1..] == held[1..] + [last];
      var r := Absorbed(rules.classify, rules.trim, rules.valid, pending, held[0]);
      AssembledFromNext(rules, r.pending, held[1..], last);
    }
  }

  lemma {:induction false} AssembledIsFrom(rules: Rules, held: seq<Bytes>)
    ensures Assembled(rules, held) == AssembledFrom(rules, [], held)
    decreases |held|
  {
    hide Absorbed;
    if held != [] {
      var rest, last := held[..|held| - 1], held[|held| - 1];
      AssembledIsFrom(rules, rest);
      AssembledFromNext(rules, [], rest, last);
      assert held == rest + [last];
    }
  }

  /** The same as folding over the chunks, so what is known of chunks and frames applies. */
  lemma AssembledIsFold(rules: Rules, held: seq<Bytes>)
    ensures Assembled(rules, held).verdict == Fold(rules.classify, rules.trim, rules.valid, [], held)
  {
    AssembledIsFrom(rules, held);
    FoldIsAssembledFrom(rules, [], held);
  }

  // ---- How an attempt ends ----

  /** Commits: what was read before turn `from` goes to the client and reading goes on there.
      Fails: before turn `upTo` at the latest nothing was shown; `frame`, for a failure frame. */
  datatype Fate = Commits(from: nat) | Fails(retryable: bool, upTo: nat, frame: bool)

  function FateFrom(rules: Rules, turns: seq<Turn>, n: nat): (f: Fate)
    requires n <= |turns|
    ensures if f.Commits? then n <= f.from <= |turns| else f.upTo <= |turns|
    ensures f.Fails? && f.frame ==> n < f.upTo && FailsAt(rules, turns, f.upTo - 1)
    ensures f.Fails? && f.frame ==> f.retryable == RetryableAt(rules, turns, f.upTo - 1)
    decreases |turns| - n
  {
    if n == |turns| then Fails(false, n, false)
    else if turns[n].cancelled then Fails(false, 0, false)
    else if turns[n].windowClosed then Commits(n)
    else
      match turns[n].read
      case TimedOut(_) => if Returned(turns[..n]) == [] then Fails(true, 0, false) else Commits(n + 1)
      case ReadError(retryable) => Fails(retryable, n, false)
      case ErrorChunk(retryable) => Fails(retryable, n, false)
      case Chunk(payload, done) =>
        var held := Returned(turns[..n + 1]);
        if FailsAt(rules, turns, n) then Fails(RetryableAt(rules, turns, n), n + 1, true)
        else if payload != [] && (Assembled(rules, held).verdict.Some? || OverBudget(rules, held)) then Commits(n + 1)
        else if done then Commits(n + 1)
        else FateFrom(rules, turns, n + 1)
  }

  /** The chunk read at turn n completes the failure frame. */
  predicate FailsAt(rules: Rules, turns: seq<Turn>, n: nat)
    requires n < |turns|
  {
    && turns[n].read.Chunk? && turns[n].read.payload != []
    && var v := Assembled(rules, Returned(turns[..n + 1])).verdict; v.Some? && v.value.Failure?
  }

  predicate RetryableAt(rules: Rules, turns: seq<Turn>, n: nat)
    requires n < |turns| && FailsAt(rules, turns, n)
  {
    Assembled(rules, Returned(turns[..n + 1])).verdict.value.retryable
  }

  function FateOf(rules: Rules, script: Script): Fate {
    if script.Refused? then Fails(script.retryable, 0, false) else FateFrom(rules, script.turns, 0)
  }

  /** A committed attempt reads on to the end of the stream or to an error. */
  function StopFrom(turns: seq<Turn>, n: nat): (stop: nat)
    requires n <= |turns|
    ensures n <= stop <= |turns|
    decreases |turns| - n
  {
    if n == |turns| then n
    else
      match turns[n].read
      case TimedOut(_) => StopFrom(turns, n + 1)
      case ReadError(_) => n
      case ErrorChunk(_) => n
      case Chunk(_, done) => if done then n + 1 else StopFrom(turns, n + 1)
  }

  predicate EndsFrom(turns: seq<Turn>, n: nat)
    requires n <= |turns|
  {
    var stop := StopFrom(turns, n);
    n < stop && EndsAt(turns, stop - 1)
  }

  predicate EndsAt(turns: seq<Turn>, n: nat)
    requires n < |turns|
  {
    turns[n].read.Chunk? && turns[n].read.done
  }

  /** What an attempt would show a client that takes everything. */
  function Visible(rules: Rules, script: Script): seq<Bytes> {
    if script.Refused? then []
    else
      match FateOf(rules, script)
      case Fails(_, upTo, _) => Returned(script.turns[..upTo])
      case Commits(from) =>
        Returned(script.turns[..if script.cancelledLater then from else StopFrom(script.turns, from)])
  }

  /** The attempt reads its stream to the end. */
  predicate Completes(rules: Rules, script: Script) {
    && script.Opened? && !script.cancelledLater
    && var f := FateOf(rules, script); f.Commits? && EndsFrom(script.turns, f.from)
  }

  predicate FailsByFrame(rules: Rules, script: Script) {
    var f := FateOf(rules, script); f.Fails? && f.frame
  }

  predicate Retries(rules: Rules, script: Script) {
    var f := FateOf(rules, script); f.Fails? && f.retryable
  }

  /** A client that takes k chunks. */
  function Taken(xs: seq<Bytes>, k: nat): seq<Bytes> {
    if k < |xs| then xs[..k] else xs
  }

  // ---- The chain ----

  /** The attempts started from the k-th on, counted from the first. */
  function Started(p: Plan, rules: Rules, scripts: seq<Script>, late: seq<bool>, k: nat): (n: nat)
    requires k <= TargetCount(p) <= |scripts| && TargetCount(p) <= |late|
    ensures k <= n <= TargetCount(p)
    decreases TargetCount(p) - k
  {
    if k == TargetCount(p) || late[k] then k
    else if Retries(rules, scripts[k]) then Started(p, rules, scripts, late, k + 1)
    else k + 1
  }

  /** The plugin's stream is closed without an error. */
  predicate Clean(rules: Rules, script: Script, accepts: nat) {
    |Visible(rules, script)| <= accepts && (Completes(rules, script) || FailsByFrame(rules, script))
  }

  /** The nested streams of the first k attempts: one for each that the host opened. */
  function OpenedBy(scripts: seq<Script>, k: nat): seq<nat>
    requires k <= |scripts|
  {
    if k == 0 then [] else OpenedBy(scripts, k - 1) + (if scripts[k - 1].Opened? then [k - 1] else [])
  }

  // ---- The turn that decides ----

  /** Turn n settles the attempt, whatever came before. */
  predicate Decides(rules: Rules, turns: seq<Turn>, n: nat)
    requires n < |turns|
  {
    var t := turns[n];
    || t.cancelled || t.windowClosed || !t.read.Chunk? || t.read.done
    || (t.read.payload != [] && (Judged(rules, turns, n).Some? || TooMuch(rules, turns, n)))
  }

  /** The first decisive frame of what was read up to turn n. */
  function Judged(rules: Rules, turns: seq<Turn>, n: nat): Option<Verdict>
    requires n < |turns|
  {
    Fold(rules.classify, rules.trim, rules.valid, [], Returned(turns[..n + 1]))
  }

  /** What was read up to turn n is more than may be held back. */
  predicate TooMuch(rules: Rules, turns: seq<Turn>, n: nat)
    requires n < |turns|
  {
    var held := Returned(turns[..n + 1]);
    || (0 < rules.limitBytes < |Join(held)|)
    || (0 < rules.limitFrames < FramesIn(rules, held))
  }

  /** The first turn that decides; the number of turns if none does. */
  predicate FirstDeciding(rules: Rules, turns: seq<Turn>, n: nat) {
    n <= |turns| && (forall m | 0 <= m < n :: !Decides(rules, turns, m)) && (n < |turns| ==> Decides(rules, turns, n))
  }

  lemma {:induction false} SizeIsJoined(held: seq<Bytes>)
    ensures SizeOf(held) == |Join(held)|
    decreases |held|
  {
    if held != [] {
      var rest, last := held[..|held| - 1], held[|held| - 1];
      SizeIsJoined(rest);
      JoinNext(rest, last);
      assert held == rest + [last];
    }
  }

  lemma {:induction false} JoinNext(held: seq<Bytes>, last: Bytes)
    ensures Join(held + [last]) == Join(held) + last
    decreases |held|
  {
    if held == [] {
      assert [last][1..] == [] && [] + [last] == [last] && Join([last]) == last + [];
    } else {
      assert (held + [last])[1..] == held[1..] + [last];
      JoinNext(held[1..], last);
      assert held[0] + (Join(held[1..]) + last) == held[0] + Join(held[1..]) + last;
    }
  }

  /** The loop goes on exactly over the turns that do not decide. */
  lemma {:induction false} SkipsUndecided(rules: Rules, turns: seq<Turn>, k: nat, n: nat)
    requires k <= n <= |turns| && forall m | k <= m < n :: !Decides(rules, turns, m)
    ensures FateFrom(rules, turns, k) == FateFrom(rules, turns, n)
    decreases n - k
  {
    if k < n {
      var held := Returned(turns[..k + 1]);
      AssembledIsFold(rules, held);
      SizeIsJoined(held);
      assert !Decides(rules, turns, k);
      hide Assembled, Fold, Returned, FramesIn, SizeOf, Join;
      assert FateFrom(rules, turns, k) == FateFrom(rules, turns, k + 1);
      SkipsUndecided(rules, turns, k + 1, n);
    }
  }

  /** What each kind of deciding turn comes to, told from the script alone. Of what had been
      read, `upTo` or `from` turns are held. */
  lemma EachFate(rules: Rules, turns: seq<Turn>, n: nat)
    requires FirstDeciding(rules, turns, n)
    ensures var f := FateFrom(rules, turns, 0);
            && (n == |turns| ==> f == Fails(false, n, false))
            && (n < |turns| && turns[n].cancelled ==> f == Fails(false, 0, false))
            && (n < |turns| && !turns[n].cancelled && turns[n].windowClosed ==> f == Commits(n))
    ensures n < |turns| && !turns[n].cancelled && !turns[n].windowClosed ==>
              var f, read := FateFrom(rules, turns, 0), turns[n].read;
              && (read.TimedOut? ==>
                    f == if Returned(turns[..n]) == [] then Fails(true, 0, false) else Commits(n + 1))
              && (read.ReadError? ==> f == Fails(read.retryable, n, false))
              && (read.ErrorChunk? ==> f == Fails(read.retryable, n, false))
              && (read.Chunk? ==>
                    var v := if read.payload == [] then None else Judged(rules, turns, n);
                    f == if v.Some? && v.value.Failure? then Fails(v.value.retryable, n + 1, true) else Commits(n + 1))
  {
    SkipsUndecided(rules, turns, 0, n);
    if n < |turns| {
      AssembledIsFold(rules, Returned(turns[..n + 1]));
      SizeIsJoined(Returned(turns[..n + 1]));
      hide Assembled, Fold, Returned, FramesIn, SizeOf, Join;
    }
  }

  lemma {:induction false} SomeTurnDecides(rules: Rules, turns: seq<Turn>, k: nat) returns (n: nat)
    requires k <= |turns| && forall m | 0 <= m < k :: !Decides(rules, turns, m)
    ensures FirstDeciding(rules, turns, n)
    decreases |turns| - k
  {
    if k < |turns| && !Decides(rules, turns, k) {
      n := SomeTurnDecides(rules, turns, k + 1);
    } else {
      n := k;
    }
  }

  lemma OneDecides(rules: Rules, turns: seq<Turn>, m: nat, n: nat)
    requires FirstDeciding(rules, turns, m) && FirstDeciding(rules, turns, n)
    ensures m == n
  {
    hide Decides;
  }

  /** The next target is tried after exactly these: a refusal, a read error or an error chunk
      that may be retried, a stall before the first byte, a failure frame that may be retried. */
  ghost predicate MayGoOn(rules: Rules, script: Script) {
    match script
    case Refused(retryable) => retryable
    case Opened(turns, _) =>
      exists n | 0 <= n < |turns| && FirstDeciding(rules, turns, n) :: GoesOnAt(rules, turns, n)
  }

  predicate GoesOnAt(rules: Rules, turns: seq<Turn>, n: nat)
    requires n < |turns|
  {
    var t := turns[n];
    && !t.cancelled && !t.windowClosed
    && match t.read
       case TimedOut(_) => Returned(turns[..n]) == []
       case ReadError(retryable) => retryable
       case ErrorChunk(retryable) => retryable
       case Chunk(payload, _) => payload != [] && Judged(rules, turns, n) == Some(Failure(true))
  }

  lemma RetriesIff(rules: Rules, script: Script)
    ensures Retries(rules, script) <==> MayGoOn(rules, script)
  {
    if script.Opened? {
      var turns := script.turns;
      var n := SomeTurnDecides(rules, turns, 0);
      EachFate(rules, turns, n);
      forall m | 0 <= m < |turns| && FirstDeciding(rules, turns, m) ensures m == n {
        OneDecides(rules, turns, m, n);
      }
      hide FirstDeciding, FateFrom, Returned, Judged;
    }
  }

  /** A committed attempt reads on up to the first error, or through the first chunk that ends
      the stream, or as far as the script goes. */
  lemma {:induction false} StopExactly(turns: seq<Turn>, from: nat)
    requires from <= |turns|
    ensures var stop := StopFrom(turns, from);
            && (forall m | from <= m < stop :: !turns[m].read.ReadError? && !turns[m].read.ErrorChunk?)
            && (forall m | from <= m < stop - 1 :: !EndsAt(turns, m))
            && (stop == |turns| || turns[stop].read.ReadError? || turns[stop].read.ErrorChunk?
                || (stop > from && EndsAt(turns, stop - 1)))
    decreases |turns| - from
  {
    if from < |turns| && !turns[from].read.ReadError? && !turns[from].read.ErrorChunk? && !EndsAt(turns, from) {
      StopExactly(turns, from + 1);
    }
  }

  /** The attempt is committed at its deciding turn n: the window closed, a stall with something
      held, or a chunk that does not complete a failure frame. */
  predicate CommitsAt(rules: Rules, turns: seq<Turn>, n: nat)
    requires n < |turns|
  {
    var t := turns[n];
    && !t.cancelled
    && (t.windowClosed
        || (t.read.TimedOut? && Returned(turns[..n]) != [])
        || (t.read.Chunk? && !(t.read.payload != [] && Judged(rules, turns, n).Some?
                               && Judged(rules, turns, n).value.Failure?)))
  }

  /** What a script that never decides comes to. */
  lemma CleanUndecided(rules: Rules, turns: seq<Turn>, cancelledLater: bool, accepts: nat)
    requires FateFrom(rules, turns, 0) == Fails(false, |turns|, false)
    ensures var script := Opened(turns, cancelledLater);
            Visible(rules, script) == Returned(turns) && !Clean(rules, script, accepts)
  {
    assert turns[..|turns|] == turns;
    hide FateFrom, Returned;
  }

  lemma CleanCommitted(rules: Rules, turns: seq<Turn>, cancelledLater: bool, from: nat, accepts: nat)
    requires from <= |turns| && FateFrom(rules, turns, 0) == Commits(from)
    ensures var script := Opened(turns, cancelledLater);
            var stop := if cancelledLater then from else StopFrom(turns, from);
            && Visible(rules, script) == Returned(turns[..stop])
            && (Clean(rules, script, accepts) <==>
                  !cancelledLater && from < stop && EndsAt(turns, stop - 1) && |Returned(turns[..stop])| <= accepts)
  {
    hide FateFrom, Returned, StopFrom;
  }

  lemma CleanFailed(rules: Rules, turns: seq<Turn>, cancelledLater: bool, retryable: bool, upTo: nat, frame: bool,
                    accepts: nat)
    requires upTo <= |turns| && FateFrom(rules, turns, 0) == Fails(retryable, upTo, frame)
    ensures var script := Opened(turns, cancelledLater);
            && Visible(rules, script) == Returned(turns[..upTo])
            && (Clean(rules, script, accepts) <==> frame && |Returned(turns[..upTo])| <= accepts)
  {
    hide FateFrom, Returned;
  }

  /** The close is clean, and what the client then has, told from the script: all up to the
      chunk that completed a failure frame, or all up to the end of a committed stream. */
  lemma CleanExactly(rules: Rules, turns: seq<Turn>, cancelledLater: bool, n: nat, accepts: nat)
    requires FirstDeciding(rules, turns, n)
    ensures var script := Opened(turns, cancelledLater);
            n == |turns| ==> Visible(rules, script) == Returned(turns) && !Clean(rules, script, accepts)
    ensures n < |turns| && CommitsAt(rules, turns, n) ==>
              var script := Opened(turns, cancelledLater);
              var from := if turns[n].windowClosed then n else n + 1;
              var stop := if cancelledLater then from else StopFrom(turns, from);
              && Visible(rules, script) == Returned(turns[..stop])
              && (Clean(rules, script, accepts) <==>
                    !cancelledLater && from < stop && EndsAt(turns, stop - 1) && |Returned(turns[..stop])| <= accepts)
    ensures n < |turns| && !CommitsAt(rules, turns, n) ==>
              var script, t := Opened(turns, cancelledLater), turns[n];
              && Visible(rules, script) ==
                 (if t.cancelled || t.read.TimedOut? then [] else Returned(turns[..if t.read.Chunk? then n + 1 else n]))
              && (Clean(rules, script, accepts) <==>
                    !t.cancelled && t.read.Chunk? && |Returned(turns[..n + 1])| <= accepts)
  {
    EachFate(rules, turns, n);
    assert Returned(turns[..0]) == [];
    hide FateFrom, Returned, Judged, StopFrom, FirstDeciding, Visible, Clean;
    if n == |turns| {
      CleanUndecided(rules, turns, cancelledLater, accepts);
    } else if CommitsAt(rules, turns, n) {
      CleanCommitted(rules, turns, cancelledLater, if turns[n].windowClosed then n else n + 1, accepts);
    } else {
      var f := FateFrom(rules, turns, 0);
      CleanFailed(rules, turns, cancelledLater, f.retryable, f.upTo, f.frame, accepts);
    }
  }

  // ---- What it means ----

  /** The number of attempts, told without running the chain: all but the last failed and may
      be retried, none was begun late, and the last is where the chain must stop. */
  lemma {:induction false} StartedExactly(p: Plan, rules: Rules, scripts: seq<Script>, late: seq<bool>, k: nat, n: nat)
    requires k <= n <= TargetCount(p) <= |scripts| && TargetCount(p) <= |late|
    ensures Started(p, rules, scripts, late, k) == n <==>
            && (forall j | k <= j < n :: !late[j])
            && (forall j | k <= j < n - 1 :: MayGoOn(rules, scripts[j]))
            && (n < TargetCount(p) ==> late[n] || (k < n && !MayGoOn(rules, scripts[n - 1])))
    decreases TargetCount(p) - k
  {
    if k < n {
      RetriesIff(rules, scripts[k]);
      RetriesIff(rules, scripts[n - 1]);
    }
    hide Retries, MayGoOn;
    if k < TargetCount(p) && !late[k] && Retries(rules, scripts[k]) && k < n {
      StartedExactly(p, rules, scripts, late, k + 1, n);
    }
  }

  /** A clean close after an attempt means that the client has everything the attempt read, up
      to the end of its stream or up to the chunk that completed a failure frame. */
  lemma CleanMeans(rules: Rules, script: Script, accepts: nat)
    requires Clean(rules, script, accepts)
    ensures script.Opened?
    ensures exists n :: 0 <= n < |script.turns| && (EndsAt(script.turns, n) || FailsAt(rules, script.turns, n))
              && Taken(Visible(rules, script), accepts) == Returned(script.turns[..n + 1])
  {
    var turns, f := script.turns, FateOf(rules, script);
    if f.Fails? {
      assert FailsAt(rules, turns, f.upTo - 1) && Visible(rules, script) == Returned(turns[..f.upTo - 1 + 1]);
    } else {
      var stop := StopFrom(turns, f.from);
      assert EndsAt(turns, stop - 1) && Visible(rules, script) == Returned(turns[..stop - 1 + 1]);
    }
  }

  /** The stream is closed cleanly though the client got nothing exactly when no attempt was
      started or the last one's stream ended without a byte. */
  lemma CleanWithoutBytes(p: Plan, rules: Rules, scripts: seq<Script>, late: seq<bool>)
    requires TargetCount(p) <= |scripts| && TargetCount(p) <= |late|
    ensures Started(p, rules, scripts, late, 0) == 0 <==> late[0]
    ensures forall k | 0 <= k < TargetCount(p) && Visible(rules, scripts[k]) == [] ::
              Clean(rules, scripts[k], 0) <==> Completes(rules, scripts[k])
  {
    forall k | 0 <= k < TargetCount(p) ensures FailsByFrame(rules, scripts[k]) ==> Visible(rules, scripts[k]) != [] {
      FrameShows(rules, scripts[k]);
    }
  }

  lemma FrameShows(rules: Rules, script: Script)
    ensures FailsByFrame(rules, script) ==> script.Opened? && Visible(rules, script) != []
  {
    if script.Opened? && FailsByFrame(rules, script) {
      ReturnedNext(script.turns, FateOf(rules, script).upTo - 1);
    }
  }

  /** A failure frame is one of the stream's own frames, when the chunks held end with their
      frames and none of their tails is a whole body. */
  lemma FrameFailureIsStreams(rules: Rules, script: Script)
    requires script.Opened? && FailsByFrame(rules, script)
    requires var held := Visible(rules, script);
             ChunksEndFrames([], held) && NoWholeTail(rules.trim, rules.valid, [], held)
    ensures First(rules.classify, FramesOf(Join(Visible(rules, script)))) == Some(Failure(Retries(rules, script)))
  {
    var held, n := Visible(rules, script), FateOf(rules, script).upTo - 1;
    assert held == Returned(script.turns[..n + 1]);
    AssembledIsFold(rules, held);
    FrameAlignedChunksAgree(rules.classify, rules.trim, rules.valid, held);
  }

  // ---- A chunk may be lost ----

  /** Everything the upstream sent in the turns, with what timed-out reads swallowed. */
  function Sent(turns: seq<Turn>): seq<Bytes> {
    if turns == [] then []
    else
      var last := turns[|turns| - 1].read;
      Sent(turns[..|turns| - 1]) +
      match last
      case TimedOut(swallowed) => if swallowed != [] then [swallowed] else []
      case Chunk(payload, _) => if payload != [] then [payload] else []
      case _ => []
  }

  predicate Swallows(turns: seq<Turn>, n: nat)
    requires n < |turns|
  {
    turns[n].read.TimedOut? && turns[n].read.swallowed != []
  }

  predicate Swallowing(turns: seq<Turn>) {
    exists n :: 0 <= n < |turns| && Swallows(turns, n)
  }

  lemma SwallowingNext(turns: seq<Turn>)
    requires turns != []
    ensures Swallowing(turns) <==> Swallowing(turns[..|turns| - 1]) || Swallows(turns, |turns| - 1)
  {
    var m := |turns| - 1;
    assert forall n | 0 <= n < m :: Swallows(turns[..m], n) <==> Swallows(turns, n);
    if n :| 0 <= n < |turns| && Swallows(turns, n) {
      if n < m { assert Swallows(turns[..m], n); }
    }
  }

  lemma {:induction false} ReturnedFewer(turns: seq<Turn>)
    ensures |Returned(turns)| <= |Sent(turns)|
    ensures if Swallowing(turns) then |Returned(turns)| < |Sent(turns)| else Returned(turns) == Sent(turns)
    decreases |turns|
  {
    if turns != [] {
      SwallowingNext(turns);
      ReturnedFewer(turns[..|turns| - 1]);
    }
  }

  /** A client of an attempt that completed has all its upstream sent if and only if no read
      that timed out swallowed a chunk on the way. */
  lemma WholeStreamIff(rules: Rules, script: Script)
    requires Completes(rules, script)
    ensures var stop := StopFrom(script.turns, FateOf(rules, script).from);
            Visible(rules, script) == Sent(script.turns[..stop]) <==>
            !Swallowing(script.turns[..stop])
  {
    ReturnedFewer(script.turns[..StopFrom(script.turns, FateOf(rules, script).from)]);
  }

  /** A chunk, a read that times out and swallows one, the last chunk. */
  function Stall(a: Bytes, b: Bytes, c: Bytes): seq<Turn> {
    [Turn(false, false, Chunk(a, false)), Turn(false, false, TimedOut(b)), Turn(false, false, Chunk(c, true))]
  }

  /** The smallest case: the second of three chunks is gone and the run counts as a success. */
  lemma StallLosesChunk(rules: Rules, a: Bytes, b: Bytes, c: Bytes)
    requires a != [] && b != [] && c != []
    requires Absorbed(rules.classify, rules.trim, rules.valid, [], a).verdict.None? && !OverBudget(rules, [a])
    ensures var turns := Stall(a, b, c);
            && Completes(rules, Opened(turns, false)) && Sent(turns) == [a, b, c]
            && Visible(rules, Opened(turns, false)) == [a, c] && Clean(rules, Opened(turns, false), 2)
  {
    var turns := Stall(a, b, c);
    StallReads(a, b, c);
    assert [a][..0] == [] && Assembled(rules, [a]).verdict.None?;
    hide Returned, Sent, Assembled, OverBudget, Absorbed;
    assert FateFrom(rules, turns, 1) == Commits(2);
    assert FateFrom(rules, turns, 0) == Commits(2);
    assert StopFrom(turns, 2) == 3 && turns[..3] == turns;
  }

  lemma StallReads(a: Bytes, b: Bytes, c: Bytes)
    requires a != [] && b != [] && c != []
    ensures var turns := Stall(a, b, c);
            && Returned(turns[..1]) == [a] && Returned(turns) == [a, c] && Sent(turns) == [a, b, c]
  {
    var turns := Stall(a, b, c);
    var x, y := turns[0], turns[1];
    assert turns[..1] == [x] && [x, y][..1] == [x] && turns[..2] == [x, y] && [x][..0] == [];
    assert Returned([x]) == [a] && Returned([x, y]) == [a];
    assert Sent([x]) == [a] && Sent([x, y]) == [a, b];
  }
}
