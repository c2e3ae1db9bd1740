/** Trials of accounts whose availability is unknown: one at a time for an instance, with
    growing pauses while no evidence arrives. Each cell changes atomically. */
module Trials {
  import opened Basics

  const SECOND: int := 1_000_000_000
  const MINUTE: int := 60 * SECOND
  const GRACE: int := 60 * SECOND
  const BUDGET: int := 5 * MINUTE
  const MAX_RETRIES := 3

  datatype TrialState = NoTrial | Active | Unknown

  /** A trial's record; no record, no trial. Times count nanoseconds, zero is unset. */
  datatype Cell =
    | Empty
    | Record(state: TrialState, began: int, pending: bool, retries: nat, backoffs: nat, nextRetry: int)

  /** The pause after the n-th trial in a row without evidence, counted from zero. */
  function Delay(n: nat): int {
    match n
    case 0 => MINUTE
    case 1 => 2 * MINUTE
    case 2 => 5 * MINUTE
    case 3 => 10 * MINUTE
    case _ => 15 * MINUTE
  }

  function AsUnknown(c: Cell, now: int): Cell
    requires c.Record?
  {
    c.(state := Unknown, backoffs := c.backoffs + 1, nextRetry := now + Delay(c.backoffs))
  }

  predicate CanBegin(c: Cell, now: int) {
    c.Empty? || (!c.state.Active? && now >= c.nextRetry)
  }

  function Begun(c: Cell, now: int): Cell {
    Record(Active, now, false, 0, if c.Record? then c.backoffs else 0, 0)
  }

  predicate RunsOut(c: Cell, now: int) {
    c.Record? && c.state.Active? && (now >= c.began + BUDGET || (!c.pending && now >= c.began + GRACE))
  }

  function Advanced(c: Cell, now: int): Cell {
    if RunsOut(c, now) then AsUnknown(c, now) else c
  }

  function Retried(c: Cell, now: int): Cell {
    if c.Empty? then c
    else
      var d := c.(retries := c.retries + 1);
      if d.retries >= MAX_RETRIES then AsUnknown(d, now) else d
  }

  function StateAt(c: Cell, now: int): TrialState {
    if c.Empty? || (c.state.Unknown? && now >= c.nextRetry) then NoTrial else c.state
  }

  // ---- Runs of one cell ----

  datatype Event =
    | TryBegin(now: int)
    | MarkPending(pending: bool)
    | ObserveRetry(now: int)
    | Advance(now: int)
    | ObserveEvidence

  function Step(c: Cell, e: Event): Cell {
    match e
    case TryBegin(now) => if CanBegin(c, now) then Begun(c, now) else c
    case MarkPending(p) => if c.Record? then c.(pending := p) else c
    case ObserveRetry(now) => Retried(c, now)
    case Advance(now) => Advanced(c, now)
    case ObserveEvidence => Empty
  }

  function TimeOf(e: Event, clock: int): int {
    if e.TryBegin? || e.ObserveRetry? || e.Advance? then e.now else clock
  }

  /** The times at which trials begin along the events. */
  function Begins(c: Cell, es: seq<Event>): seq<int>
    decreases |es|
  {
    if es == [] then []
    else (if es[0].TryBegin? && CanBegin(c, es[0].now) then [es[0].now] else []) + Begins(Step(c, es[0]), es[1..])
  }

  /** No evidence arrives and the clock does not run backwards. */
  predicate Quiet(es: seq<Event>, clock: int)
    decreases |es|
  {
    es == [] || (!es[0].ObserveEvidence? && TimeOf(es[0], clock) >= clock && Quiet(es[1..], TimeOf(es[0], clock)))
  }

  /** After n trials in a row, the last begun at `last`. */
  predicate After(c: Cell, n: nat, last: int, clock: int) {
    if n == 0 then c.Empty?
    else
      && c.Record? && last <= clock
      && match c.state
         case Active => c.backoffs >= n - 1
         case Unknown => c.backoffs >= n && c.nextRetry >= last + Delay(n - 1)
         case NoTrial => false
  }

  lemma DelayGrows(m: nat, n: nat)
    requires m <= n
    ensures Delay(m) <= Delay(n)
  {}

  lemma StepAfter(c: Cell, e: Event, n: nat, last: int, clock: int)
    requires After(c, n, last, clock) && !e.ObserveEvidence? && TimeOf(e, clock) >= clock
    ensures if e.TryBegin? && CanBegin(c, e.now) then
              After(Step(c, e), n + 1, e.now, e.now) && (n > 0 ==> e.now >= last + Delay(n - 1))
            else After(Step(c, e), n, last, TimeOf(e, clock))
  {
    if n > 0 { DelayGrows(n - 1, c.backoffs); }
  }

  /** The pauses between begins, the first one after the m-th trial. */
  predicate Spaced(begins: seq<int>, m: nat) {
    forall k | 0 <= k < |begins| - 1 :: begins[k + 1] - begins[k] >= Delay(m + k)
  }

  lemma {:induction false} BeginsSpaced(c: Cell, es: seq<Event>, n: nat, last: int, clock: int)
    requires After(c, n, last, clock) && Quiet(es, clock)
    ensures Spaced(Begins(c, es), n)
    ensures n > 0 && Begins(c, es) != [] ==> Begins(c, es)[0] >= last + Delay(n - 1)
    decreases |es|
  {
    if es != [] {
      var e, d := es[0], Step(c, es[0]);
      StepAfter(c, e, n, last, clock);
      if e.TryBegin? && CanBegin(c, e.now) {
        BeginsSpaced(d, es[1..], n + 1, e.now, e.now);
        var rest := Begins(d, es[1..]);
        assert Begins(c, es) == [e.now] + rest;
        forall k | 0 <= k < |rest| ensures ([e.now] + rest)[k + 1] - ([e.now] + rest)[k] >= Delay(n + k) {
          if k > 0 { assert rest[k] - rest[k - 1] >= Delay(n + 1 + (k - 1)); }
        }
      } else {
        BeginsSpaced(d, es[1..], n, last, TimeOf(e, clock));
        assert Begins(c, es) == Begins(d, es[1..]);
      }
    }
  }

  /** While no evidence arrives, successive trials of an instance begin at least one, two,
      five, ten and then always fifteen minutes apart. */
  lemma TrialsSpaced(es: seq<Event>, clock: int, k: nat)
    requires Quiet(es, clock) && k + 1 < |Begins(Empty, es)|
    ensures var pause := Begins(Empty, es)[k + 1] - Begins(Empty, es)[k];
            && pause >= 60 * SECOND
            && (k >= 1 ==> pause >= 120 * SECOND)
            && (k >= 2 ==> pause >= 300 * SECOND)
            && (k >= 3 ==> pause >= 600 * SECOND)
            && (k >= 4 ==> pause >= 900 * SECOND)
  {
    BeginsSpaced(Empty, es, 0, 0, clock);
    assert Delay(0 + k) == Delay(k);
  }

  /** A trial runs out exactly five minutes after it began, or one minute with no evidence
      pending; the pause after it is then one, two, five, ten or fifteen minutes, by how many
      ran out before it, and the next may begin exactly when the pause is over. */
  lemma PauseExactly(c: Cell, now: int, t: int)
    requires c.Record? && c.state.Active?
    ensures var d := Step(c, Advance(now));
            var pause := if c.backoffs == 0 then 60 else if c.backoffs == 1 then 120
                         else if c.backoffs == 2 then 300 else if c.backoffs == 3 then 600 else 900;
            if now >= c.began + 300 * SECOND || (!c.pending && now >= c.began + 60 * SECOND)
            then d.state.Unknown? && d.backoffs == c.backoffs + 1 && (CanBegin(d, t) <==> t >= now + pause * SECOND)
            else d == c && !CanBegin(d, t)
  {}

  /** Three retries end a trial the same way; evidence clears the record; a trial that begins
      is active from that time on, with its pauses remembered. */
  lemma TrialChanges(c: Cell, now: int, t: int)
    requires c.Record?
    ensures var d := Step(c, ObserveRetry(now));
            && d.retries == c.retries + 1 && d.began == c.began && d.pending == c.pending
            && (if c.retries >= 2 then d.state.Unknown? && d.backoffs == c.backoffs + 1 && d.nextRetry > now
                else d.state == c.state && d.backoffs == c.backoffs && d.nextRetry == c.nextRetry)
    ensures Step(c, ObserveEvidence) == Empty && CanBegin(Empty, t) && Step(Empty, ObserveRetry(now)) == Empty
    ensures CanBegin(c, t) <==> c.state != Active && t >= c.nextRetry
    ensures CanBegin(c, t) ==> Step(c, TryBegin(t)) == Record(Active, t, false, 0, c.backoffs, 0)
    ensures !CanBegin(c, t) ==> Step(c, TryBegin(t)) == c
  {}

  /** What the selection calls untried is exactly what may begin, once the cell is advanced:
      without interference a trial offered is a trial begun. */
  lemma OfferedMayBegin(c: Cell, now: int)
    requires c.Record? ==> !c.state.NoTrial?
    ensures StateAt(Advanced(c, now), now).NoTrial? <==> CanBegin(Advanced(c, now), now)
  {}

  // ---- The program's own form ----

  class TrialRegistry {
    var cells: map<Instance, Cell>

    constructor ()
      ensures cells == map[]
    {
      cells := map[];
    }

    function CellOf(i: Instance): Cell
      reads this
    {
      if i in cells then cells[i] else Empty
    }

    /** A record is of a trial that runs or has run out. */
    ghost predicate Sound()
      reads this
    {
      forall i :: CellOf(i).Record? ==> !CellOf(i).state.NoTrial?
    }

    method TryBegin(i: Instance, now: int) returns (ok: bool)
      modifies this
      ensures ok <==> CanBegin(old(CellOf(i)), now)
      ensures CellOf(i) == Step(old(CellOf(i)), Event.TryBegin(now))
      ensures forall j | j != i :: CellOf(j) == old(CellOf(j))
    {
      var c := CellOf(i);
      if c.Record? && (c.state.Active? || now < c.nextRetry) {
        return false;
      }
      var backoffs := 0;
      if c.Record? {
        backoffs := c.backoffs;
      }
      cells := cells[i := Record(Active, now, false, 0, backoffs, 0)];
      return true;
    }

    method Update(i: Instance, e: Event)
      requires !e.TryBegin?
      modifies this
      ensures CellOf(i) == Step(old(CellOf(i)), e)
      ensures forall j | j != i :: CellOf(j) == old(CellOf(j))
    {
      var c := CellOf(i);
      match e {
        case MarkPending(p) => c := if c.Record? then c.(pending := p) else c;
        case ObserveRetry(now) => c := Retried(c, now);
        case Advance(now) => c := Advanced(c, now);
        case ObserveEvidence => c := Empty;
        case TryBegin(_) =>
      }
      cells := cells[i := c];
    }
  }
}
