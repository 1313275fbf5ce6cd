/**
  The reporter object: a counter of completed units, a redraw throttle on
  that counter, an operations-per-second rate, and the output it echoes.

  Three things the PHP class takes from its environment are inputs here:
  the clock is a timestamp in whole milliseconds passed to each call that
  may read it, the server API check is the flag `sapiIsCli` fixed when the
  object is made, and standard output is the string `out` that every echo
  appends to.
 */
module Reporter {
  import opened Arith
  import opened Formatter

  /** `floor(current / elapsed)` with elapsed time in milliseconds; kept as it was unless time has passed. */
  function UpdatedOps(current: nat, elapsedMs: int, previous: nat): (r: nat)
    ensures elapsedMs > 0 ==> r * elapsedMs <= current * 1000 < (r + 1) * elapsedMs
    ensures elapsedMs <= 0 ==> r == previous
  {
    if elapsedMs > 0 then current * 1000 / elapsedMs else previous
  }

  /** The throttle: `report` redraws when the new count is a multiple of the interval. */
  predicate DrawsAt(current: nat, interval: nat)
    requires interval >= 1
  {
    current % interval == 0
  }

  /** How many of the counts 1..n redraw. */
  function DrawsUpTo(n: nat, interval: nat): nat
    requires interval >= 1
  {
    if n == 0 then 0 else DrawsUpTo(n - 1, interval) + (if DrawsAt(n, interval) then 1 else 0)
  }

  /** Over n reports the throttle redraws n / interval times: every report when the interval is 1. */
  lemma {:induction false} DrawsUpToCount(n: nat, interval: nat)
    requires interval >= 1
    ensures DrawsUpTo(n, interval) == n / interval
  {
    if n > 0 {
      DrawsUpToCount(n - 1, interval);
      var q, r := (n - 1) / interval, (n - 1) % interval;
      if r + 1 == interval {
        DivModUnique(n, interval, q + 1, 0);
      } else {
        DivModUnique(n, interval, q, r + 1);
      }
    }
  }

  lemma AppendFive(s: string, a: string, b: string, c: string, d: string, e: string)
    ensures s + a + b + c + d + e == s + (a + b + c + d + e)
  {
  }

  class ProgressReporter {
    /** Time of construction, in milliseconds. */
    const start: int
    /** Units of work expected. */
    const total: nat
    /** Brief description shown after the bar. */
    const desc: string
    /** Whether the process runs under PHP's command-line server API. */
    const sapiIsCli: bool

    /** Milliseconds between construction and the last update. */
    var elapsed: int
    /** Units completed so far. */
    var current: nat
    /** Operations per second as of the last update. */
    var ops: nat
    /** Redraw every `interval` units. */
    var interval: nat
    /** Draw only under the command-line server API. */
    var onlyCli: bool
    /** Everything echoed so far. */
    var out: string

    ghost predicate Valid()
      reads this
    {
      interval >= 1
    }

    /** When this holds, `report` and `finish` do nothing at all. */
    predicate Suppressed()
      reads this
    {
      onlyCli && !sapiIsCli
    }

    constructor (total: nat, desc: string, now: int, sapiIsCli: bool)
      ensures Valid()
      ensures this.total == total && this.desc == desc && this.sapiIsCli == sapiIsCli
      ensures start == now && current == 0 && elapsed == 0 && ops == 0
      ensures interval == 1 && onlyCli && out == []
    {
      this.start := now;
      this.total := total;
      this.desc := desc;
      this.sapiIsCli := sapiIsCli;
      this.current := 0;
      this.elapsed := 0;
      this.ops := 0;
      this.interval := 1;
      this.onlyCli := true;
      this.out := [];
    }

    method Interval(interval: nat)
      requires interval >= 1
      modifies this`interval
      ensures Valid() && this.interval == interval
    {
      this.interval := interval;
    }

    method OnlyCli(value: bool)
      modifies this`onlyCli
      ensures onlyCli == value
    {
      onlyCli := value;
    }

    /** Counts one unit and redraws when the throttle lets it. */
    method Report(now: int)
      requires Valid()
      requires !Suppressed() && DrawsAt(current + 1, interval) ==> Renderable(current + 1, total)
      modifies this`current, this`elapsed, this`ops, this`out
      ensures Valid()
      ensures Suppressed() ==>
        current == old(current) && elapsed == old(elapsed) && ops == old(ops) && out == old(out)
      ensures !Suppressed() ==> current == old(current) + 1
      ensures !Suppressed() && DrawsAt(current, interval) ==>
        elapsed == now - start && ops == UpdatedOps(current, elapsed, old(ops))
        && out == old(out) + Line(current, total, ops, desc)
      ensures !Suppressed() && !DrawsAt(current, interval) ==>
        elapsed == old(elapsed) && ops == old(ops) && out == old(out)
    {
      if onlyCli && !sapiIsCli {
        return;
      }
      current := current + 1;
      if current % interval == 0 {
        Update(now);
        Render();
      }
    }

    /** Draws once more, whatever the throttle says, and ends the line. */
    method Finish(now: int)
      requires !Suppressed() ==> Renderable(current, total)
      modifies this`elapsed, this`ops, this`out
      ensures current == old(current)
      ensures Suppressed() ==> elapsed == old(elapsed) && ops == old(ops) && out == old(out)
      ensures !Suppressed() ==>
        elapsed == now - start && ops == UpdatedOps(current, elapsed, old(ops))
        && out == old(out) + Line(current, total, ops, desc) + LineEnd
    {
      if onlyCli && !sapiIsCli {
        return;
      }
      Update(now);
      Render();
      out := out + LineEnd;
    }

    /** Measures the time since construction and recomputes the rate from it. */
    method Update(now: int)
      modifies this`elapsed, this`ops
      ensures elapsed == now - start
      ensures ops == UpdatedOps(current, elapsed, old(ops))
    {
      elapsed := now - start;
      if elapsed > 0 {
        ops := current * 1000 / elapsed;
      }
    }

    /** Echoes one progress line, piece by piece. */
    method Render()
      requires Renderable(current, total)
      modifies this`out
      ensures out == old(out) + Line(current, total, ops, desc)
    {
      var pb := Progress(current, total, ops);
      out := out + ClearLine;
      out := out + Repeat(' ', IndentWidth);
      out := out + pb;
      ghost var drawn := out;
      if Truthy(desc) {
        out := out + " - " + desc;
      }
      assert out == drawn + DescPart(desc);
      out := out + CarriageReturn;
      AppendFive(old(out), ClearLine, Repeat(' ', IndentWidth), pb, DescPart(desc), CarriageReturn);
    }
  }

  /**
    A task of 100 units redrawing every 50: one report draws nothing, and
    `finish` then draws exactly one line and ends it.
   */
  method FinishAfterOneQuietReport()
  {
    var r := new ProgressReporter(100, "Doing task 1", 0, true);
    r.Interval(50);
    r.Report(10);
    assert r.current == 1 && r.out == [];
    r.Finish(20);
    assert r.ops == 50;
    assert r.out == Line(1, 100, 50, "Doing task 1") + LineEnd;
  }
}
