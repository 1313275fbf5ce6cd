/**
  The text of one progress line, as `getProgress`, `getEstimatedTime` and
  `render` of the reporter build it from its fields: a 20-cell bar, the
  counts `current/total@ops`, an ETA when the rate is positive, and the
  description when PHP counts it as true. Every value here is a function of
  the reporter's fields; the reporter itself lives in module Reporter.
 */
module Formatter {
  import opened Arith
  import opened Decimal
  import opened Clock

  /** Cells of the bar (the `width` field). */
  const Width: nat := 20
  /** Spaces before the bar (the `indent` field). */
  const IndentWidth: nat := 4
  /** ESC [ K, "erase to end of line" (the `cl_code` field). */
  const ClearLine: string := "\U{1B}[K"
  /** The `cr_code` field, which sends the cursor back to the start of the line. */
  const CarriageReturn: string := "\r"
  /** `PHP_EOL` on a Unix host. */
  const LineEnd: string := "\n"

  function Repeat(c: char, n: nat): (s: string)
    ensures |s| == n && forall i :: 0 <= i < n ==> s[i] == c
  {
    seq(n, _ => c)
  }

  /** PHP's `ceil($a / $b)` for a positive divisor: the least q with a <= q * b. */
  function CeilDiv(a: int, b: int): (q: int)
    requires b > 0
    ensures (q - 1) * b < a <= q * b
  {
    -((-a) / b)
  }

  /** `floor(current * 100 / total)`, or 0 when there is no total. */
  function PercentDone(current: nat, total: nat): (p: nat)
    ensures total == 0 ==> p == 0
    ensures total > 0 ==> p * total <= current * 100 < (p + 1) * total
  {
    if total > 0 then current * 100 / total else 0
  }

  /** `ceil(percent_done * width / 100)`: the number of filled cells. */
  function DoneChars(current: nat, total: nat): nat
  {
    CeilDiv(PercentDone(current, total) * Width, 100)
  }

  /** `width - done_chars`; negative once more than `total` units are done. */
  function UndoneChars(current: nat, total: nat): int
  {
    Width - DoneChars(current, total)
  }

  /**
    `str_repeat` refuses a negative count, so the bar can be drawn only while
    the filled cells fit in it.
   */
  predicate Renderable(current: nat, total: nat) {
    DoneChars(current, total) <= Width
  }

  /** `done_chars` '#' followed by `undone_chars` '.'. */
  function Bar(current: nat, total: nat): (b: string)
    requires Renderable(current, total)
    ensures |b| == Width
    ensures forall i :: 0 <= i < |b| ==> b[i] == (if i < DoneChars(current, total) then '#' else '.')
  {
    Repeat('#', DoneChars(current, total)) + Repeat('.', UndoneChars(current, total))
  }

  /** Seconds still needed at `ops` units per second: `ceil((total - current) / ops)`. */
  function EtaSeconds(current: nat, total: nat, ops: nat): (s: int)
    requires ops > 0
    ensures s * ops >= total - current
    ensures (s - 1) * ops < total - current
  {
    CeilDiv(total - current, ops)
  }

  /** `getEstimatedTime`. */
  function EstimatedTime(current: nat, total: nat, ops: nat): string
    requires ops > 0
  {
    " ETA: " + FormatClock(EtaSeconds(current, total, ops))
  }

  function EtaPart(current: nat, total: nat, ops: nat): string
  {
    if ops > 0 then EstimatedTime(current, total, ops) else ""
  }

  /** `getProgress`: `[bar] current/total@ops`, then the ETA when `ops > 0`. */
  function Progress(current: nat, total: nat, ops: nat): string
    requires Renderable(current, total)
  {
    "[" + Bar(current, total) + "] " + NatToString(current) + "/" + NatToString(total)
      + "@" + NatToString(ops) + EtaPart(current, total, ops)
  }

  /** PHP's truth value of a string: only "" and "0" are false. */
  predicate Truthy(desc: string) {
    desc != "" && desc != "0"
  }

  function DescPart(desc: string): string
  {
    if Truthy(desc) then " - " + desc else ""
  }

  /** Everything one `render` call echoes. */
  function Line(current: nat, total: nat, ops: nat, desc: string): string
    requires Renderable(current, total)
  {
    ClearLine + Repeat(' ', IndentWidth) + Progress(current, total, ops) + DescPart(desc) + CarriageReturn
  }

  // ----- properties of the bar -----

  /** While no more than `total` units are done the percentage is in [0, 100]. */
  lemma PercentDoneAtMost100(current: nat, total: nat)
    requires current <= total
    ensures PercentDone(current, total) <= 100
  {
    var p := PercentDone(current, total);
    if total > 0 {
      LessByFactor(p, 101, total);
    }
  }

  /**
    While no more than `total` units are done the bar can be drawn, and its
    filled and empty cells add up to the width, neither of them negative.
   */
  lemma CellsFitBar(current: nat, total: nat)
    requires current <= total
    ensures Renderable(current, total)
    ensures 0 <= UndoneChars(current, total) <= Width
    ensures DoneChars(current, total) + UndoneChars(current, total) == Width
  {
    PercentDoneAtMost100(current, total);
  }

  lemma PercentDoneMonotone(c1: nat, c2: nat, total: nat)
    requires c1 <= c2
    ensures PercentDone(c1, total) <= PercentDone(c2, total)
  {
    var p1, p2 := PercentDone(c1, total), PercentDone(c2, total);
    if total > 0 {
      assert p1 * total < (p2 + 1) * total;
      LessByFactor(p1, p2 + 1, total);
    }
  }

  /** Filled cells never decrease as more units are done. */
  lemma DoneCharsMonotone(c1: nat, c2: nat, total: nat)
    requires c1 <= c2
    ensures DoneChars(c1, total) <= DoneChars(c2, total)
  {
    PercentDoneMonotone(c1, c2, total);
  }

  /** With a positive total the bar is full when all units are done. */
  lemma DoneCharsComplete(total: nat)
    requires total > 0
    ensures DoneChars(total, total) == Width
  {
    assert PercentDone(total, total) == 100;
  }

  /**
    Because the cell count is rounded up, the bar is already full at 96
    percent: within range, it is full exactly when more than 95 percent is done.
   */
  lemma FullBarIff(current: nat, total: nat)
    requires current <= total
    ensures DoneChars(current, total) == Width <==> PercentDone(current, total) > 95
  {
    PercentDoneAtMost100(current, total);
  }

  /** With no total the bar stays empty however many units are reported. */
  lemma EmptyBarWithoutTotal(current: nat)
    ensures PercentDone(current, 0) == 0 && DoneChars(current, 0) == 0
    ensures Bar(current, 0) == Repeat('.', Width)
  {
  }

  // ----- properties of the text -----

  /** Half of 100 units left at 10 units per second takes five seconds. */
  lemma EtaExample()
    ensures EstimatedTime(50, 100, 10) == " ETA: 00:00:05"
  {
    assert EtaSeconds(50, 100, 10) == 5;
  }

  /** Within range the estimate is never negative. */
  lemma EtaNonNegative(current: nat, total: nat, ops: nat)
    requires current <= total && ops > 0
    ensures EtaSeconds(current, total, ops) >= 0
  {
  }

  /**
    A rendered line starts by clearing the line and indenting, ends with a
    carriage return, and holds no newline unless the description does.
   */
  lemma LineFrame(current: nat, total: nat, ops: nat, desc: string)
    requires Renderable(current, total)
    ensures var line := Line(current, total, ops, desc);
      |line| > IndentWidth + 3 && line[..IndentWidth + 3] == ClearLine + "    "
      && line[|line| - 1] == '\r'
      && ('\n' !in desc ==> '\n' !in line)
  {
    var line := Line(current, total, ops, desc);
    var c, t, o := NatToString(current), NatToString(total), NatToString(ops);
    var bar, eta := Bar(current, total), EtaPart(current, total, ops);
    assert Repeat(' ', IndentWidth) == "    ";
    assert line == ClearLine + "    " + "[" + bar + "] " + c + "/" + t + "@" + o + eta + DescPart(desc) + "\r";
    assert '\n' !in c && '\n' !in t && '\n' !in o && '\n' !in bar;
    assert '\n' !in eta;
  }
}
