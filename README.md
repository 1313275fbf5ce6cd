# ProgressReporter in Dafny

A model of `ProgressReporter`, the PHP class that draws a self-overwriting
progress line on a terminal (src/ProgressReporter.php). A caller builds it with
the total number of units and a description. It calls `report()` once per unit
and `finish()` at the end. The reporter counts units and redraws only on counts
that are a multiple of `interval`. It keeps an operations-per-second rate and
writes a line like

    ESC[K    [#########...........] 45/100@12 ETA: 00:00:05 - Doing task 1\r

The model has one module per part of the class:

- `Reporter` (reporter.dfy): the class `ProgressReporter`. Its fields are the
  PHP fields. Its methods `Report`, `Finish`, `Update` and `Render` change
  `current`, `elapsed`, `ops` and the output buffer `out` step by step, as the
  PHP methods do. `UpdatedOps` is the rate that `update` computes.
  `DrawsAt`/`DrawsUpTo` describe the throttle of `report`.
- `Formatter` (formatter.dfy): the pure text of a line. `PercentDone`,
  `DoneChars`, `UndoneChars` and `Bar` model the bar of `getProgress`.
  `EtaSeconds` and `EstimatedTime` model `getEstimatedTime`. `Progress` is
  `getProgress` and `Line` is what one `render` echoes. Lemmas state what the
  bar and the ETA promise.
- `Clock` (clock.dfy): the `gmdate("H:i:s", t)` formatting that the ETA uses,
  taken modulo one day, with a reader `ParseClock` for it.
- `Decimal` (decimal.dfy): decimal text of the integers printed by `sprintf`,
  with a reader `ParseNat` for it.
- `StatusLine` (status_line.dfy): a reader for a whole rendered line. The lemma
  `ParseLineOfLine` proves that it gives back everything the line is meant to
  show.
- `Options` (options.dfy): the `Option` type the readers return.

The environment is passed in as inputs:

- The clock (`microtime(true)`) is a timestamp `now` in whole milliseconds. The
  constructor, `Report` and `Finish` take it. The constructor keeps it as
  `start`. `Update` sets `elapsed := now - start` and, only when `elapsed > 0`,
  sets `ops := floor(current * 1000 / elapsed)`.
- The server check (`PHP_SAPI === 'cli'`) is the constant `sapiIsCli`, given to
  the constructor.
- `echo` appends to the string field `out`.

This model follows the code of ProgressReporter.php. Later designs of this
library added other features: a time-based throttle, a 30-second rate window,
rounding of the percentage, clamping of the cell counts, and counting units
while output is suppressed. None of these is in this code, and none is modelled:

- When `only_cli` is set and the process is not under the CLI, `report`
  returns before it increments `current`. So a suppressed reporter counts
  nothing (src/ProgressReporter.php:122-126).
- The percentage and the rate are both rounded down with `floor`. The filled
  cell count is rounded up with `ceil`, with no clamp. One consequence is proved
  as `Formatter.FullBarIff`: the bar is already full at 96 percent.

The precondition of drawing is `Formatter.Renderable`: the filled cells must
fit in the 20-cell bar. Otherwise `str_repeat` would get a negative count. This
is weaker than `current <= total`, which implies it (`Formatter.CellsFitBar`).
For example, with no total the bar stays empty however many units are
reported, and that is allowed.

## Model

| member | source | states |
|---|---|---|
| `Reporter.ProgressReporter.constructor` | src/ProgressReporter.php:99-105 | stores `total`, `desc` and the start time unchanged; `current`, `elapsed` and `ops` start at 0, `interval` at 1, `only_cli` true, nothing written |
| `Reporter.ProgressReporter.Interval` | src/ProgressReporter.php:107-115 | sets the interval; the caller must pass at least 1, as documented |
| `Reporter.ProgressReporter.OnlyCli` | src/ProgressReporter.php:151-160 | sets the CLI-only flag and nothing else |
| `Reporter.ProgressReporter.Report` | src/ProgressReporter.php:117-132 | when suppressed (`only_cli` and not CLI) nothing changes and nothing is written; otherwise `current` grows by exactly 1, and the reporter updates and draws exactly when the new count is a multiple of `interval`; otherwise rate, elapsed time and output are untouched |
| `Reporter.ProgressReporter.Finish` | src/ProgressReporter.php:134-149 | never changes `current`; when suppressed changes nothing; otherwise updates the rate, draws one line whatever the throttle says, and then writes one line end |
| `Reporter.ProgressReporter.Update` | src/ProgressReporter.php:162-169 | `elapsed` becomes the time since construction and `ops` becomes `UpdatedOps` of it |
| `Reporter.ProgressReporter.Render` | src/ProgressReporter.php:171-184 | appends exactly one `Formatter.Line` of the current fields to the output, piece by piece |
| `Reporter.UpdatedOps` | src/ProgressReporter.php:164-168 | with positive elapsed time the rate is the floor of units per second (`r*e <= current*1000 < (r+1)*e`); otherwise the previous rate is kept; never negative |
| `Reporter.DrawsUpToCount` | src/ProgressReporter.php:128-131 | over the counts 1..n the throttle draws exactly `n / interval` times: each count when the interval is 1, counts 50, 100, ... when it is 50 |
| `Formatter.PercentDone` | src/ProgressReporter.php:188-192 | with a positive total the percentage is the floor of `current*100/total` (`p*total <= current*100 < (p+1)*total`); with no total it is 0 |
| `Formatter.PercentDoneAtMost100` | src/ProgressReporter.php:188-192 | for `current <= total` the percentage is in [0, 100] |
| `Formatter.PercentDoneMonotone` | src/ProgressReporter.php:188-192 | the percentage never decreases as `current` grows |
| `Formatter.CeilDiv` | src/ProgressReporter.php:194 | `ceil(a / b)` for positive `b`: the least `q` with `a <= q*b` |
| `Formatter.CellsFitBar` | src/ProgressReporter.php:194-197 | for `current <= total` the bar can be drawn and the filled and empty cells are each in [0, 20] and add up to 20 |
| `Formatter.DoneCharsMonotone` | src/ProgressReporter.php:189-194 | the number of filled cells never decreases as `current` grows |
| `Formatter.DoneCharsComplete` | src/ProgressReporter.php:188-194 | with a positive total, all 20 cells are filled when `current == total` |
| `Formatter.FullBarIff` | src/ProgressReporter.php:189-194 | for `current <= total` the bar is full exactly when more than 95 percent is done |
| `Formatter.EmptyBarWithoutTotal` | src/ProgressReporter.php:188-197 | with total 0 the percentage and the filled cells are 0 and the bar is 20 dots, whatever `current` is |
| `Formatter.Repeat` | src/ProgressReporter.php:176 | `str_repeat`: `n` copies of one character |
| `Formatter.Bar` | src/ProgressReporter.php:194-197 | the bar is 20 cells; cell `i` is `#` exactly when `i` is below the filled count, `.` otherwise |
| `Formatter.EtaSeconds` | src/ProgressReporter.php:211 | the ETA in seconds is the ceiling of remaining units over the rate: the least `s` with `s*ops >= total - current` |
| `Formatter.EtaNonNegative` | src/ProgressReporter.php:211 | for `current <= total` the ETA is never negative |
| `Formatter.EtaExample` | src/ProgressReporter.php:209-212 | 50 of 100 units done at 10 per second show ` ETA: 00:00:05` |
| `Formatter.LineFrame` | src/ProgressReporter.php:171-184 | a rendered line starts with the clear-line code and 4 spaces, ends with a carriage return, and holds no newline unless the description does |
| `StatusLine.ParseLineOfLine` | src/ProgressReporter.php:171-212 | reading a rendered line gives back its filled cells, `current`, `total`, `ops`, the ETA's time of day exactly when `ops > 0`, and the description exactly when PHP counts it as true (so `""` and `"0"` are not shown) |
| `StatusLine.ParseBarOfBar` | src/ProgressReporter.php:197 | the bar text determines the number of filled cells |
| `Clock.FormatClock` | src/ProgressReporter.php:211 | `gmdate("H:i:s")` gives 8 characters: two digits, `:`, two digits, `:`, two digits |
| `Clock.ClockRoundTrip` | src/ProgressReporter.php:211 | the clock text reads back as the timestamp modulo 86400 seconds |
| `Clock.FormatClockSameDay` | src/ProgressReporter.php:211 | two timestamps print alike exactly when they are equal modulo one day (the ETA wraps at 24 hours) |
| `Decimal.NatToString` | src/ProgressReporter.php:199-200 | `sprintf("%s")` of a count is a non-empty string of digits with no leading zero |
| `Decimal.ValueOfNatToString` | src/ProgressReporter.php:199-200 | the printed digits denote the number printed |
| `Decimal.ParseNatToString` | src/ProgressReporter.php:199-200 | a printed count reads back as itself, leaving the non-digit text that follows |

`Formatter.Progress` (`getProgress`), `Formatter.EstimatedTime`
(`getEstimatedTime`) and `Formatter.Line` (the text of one `render`) have no
contracts of their own. `StatusLine.ParseLineOfLine`, `Formatter.EtaExample` and
`Formatter.LineFrame` state what they produce. `Reporter.FinishAfterOneQuietReport`
is a client of the class. It builds a reporter for 100 units with interval 50,
reports once, and finishes. It proves that the report writes nothing and that
the finish writes exactly one line and one line end.

## Left out

- The wall clock: `microtime(true)` returns float seconds. Here time is a whole
  number of milliseconds passed in by the caller. The rate is exact integer
  `floor(current * 1000 / elapsed)`, not a floor of a float quotient.
  `elapsed` holds milliseconds, not seconds.
- Floating-point effects: PHP computes the percentage, the cell count, the rate
  and the ETA in floats. Here they are exact integer floor and ceiling. The two
  agree unless the numbers are large enough for float rounding. Printing a
  float so large that PHP uses exponent notation is not modelled.
- `PHP_EOL` is modelled as `"\n"`, its value on Unix hosts.
- Standard output is the field `out`; writes cannot fail.
- The server check is a boolean fixed at construction; `PHP_SAPI` is a constant
  of the PHP process.
- Out-of-contract inputs are preconditions rather than modelled failures:
  - an interval of 0 would make `%` divide by zero; a negative interval is also
    excluded, as the doc comment asks for `>= 1`;
  - a negative total is excluded by the type `nat`;
  - drawing when the filled cells exceed the bar is excluded by
    `Formatter.Renderable`, because PHP's `str_repeat` fails on a negative count;
  - a description that is not a string is excluded.
- `gmdate` is modelled only for the `H:i:s` format; the date part is dropped.
- examples/report.php is a demo loop with `rand` and `usleep`; it is not part
  of this model.
- A time-based throttle and a resetting rate window do not exist in this code
  and are not modelled.
