/**
  A reader for the line `render` writes. It recovers the filled cells, the
  counts, the rate, the ETA and the shown description from the text, which
  shows that the formatting loses nothing but what PHP drops on purpose (the
  date part of the ETA and a description PHP counts as false).
 */
module StatusLine {
  import opened Options
  import opened Decimal
  import opened Clock
  import opened Formatter

  /** What a reader of the terminal sees in one progress line. */
  datatype Status = Status(
    doneChars: nat,
    current: nat,
    total: nat,
    ops: nat,
    eta: Option<nat>,
    desc: string)

  /** What `render` is meant to show for the given fields. */
  function Shown(current: nat, total: nat, ops: nat, desc: string): Status
  {
    Status(
      DoneChars(current, total), current, total, ops,
      if ops > 0 then Some(EtaSeconds(current, total, ops) % SecondsPerDay) else None,
      if Truthy(desc) then desc else "")
  }

  /** The text before the bar: clear the line, indent, open the bracket. */
  function Head(): string
  {
    ClearLine + Repeat(' ', IndentWidth) + "["
  }

  function LeadingHashes(b: string): (k: nat)
    ensures k <= |b|
    ensures forall i :: 0 <= i < k ==> b[i] == '#'
    ensures k < |b| ==> b[k] != '#'
  {
    if b == [] || b[0] != '#' then 0 else 1 + LeadingHashes(b[1..])
  }

  /** A bar of the full width: some '#', then only '.'; gives the number of '#'. */
  function ParseBar(b: string): Option<nat>
  {
    var k := LeadingHashes(b);
    if |b| == Width && forall i :: k <= i < |b| ==> b[i] == '.' then Some(k) else None
  }

  function ParseLine(line: string): Option<Status>
  {
    var h := |Head()|;
    if |line| < h + Width + 2 || line[..h] != Head() || line[h + Width..h + Width + 2] != "] " then None
    else
      match ParseBar(line[h..h + Width])
      case None => None
      case Some(done) => ParseCounts(done, line[h + Width + 2..])
  }

  /** `current/total@ops`, then the rest of the line. */
  function ParseCounts(done: nat, s: string): Option<Status>
  {
    match ParseNat(s)
    case None => None
    case Some((current, r1)) =>
      if r1 == [] || r1[0] != '/' then None
      else
        match ParseNat(r1[1..])
        case None => None
        case Some((total, r2)) =>
          if r2 == [] || r2[0] != '@' then None
          else
            match ParseNat(r2[1..])
            case None => None
            case Some((ops, r3)) => ParseEta(Status(done, current, total, ops, None, ""), r3)
  }

  /** An optional ` ETA: HH:MM:SS`. */
  function ParseEta(st: Status, s: string): Option<Status>
  {
    if |s| >= 14 && s[..6] == " ETA: " then
      match ParseClock(s[6..14])
      case None => None
      case Some(eta) => ParseDesc(st.(eta := Some(eta)), s[14..])
    else ParseDesc(st, s)
  }

  /** An optional ` - desc`, then the closing carriage return. */
  function ParseDesc(st: Status, s: string): Option<Status>
  {
    if s == CarriageReturn then Some(st)
    else if |s| >= 4 && s[..3] == " - " && s[|s| - 1] == '\r' then Some(st.(desc := s[3..|s| - 1]))
    else None
  }

  lemma ParseBarOfBar(current: nat, total: nat)
    requires Renderable(current, total)
    ensures ParseBar(Bar(current, total)) == Some(DoneChars(current, total))
  {
    var b, d := Bar(current, total), DoneChars(current, total);
    assert d < |b| ==> b[d] == '.';
    assert LeadingHashes(b) == d;
  }

  lemma ParseDescOfDescPart(st: Status, desc: string)
    ensures ParseDesc(st, DescPart(desc) + CarriageReturn)
         == Some(if Truthy(desc) then st.(desc := desc) else st)
  {
    var s := DescPart(desc) + CarriageReturn;
    if Truthy(desc) {
      assert s[..3] == " - ";
      assert s[3..|s| - 1] == desc;
    }
  }

  lemma ParseEtaOfEtaPart(st: Status, current: nat, total: nat, ops: nat, desc: string)
    ensures ParseEta(st, EtaPart(current, total, ops) + (DescPart(desc) + CarriageReturn))
         == Some(var st' := if ops > 0 then st.(eta := Some(EtaSeconds(current, total, ops) % SecondsPerDay)) else st;
                 if Truthy(desc) then st'.(desc := desc) else st')
  {
    var tail := DescPart(desc) + CarriageReturn;
    var s := EtaPart(current, total, ops) + tail;
    if ops > 0 {
      var t := EtaSeconds(current, total, ops);
      assert s == " ETA: " + FormatClock(t) + tail;
      assert s[..6] == " ETA: ";
      assert s[6..14] == FormatClock(t);
      assert s[14..] == tail;
      ClockRoundTrip(t);
      ParseDescOfDescPart(st.(eta := Some(t % SecondsPerDay)), desc);
    } else {
      assert s == tail;
      assert !(|s| >= 14 && s[..6] == " ETA: ") by {
        assert s[0] == '\r' || s[1] == '-';
      }
      ParseDescOfDescPart(st, desc);
    }
  }

  /** Everything after the bar's closing bracket and space. */
  function CountsText(current: nat, total: nat, ops: nat, desc: string): string
  {
    NatToString(current) + ("/" + (NatToString(total) + ("@" + (NatToString(ops)
      + (EtaPart(current, total, ops) + (DescPart(desc) + CarriageReturn))))))
  }

  lemma LineSplit(current: nat, total: nat, ops: nat, desc: string)
    requires Renderable(current, total)
    ensures Line(current, total, ops, desc) == Head() + Bar(current, total) + "] " + CountsText(current, total, ops, desc)
  {
    Regroup(ClearLine + Repeat(' ', IndentWidth), Bar(current, total),
      NatToString(current), NatToString(total), NatToString(ops),
      EtaPart(current, total, ops), DescPart(desc));
  }

  /** The re-bracketing LineSplit needs, on plain strings. */
  lemma Regroup(a: string, bar: string, c: string, t: string, o: string, eta: string, dp: string)
    ensures a + ("[" + bar + "] " + c + "/" + t + "@" + o + eta) + dp + CarriageReturn
         == a + "[" + bar + "] " + (c + ("/" + (t + ("@" + (o + (eta + (dp + CarriageReturn)))))))
  {
  }

  lemma ParseCountsOfCountsText(done: nat, current: nat, total: nat, ops: nat, desc: string)
    ensures ParseCounts(done, CountsText(current, total, ops, desc))
         == Some(Status(done, current, total, ops,
                        if ops > 0 then Some(EtaSeconds(current, total, ops) % SecondsPerDay) else None,
                        if Truthy(desc) then desc else ""))
  {
    var c, t, o := NatToString(current), NatToString(total), NatToString(ops);
    var r3 := EtaPart(current, total, ops) + (DescPart(desc) + CarriageReturn);
    var r2 := "@" + (o + r3);
    var r1 := "/" + (t + r2);
    ParseNatToString(current, r1);
    assert r1[1..] == t + r2;
    ParseNatToString(total, r2);
    assert r2[1..] == o + r3;
    assert r3[0] == ' ' || r3[0] == '\r';
    ParseNatToString(ops, r3);
    ParseEtaOfEtaPart(Status(done, current, total, ops, None, ""), current, total, ops, desc);
  }

  /**
    Reading a rendered line gives back the filled cells, the counts, the
    rate, the ETA's time of day and the description PHP shows.
   */
  lemma {:induction false} ParseLineOfLine(current: nat, total: nat, ops: nat, desc: string)
    requires Renderable(current, total)
    ensures ParseLine(Line(current, total, ops, desc)) == Some(Shown(current, total, ops, desc))
  {
    var bar, rest := Bar(current, total), CountsText(current, total, ops, desc);
    var line := Line(current, total, ops, desc);
    LineSplit(current, total, ops, desc);
    var h := |Head()|;
    assert line[..h] == Head();
    assert line[h..h + Width] == bar;
    assert line[h + Width..h + Width + 2] == "] ";
    assert line[h + Width + 2..] == rest;
    ParseBarOfBar(current, total);
    ParseCountsOfCountsText(DoneChars(current, total), current, total, ops, desc);
  }
}
