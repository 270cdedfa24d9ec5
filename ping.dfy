/**
 * Parsing the output of `ping -c 4 <target>` into packet loss and average
 * round-trip time (`AnalyzerAgent._run_ping`).
 *
 * The output is split on '\n' and scanned front to back.  A line containing
 * "packet loss" yields the loss: the last whitespace-separated word before the
 * first '%'.  A line containing "avg" or "rtt" yields the average time: the
 * second '/'-separated field of the text after the first '='.  Both start at
 * 0 and a later matching line overwrites an earlier one.  The whole probe sits
 * in one `try`: a probe that raised, a loss line with no word before its '%'
 * (IndexError) or a word that `float` rejects (ValueError) all give
 * loss 100, average 0, unreachable, and the error.
 */
module PingParser {
  import opened Wrappers
  import opened Text
  import opened Probe

  /** Python's `float(token)`: `Some` number, or `None` where it raises ValueError. */
  type NumberParser = string -> Option<real>

  /** Why the `try` around the probe was left through its `except` branch. */
  datatype Fault =
    | ProbeFault(message: string)   // subprocess.run raised
    | NoLossToken(line: string)     // `[-1]` of an empty word list: IndexError
    | BadNumber(token: string)      // `float(token)` raised ValueError

  /** The two measurements a line can carry. */
  datatype Metric = Loss | Latency

  /** What one line says about one measurement. */
  datatype Reading = Absent | Found(value: real) | Failed(fault: Fault)

  /** The dictionary `_run_ping` returns; `error` is present only on the exception path. */
  datatype PingResult = PingResult(loss: real, avgTime: real, reachable: bool, error: Option<Fault>)

  const LossMarker := "packet loss"

  /** `float(token)` as a reading: the number, or the conversion failure naming the token. */
  function Convert(token: string, toNumber: NumberParser): (r: Reading)
    ensures r.Found? <==> toNumber(token).Some?
    ensures r.Found? ==> r.value == toNumber(token).value
    ensures r.Failed? ==> r.fault == BadNumber(token)
  {
    match toNumber(token)
    case None => Failed(BadNumber(token))
    case Some(v) => Found(v)
  }

  /** The loss a line reports: `float(line.split('%')[0].split()[-1])` when it mentions packet loss. */
  function LossReading(line: string, toNumber: NumberParser): (r: Reading)
    ensures r.Absent? <==> !Contains(line, LossMarker)
    ensures r.Failed? && r.fault.NoLossToken? <==> Contains(line, LossMarker) && IsBlank(Split(line, '%')[0])
  {
    if !Contains(line, LossMarker) then Absent
    else
      var words := Words(Split(line, '%')[0]);
      WordsEmptyIffBlank(Split(line, '%')[0]);
      if |words| == 0 then Failed(NoLossToken(line))
      else Convert(words[|words| - 1], toNumber)
  }

  /** The line mentions the round-trip summary ("avg" or "rtt"). */
  predicate MentionsLatency(line: string) {
    Contains(line, "avg") || Contains(line, "rtt")
  }

  /**
   * The average time a line reports: `float(line.split('=')[1].split('/')[1])`
   * when the line mentions "avg" or "rtt" and both splits give a second field.
   */
  function LatencyReading(line: string, toNumber: NumberParser): (r: Reading)
    ensures !r.Absent? ==> MentionsLatency(line) && '=' in line
    ensures r.Failed? ==> r.fault.BadNumber?
  {
    if !MentionsLatency(line) then Absent
    else
      var parts := Split(line, '=');
      if |parts| <= 1 then Absent
      else
        SplitCount(line, '=');
        assert multiset(line)['='] > 0;
        var times := Split(parts[1], '/');
        if |times| <= 1 then Absent
        else Convert(times[1], toNumber)
  }

  /** The line has a `... = a/b ...` field: some `'/'` between its first and second `'='`. */
  predicate HasSlashField(line: string) {
    var parts := Split(line, '=');
    |parts| > 1 && '/' in parts[1]
  }

  /**
   * The loss rule: on a line that mentions packet loss and has a word before
   * its first `'%'`, the loss is `float` of the last word before that `'%'`.
   */
  lemma LossReadingRule(line: string, toNumber: NumberParser)
    requires Contains(line, LossMarker) && !IsBlank(Split(line, '%')[0])
    ensures PieceAt(line, '%', 0, Split(line, '%')[0])
    ensures var p := Split(line, '%')[0]; var r := LossReading(line, toNumber);
      exists i, w :: LastWordAt(p, i, w) && r == Convert(w, toNumber)
  {
    var p := Split(line, '%')[0];
    SplitFirstTwo(line, '%');
    WordsEmptyIffBlank(p);
    var i := WordsLastStart(p);
    assert LastWordAt(p, i, Words(p)[|Words(p)| - 1]);
  }

  /**
   * The average rule: a line yields an average exactly when it mentions
   * "avg" or "rtt" and has a `'/'` between its first and second `'='`; the
   * average is then `float` of the text between the first and second `'/'`
   * of that piece.
   */
  lemma LatencyReadingRule(line: string, toNumber: NumberParser)
    ensures |Split(line, '=')| > 1 <==> '=' in line
    ensures '=' in line ==> (|Split(Split(line, '=')[1], '/')| > 1 <==> '/' in Split(line, '=')[1])
    ensures HasSlashField(line) <==> '=' in line && '/' in Split(line, '=')[1]
    ensures LatencyReading(line, toNumber).Absent? <==> !MentionsLatency(line) || !HasSlashField(line)
    ensures HasSlashField(line) ==>
      var p := Split(line, '=')[1]; var t := Split(p, '/');
      && PieceAt(line, '=', |Split(line, '=')[0]| + 1, p)
      && PieceAt(p, '/', |t[0]| + 1, t[1])
    ensures MentionsLatency(line) && HasSlashField(line) ==>
      LatencyReading(line, toNumber) == Convert(Split(Split(line, '=')[1], '/')[1], toNumber)
  {
    SplitFirstTwo(line, '=');
    if '=' in line {
      SplitFirstTwo(Split(line, '=')[1], '/');
    }
  }

  function Read(m: Metric, line: string, toNumber: NumberParser): Reading {
    match m
    case Loss => LossReading(line, toNumber)
    case Latency => LatencyReading(line, toNumber)
  }

  /** The exception a line raises, if any: the loss conversion runs before the latency one. */
  function LineFault(line: string, toNumber: NumberParser): Option<Fault> {
    var lr := LossReading(line, toNumber);
    var ar := LatencyReading(line, toNumber);
    if lr.Failed? then Some(lr.fault)
    else if ar.Failed? then Some(ar.fault)
    else None
  }

  /** The exception that ends the scan: that of the first line that raises. */
  function FirstFault(lines: seq<string>, toNumber: NumberParser): Option<Fault>
    decreases |lines|
  {
    if lines == [] then None
    else if LineFault(lines[0], toNumber).Some? then LineFault(lines[0], toNumber)
    else FirstFault(lines[1..], toNumber)
  }

  /** The value of the last line that reports metric `m`, or 0 when none does. */
  function LastValue(lines: seq<string>, m: Metric, toNumber: NumberParser): real
    decreases |lines|
  {
    if lines == [] then 0.0
    else
      var r := Read(m, lines[|lines| - 1], toNumber);
      if r.Found? then r.value else LastValue(lines[..|lines| - 1], m, toNumber)
  }

  /** The result of the `except` branch. */
  function FailedPing(f: Fault): PingResult {
    PingResult(100.0, 0.0, false, Some(f))
  }

  /** The selected measurement of a result. */
  function MetricOf(r: PingResult, m: Metric): real {
    match m
    case Loss => r.loss
    case Latency => r.avgTime
  }

  /**
   * What `_run_ping` returns for a probe outcome, stated declaratively: the
   * error of the first raising line if there is one, and otherwise the values
   * of the last reporting lines.
   */
  function PingSpec(out: ProbeOutput, toNumber: NumberParser): (r: PingResult)
    ensures r.error.Some? ==> r.loss == 100.0 && r.avgTime == 0.0 && !r.reachable
    ensures r.error.Some? <==> out.Raised? || FirstFault(Split(out.stdout, '\n'), toNumber).Some?
    ensures r.error.None? ==> (r.reachable <==> out.returncode == 0)
  {
    match out
    case Raised(msg) => FailedPing(ProbeFault(msg))
    case Completed(stdout, code) =>
      var lines := Split(stdout, '\n');
      match FirstFault(lines, toNumber)
      case Some(f) => FailedPing(f)
      case None => PingResult(LastValue(lines, Loss, toNumber), LastValue(lines, Latency, toNumber), code == 0, None)
  }

  /**
   * `_run_ping`: run the probe and scan its lines front to back, overwriting
   * `loss` and `avgTime`, leaving at the first line that raises.
   */
  method RunPing(runner: ProbeRunner, target: string, toNumber: NumberParser) returns (r: PingResult)
    ensures r == PingSpec(runner(PingRequest(target)), toNumber)
  {
    var out := runner(PingRequest(target));
    if out.Raised? {
      return FailedPing(ProbeFault(out.message));
    }
    var lines := Split(out.stdout, '\n');
    var loss, avgTime := 0.0, 0.0;
    var i := 0;
    while i < |lines|
      invariant 0 <= i <= |lines|
      invariant FirstFault(lines[..i], toNumber) == None
      invariant loss == LastValue(lines[..i], Loss, toNumber)
      invariant avgTime == LastValue(lines[..i], Latency, toNumber)
    {
      var line := lines[i];
      assert lines[..i + 1] == lines[..i] + [line];
      assert lines[..i + 1][..i] == lines[..i];
      FirstFaultAppend(lines[..i], [line], toNumber);
      var lr := LossReading(line, toNumber);
      if lr.Failed? {
        FirstFaultAppend(lines[..i], lines[i..], toNumber);
        assert lines[..i] + lines[i..] == lines;
        return FailedPing(lr.fault);
      }
      if lr.Found? {
        loss := lr.value;
      }
      var ar := LatencyReading(line, toNumber);
      if ar.Failed? {
        FirstFaultAppend(lines[..i], lines[i..], toNumber);
        assert lines[..i] + lines[i..] == lines;
        return FailedPing(ar.fault);
      }
      if ar.Found? {
        avgTime := ar.value;
      }
      i := i + 1;
    }
    assert lines[..i] == lines;
    r := PingResult(loss, avgTime, out.returncode == 0, None);
  }

  // ---------------------------------------------------------------------------
  // Lemmas about the scan

  /** The scan of `a + b` raises what `a` raises, and otherwise what `b` raises. */
  lemma {:induction false} FirstFaultAppend(a: seq<string>, b: seq<string>, toNumber: NumberParser)
    ensures FirstFault(a + b, toNumber) == if FirstFault(a, toNumber).Some? then FirstFault(a, toNumber) else FirstFault(b, toNumber)
    decreases |a|
  {
    if a != [] {
      assert (a + b)[0] == a[0];
      assert (a + b)[1..] == a[1..] + b;
      FirstFaultAppend(a[1..], b, toNumber);
    } else {
      assert a + b == b;
    }
  }

  /** The scan raises exactly when some line raises. */
  lemma {:induction false} FirstFaultNoneIff(lines: seq<string>, toNumber: NumberParser)
    ensures FirstFault(lines, toNumber).None? <==> forall k :: 0 <= k < |lines| ==> LineFault(lines[k], toNumber).None?
    decreases |lines|
  {
    if lines != [] {
      FirstFaultNoneIff(lines[1..], toNumber);
      assert forall k :: 1 <= k < |lines| ==> lines[k] == lines[1..][k - 1];
    }
  }

  /** The exception raised is that of the earliest raising line. */
  lemma {:induction false} FirstFaultIsEarliest(lines: seq<string>, k: nat, toNumber: NumberParser)
    requires k < |lines| && LineFault(lines[k], toNumber).Some?
    requires forall j :: 0 <= j < k ==> LineFault(lines[j], toNumber).None?
    ensures FirstFault(lines, toNumber) == LineFault(lines[k], toNumber)
    decreases k
  {
    if k > 0 {
      assert forall j :: 0 <= j < k - 1 ==> lines[1..][j] == lines[j + 1];
      FirstFaultIsEarliest(lines[1..], k - 1, toNumber);
    }
  }

  /** The last line reporting `m` determines its value. */
  lemma {:induction false} LastValueAt(lines: seq<string>, m: Metric, k: nat, toNumber: NumberParser)
    requires k < |lines| && Read(m, lines[k], toNumber).Found?
    requires forall j :: k < j < |lines| ==> !Read(m, lines[j], toNumber).Found?
    ensures LastValue(lines, m, toNumber) == Read(m, lines[k], toNumber).value
    decreases |lines|
  {
    if k < |lines| - 1 {
      var init := lines[..|lines| - 1];
      assert forall j :: k < j < |init| ==> init[j] == lines[j];
      LastValueAt(init, m, k, toNumber);
    }
  }

  /** With no line reporting `m`, its value stays at 0. */
  lemma {:induction false} LastValueDefault(lines: seq<string>, m: Metric, toNumber: NumberParser)
    requires forall j :: 0 <= j < |lines| ==> !Read(m, lines[j], toNumber).Found?
    ensures LastValue(lines, m, toNumber) == 0.0
    decreases |lines|
  {
    if lines != [] {
      var init := lines[..|lines| - 1];
      assert forall j :: 0 <= j < |init| ==> init[j] == lines[j];
      LastValueDefault(init, m, toNumber);
    }
  }

  // ---------------------------------------------------------------------------
  // What `_run_ping` promises

  /**
   * Output in which no line mentions "packet loss", and no line that mentions
   * "avg" or "rtt" has a `'/'` between its first `'='` and its second `'='`
   * (or the end of the line), parses to loss 0
   * and average 0 without raising; reachability then follows the exit code.
   */
  lemma PingWithoutMarkers(out: ProbeOutput, toNumber: NumberParser)
    requires out.Completed?
    requires forall k :: 0 <= k < |Split(out.stdout, '\n')| ==>
      var line := Split(out.stdout, '\n')[k];
      !Contains(line, LossMarker) && !(MentionsLatency(line) && HasSlashField(line))
    ensures PingSpec(out, toNumber) == PingResult(0.0, 0.0, out.returncode == 0, None)
  {
    var lines := Split(out.stdout, '\n');
    forall k | 0 <= k < |lines| ensures LatencyReading(lines[k], toNumber).Absent? {
      LatencyReadingRule(lines[k], toNumber);
    }
    FirstFaultNoneIff(lines, toNumber);
    LastValueDefault(lines, Loss, toNumber);
    LastValueDefault(lines, Latency, toNumber);
  }

  /** When nothing raises, the last line reporting a measurement determines it. */
  lemma PingLastLineWins(out: ProbeOutput, toNumber: NumberParser, m: Metric, k: nat)
    requires out.Completed?
    requires FirstFault(Split(out.stdout, '\n'), toNumber).None?
    requires k < |Split(out.stdout, '\n')| && Read(m, Split(out.stdout, '\n')[k], toNumber).Found?
    requires forall j :: k < j < |Split(out.stdout, '\n')| ==> !Read(m, Split(out.stdout, '\n')[j], toNumber).Found?
    ensures MetricOf(PingSpec(out, toNumber), m) == Read(m, Split(out.stdout, '\n')[k], toNumber).value
    ensures PingSpec(out, toNumber).reachable <==> out.returncode == 0
  {
    LastValueAt(Split(out.stdout, '\n'), m, k, toNumber);
  }

  /**
   * A line whose conversion raises (no word before the '%', or a word `float`
   * rejects) sends the whole probe to the `except` branch, whatever else the
   * output holds: loss 100, average 0, unreachable, with the earliest error.
   */
  lemma PingFaultAborts(out: ProbeOutput, toNumber: NumberParser, k: nat)
    requires out.Completed?
    requires k < |Split(out.stdout, '\n')| && LineFault(Split(out.stdout, '\n')[k], toNumber).Some?
    ensures PingSpec(out, toNumber).error.Some?
    ensures PingSpec(out, toNumber).error == FirstFault(Split(out.stdout, '\n'), toNumber)
    ensures PingSpec(out, toNumber).loss == 100.0 && PingSpec(out, toNumber).avgTime == 0.0
    ensures !PingSpec(out, toNumber).reachable
  {
    FirstFaultNoneIff(Split(out.stdout, '\n'), toNumber);
  }

  // ---------------------------------------------------------------------------
  // The summary iputils `ping` prints

  /** `<head> <word>% packet loss<tail>`, e.g. "4 packets transmitted, 4 received, 0% packet loss, time 3004ms". */
  function LossLine(head: string, lossWord: string, tail: string): string {
    head + " " + lossWord + "% packet loss" + tail
  }

  /** `rtt min/avg/max/mdev = <min>/<avg>/<rest>`, e.g. "rtt min/avg/max/mdev = 9.812/10.5/11.204/0.512 ms". */
  function RttLine(minField: string, avgField: string, restFields: string): string {
    "rtt min/avg/max/mdev = " + minField + "/" + avgField + "/" + restFields
  }

  /** The text before the loss line's first '%' ends with the loss word. */
  lemma LossLineBeforePercent(head: string, lossWord: string, tail: string)
    requires '%' !in head && '%' !in lossWord
    ensures Split(LossLine(head, lossWord, tail), '%')[0] == head + " " + lossWord
  {
    var p := head + " " + lossWord;
    assert LossLine(head, lossWord, tail) == p + ['%'] + (" packet loss" + tail);
    SplitAt(p, '%', " packet loss" + tail);
  }

  /** The loss line mentions packet loss. */
  lemma LossLineMentionsLoss(head: string, lossWord: string, tail: string)
    ensures Contains(LossLine(head, lossWord, tail), LossMarker)
  {
    var line := LossLine(head, lossWord, tail);
    var k := |head| + 1 + |lossWord| + 2;
    assert line[k..k + |LossMarker|] == LossMarker;
    assert OccursAt(line, LossMarker, k);
    ContainsIffOccurs(line, LossMarker);
  }

  /** The last word of `<head> <word>` is `<word>`. */
  lemma LastWordAfterSpace(head: string, w: string)
    requires IsWord(w)
    ensures !IsBlank(head + " " + w)
    ensures LastWordAt(head + " " + w, |head| + 1, w)
  {
    var p := head + " " + w;
    assert p[|head| + 1..] == w;
    assert p[|head| + 1] == w[0];
  }

  /** A line whose text before the first '%' has last word `w` reports `float(w)` as its loss. */
  lemma LossFromLastWord(line: string, p: string, k: int, w: string, toNumber: NumberParser)
    requires Contains(line, LossMarker) && Split(line, '%')[0] == p
    requires !IsBlank(p) && LastWordAt(p, k, w)
    ensures LossReading(line, toNumber) == Convert(w, toNumber)
  {
    LossReadingRule(line, toNumber);
    var i, v :| LastWordAt(p, i, v) && LossReading(line, toNumber) == Convert(v, toNumber);
    LastWordUnique(p, i, v, k, w);
  }

  /** A line without '=' reports no average. */
  lemma NoEqualsNoLatency(line: string, toNumber: NumberParser)
    requires '=' !in line
    ensures LatencyReading(line, toNumber) == Absent
  {
    LatencyReadingRule(line, toNumber);
  }

  /** The loss line yields `float` of the word right before the '%', and no average. */
  lemma LossLineReading(head: string, lossWord: string, tail: string, toNumber: NumberParser)
    requires IsWord(lossWord) && '%' !in head && '%' !in lossWord
    requires '=' !in head && '=' !in lossWord && '=' !in tail
    ensures LossReading(LossLine(head, lossWord, tail), toNumber) == Convert(lossWord, toNumber)
    ensures LatencyReading(LossLine(head, lossWord, tail), toNumber) == Absent
  {
    LossLineBeforePercent(head, lossWord, tail);
    LossLineMentionsLoss(head, lossWord, tail);
    LastWordAfterSpace(head, lossWord);
    LossFromLastWord(LossLine(head, lossWord, tail), head + " " + lossWord, |head| + 1, lossWord, toNumber);
    NoEqualsNoLatency(LossLine(head, lossWord, tail), toNumber);
  }

  /** The round-trip line yields `float` of its second '/' field after the '=', and no loss. */
  lemma RttLineReading(minField: string, avgField: string, restFields: string, toNumber: NumberParser)
    requires '/' !in minField && '/' !in avgField
    requires '=' !in minField && '=' !in avgField && '=' !in restFields
    requires !Contains(RttLine(minField, avgField, restFields), LossMarker)
    ensures LossReading(RttLine(minField, avgField, restFields), toNumber) == Absent
    ensures LatencyReading(RttLine(minField, avgField, restFields), toNumber) == Convert(avgField, toNumber)
  {
    var line := RttLine(minField, avgField, restFields);
    assert OccursAt(line, "rtt", 0);
    ContainsIffOccurs(line, "rtt");
    var c := "rtt min/avg/max/mdev ";
    var e := avgField + "/" + restFields;
    var d := " " + minField + "/" + e;
    assert line == c + ['='] + d;
    SplitAt(c, '=', d);
    SplitNoSep(d, '=');
    assert d == " " + minField + ['/'] + e;
    SplitAt(" " + minField, '/', e);
    assert e == avgField + ['/'] + restFields;
    SplitAt(avgField, '/', restFields);
  }

  /**
   * A two-line output whose first line reports only a loss and whose second
   * reports only an average parses to those two values.
   */
  lemma TwoLineSummary(l1: string, l2: string, loss: real, avg: real, code: int, toNumber: NumberParser)
    requires '\n' !in l1 && '\n' !in l2
    requires LossReading(l1, toNumber) == Found(loss) && LatencyReading(l1, toNumber) == Absent
    requires LossReading(l2, toNumber) == Absent && LatencyReading(l2, toNumber) == Found(avg)
    ensures PingSpec(Completed(l1 + "\n" + l2, code), toNumber) == PingResult(loss, avg, code == 0, None)
  {
    TwoLines(l1, l2);
    var lines := Split(l1 + "\n" + l2, '\n');
    assert lines[0] == l1 && lines[1..] == [l2] && [l2][1..] == [];
    assert LineFault(l1, toNumber) == None && LineFault(l2, toNumber) == None;
    assert FirstFault([l2], toNumber) == None;
    assert FirstFault(lines, toNumber) == None;
    assert lines[..1] == [l1] && [l1][..0] == [];
    assert LastValue([l1], Loss, toNumber) == loss;
    assert LastValue(lines, Loss, toNumber) == loss;
    assert LastValue(lines, Latency, toNumber) == avg;
  }

  /**
   * The iputils summary parses to the loss word and the average field, without
   * error, and reachability follows the exit code.
   */
  lemma IputilsSummary(head: string, lossWord: string, tail: string,
                       minField: string, avgField: string, restFields: string,
                       code: int, toNumber: NumberParser)
    requires IsWord(lossWord) && '%' !in head && '%' !in lossWord
    requires '=' !in head && '=' !in lossWord && '=' !in tail
    requires '/' !in minField && '/' !in avgField
    requires '=' !in minField && '=' !in avgField && '=' !in restFields
    requires '\n' !in head && '\n' !in tail && '\n' !in minField && '\n' !in avgField && '\n' !in restFields
    requires !Contains(RttLine(minField, avgField, restFields), LossMarker)
    requires toNumber(lossWord).Some? && toNumber(avgField).Some?
    ensures var out := Completed(LossLine(head, lossWord, tail) + "\n" + RttLine(minField, avgField, restFields), code);
      PingSpec(out, toNumber) == PingResult(toNumber(lossWord).value, toNumber(avgField).value, code == 0, None)
  {
    LossLineReading(head, lossWord, tail, toNumber);
    RttLineReading(minField, avgField, restFields, toNumber);
    assert '\n' !in lossWord by {
      assert IsSpace('\n');
    }
    TwoLineSummary(LossLine(head, lossWord, tail), RttLine(minField, avgField, restFields),
      toNumber(lossWord).value, toNumber(avgField).value, code, toNumber);
  }

  /** An abbreviated iputils summary of a healthy run. */
  const SampleOutput := LossLine("4 received,", "0", "") + "\n" + RttLine("9.8", "10.0", "11.2")

  /**
   * The sample, with a number parser that reads its two fields, gives no loss,
   * a 10 ms average and a reachable target when ping exits with code 0.
   */
  lemma SampleSummary(toNumber: NumberParser)
    requires toNumber("0") == Some(0.0) && toNumber("10.0") == Some(10.0)
    ensures PingSpec(Completed(SampleOutput, 0), toNumber) == PingResult(0.0, 10.0, true, None)
  {
    assert IsWord("0");
    MissingCharNotContained(RttLine("9.8", "10.0", "11.2"), LossMarker, 'k');
    IputilsSummary("4 received,", "0", "", "9.8", "10.0", "11.2", 0, toNumber);
  }

  /** Two lines joined by a line break split back into those two lines. */
  lemma TwoLines(l1: string, l2: string)
    requires '\n' !in l1 && '\n' !in l2
    ensures Split(l1 + "\n" + l2, '\n') == [l1, l2]
  {
    SplitAt(l1, '\n', l2);
    SplitNoSep(l2, '\n');
  }
}
