/**
 * Summarising the output of `traceroute -m 15 <target>`
 * (`ExecutorAgent._run_traceroute`): the number of non-blank lines as the hop
 * count, the first ten raw lines (blank ones included) as a sample, and the
 * exit status as the success flag.  A probe that raised gives only
 * `success = false` and the error.
 */
module TraceParser {
  import opened Text
  import opened Probe

  /** The dictionary `_run_traceroute` returns, in its two shapes. */
  datatype TraceResult =
    | Traced(success: bool, hops: nat, outputLines: seq<string>)
    | TraceFailed(error: string)
  {
    /** `result.get('success')`: false on the exception path. */
    predicate Succeeded() {
      Traced? && success
    }
  }

  /** How many raw lines `output_lines` keeps. */
  const SampleLines := 10

  /** `len([line for line in lines if line.strip()])`. */
  function CountNonBlank(lines: seq<string>): (n: nat)
    ensures n <= |lines|
    decreases |lines|
  {
    if lines == [] then 0
    else (if Strip(lines[0]) != "" then 1 else 0) + CountNonBlank(lines[1..])
  }

  /** `_run_traceroute` on a probe outcome. */
  function RunTraceroute(out: ProbeOutput): (r: TraceResult)
    ensures r.TraceFailed? <==> out.Raised?
    ensures r.Succeeded() <==> out.Completed? && out.returncode == 0
  {
    match out
    case Raised(msg) => TraceFailed(msg)
    case Completed(stdout, code) =>
      var lines := Split(stdout, '\n');
      Traced(code == 0, CountNonBlank(lines), lines[..if |lines| < SampleLines then |lines| else SampleLines])
  }

  // ---------------------------------------------------------------------------
  // Lemmas about the hop count and the sample

  /** The count adds up over a concatenation of line lists. */
  lemma {:induction false} CountNonBlankAppend(a: seq<string>, b: seq<string>)
    ensures CountNonBlank(a + b) == CountNonBlank(a) + CountNonBlank(b)
    decreases |a|
  {
    if a == [] {
      assert a + b == b;
    } else {
      assert (a + b)[0] == a[0];
      assert (a + b)[1..] == a[1..] + b;
      CountNonBlankAppend(a[1..], b);
    }
  }

  /** No line of a non-empty list is blank exactly when its head is not and no line of its tail is. */
  lemma NoneBlankCons(lines: seq<string>)
    requires lines != []
    ensures (forall k :: 0 <= k < |lines| ==> !IsBlank(lines[k])) <==>
      !IsBlank(lines[0]) && forall k :: 0 <= k < |lines[1..]| ==> !IsBlank(lines[1..][k])
  {
    assert forall k :: 1 <= k < |lines| ==> lines[k] == lines[1..][k - 1];
  }

  /** Every line of a non-empty list is blank exactly when its head and every line of its tail are. */
  lemma AllBlankCons(lines: seq<string>)
    requires lines != []
    ensures (forall k :: 0 <= k < |lines| ==> IsBlank(lines[k])) <==>
      IsBlank(lines[0]) && forall k :: 0 <= k < |lines[1..]| ==> IsBlank(lines[1..][k])
  {
    assert forall k :: 1 <= k < |lines| ==> lines[k] == lines[1..][k - 1];
  }

  /** Every line is counted exactly when none is blank. */
  lemma {:induction false} CountNonBlankAll(lines: seq<string>)
    ensures CountNonBlank(lines) == |lines| <==> forall k :: 0 <= k < |lines| ==> !IsBlank(lines[k])
    decreases |lines|
  {
    if lines != [] {
      CountNonBlankAll(lines[1..]);
      NoneBlankCons(lines);
    }
  }

  /** No line is counted exactly when all are blank. */
  lemma {:induction false} CountNonBlankNone(lines: seq<string>)
    ensures CountNonBlank(lines) == 0 <==> forall k :: 0 <= k < |lines| ==> IsBlank(lines[k])
    decreases |lines|
  {
    if lines != [] {
      CountNonBlankNone(lines[1..]);
      AllBlankCons(lines);
    }
  }

  /** A non-empty string is blank exactly when its head is whitespace and its tail is blank. */
  lemma BlankHeadTail(s: string)
    requires s != []
    ensures IsBlank(s) <==> IsSpace(s[0]) && IsBlank(s[1..])
  {
    assert s == [s[0]] + s[1..];
    BlankCons(s[0], s[1..]);
  }

  /** A list of lines has no non-blank line exactly when its head is blank and its tail has none. */
  lemma CountNonBlankCons(line: string, rest: seq<string>)
    ensures CountNonBlank([line] + rest) == 0 <==> IsBlank(line) && CountNonBlank(rest) == 0
  {
    assert ([line] + rest)[1..] == rest;
  }

  /** One step of `NoHopsIffBlank` for a text starting with an ordinary character. */
  lemma NoHopsStepChar(s: string)
    requires s != [] && s[0] != '\n'
    requires CountNonBlank(Split(s[1..], '\n')) == 0 <==> IsBlank(s[1..])
    requires IsBlank(s) <==> IsSpace(s[0]) && IsBlank(s[1..])
    ensures CountNonBlank(Split(s, '\n')) == 0 <==> IsBlank(s)
  {
    var rest := Split(s[1..], '\n');
    assert Split(s, '\n') == [[s[0]] + rest[0]] + rest[1..];
    assert rest == [rest[0]] + rest[1..];
    CountNonBlankCons([s[0]] + rest[0], rest[1..]);
    CountNonBlankCons(rest[0], rest[1..]);
    BlankCons(s[0], rest[0]);
  }

  /** One step of `NoHopsIffBlank` for a text starting with a line break. */
  lemma NoHopsStepBreak(s: string)
    requires s != [] && s[0] == '\n'
    requires CountNonBlank(Split(s[1..], '\n')) == 0 <==> IsBlank(s[1..])
    requires IsBlank(s) <==> IsSpace(s[0]) && IsBlank(s[1..])
    ensures CountNonBlank(Split(s, '\n')) == 0 <==> IsBlank(s)
  {
    var rest := Split(s[1..], '\n');
    assert Split(s, '\n') == [""] + rest;
    CountNonBlankCons("", rest);
    assert IsSpace(s[0]);
  }

  /** Splitting on '\n' leaves no non-blank line exactly when the whole text is blank. */
  lemma {:induction false} NoHopsIffBlank(s: string)
    ensures CountNonBlank(Split(s, '\n')) == 0 <==> IsBlank(s)
    decreases |s|
  {
    if s != [] {
      NoHopsIffBlank(s[1..]);
      BlankHeadTail(s);
      if s[0] != '\n' {
        NoHopsStepChar(s);
      } else {
        NoHopsStepBreak(s);
      }
    }
  }

  /** The traceroute summary's promises for a probe that completed. */
  lemma TraceSummary(out: ProbeOutput)
    requires out.Completed?
    ensures var r := RunTraceroute(out);
      var lines := Split(out.stdout, '\n');
      && r.Traced?
      && (r.success <==> out.returncode == 0)
      && r.hops <= |lines|
      && (r.hops == 0 <==> IsBlank(out.stdout))
      && (r.hops == |lines| <==> forall k :: 0 <= k < |lines| ==> !IsBlank(lines[k]))
      && |r.outputLines| == (if |lines| < SampleLines then |lines| else SampleLines)
      && r.outputLines <= lines
  {
    NoHopsIffBlank(out.stdout);
    CountNonBlankAll(Split(out.stdout, '\n'));
  }

  /** Output of at most ten lines is kept verbatim: joining the sample restores it. */
  lemma ShortOutputKeptWhole(out: ProbeOutput)
    requires out.Completed? && multiset(out.stdout)['\n'] < SampleLines
    ensures RunTraceroute(out).Traced?
    ensures Join(RunTraceroute(out).outputLines, '\n') == out.stdout
  {
    SplitCount(out.stdout, '\n');
    JoinSplit(out.stdout, '\n');
    var lines := Split(out.stdout, '\n');
    assert lines[..|lines|] == lines;
  }
}
