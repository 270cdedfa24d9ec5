# Network troubleshooting pipeline — a verified model

`network_agent.py` is a small "multi-agent" diagnosis tool. For one target
host it runs a fixed pipeline of five stages, each called an agent:

1. the **Analyzer** pings the target, parses the packet-loss percentage and
   the average round-trip time out of `ping`'s output, and classifies the
   link as `normal` or `degraded`;
2. the **Planner** picks a strategy, a list of steps and a priority from the
   loss and latency thresholds (5 %, 20 %, 100 ms, 200 ms);
3. the **Executor** runs one `traceroute` and summarises its output as a hop
   count, the first ten lines and a success flag;
4. the **Validator** always validates. Its confidence is 0.85 when the
   traceroute succeeded and 0.5 with one recorded issue when it did not;
5. the **Reporter** writes a one-sentence summary around the link status,
   copies the four earlier entries, and gives two recommendations.

The Orchestrator threads one context dictionary through the stages. Each
stage adds its own key.

The model is split into one Dafny module per component:

- `Text` (text.dfy) defines the Python string operations the parsers use over
  `seq<char>`: whitespace, `strip`, `in`, `split(sep)`, `split()`. It
  proves what `strip`, `in` and `split(sep)` mean in full: `TrimStart` and
  `TrimEnd` (with `Strip` built from them), `ContainsIffOccurs`, `JoinSplit`, `SplitPiecesAvoidSep` and
  `SplitFirstTwo`. For `split()` it proves as much as the parser uses: the
  words spell the non-whitespace characters (`WordsSpellNonSpace`), the
  list is empty exactly for blank text (`WordsEmptyIffBlank`), and the last
  word is the last maximal non-whitespace run (`WordsLastIsLastRun`,
  `LastWordUnique`). The words before the last one are not characterised.
- `Probe` (probe.dfy) stands for the child processes. A `ProbeRunner` is a
  function from a command line and its timeout to either
  `Completed(stdout, returncode)` or `Raised(message)`.
- `PingParser` (ping.dfy) holds `_run_ping`:
  - the imperative line loop `RunPing`;
  - the declarative `PingSpec` it is proved equal to;
  - the lemmas about `PingSpec`.
- `TraceParser` (traceroute.dfy) holds `_run_traceroute`'s summary and its
  lemmas.
- `Pipeline` (pipeline.dfy) defines:
  - the context, which is a record with one optional field per dictionary
    key;
  - the stage records;
  - the fixed texts, as enumerations whose `Text()`/`Name()` is the exact
    source string;
  - the predicates `HasStages` and `Keeps`, which describe how the context
    grows.
- `Analyzer`, `Planner`, `Executor`, `Validator` and `Reporter` each hold one
  stage.
- `Orchestrator` holds `run_troubleshooting` and four end-to-end scenarios.
  The scenarios are proved from its contract: every probe failing, a healthy
  link, heavy loss, and an abbreviated iputils `ping` summary.

Float conversion (`float(token)`) is a parameter
`toNumber: string -> Option<real>`, where `None` means it raised
`ValueError`. Loss, latency and confidence are `real`.

## Model

| member | source | states |
|---|---|---|
| `Text.Strip` | network_agent.py:186 | `line.strip()` is empty exactly when the line is all whitespace, using Python's `isspace` set |
| `Text.TrimStart` | network_agent.py:186 | `lstrip()`: the result is a suffix of the input, what it drops is all whitespace, and it does not start with whitespace |
| `Text.TrimEnd` | network_agent.py:186 | `rstrip()`: the result is a prefix of the input, what it drops is all whitespace, and it does not end with whitespace |
| `Text.Contains` | network_agent.py:73 | `sub in s`; its meaning is `ContainsIffOccurs` |
| `Text.ContainsIffOccurs` | network_agent.py:73 | `sub in s` holds exactly when `sub` occurs at some index of `s` |
| `Text.Split` | network_agent.py:72-78 | `s.split(sep)` for the `'\n'`, `'%'`, `'='` and `'/'` separators. There is always at least one piece. `JoinSplit` and `SplitPiecesAvoidSep` fix the result uniquely |
| `Text.JoinSplit` | network_agent.py:72 | joining `s.split(sep)` with `sep` gives back `s` |
| `Text.SplitCount` | network_agent.py:72 | `s.split(sep)` has one more piece than `s` has separators |
| `Text.SplitPiecesAvoidSep` | network_agent.py:72 | no piece of `s.split(sep)` contains `sep` |
| `Text.Words` | network_agent.py:74 | `s.split()`: every element is a non-empty run without whitespace, and text that starts with a non-space starts its first word |
| `Text.WordsSpellNonSpace` | network_agent.py:74 | the words of `s.split()`, concatenated, are exactly the non-whitespace characters of `s` |
| `Text.WordsEmptyIffBlank` | network_agent.py:74 | `s.split()` is empty exactly when `s` is blank, so `[-1]` raises exactly then |
| `Text.WordsLastIsLastRun` | network_agent.py:74 | `s.split()[-1]` is a maximal run of non-whitespace with only whitespace after it |
| `Text.LastWordUnique` | network_agent.py:74 | such a last run is unique, in position and in text |
| `Text.SplitHead` | network_agent.py:72 | the first piece of `s.split(sep)` runs up to the first `sep` or the end; there is more than one piece iff `sep` occurs; the other pieces are the split of what follows the first `sep` |
| `Text.SplitFirstTwo` | network_agent.py:76-78 | `s.split(sep)[0]` is the text before the first `sep`, and when `sep` occurs `s.split(sep)[1]` is the text between the first `sep` and the next one or the end |
| `Text.SplitNoSep` | network_agent.py:72 | a string without `sep` splits into itself alone |
| `Text.SplitAt` | network_agent.py:72 | a `sep`-free piece followed by `sep` splits off as the first piece |
| `PingParser.Convert` | network_agent.py:74-80 | a token gives a number exactly when `float` accepts it, that number, and otherwise the bad-number error for that token |
| `PingParser.LossReading` | network_agent.py:73-74 | a line reports a loss exactly when it contains "packet loss". The empty-token error occurs exactly when the text before the first `%` is blank |
| `PingParser.LossReadingRule` | network_agent.py:73-74 | otherwise the reading is the conversion of the last whitespace-delimited word before the first `%` |
| `PingParser.LatencyReading` | network_agent.py:75-80 | an average is read only from lines that mention "avg"/"rtt" and contain `=`. The only error is a bad number |
| `PingParser.LatencyReadingRule` | network_agent.py:75-80 | the reading is absent exactly when the line mentions neither marker, or has no `=`, or has no `/` between the first and second `=`. Otherwise it is the conversion of the text between that field's first `/` and its second `/` or its end |
| `PingParser.PingSpec` | network_agent.py:59-85 | an error means loss 100, avg 0 and unreachable. There is an error exactly when the probe raised or some line raised. Without an error, reachable is the same as returncode 0 |
| `PingParser.RunPing` | network_agent.py:57-85 | the line loop, which overwrites loss and avg and leaves at the first line that raises, returns exactly `PingSpec` of the probe outcome |
| `PingParser.FirstFaultAppend` | network_agent.py:72-80 | scanning `a + b` raises what `a` raises, or else what `b` raises |
| `PingParser.FirstFaultNoneIff` | network_agent.py:72-80 | the scan raises nothing exactly when no line raises |
| `PingParser.FirstFaultIsEarliest` | network_agent.py:72-85 | the error reported is that of the earliest line that raises |
| `PingParser.LastValueAt` | network_agent.py:72-80 | the last line that reports a measurement determines it |
| `PingParser.LastValueDefault` | network_agent.py:69-70 | with no reporting line a measurement stays 0 |
| `PingParser.PingWithoutMarkers` | network_agent.py:67-82 | output in which no line contains "packet loss" and no avg/rtt line has a `/` between its first `=` and its second `=` (or the line's end) gives loss 0, avg 0, no error, and reachable exactly when returncode is 0 |
| `PingParser.PingLastLineWins` | network_agent.py:72-82 | when nothing raises, each value is that of the last line reporting it, and reachable is the same as returncode 0 |
| `PingParser.PingFaultAborts` | network_agent.py:72-85 | one raising line anywhere in the output gives loss 100, avg 0, unreachable, and the error of the earliest raising line |
| `PingParser.LossLineReading` | network_agent.py:73-80 | iputils' loss line (`… <n>% packet loss …`) reads the loss `<n>` and no average |
| `PingParser.RttLineReading` | network_agent.py:73-80 | iputils' `rtt min/avg/max/mdev = a/b/c/d` line reads no loss and the average `b` |
| `PingParser.TwoLineSummary` | network_agent.py:72-82 | a loss line followed by an average line gives that loss, that average, no error, and reachable iff returncode 0 |
| `PingParser.IputilsSummary` | network_agent.py:67-82 | iputils' two summary lines parse to the loss word and the average field, without error |
| `PingParser.SampleSummary` | network_agent.py:67-82 | a concrete summary, `4 received, 0% packet loss` and `rtt min/avg/max/mdev = 9.8/10.0/11.2`, gives loss 0, average 10 and reachable |
| `Probe.PingRequest` | network_agent.py:57-65 | the command line `ping -c 4 <target>`, with `count`'s default of 4, and a 10-second timeout |
| `Probe.TraceRequest` | network_agent.py:177-184 | the command line `traceroute -m 15 <target>` and a 30-second timeout |
| `TraceParser.CountNonBlank` | network_agent.py:186 | the hop count never exceeds the number of lines |
| `TraceParser.RunTraceroute` | network_agent.py:173-195 | the failure shape occurs exactly when the probe raised. `success` holds exactly when the probe completed with returncode 0 |
| `TraceParser.CountNonBlankAppend` | network_agent.py:186 | the hop count adds up over concatenated line lists |
| `TraceParser.CountNonBlankAll` | network_agent.py:186 | every line counts as a hop exactly when no line is blank |
| `TraceParser.CountNonBlankNone` | network_agent.py:186 | no line counts exactly when all lines are blank |
| `TraceParser.NoHopsIffBlank` | network_agent.py:186 | the hop count is 0 exactly when the whole output is whitespace |
| `TraceParser.TraceSummary` | network_agent.py:186-192 | for a completed probe: success iff returncode 0; hops ≤ number of lines; hops 0 iff the output is blank; hops = lines iff none is blank; the sample is the prefix of length min(10, lines) |
| `TraceParser.ShortOutputKeptWhole` | network_agent.py:191 | output with fewer than ten line breaks is kept whole: joining the sample gives back the output |
| `Pipeline.Initial` | network_agent.py:292-296 | the starting context: the issue and target, and no stage key yet. `start_time` is left out |
| `Pipeline.FindingsLoss` | network_agent.py:96-101 | the Analyzer's loss, or 0 when it has written no findings, as the `get(..., 0)` chain reads it (also at lines 261-262) |
| `Pipeline.FindingsLatency` | network_agent.py:96-101 | the Analyzer's average latency, or 0 when it has written no findings |
| `Pipeline.TracerouteSucceeded` | network_agent.py:217-218 | the traceroute entry exists and records success; a missing execution or missing key counts as failure |
| `Pipeline.LaterStagesSeeSameInputs` | network_agent.py:290-327 | once the Analyzer and the Executor have written their entries, any later context that keeps them reads the same loss, latency and traceroute success |
| `Analyzer.Status` | network_agent.py:50 | `degraded` exactly when loss > 5, `normal` exactly when loss ≤ 5 |
| `Analyzer.Execute` | network_agent.py:36-55 | the entry is the agent name, the ping's loss and avg with their status, and the fixed recommendation text. Degraded iff loss > 5. A failing ping gives degraded |
| `Planner.ChooseStrategy` | network_agent.py:113-122 | first match wins: loss > 20, then latency > 200, then loss > 5, then the general check, as four exclusive rows |
| `Planner.StrategyRows` | network_agent.py:113-122 | each strategy is chosen exactly when its row's condition holds |
| `Planner.ChoosePriority` | network_agent.py:108 | `high` exactly when loss > 20 or latency > 200, `medium` otherwise |
| `Planner.PriorityFollowsStrategy` | network_agent.py:106-122 | the priority is high exactly when the strategy came from one of the first two rows |
| `Planner.GenerateSteps` | network_agent.py:124-145 | the three loss steps come first iff loss > 5, the three latency steps come last iff latency > 100, and the two baseline steps come iff neither fired. The length is 2, 3 or 6 |
| `Planner.StepsForUnique` | network_agent.py:124-145 | the step description leaves no choice: two lists meeting it are equal |
| `Planner.StepsAreAdditive` | network_agent.py:128-140 | both thresholds give both groups in order, and one threshold gives its group alone |
| `Planner.Execute` | network_agent.py:94-111 | strategy, steps and priority are computed from the Analyzer's loss and latency, each defaulting to 0 when absent |
| `Executor.Execute` | network_agent.py:154-171 | the agent name, exactly one command, `traceroute`, and its summary stored under that key, whatever the plan says |
| `Validator.Execute` | network_agent.py:204-222 | always validated. No issues iff the traceroute succeeded. Success gives 0.85; otherwise, including a missing entry, 0.5 and exactly the one issue. Confidence stays within [0, 1] |
| `Reporter.ReportedStatus` | network_agent.py:245-246 | the Analyzer's status name, or `unknown` when there are no findings |
| `Reporter.Summary` | network_agent.py:243-248 | the summary is the fixed prefix, then the status, then the fixed suffix, checked slice by slice |
| `Reporter.SummaryDeterminesStatus` | network_agent.py:248 | two summaries are equal exactly when their statuses are, so the status can be read back |
| `Reporter.CompileDetails` | network_agent.py:250-257 | `_compile_details`: the four earlier entries. `DetailsCopyEarlierEntries` shows that they, and nothing else, determine it |
| `Reporter.DetailsCopyEarlierEntries` | network_agent.py:250-257 | the details are equal exactly when the four earlier entries are |
| `Reporter.GenerateRecommendations` | network_agent.py:259-275 | exactly two entries. The first is critical above 20 % loss, a warning above 5 % and all-clear otherwise. The second is always the scheduling advice |
| `Reporter.Execute` | network_agent.py:231-241 | the report holds the agent name, the summary, the copied details and the two recommendations |
| `Orchestrator.RunTroubleshooting` | network_agent.py:290-327 | see the list after this table |
| `Orchestrator.RunWithFailingProbes` | network_agent.py:59-85 | when every probe raises, the run still completes with loss 100 and degraded status, the high-priority loss plan with its three steps, a failed traceroute entry, confidence 0.5 with one issue, `[critical, schedule]`, and a "degraded" summary |
| `Orchestrator.RunOnHealthyLink` | network_agent.py:113-145 | a ping with 0 % loss and 10 ms gives normal status, the general strategy at medium priority, the two baseline steps, and `[all-clear, schedule]` |
| `Orchestrator.RunOnSampleOutput` | network_agent.py:67-82 | when ping prints the sample summary and exits with 0, the whole run reports loss 0, 10 ms, normal status, the general plan at medium priority with the baseline steps, and `[all-clear, schedule]` |
| `Orchestrator.RunWithHeavyLoss` | network_agent.py:115-116 | above 20 % loss the run gives degraded status, the loss strategy at high priority, a plan starting with the loss steps, and a report starting with the critical advice |

`Orchestrator.RunTroubleshooting` promises all of the following. The ghost
`history` holds the context before the first stage and after each stage.

- Issue and target are kept.
- All five keys are present at the end.
- After stage k exactly the first k keys are present.
- Each stage keeps everything earlier stages wrote.
- Each step's new entry is that stage's rule (`Produces` in the stage's
  module) applied to the context the stage received. The Analyzer's and the
  Executor's rules also depend on the probe outcomes.
- Every stage's entry in the final context is also stated in terms of the
  probe outcomes. This holds whatever the probes return.
- The first recommendation is all-clear iff the status is normal.
- The first recommendation is a warning iff the loss is above 5 % and at most
  20 %.
- The first recommendation is critical iff the strategy is the loss strategy.

## Left out

- Running `ping` and `traceroute` (network_agent.py:60-65, 179-184) is child
  process I/O. It is the `ProbeRunner` parameter. The timeouts (10 s, 30 s)
  and the argument lists are recorded in the request passed to it. A timeout
  or a missing binary is a `Raised` outcome.
- `datetime.now()` timestamps in every stage record and in the context's
  `start_time` depend on the clock and are left out.
- The following are I/O and are left out: the console output of
  `run_troubleshooting` and `main`, the `argparse` command line, and the
  JSON file written at the end.
- The `OPENAI_API_KEY` lookup and the `NetworkAgent` base class's
  `NotImplementedError` carry no behaviour and are left out. The agents'
  `role` strings are never read, so they are left out too.
- `float()` is an abstract parameter. It is not Python's parser, and NaN and
  infinities are not modelled: the loss and latency are `real`. The
  confidences 0.85 and 0.5 are exact reals, not IEEE doubles.
- `PingParser.PingSpec`: the `error` text of the exception path is a `Fault`
  value, not the string `str(e)`. The fault value names the cause: the
  probe's message, an empty loss token, or a bad number token.
- `subprocess.run(..., text=True)` reads in universal-newline mode: it
  translates both `\r\n` and a lone `\r` to `\n`. The model splits the
  captured text as given.
- An agent run on its own could miss the `target` key, and the `'8.8.8.8'`
  fallback would then apply. That fallback is not modelled, because
  `run_troubleshooting` always sets `target`. The default arguments of
  `run_troubleshooting` and of the command line are not modelled either.
- `output_lines` is `split('\n')[:10]` (network_agent.py:191): the first
  ten raw lines, blank ones included.
- Priority has only `High` and `Medium`, because the code never produces any
  other value.
- The status, strategy, step, issue and recommendation strings are
  enumerations whose `Text()`/`Name()` gives the exact source string.
  Contracts compare the enumeration values.
- `PingParser.SampleSummary` uses an abbreviated summary. It drops the
  `packets transmitted` count, the `time` tail, the `mdev` value and the
  `ms` unit of iputils' output. `PingParser.IputilsSummary` covers the full two lines
  for any field values that have the shape iputils prints.
- `Orchestrator.RunOnHealthyLink`: the full-confidence case of the Validator
  is not part of this scenario. It is stated for every run by
  `Orchestrator.RunTroubleshooting`'s confidence clause.
