/**
 Alert fan-out with one escalation pass. Launching a plugin process, writing
 the message to its standard input and waiting for it are outside the model:
 a `Launcher` says, for an argument vector and the text written, whether the
 program ran to exit (with some exit code) or something raised on the way.
 */
module Alerts {
  import opened Wrappers
  import opened Builtins

  /** One `alerts_config` item: the subscriber's label and its plugin
      arguments, program first. */
  datatype Entry = Entry(name: string, args: seq<string>)

  /** What launching a plugin with a message came to: the program ran and
      exited with a code, or an exception with the given text was raised
      while starting it, feeding it the message or waiting for it. */
  datatype Launch = Ran(exitCode: int) | Raised(error: string)

  /** The process layer: argument vector and standard-input text to outcome. */
  type Launcher = (seq<string>, string) -> Launch

  /** One attempt to notify a subscriber: its label, the text sent, and the
      text of the exception the attempt raised, if any. */
  datatype Attempt = Attempt(name: string, message: string, failure: Option<string>)

  /** The text of the `IndexError` raised by `plugin_args[0]` on an empty list. */
  const IndexErrorText: string := "list index out of range"

  /** The argument vector handed to the process: the program, then its arguments. */
  function Command(plugin: string, arguments: seq<string>): (argv: seq<string>)
    ensures |argv| == |arguments| + 1 && argv[0] == plugin && argv[1..] == arguments
  {
    [plugin] + arguments
  }

  /** `execute_alert_plugin`: it raises only when launching raises; the exit
      code of a program that ran is never looked at. */
  function ExecuteAlertPlugin(plugin: string, arguments: seq<string>, message: string, launch: Launcher)
    : (r: Option<string>)
    ensures r.None? <==> launch(Command(plugin, arguments), message).Ran?
    ensures r.Some? ==> r.value == launch(Command(plugin, arguments), message).error
  {
    match launch(Command(plugin, arguments), message)
    case Ran(_) => None
    case Raised(error) => Some(error)
  }

  /** One guarded call of the fan-out: the entry's whole argument list is the
      argument vector, an empty list raises `IndexError` before anything is
      launched, and whatever was raised is caught and returned. */
  function Invoke(entry: Entry, message: string, launch: Launcher): (r: Option<string>)
    ensures |entry.args| == 0 ==> r == Some(IndexErrorText)
    ensures |entry.args| > 0 ==> (r.None? <==> launch(entry.args, message).Ran?)
    ensures |entry.args| > 0 && r.Some? ==> r.value == launch(entry.args, message).error
  {
    if |entry.args| == 0 then Some(IndexErrorText)
    else
      assert Command(entry.args[0], entry.args[1..]) == entry.args;
      ExecuteAlertPlugin(entry.args[0], entry.args[1..], message, launch)
  }

  /** The `(name, error)` pairs of the failed attempts, in attempt order. */
  function Failures(attempts: seq<Attempt>): (r: seq<(string, string)>)
    ensures |r| <= |attempts|
    ensures r == [] <==> forall i :: 0 <= i < |attempts| ==> attempts[i].failure.None?
    ensures forall i :: 0 <= i < |attempts| && attempts[i].failure.Some? ==>
      (attempts[i].name, attempts[i].failure.value) in r
    ensures forall k :: 0 <= k < |r| ==> FailedIn(attempts, r[k])
  {
    if |attempts| == 0 then []
    else
      var rest := Failures(attempts[1..]);
      FailedInTail(attempts, rest);
      if attempts[0].failure.None? then rest
      else
        assert FailedIn(attempts, (attempts[0].name, attempts[0].failure.value));
        [(attempts[0].name, attempts[0].failure.value)] + rest
  }

  /** Some attempt raised `pair.1` for the subscriber labelled `pair.0`. */
  ghost predicate FailedIn(attempts: seq<Attempt>, pair: (string, string))
  {
    exists i :: 0 <= i < |attempts| && attempts[i].name == pair.0 && attempts[i].failure == Some(pair.1)
  }

  /** Failures of the attempts after the first are failures of them all. */
  lemma FailedInTail(attempts: seq<Attempt>, rest: seq<(string, string)>)
    requires |attempts| > 0
    requires forall k :: 0 <= k < |rest| ==> FailedIn(attempts[1..], rest[k])
    ensures forall k :: 0 <= k < |rest| ==> FailedIn(attempts, rest[k])
  {
  }

  /** Failures of consecutive attempts are the failures of each part, in
      order: the report lists pass-one failures in config order. */
  lemma {:induction false} FailuresAppend(a: seq<Attempt>, b: seq<Attempt>)
    ensures Failures(a + b) == Failures(a) + Failures(b)
  {
    if |a| > 0 {
      assert (a + b)[1..] == a[1..] + b;
      FailuresAppend(a[1..], b);
    } else {
      assert a + b == b;
    }
  }

  /** The number of attempts that raised. */
  function FailedCount(attempts: seq<Attempt>): nat
  {
    if |attempts| == 0 then 0
    else (if attempts[|attempts| - 1].failure.Some? then 1 else 0) + FailedCount(attempts[..|attempts| - 1])
  }

  /** One failure per failed attempt: the report has exactly that many lines. */
  lemma {:induction false} FailuresCount(attempts: seq<Attempt>)
    ensures |Failures(attempts)| == FailedCount(attempts)
  {
    if |attempts| > 0 {
      var init := attempts[..|attempts| - 1];
      var last := attempts[|attempts| - 1];
      assert attempts == init + [last];
      FailuresAppend(init, [last]);
      FailuresOfOne(last);
      FailuresCount(init);
    }
  }

  /** One line of the escalation report: it names the plugin between
      backquotes after "Alert plugin " and ends with the error text. */
  function FailureLine(name: string, error: string): (line: string)
    ensures |line| == |name| + |error| + 24
    ensures OccursAt(line, name, 14)
    ensures OccursAt(line, error, |line| - |error|)
  {
    var line := "Alert plugin `" + name + "` failed: " + error;
    assert line[14..14 + |name|] == name;
    assert line[|line| - |error|..] == error;
    line
  }

  /** The report lines, one per failure, in the same order. */
  function ReportLines(failures: seq<(string, string)>): (lines: seq<string>)
    ensures |lines| == |failures|
    ensures forall k :: 0 <= k < |failures| ==> lines[k] == FailureLine(failures[k].0, failures[k].1)
  {
    seq(|failures|, k requires 0 <= k < |failures| => FailureLine(failures[k].0, failures[k].1))
  }

  /** The escalation report, the failure lines joined by newlines: the empty
      string exactly when nothing failed, and otherwise a text in which every
      failure's line occurs. */
  function Report(failures: seq<(string, string)>): (report: string)
    ensures report == "" <==> failures == []
    ensures forall k :: 0 <= k < |failures| ==>
      Contains(report, FailureLine(failures[k].0, failures[k].1))
  {
    var lines := ReportLines(failures);
    JoinEmptyIff("\n", lines);
    JoinContainsAll("\n", lines);
    Join("\n", lines)
  }

  /** Every failed attempt of pass one shows up in the report, with its label
      and its error text. */
  lemma {:induction false} ReportNamesEveryFailure(attempts: seq<Attempt>, i: nat)
    requires i < |attempts| && attempts[i].failure.Some?
    ensures Contains(Report(Failures(attempts)),
                     FailureLine(attempts[i].name, attempts[i].failure.value))
  {
    var failures := Failures(attempts);
    var k :| 0 <= k < |failures| && failures[k] == (attempts[i].name, attempts[i].failure.value);
  }

  /** One pass over the config: every entry is tried once, in config order,
      with `message`; whatever an attempt raises is caught and collected as
      `(name, error)`. */
  method FanOut(config: seq<Entry>, message: string, launch: Launcher)
    returns (attempts: seq<Attempt>, failures: seq<(string, string)>)
    ensures |attempts| == |config|
    ensures forall i :: 0 <= i < |config| ==>
      attempts[i] == Attempt(config[i].name, message, Invoke(config[i], message, launch))
    ensures failures == Failures(attempts)
  {
    attempts := [];
    failures := [];
    var i := 0;
    while i < |config|
      invariant 0 <= i <= |config|
      invariant |attempts| == i
      invariant forall j :: 0 <= j < i ==>
        attempts[j] == Attempt(config[j].name, message, Invoke(config[j], message, launch))
      invariant failures == Failures(attempts)
    {
      var failure := Invoke(config[i], message, launch);
      var attempt := Attempt(config[i].name, message, failure);
      FailuresAppend(attempts, [attempt]);
      FailuresOfOne(attempt);
      if failure.Some? {
        failures := failures + [(config[i].name, failure.value)];
      }
      AttemptsGrow(config, message, launch, attempts);
      attempts := attempts + [attempt];
      i := i + 1;
    }
  }

  /** The loop step of `FanOut`: appending the next entry's attempt keeps the
      attempts aligned with the config. */
  lemma AttemptsGrow(config: seq<Entry>, message: string, launch: Launcher, attempts: seq<Attempt>)
    requires |attempts| < |config|
    requires forall j :: 0 <= j < |attempts| ==>
      attempts[j] == Attempt(config[j].name, message, Invoke(config[j], message, launch))
    ensures var i := |attempts|;
      var next := attempts + [Attempt(config[i].name, message, Invoke(config[i], message, launch))];
      forall j :: 0 <= j < i + 1 ==>
        next[j] == Attempt(config[j].name, message, Invoke(config[j], message, launch))
  {
  }

  /** `send_alert_to_subscribers`: pass one sends `message` to every entry and
      collects what each raised; pass two then always sends the report of
      those failures, empty or not, to every entry, and what it raises is only
      logged. Nothing escapes, and each entry is tried exactly twice. */
  method SendAlertToSubscribers(config: seq<Entry>, message: string, launch: Launcher)
    returns (primary: seq<Attempt>, report: string, escalation: seq<Attempt>)
    ensures |primary| == |config| && |escalation| == |config|
    ensures forall i :: 0 <= i < |config| ==>
      primary[i] == Attempt(config[i].name, message, Invoke(config[i], message, launch))
    ensures report == Report(Failures(primary))
    ensures report == "" <==> forall i :: 0 <= i < |config| ==> primary[i].failure.None?
    ensures forall i :: 0 <= i < |config| ==>
      escalation[i] == Attempt(config[i].name, report, Invoke(config[i], report, launch))
  {
    var failures;
    primary, failures := FanOut(config, message, launch);
    report := Report(failures);
    var logged;
    escalation, logged := FanOut(config, report, launch);
  }

  /** Three subscribers where only the second cannot be launched: the report
      is that one line, and it goes to all three. */
  lemma EscalationScenario()
    ensures var attempts := [Attempt("a", "down", None), Attempt("b", "down", Some("boom")),
                             Attempt("c", "down", None)];
      Report(Failures(attempts)) == "Alert plugin `b` failed: boom"
  {
    var attempts := [Attempt("a", "down", None), Attempt("b", "down", Some("boom")),
                     Attempt("c", "down", None)];
    assert attempts == [attempts[0]] + [attempts[1]] + [attempts[2]];
    FailuresAppend([attempts[0]], [attempts[1]]);
    FailuresAppend([attempts[0]] + [attempts[1]], [attempts[2]]);
    FailuresOfOne(attempts[0]);
    FailuresOfOne(attempts[1]);
    FailuresOfOne(attempts[2]);
    assert Failures(attempts) == [("b", "boom")];
    SingleFailureReport("b", "boom");
    BoomLine();
  }

  /** The line for plugin `b` failing with `boom`, spelled out. */
  lemma BoomLine()
    ensures FailureLine("b", "boom") == "Alert plugin `b` failed: boom"
  {
    var line := "Alert plugin `" + "b" + "` failed: " + "boom";
    assert |line| == 29;
    assert forall k :: 0 <= k < 29 ==> line[k] == "Alert plugin `b` failed: boom"[k];
  }

  /** A single attempt contributes its failure, if any. */
  lemma FailuresOfOne(a: Attempt)
    ensures Failures([a]) == if a.failure.Some? then [(a.name, a.failure.value)] else []
  {
  }

  /** With one failure the report is exactly that failure's line. */
  lemma SingleFailureReport(name: string, error: string)
    ensures Report([(name, error)]) == FailureLine(name, error)
  {
    assert ReportLines([(name, error)]) == [FailureLine(name, error)];
  }
}
