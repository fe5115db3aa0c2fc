/**
 Running one service's check command and turning its exit status into a
 health state. The process itself is outside the model: its outcome is given.

 Text is Python 2 `str`, that is bytes: a character below 128 is an ASCII
 byte, any other is a non-ASCII byte. Formatting such text into a `u'…'`
 template decodes it as ASCII and raises `UnicodeDecodeError` on a
 non-ASCII byte.
 */
module Executor {
  import opened Wrappers
  import opened Builtins
  import opened Services

  /** Health states, in the order of the table indexed by the exit code. */
  datatype State = OK | WARN | FAIL | UNK

  /** What a check reports for the API: service name, state and info text. */
  datatype CheckResult = CheckResult(name: string, state: State, info: string)

  /** What happened when the command was launched:
      - `Unsplittable`: `shlex.split` rejected the command line (an unbalanced
        quote, say) with `ValueError` before anything was started;
      - `SpawnFailed`: the process could not be started (`OSError`, whose
        `message` attribute is given);
      - `Exited`: it ran, exited with `code` and produced the merged output. */
  datatype SpawnOutcome =
    | Unsplittable(message: string)
    | SpawnFailed(message: string)
    | Exited(code: int, output: string)

  /** The exceptions other than `OSError` that can escape `get_state`. */
  datatype Raised = ValueError(message: string) | UnicodeDecodeError

  /** Byte text that decodes as ASCII. */
  predicate IsAscii(text: string)
  {
    forall i :: 0 <= i < |text| ==> text[i] as int < 128
  }

  /** The exit-code table of the check command contract. */
  const StateTable: seq<State> := [OK, WARN, FAIL, UNK]

  /** Looking the exit code up in the table, with Python's subscript rules;
      `None` is the `IndexError` case. */
  function StateOfCode(code: int): (r: Option<State>)
    ensures code == 0 ==> r == Some(OK)
    ensures code == 1 ==> r == Some(WARN)
    ensures code == 2 ==> r == Some(FAIL)
    ensures code == 3 ==> r == Some(UNK)
    ensures code == -1 ==> r == Some(UNK)
    ensures code == -2 ==> r == Some(FAIL)
    ensures code == -3 ==> r == Some(WARN)
    ensures code == -4 ==> r == Some(OK)
    ensures r.None? <==> code > 3 || code < -4
  {
    PyIndex(StateTable, code)
  }

  /** The info text reported when the command could not be started. */
  function SpawnFailureInfo(name: string, message: string): (info: string)
    ensures |info| == |name| + |message| + 29
    ensures OccursAt(info, name, 26)
    ensures OccursAt(info, message, |info| - |message|)
  {
    var info := "Failed to execute plugin `" + name + "`: " + message;
    assert info[26..26 + |name|] == name;
    assert info[|info| - |message|..] == message;
    info
  }

  /** `Service.get_state`. A start failure becomes `UNK` with a description.
      Otherwise the output is the info, and the exit code picks the state, with
      `UNK` for an out-of-table code. It raises `ValueError` when the command
      line cannot be split. It raises `UnicodeDecodeError` when the start-failure
      message or the out-of-table error log has to decode a non-ASCII name,
      message or output. */
  function GetState(s: Service, outcome: SpawnOutcome): (r: Result<CheckResult, Raised>)
    ensures r.Ok? ==> r.value.name == s.name
    ensures outcome.Unsplittable? ==> r == Err(ValueError(outcome.message))
    ensures outcome.SpawnFailed? ==> (r.Ok? <==> IsAscii(s.name) && IsAscii(outcome.message))
    ensures outcome.SpawnFailed? && r.Ok? ==>
      r.value.state == UNK && r.value.info == "Failed to execute plugin `" + s.name + "`: " + outcome.message
    ensures outcome.Exited? && -4 <= outcome.code < 4 ==> r.Ok? && r.value.info == outcome.output
    ensures outcome.Exited? && 0 <= outcome.code < 4 ==> r.Ok? && r.value.state == StateTable[outcome.code]
    ensures outcome.Exited? && -4 <= outcome.code < 0 ==> r.Ok? && r.value.state == StateTable[4 + outcome.code]
    ensures outcome.Exited? && (outcome.code > 3 || outcome.code < -4) ==>
      (r.Ok? <==> IsAscii(s.name) && IsAscii(outcome.output))
    ensures outcome.Exited? && (outcome.code > 3 || outcome.code < -4) && r.Ok? ==>
      r.value.state == UNK && r.value.info == outcome.output
    ensures r.Err? && !outcome.Unsplittable? ==> r.error == UnicodeDecodeError
  {
    match outcome
    case Unsplittable(message) => Err(ValueError(message))
    case SpawnFailed(message) =>
      // the `u'…'.format` of the start-failure message decodes name and message
      if !(IsAscii(s.name) && IsAscii(message)) then Err(UnicodeDecodeError)
      else Ok(CheckResult(s.name, UNK, SpawnFailureInfo(s.name, message)))
    case Exited(code, output) =>
      var state := StateOfCode(code);
      if state.Some? then Ok(CheckResult(s.name, state.value, output))
      else
        // the `u'…'.format` of the error log line decodes name and output
        if !(IsAscii(s.name) && IsAscii(output)) then Err(UnicodeDecodeError)
        else Ok(CheckResult(s.name, UNK, output))
  }

  /** Of the codes a well-behaved check returns, 0..3 give OK, WARN, FAIL, UNK;
      every other non-negative code gives UNK whenever `get_state` returns. */
  lemma NonNegativeCodes(s: Service, code: int, output: string)
    requires code >= 0
    requires code < 4 || (IsAscii(s.name) && IsAscii(output))
    ensures GetState(s, Exited(code, output)).Ok?
    ensures GetState(s, Exited(code, output)).value.state ==
      if code == 0 then OK else if code == 1 then WARN else if code == 2 then FAIL else UNK
  {
  }

  /** Two inputs where `get_state` raises instead of returning a state: a
      command line with an unbalanced quote, and an unknown exit code whose
      output holds a non-ASCII byte (0xB0). */
  lemma GetStateCanRaise(s: Service)
    ensures GetState(s, Unsplittable("No closing quotation")).Err?
    ensures GetState(s, Exited(7, "temp 40°C")) == Err(UnicodeDecodeError)
  {
    assert !IsAscii("temp 40°C") by {
      assert "temp 40°C"[7] as int == 0xB0;
    }
  }
}
