/**
 * The validator and its bounded repair loop (cli/internal/validate/validator.go).
 * Whether a payload parses as JSON and whether it conforms to the compiled
 * schema are decided by an external library; they enter the model as the
 * two functions of a `Validator`.
 */
module Validation {
  import opened Wrappers
  import opened Text
  import opened Completion

  /** `ValidationError`: where in the payload, and what is wrong. */
  datatype Finding = Finding(path: string, message: string)

  /** `ValidationResult`. */
  datatype Report = Report(valid: bool, errors: seq<Finding>)

  /**
   * `Validator`, reduced to what the JSON and schema libraries answer about
   * a payload: the decoder's error message when it does not parse, and
   * whether the parsed value satisfies the compiled schema.
   */
  datatype Validator = Validator(parseError: string -> Option<string>, conforms: string -> bool)

  /** The finding for a payload that does not parse, with the decoder's message. */
  function InvalidJSON(e: string): Finding {
    Finding("root", "Invalid JSON: " + e)
  }

  /** The finding for a payload that parses but breaks the schema. */
  const SchemaFailure := Finding("root", "Validation failed")

  /** `Validate`. */
  function Validate(v: Validator, data: string): Report {
    match v.parseError(data)
    case Some(e) => Report(false, [InvalidJSON(e)])
    case None => if v.conforms(data) then Report(true, []) else Report(false, [SchemaFailure])
  }

  /**
   * A payload is valid exactly when it parses and conforms, and then has no
   * findings; otherwise it has exactly one finding at "root", naming the
   * decoder's error or a generic schema failure.
   */
  lemma ValidateReport(v: Validator, data: string)
    ensures var r := Validate(v, data);
      (r.valid <==> v.parseError(data).None? && v.conforms(data))
      && (r.valid <==> r.errors == [])
      && (!r.valid ==> |r.errors| == 1 && r.errors[0].path == "root")
      && (v.parseError(data).Some? ==> r.errors[0].message == "Invalid JSON: " + v.parseError(data).value)
      && (v.parseError(data).None? && !v.conforms(data) ==> r.errors[0].message == "Validation failed")
  {
  }

  /** One line of `FormatErrors`: indented by two spaces, the path shown unless it is empty or "root". */
  function FormatLine(f: Finding): string {
    if f.path != "" && f.path != "root" then "  " + f.path + ": " + f.message else "  " + f.message
  }

  /** The lines of `FormatErrors`, one per finding in order. */
  function FormatLines(errors: seq<Finding>): (lines: seq<string>)
    ensures |lines| == |errors|
    ensures forall i :: 0 <= i < |errors| ==> lines[i] == FormatLine(errors[i])
  {
    if errors == [] then [] else FormatLines(errors[..|errors| - 1]) + [FormatLine(errors[|errors| - 1])]
  }

  const FormatHeader := "Validation errors:\n"

  /** `ValidationResult.FormatErrors`. */
  function FormatErrors(r: Report): string {
    if r.valid then "No validation errors" else FormatHeader + Join(FormatLines(r.errors), "\n")
  }

  /** No path or message of the findings holds a line break. */
  predicate SingleLine(errors: seq<Finding>) {
    forall i :: 0 <= i < |errors| ==> '\n' !in errors[i].path && '\n' !in errors[i].message
  }

  /** A line made of single-line path and message has no line break. */
  lemma FormatLineSingle(f: Finding)
    requires '\n' !in f.path && '\n' !in f.message
    ensures '\n' !in FormatLine(f)
  {
  }

  /**
   * The report of an invalid payload with single-line findings reads back:
   * after the header, splitting at line breaks gives one line per finding,
   * in order, indented by two spaces, with the path shown exactly when it
   * is neither empty nor "root".
   */
  lemma FormatErrorsLines(r: Report)
    requires !r.valid && r.errors != [] && SingleLine(r.errors)
    ensures var s := FormatErrors(r);
      |FormatHeader| <= |s| && s[..|FormatHeader|] == FormatHeader
      && Split(s[|FormatHeader|..], "\n") == FormatLines(r.errors)
      && forall i :: 0 <= i < |r.errors| ==>
           var line := FormatLines(r.errors)[i];
           var f := r.errors[i];
           (f.path != "" && f.path != "root" ==> line == "  " + f.path + ": " + f.message)
           && (f.path == "" || f.path == "root" ==> line == "  " + f.message)
  {
    var lines := FormatLines(r.errors);
    var s := FormatErrors(r);
    assert s == FormatHeader + Join(lines, "\n");
    assert s[|FormatHeader|..] == Join(lines, "\n");
    forall k | 0 <= k < |lines| ensures '\n' !in lines[k] {
      FormatLineSingle(r.errors[k]);
    }
    SplitJoinChar(lines, '\n');
  }

  /**
   * What the user sees for a payload `Validate` rejected: the header and one
   * line with the finding's message, the "root" path left out.
   */
  lemma ValidateThenFormat(v: Validator, data: string)
    ensures var r := Validate(v, data);
      (r.valid ==> FormatErrors(r) == "No validation errors")
      && (v.parseError(data).Some? ==>
            FormatErrors(r) == FormatHeader + "  " + ("Invalid JSON: " + v.parseError(data).value))
      && (v.parseError(data).None? && !v.conforms(data) ==>
            FormatErrors(r) == FormatHeader + "  " + "Validation failed")
  {
    var r := Validate(v, data);
    if !r.valid {
      assert FormatLines(r.errors) == [FormatLine(r.errors[0])];
    }
  }

  /** One line of the error list of a repair prompt: the path, always shown, and the message. */
  function RepairLine(f: Finding): string {
    "- " + f.path + ": " + f.message
  }

  /** The error list of a repair prompt, one line per finding in order. */
  function RepairLines(errors: seq<Finding>): (lines: seq<string>)
    ensures |lines| == |errors|
    ensures forall i :: 0 <= i < |errors| ==> lines[i] == RepairLine(errors[i])
  {
    if errors == [] then [] else RepairLines(errors[..|errors| - 1]) + [RepairLine(errors[|errors| - 1])]
  }

  /** The literal text of the repair prompt around its three arguments. */
  const RepairTemplate: seq<string> := [
    "The previous response was invalid JSON according to the schema. Please fix the following validation errors and provide a corrected JSON response:\n\nValidation errors:\n",
    "\n\nOriginal prompt: ",
    "\n\nInvalid JSON response:\n",
    "\n\nPlease provide a corrected JSON response that follows the schema exactly:"]

  /** `createRepairPrompt`: the error list, the original prompt and the rejected payload, in the template. */
  function RepairPrompt(originalPrompt: string, invalidJSON: string, r: Report): string {
    Format(RepairTemplate, [Join(RepairLines(r.errors), "\n"), originalPrompt, invalidJSON])
  }

  /**
   * A repair prompt holds the original prompt, the rejected payload and a
   * "- path: message" line for every finding.
   */
  lemma RepairPromptEmbeds(originalPrompt: string, invalidJSON: string, r: Report)
    ensures var prompt := RepairPrompt(originalPrompt, invalidJSON, r);
      Contains(prompt, originalPrompt) && Contains(prompt, invalidJSON)
      && forall i :: 0 <= i < |r.errors| ==> Contains(prompt, RepairLine(r.errors[i]))
  {
    var lines := RepairLines(r.errors);
    var args := [Join(lines, "\n"), originalPrompt, invalidJSON];
    FormatContainsArg(RepairTemplate, args, 1);
    FormatContainsArg(RepairTemplate, args, 2);
    FormatContainsArg(RepairTemplate, args, 0);
    forall i | 0 <= i < |r.errors| ensures Contains(RepairPrompt(originalPrompt, invalidJSON, r), RepairLine(r.errors[i])) {
      JoinContains(lines, "\n", i);
      ContainsTransitive(RepairPrompt(originalPrompt, invalidJSON, r), args[0], lines[i]);
    }
  }

  /** The repair prompts of `ValidateAndRetry`, all built on the original prompt `input`. */
  function Repairs(input: string): (string, Report) -> string {
    (data, report) => RepairPrompt(input, data, report)
  }

  /**
   * What `ValidateAndRetry` hands back: the calls it made, and the payload,
   * the report and the error it returns (`nil` being `None`).
   */
  datatype Attempts = Attempts(calls: seq<Call>, data: Option<string>, report: Option<Report>, err: Option<string>)

  /** The error of a repair attempt the provider failed. */
  function RetryFailed(attempt: nat, e: string): string {
    "retry attempt " + NatToString(attempt) + " failed: " + e
  }

  /** The error when every repair attempt was rejected. */
  function Exhausted(maxRetries: int): string {
    "validation failed after " + IntToString(maxRetries) + " retries"
  }

  /**
   * The repair attempts from `attempt` on, after `data` was rejected with
   * `report`: each sends the prompt `repair` builds from the latest
   * rejected payload and its report, stopping at the first valid payload,
   * at the first provider error, or after attempt `maxRetries`.
   */
  function RetryFrom(reply: Oracle, start: nat, v: Validator, repair: (string, Report) -> string, maxRetries: int, attempt: nat, data: string, report: Report): Attempts
    requires attempt >= 1
    decreases if attempt <= maxRetries then maxRetries - attempt + 1 else 0
  {
    if attempt > maxRetries then Attempts([], Some(data), Some(report), Some(Exhausted(maxRetries)))
    else
      var call := Call(repair(data, report), ForceJSON);
      match reply(start, call)
      case Failure(e) => Attempts([call], None, Some(report), Some(RetryFailed(attempt, e)))
      case Success(resp) =>
        var next := Validate(v, resp.content);
        if next.valid then Attempts([call], Some(resp.content), Some(next), None)
        else
          var rest := RetryFrom(reply, start + 1, v, repair, maxRetries, attempt + 1, resp.content, next);
          Attempts([call] + rest.calls, rest.data, rest.report, rest.err)
  }

  /** The run of `ValidateAndRetry`: the initial call with the original prompt, then the repair attempts. */
  function RetryRun(reply: Oracle, start: nat, v: Validator, input: string, repair: (string, Report) -> string, maxRetries: int): Attempts {
    var call := Call(input, ForceJSON);
    match reply(start, call)
    case Failure(e) => Attempts([call], None, None, Some("initial completion failed: " + e))
    case Success(resp) =>
      var report := Validate(v, resp.content);
      if report.valid then Attempts([call], Some(resp.content), Some(report), None)
      else
        var rest := RetryFrom(reply, start + 1, v, repair, maxRetries, 1, resp.content, report);
        Attempts([call] + rest.calls, rest.data, rest.report, rest.err)
  }

  /** The most calls `ValidateAndRetry` makes: the initial one and `maxRetries` repairs, none when it is negative. */
  function CallBudget(maxRetries: int): nat {
    if maxRetries > 0 then maxRetries + 1 else 1
  }

  /**
   * Link `j` of a run: call `j - 1` was answered with a payload `Validate`
   * rejects, and call `j` is the repair prompt for that payload and report,
   * built on the original prompt.
   */
  ghost predicate Link(reply: Oracle, start: nat, v: Validator, repair: (string, Report) -> string, calls: seq<Call>, j: nat) {
    1 <= j < |calls| && reply(start + j - 1, calls[j - 1]).Success?
    && var data := reply(start + j - 1, calls[j - 1]).value.content;
       !Validate(v, data).valid && calls[j] == Call(repair(data, Validate(v, data)), ForceJSON)
  }

  /**
   * The repair attempts from `attempt` on make at most one call per attempt
   * left; the first repairs `data`, and each later one repairs the payload
   * the call before it got back.
   */
  lemma {:induction false} RetryFromCalls(reply: Oracle, start: nat, v: Validator, repair: (string, Report) -> string, maxRetries: int, attempt: nat, data: string, report: Report)
    requires attempt >= 1
    ensures var run := RetryFrom(reply, start, v, repair, maxRetries, attempt, data, report);
      (attempt <= maxRetries ==> 1 <= |run.calls| <= maxRetries - attempt + 1
                                 && run.calls[0] == Call(repair(data, report), ForceJSON))
      && (attempt > maxRetries ==> run.calls == [])
      && forall j :: 1 <= j < |run.calls| ==> Link(reply, start, v, repair, run.calls, j)
    decreases if attempt <= maxRetries then maxRetries - attempt + 1 else 0
  {
    if attempt <= maxRetries {
      var call := Call(repair(data, report), ForceJSON);
      var run := RetryFrom(reply, start, v, repair, maxRetries, attempt, data, report);
      if reply(start, call).Success? && !Validate(v, reply(start, call).value.content).valid {
        var content := reply(start, call).value.content;
        RetryFromCalls(reply, start + 1, v, repair, maxRetries, attempt + 1, content, Validate(v, content));
        var rest := RetryFrom(reply, start + 1, v, repair, maxRetries, attempt + 1, content, Validate(v, content));
        assert run.calls == [call] + rest.calls;
        forall j | 1 <= j < |run.calls| ensures Link(reply, start, v, repair, run.calls, j) {
          assert run.calls[j] == rest.calls[j - 1];
          if j >= 2 {
            assert Link(reply, start + 1, v, repair, rest.calls, j - 1);
            assert run.calls[j - 1] == rest.calls[j - 2];
          }
        }
      }
    }
  }

  /**
   * A run of repair attempts that ends with a provider error returns no
   * payload and an error naming the attempt.
   */
  lemma {:induction false} RetryFromFailure(reply: Oracle, start: nat, v: Validator, repair: (string, Report) -> string, maxRetries: int, attempt: nat, data: string, report: Report)
    requires attempt >= 1
    ensures var run := RetryFrom(reply, start, v, repair, maxRetries, attempt, data, report);
      var k := |run.calls|;
      k >= 1 && reply(start + k - 1, run.calls[k - 1]).Failure? ==>
        run.data == None
        && run.err == Some(RetryFailed(attempt + k - 1, reply(start + k - 1, run.calls[k - 1]).error))
    decreases if attempt <= maxRetries then maxRetries - attempt + 1 else 0
  {
    if attempt <= maxRetries {
      var call := Call(repair(data, report), ForceJSON);
      var run := RetryFrom(reply, start, v, repair, maxRetries, attempt, data, report);
      if reply(start, call).Success? && !Validate(v, reply(start, call).value.content).valid {
        var content := reply(start, call).value.content;
        RetryFromFailure(reply, start + 1, v, repair, maxRetries, attempt + 1, content, Validate(v, content));
        var rest := RetryFrom(reply, start + 1, v, repair, maxRetries, attempt + 1, content, Validate(v, content));
        assert run == Attempts([call] + rest.calls, rest.data, rest.report, rest.err);
        var k := |run.calls|;
        if k >= 2 {
          var m := |rest.calls|;
          assert m == k - 1 && start + 1 + m - 1 == start + k - 1 && attempt + 1 + m - 1 == attempt + k - 1;
          assert run.calls[k - 1] == rest.calls[m - 1];
        }
      }
    }
  }

  /**
   * A run of repair attempts that ends with a provider error returns the
   * report of the payload the failing attempt was repairing: the one it
   * started from, or the answer to the call before.
   */
  lemma {:induction false} RetryFromFailureReport(reply: Oracle, start: nat, v: Validator, repair: (string, Report) -> string, maxRetries: int, attempt: nat, data: string, report: Report)
    requires attempt >= 1
    ensures var run := RetryFrom(reply, start, v, repair, maxRetries, attempt, data, report);
      var k := |run.calls|;
      k >= 1 && reply(start + k - 1, run.calls[k - 1]).Failure? ==>
        (k == 1 ==> run.report == Some(report))
        && (k >= 2 ==> reply(start + k - 2, run.calls[k - 2]).Success?
                       && run.report == Some(Validate(v, reply(start + k - 2, run.calls[k - 2]).value.content)))
    decreases if attempt <= maxRetries then maxRetries - attempt + 1 else 0
  {
    if attempt <= maxRetries {
      var call := Call(repair(data, report), ForceJSON);
      var run := RetryFrom(reply, start, v, repair, maxRetries, attempt, data, report);
      if reply(start, call).Failure? {
        assert run.calls == [call] && run.report == Some(report);
      } else if Validate(v, reply(start, call).value.content).valid {
        assert run.calls == [call];
      } else {
        var content := reply(start, call).value.content;
        RetryFromFailureReport(reply, start + 1, v, repair, maxRetries, attempt + 1, content, Validate(v, content));
        var rest := RetryFrom(reply, start + 1, v, repair, maxRetries, attempt + 1, content, Validate(v, content));
        assert run == Attempts([call] + rest.calls, rest.data, rest.report, rest.err);
        RepairReportShift(reply, start, v, call, rest, run);
      }
    }
  }

  /**
   * The report after a failed repair, one step back: if a run continues
   * `rest` after an answered first call, and `rest` returns the right
   * report, so does the whole run.
   */
  lemma RepairReportShift(reply: Oracle, start: nat, v: Validator, call: Call, rest: Attempts, run: Attempts)
    requires reply(start, call).Success?
    requires run == Attempts([call] + rest.calls, rest.data, rest.report, rest.err)
    requires var m := |rest.calls|;
      m >= 1 && reply(start + 1 + m - 1, rest.calls[m - 1]).Failure? ==>
        (m == 1 ==> rest.report == Some(Validate(v, reply(start, call).value.content)))
        && (m >= 2 ==> reply(start + 1 + m - 2, rest.calls[m - 2]).Success?
                       && rest.report == Some(Validate(v, reply(start + 1 + m - 2, rest.calls[m - 2]).value.content)))
    ensures var k := |run.calls|;
      k >= 1 && reply(start + k - 1, run.calls[k - 1]).Failure? ==>
        k >= 2
        && reply(start + k - 2, run.calls[k - 2]).Success?
        && run.report == Some(Validate(v, reply(start + k - 2, run.calls[k - 2]).value.content))
  {
    var k := |run.calls|;
    var m := |rest.calls|;
    if k >= 2 {
      assert m == k - 1 && start + 1 + m - 1 == start + k - 1;
      assert run.calls[k - 1] == rest.calls[m - 1];
      if m >= 2 {
        assert start + 1 + m - 2 == start + k - 2;
        assert run.calls[k - 2] == rest.calls[m - 2];
      } else {
        assert run.calls[k - 2] == call;
      }
    }
  }

  /** A run of repair attempts that ends with a valid payload returns it, with its report and no error. */
  lemma {:induction false} RetryFromValid(reply: Oracle, start: nat, v: Validator, repair: (string, Report) -> string, maxRetries: int, attempt: nat, data: string, report: Report)
    requires attempt >= 1
    ensures var run := RetryFrom(reply, start, v, repair, maxRetries, attempt, data, report);
      var k := |run.calls|;
      var answer := if k >= 1 then reply(start + k - 1, run.calls[k - 1]) else Failure("");
      (run.err == None <==> answer.Success? && Validate(v, answer.value.content).valid)
      && (run.err == None ==> run.data == Some(answer.value.content) && run.report == Some(Validate(v, answer.value.content)))
    decreases if attempt <= maxRetries then maxRetries - attempt + 1 else 0
  {
    if attempt <= maxRetries {
      var call := Call(repair(data, report), ForceJSON);
      var run := RetryFrom(reply, start, v, repair, maxRetries, attempt, data, report);
      if reply(start, call).Success? && !Validate(v, reply(start, call).value.content).valid {
        var content := reply(start, call).value.content;
        RetryFromValid(reply, start + 1, v, repair, maxRetries, attempt + 1, content, Validate(v, content));
        var rest := RetryFrom(reply, start + 1, v, repair, maxRetries, attempt + 1, content, Validate(v, content));
        assert run.calls == [call] + rest.calls;
        var k := |run.calls|;
        if k >= 2 {
          assert run.calls[k - 1] == rest.calls[k - 2];
        }
      }
    }
  }

  /**
   * A run of repair attempts that uses every attempt on rejected payloads
   * (or has none left) ends at attempt `maxRetries` and returns the last
   * payload and its report, with an error.
   */
  lemma {:induction false} RetryFromExhausted(reply: Oracle, start: nat, v: Validator, repair: (string, Report) -> string, maxRetries: int, attempt: nat, data: string, report: Report)
    requires attempt >= 1
    ensures var run := RetryFrom(reply, start, v, repair, maxRetries, attempt, data, report);
      var k := |run.calls|;
      (k == 0 ==> run.data == Some(data) && run.report == Some(report)
                  && run.err == Some(Exhausted(maxRetries)))
      && (k >= 1 && reply(start + k - 1, run.calls[k - 1]).Success?
          && !Validate(v, reply(start + k - 1, run.calls[k - 1]).value.content).valid ==>
            attempt + k - 1 == maxRetries
            && run.data == Some(reply(start + k - 1, run.calls[k - 1]).value.content)
            && run.report == Some(Validate(v, reply(start + k - 1, run.calls[k - 1]).value.content))
            && run.err == Some(Exhausted(maxRetries)))
    decreases if attempt <= maxRetries then maxRetries - attempt + 1 else 0
  {
    if attempt <= maxRetries {
      var call := Call(repair(data, report), ForceJSON);
      var run := RetryFrom(reply, start, v, repair, maxRetries, attempt, data, report);
      if reply(start, call).Success? && !Validate(v, reply(start, call).value.content).valid {
        var content := reply(start, call).value.content;
        RetryFromExhausted(reply, start + 1, v, repair, maxRetries, attempt + 1, content, Validate(v, content));
        var rest := RetryFrom(reply, start + 1, v, repair, maxRetries, attempt + 1, content, Validate(v, content));
        assert run.calls == [call] + rest.calls;
        var k := |run.calls|;
        if k >= 2 {
          assert run.calls[k - 1] == rest.calls[k - 2];
        }
      }
    }
  }

  /**
   * `ValidateAndRetry` makes at most `maxRetries + 1` calls (one when
   * `maxRetries` is not positive): first the original prompt, then, for
   * each rejected payload, the repair prompt built on the original prompt
   * with that payload and its report.
   */
  lemma RetryCalls(reply: Oracle, start: nat, v: Validator, input: string, repair: (string, Report) -> string, maxRetries: int)
    ensures var run := RetryRun(reply, start, v, input, repair, maxRetries);
      1 <= |run.calls| <= CallBudget(maxRetries)
      && run.calls[0] == Call(input, ForceJSON)
      && forall j :: 1 <= j < |run.calls| ==> Link(reply, start, v, repair, run.calls, j)
  {
    var run := RetryRun(reply, start, v, input, repair, maxRetries);
    var call := Call(input, ForceJSON);
    if reply(start, call).Success? && !Validate(v, reply(start, call).value.content).valid {
      var content := reply(start, call).value.content;
      RetryFromCalls(reply, start + 1, v, repair, maxRetries, 1, content, Validate(v, content));
      var rest := RetryFrom(reply, start + 1, v, repair, maxRetries, 1, content, Validate(v, content));
      assert run.calls == [call] + rest.calls;
      forall j | 1 <= j < |run.calls| ensures Link(reply, start, v, repair, run.calls, j) {
        assert run.calls[j] == rest.calls[j - 1];
        if j >= 2 {
          assert Link(reply, start + 1, v, repair, rest.calls, j - 1);
          assert run.calls[j - 1] == rest.calls[j - 2];
        }
      }
    }
  }

  /** The last call of a run that starts with `call` is the last call of the rest, one position later. */
  lemma LastCallShift(reply: Oracle, start: nat, call: Call, rest: seq<Call>)
    requires |rest| >= 1
    ensures var calls := [call] + rest;
      reply(start + |calls| - 1, calls[|calls| - 1]) == reply(start + 1 + |rest| - 1, rest[|rest| - 1])
  {
    var calls := [call] + rest;
    assert calls[|calls| - 1] == rest[|rest| - 1];
  }

  /**
   * `ValidateAndRetry` returns no error exactly when its last call got a
   * valid payload, and then returns that payload and its report: the loop
   * stops at the first valid payload.
   */
  lemma RetryValid(reply: Oracle, start: nat, v: Validator, input: string, repair: (string, Report) -> string, maxRetries: int)
    ensures var run := RetryRun(reply, start, v, input, repair, maxRetries);
      var k := |run.calls|;
      var answer := if k >= 1 then reply(start + k - 1, run.calls[k - 1]) else Failure("");
      (run.err == None <==> answer.Success? && Validate(v, answer.value.content).valid)
      && (run.err == None ==> run.data == Some(answer.value.content) && run.report == Some(Validate(v, answer.value.content)))
  {
    var run := RetryRun(reply, start, v, input, repair, maxRetries);
    var call := Call(input, ForceJSON);
    var first := reply(start, call);
    if first.Failure? {
      assert run.calls == [call] && run.err.Some?;
    } else if Validate(v, first.value.content).valid {
      assert run == Attempts([call], Some(first.value.content), Some(Validate(v, first.value.content)), None);
    } else {
      var content := reply(start, call).value.content;
      var rest := RetryFrom(reply, start + 1, v, repair, maxRetries, 1, content, Validate(v, content));
      assert run == Attempts([call] + rest.calls, rest.data, rest.report, rest.err);
      if |rest.calls| >= 1 {
        LastCallShift(reply, start, call, rest.calls);
      }
      RetryFromValid(reply, start + 1, v, repair, maxRetries, 1, content, Validate(v, content));
      RetryFromExhausted(reply, start + 1, v, repair, maxRetries, 1, content, Validate(v, content));
    }
  }

  /** A provider error on the initial call ends `ValidateAndRetry` at once, with no payload and no report. */
  lemma RetryInitialFailure(reply: Oracle, start: nat, v: Validator, input: string, repair: (string, Report) -> string, maxRetries: int)
    ensures var run := RetryRun(reply, start, v, input, repair, maxRetries);
      var answer := reply(start, Call(input, ForceJSON));
      answer.Failure? ==>
        run == Attempts([Call(input, ForceJSON)], None, None, Some("initial completion failed: " + answer.error))
  {
  }

  /**
   * A provider error on a repair attempt ends `ValidateAndRetry` at once,
   * with no payload, the report of the payload being repaired, and an error
   * naming the attempt.
   */
  lemma RetryAttemptFailure(reply: Oracle, start: nat, v: Validator, input: string, repair: (string, Report) -> string, maxRetries: int)
    ensures var run := RetryRun(reply, start, v, input, repair, maxRetries);
      var k := |run.calls|;
      k >= 2 && reply(start + k - 1, run.calls[k - 1]).Failure? ==>
        run.data == None
        && reply(start + k - 2, run.calls[k - 2]).Success?
        && run.report == Some(Validate(v, reply(start + k - 2, run.calls[k - 2]).value.content))
        && run.err == Some(RetryFailed(k - 1, reply(start + k - 1, run.calls[k - 1]).error))
  {
    var run := RetryRun(reply, start, v, input, repair, maxRetries);
    var call := Call(input, ForceJSON);
    var k := |run.calls|;
    if k >= 2 && reply(start + k - 1, run.calls[k - 1]).Failure? {
      var first := reply(start, call);
      assert first.Success? && !Validate(v, first.value.content).valid by {
        if first.Failure? || Validate(v, first.value.content).valid {
          assert false;
        }
      }
      var content := first.value.content;
      var rest := RetryFrom(reply, start + 1, v, repair, maxRetries, 1, content, Validate(v, content));
      assert run == Attempts([call] + rest.calls, rest.data, rest.report, rest.err);
      var m := k - 1;
      assert |rest.calls| == m && start + 1 + m - 1 == start + k - 1 && 1 + m - 1 == k - 1;
      assert run.calls[k - 1] == rest.calls[m - 1];
      RetryFromFailure(reply, start + 1, v, repair, maxRetries, 1, content, Validate(v, content));
      assert run.data == None && run.err == Some(RetryFailed(k - 1, reply(start + k - 1, run.calls[k - 1]).error));
      RetryFromFailureReport(reply, start + 1, v, repair, maxRetries, 1, content, Validate(v, content));
      if m >= 2 {
        assert start + 1 + m - 2 == start + k - 2;
        assert run.calls[k - 2] == rest.calls[m - 2];
      } else {
        assert run.calls[k - 2] == call;
      }
    }
  }

  /**
   * When the last call of `ValidateAndRetry` got a rejected payload, every
   * attempt was used: there were `maxRetries + 1` calls (one when
   * `maxRetries` is not positive), and the last payload and its report are
   * returned with an error.
   */
  lemma RetryExhausted(reply: Oracle, start: nat, v: Validator, input: string, repair: (string, Report) -> string, maxRetries: int)
    ensures var run := RetryRun(reply, start, v, input, repair, maxRetries);
      var k := |run.calls|;
      k >= 1 && reply(start + k - 1, run.calls[k - 1]).Success?
      && !Validate(v, reply(start + k - 1, run.calls[k - 1]).value.content).valid ==>
        k == CallBudget(maxRetries)
        && run.data == Some(reply(start + k - 1, run.calls[k - 1]).value.content)
        && run.report == Some(Validate(v, reply(start + k - 1, run.calls[k - 1]).value.content))
        && run.err == Some(Exhausted(maxRetries))
  {
    var run := RetryRun(reply, start, v, input, repair, maxRetries);
    var call := Call(input, ForceJSON);
    if reply(start, call).Success? && !Validate(v, reply(start, call).value.content).valid {
      var content := reply(start, call).value.content;
      RetryFromExhausted(reply, start + 1, v, repair, maxRetries, 1, content, Validate(v, content));
      RetryFromCalls(reply, start + 1, v, repair, maxRetries, 1, content, Validate(v, content));
      var rest := RetryFrom(reply, start + 1, v, repair, maxRetries, 1, content, Validate(v, content));
      assert run == Attempts([call] + rest.calls, rest.data, rest.report, rest.err);
      var k := |run.calls|;
      if k >= 2 {
        assert start + 1 + (k - 1) - 1 == start + k - 1;
        assert run.calls[k - 1] == rest.calls[k - 2];
      }
    }
  }

  /** A valid first answer: one call, and its payload and report come back with no error. */
  lemma RetryFirstValid(reply: Oracle, start: nat, v: Validator, input: string, repair: (string, Report) -> string, maxRetries: int)
    requires reply(start, Call(input, ForceJSON)).Success?
    requires Validate(v, reply(start, Call(input, ForceJSON)).value.content).valid
    ensures var run := RetryRun(reply, start, v, input, repair, maxRetries);
      var content := reply(start, Call(input, ForceJSON)).value.content;
      run == Attempts([Call(input, ForceJSON)], Some(content), Some(Validate(v, content)), None)
  {
  }

  /**
   * A provider that always answers and never with a valid payload gets
   * exactly `maxRetries + 1` calls (for `maxRetries >= 0`), and the last
   * payload comes back with its report and an error.
   */
  lemma RetryNeverValid(reply: Oracle, start: nat, v: Validator, input: string, repair: (string, Report) -> string, maxRetries: int)
    requires maxRetries >= 0
    requires forall n, call :: reply(n, call).Success? && !Validate(v, reply(n, call).value.content).valid
    ensures var run := RetryRun(reply, start, v, input, repair, maxRetries);
      var k := |run.calls|;
      k == maxRetries + 1
      && run.data == Some(reply(start + k - 1, run.calls[k - 1]).value.content)
      && run.err == Some(Exhausted(maxRetries))
  {
    RetryCalls(reply, start, v, input, repair, maxRetries);
    RetryExhausted(reply, start, v, input, repair, maxRetries);
  }

  /** Call `j` of a run carries the original prompt and the payload the call before it got back. */
  ghost predicate CarriesInput(reply: Oracle, start: nat, input: string, calls: seq<Call>, j: nat) {
    1 <= j < |calls| && reply(start + j - 1, calls[j - 1]).Success?
    && Contains(calls[j].prompt, input)
    && Contains(calls[j].prompt, reply(start + j - 1, calls[j - 1]).value.content)
  }

  /**
   * Every repair prompt of `ValidateAndRetry` carries the original prompt,
   * never an earlier repair prompt, and the payload the call before it got
   * back.
   */
  lemma RetryPromptsCarryInput(reply: Oracle, start: nat, v: Validator, input: string, maxRetries: int)
    ensures var run := RetryRun(reply, start, v, input, Repairs(input), maxRetries);
      forall j :: 1 <= j < |run.calls| ==> CarriesInput(reply, start, input, run.calls, j)
  {
    var run := RetryRun(reply, start, v, input, Repairs(input), maxRetries);
    RetryCalls(reply, start, v, input, Repairs(input), maxRetries);
    forall j | 1 <= j < |run.calls| ensures CarriesInput(reply, start, input, run.calls, j) {
      assert Link(reply, start, v, Repairs(input), run.calls, j);
      var data := reply(start + j - 1, run.calls[j - 1]).value.content;
      assert run.calls[j].prompt == RepairPrompt(input, data, Validate(v, data));
      RepairPromptEmbeds(input, data, Validate(v, data));
    }
  }

  /**
   * `ValidateAndRetry`: the initial call, then up to `maxRetries` repair
   * attempts, each validated in turn.
   */
  method ValidateAndRetry(v: Validator, client: Provider, input: string, maxRetries: int)
    returns (data: Option<string>, report: Option<Report>, err: Option<string>)
    modifies client
    ensures var run := RetryRun(client.reply, |old(client.log)|, v, input, Repairs(input), maxRetries);
      client.log == old(client.log) + run.calls && data == run.data && report == run.report && err == run.err
  {
    var response := client.Complete(input, ForceJSON);
    if response.Failure? {
      return None, None, Some("initial completion failed: " + response.error);
    }
    var payload := response.value.content;
    var result := Validate(v, payload);
    if result.valid {
      return Some(payload), Some(result), None;
    }
    data, report, err := RepairLoop(v, client, input, maxRetries, payload, result);
  }

  /** The loop of `ValidateAndRetry`: repair attempts 1 to `maxRetries` after `payload` was rejected with `result`. */
  method RepairLoop(v: Validator, client: Provider, input: string, maxRetries: int, payload: string, result: Report)
    returns (data: Option<string>, report: Option<Report>, err: Option<string>)
    modifies client
    ensures var run := RetryFrom(client.reply, |old(client.log)|, v, Repairs(input), maxRetries, 1, payload, result);
      client.log == old(client.log) + run.calls && data == run.data && report == run.report && err == run.err
  {
    ghost var log0 := client.log;
    ghost var whole := RetryFrom(client.reply, |log0|, v, Repairs(input), maxRetries, 1, payload, result);
    ghost var rest := whole;
    var latest, latestReport := payload, result;
    var attempt := 1;
    while attempt <= maxRetries
      invariant attempt >= 1
      invariant rest == RetryFrom(client.reply, |client.log|, v, Repairs(input), maxRetries, attempt, latest, latestReport)
      invariant client.log + rest.calls == log0 + whole.calls
      invariant rest.data == whole.data && rest.report == whole.report && rest.err == whole.err
      decreases maxRetries - attempt
    {
      ghost var before := client.log;
      var repairPrompt := RepairPrompt(input, latest, latestReport);
      assert repairPrompt == Repairs(input)(latest, latestReport);
      var response := client.Complete(repairPrompt, ForceJSON);
      if response.Failure? {
        return None, Some(latestReport), Some(RetryFailed(attempt, response.error));
      }
      latest := response.value.content;
      latestReport := Validate(v, latest);
      if latestReport.valid {
        return Some(latest), Some(latestReport), None;
      }
      rest := RetryFrom(client.reply, |before| + 1, v, Repairs(input), maxRetries, attempt + 1, latest, latestReport);
      assert before + (client.log[|before|..] + rest.calls) == client.log + rest.calls;
      attempt := attempt + 1;
    }
    return Some(latest), Some(latestReport), Some(Exhausted(maxRetries));
  }
}
