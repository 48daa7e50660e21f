/** The attempt loop of `execute_recursive_ai` and the session state it
    leaves behind. Code generation (an HTTP request) and code execution (a
    subprocess) are oracles: `generate(task, n, previous)` is what
    `generate_code(prompt, attempt_number, previous_attempts)` returned,
    `None` when the request failed, and `execute(n, code)` is what running
    `code` in attempt `n` reported. */
module Executor {
  import opened Wrappers
  import opened Classifier
  import opened LearningContext

  /** What `CodeExecutor.execute_python_code` reports. */
  datatype Execution = Execution(success: bool, stdout: string, stderr: string)

  /** `if not generated_code: break`: a failed request and an empty reply
      both stop the loop. */
  predicate Usable(reply: Option<string>) {
    reply.Some? && reply.value != ""
  }

  /** `categorize_error(stderr) if stderr else None`. */
  function Analysis(stderr: string): Option<Diagnostic> {
    if stderr != "" then Some(CategorizeError(stderr)) else None
  }

  /** The record appended for attempt `n`. */
  function RecordOf(n: nat, code: string, e: Execution): AttemptRecord {
    AttemptRecord(n, e.success, e.stdout, e.stderr, code, Analysis(e.stderr))
  }

  /** The generator's reply for the attempt that follows `previous`: it is
      given the original request, the attempt number and all of `previous`, from which
      it builds its request (`RequestFor`). */
  function Reply(task: string, generate: (string, nat, seq<AttemptRecord>) -> Option<string>, previous: seq<AttemptRecord>): Option<string> {
    generate(task, |previous| + 1, previous)
  }

  /** Record `j` is attempt `j + 1`: the generator, asked with the records
      before it, gave usable code, and the record holds that code and what
      the executor reported for it. */
  predicate RecordFollows(task: string, generate: (string, nat, seq<AttemptRecord>) -> Option<string>,
                          execute: (nat, string) -> Execution, records: seq<AttemptRecord>, j: nat)
    requires j < |records|
  {
    var reply := Reply(task, generate, records[..j]);
    Usable(reply) && records[j] == RecordOf(j + 1, reply.value, execute(j + 1, reply.value))
  }

  /** `range(max_attempts)` runs this many iterations at most. */
  function Bound(maxAttempts: int): nat {
    if maxAttempts > 0 then maxAttempts else 0
  }

  /** The run ended with a successful execution. */
  predicate Succeeded(records: seq<AttemptRecord>) {
    records != [] && records[|records| - 1].success
  }

  /** Every record follows from the oracles. */
  predicate AllFollow(task: string, generate: (string, nat, seq<AttemptRecord>) -> Option<string>,
                      execute: (nat, string) -> Execution, records: seq<AttemptRecord>)
  {
    forall j :: 0 <= j < |records| ==> RecordFollows(task, generate, execute, records, j)
  }

  /** Every record is a failure. */
  predicate AllFailed(records: seq<AttemptRecord>) {
    forall j :: 0 <= j < |records| ==> !records[j].success
  }

  /** The outcome of the attempt loop: the records it appended, its final
      `success` flag and the last attempt number it started
      (`current_attempt`). */
  predicate IsRun(task: string, maxAttempts: int, generate: (string, nat, seq<AttemptRecord>) -> Option<string>,
                  execute: (nat, string) -> Execution, records: seq<AttemptRecord>, success: bool, started: nat)
  {
    // at most `max_attempts` records, each made from the oracles as attempt j + 1
    |records| <= Bound(maxAttempts) &&
    AllFollow(task, generate, execute, records) &&
    // the loop stops right after the first success
    (forall j :: 0 <= j < |records| - 1 ==> !records[j].success) &&
    (success <==> Succeeded(records)) &&
    // an attempt is started and recorded, or started and abandoned when
    // generation fails; otherwise the loop ran out of attempts
    (started == |records| || started == |records| + 1) &&
    (started == |records| + 1 ==>
       started <= maxAttempts && !success && !Usable(Reply(task, generate, records))) &&
    (started == |records| && !success ==> |records| == Bound(maxAttempts))
  }

  /** The loop of `execute_recursive_ai`: generate, stop on a failed
      generation, execute, record, stop on success. */
  method RunAttempts(task: string, maxAttempts: int, generate: (string, nat, seq<AttemptRecord>) -> Option<string>,
                     execute: (nat, string) -> Execution)
    returns (records: seq<AttemptRecord>, success: bool, started: nat)
    ensures IsRun(task, maxAttempts, generate, execute, records, success, started)
  {
    records, success, started := [], false, 0;
    var attempt := 0;
    while attempt < maxAttempts
      invariant attempt == |records| == started <= Bound(maxAttempts)
      invariant AllFollow(task, generate, execute, records)
      invariant AllFailed(records)
      invariant !success
    {
      started := attempt + 1;
      var generated := generate(task, attempt + 1, records);
      if generated.None? || generated.value == "" {
        StopOnFailedGeneration(task, maxAttempts, generate, execute, records);
        break;
      }
      var code := generated.value;
      var outcome := execute(attempt + 1, code);
      success := outcome.success;
      var record := RecordOf(attempt + 1, code, outcome);
      FollowsAppend(task, generate, execute, records, record);
      records := records + [record];
      if success {
        StopOnSuccess(task, maxAttempts, generate, execute, records);
        break;
      }
      assert AllFailed(records) by { assert records[|records| - 1] == record; }
      attempt := attempt + 1;
    }
    if !success && started == attempt {
      StopOnBound(task, maxAttempts, generate, execute, records);
    }
  }

  /** Appending the record the oracles give for the next attempt keeps every
      record following from the oracles. */
  lemma FollowsAppend(task: string, generate: (string, nat, seq<AttemptRecord>) -> Option<string>,
                      execute: (nat, string) -> Execution, before: seq<AttemptRecord>, record: AttemptRecord)
    requires AllFollow(task, generate, execute, before)
    requires Usable(Reply(task, generate, before))
    requires record == RecordOf(|before| + 1, Reply(task, generate, before).value,
                                execute(|before| + 1, Reply(task, generate, before).value))
    ensures AllFollow(task, generate, execute, before + [record])
  {
    var after := before + [record];
    forall j | 0 <= j < |after|
      ensures RecordFollows(task, generate, execute, after, j)
    {
      if j < |before| {
        assert after[..j] == before[..j] && after[j] == before[j];
        assert RecordFollows(task, generate, execute, before, j);
      } else {
        assert after[..j] == before;
      }
    }
  }

  /** Leaving the loop because generation failed. */
  lemma StopOnFailedGeneration(task: string, maxAttempts: int, generate: (string, nat, seq<AttemptRecord>) -> Option<string>,
                               execute: (nat, string) -> Execution, records: seq<AttemptRecord>)
    requires |records| < maxAttempts
    requires AllFollow(task, generate, execute, records) && AllFailed(records)
    requires !Usable(Reply(task, generate, records))
    ensures IsRun(task, maxAttempts, generate, execute, records, false, |records| + 1)
  {
  }

  /** Leaving the loop because the last attempt succeeded. */
  lemma StopOnSuccess(task: string, maxAttempts: int, generate: (string, nat, seq<AttemptRecord>) -> Option<string>,
                      execute: (nat, string) -> Execution, records: seq<AttemptRecord>)
    requires 0 < |records| <= Bound(maxAttempts)
    requires AllFollow(task, generate, execute, records) && AllFailed(records[..|records| - 1])
    requires records[|records| - 1].success
    ensures IsRun(task, maxAttempts, generate, execute, records, true, |records|)
  {
    assert forall j :: 0 <= j < |records| - 1 ==> records[..|records| - 1][j] == records[j];
  }

  /** Leaving the loop after `max_attempts` failures. */
  lemma StopOnBound(task: string, maxAttempts: int, generate: (string, nat, seq<AttemptRecord>) -> Option<string>,
                    execute: (nat, string) -> Execution, records: seq<AttemptRecord>)
    requires |records| == Bound(maxAttempts)
    requires AllFollow(task, generate, execute, records) && AllFailed(records)
    ensures IsRun(task, maxAttempts, generate, execute, records, false, |records|)
  {
  }

  /** Under a run, record `j` is numbered `j + 1` and holds the non-empty
      code it ran; at most `max_attempts` attempts are started, and a
      successful run started exactly the attempts it recorded. */
  lemma RunShape(task: string, maxAttempts: int, generate: (string, nat, seq<AttemptRecord>) -> Option<string>,
                 execute: (nat, string) -> Execution, records: seq<AttemptRecord>, success: bool, started: nat)
    requires IsRun(task, maxAttempts, generate, execute, records, success, started)
    ensures forall j :: 0 <= j < |records| ==> records[j].attempt == j + 1 && records[j].code != ""
    ensures started <= Bound(maxAttempts)
    ensures success ==> started == |records| >= 1
  {
    forall j | 0 <= j < |records|
      ensures records[j].attempt == j + 1 && records[j].code != ""
    {
      assert RecordFollows(task, generate, execute, records, j);
    }
  }

  /** Two runs on the same task, bound and oracles agree on the records up
      to any length both reach. */
  lemma {:induction false} RunsAgreeOnPrefix(task: string, maxAttempts: int, generate: (string, nat, seq<AttemptRecord>) -> Option<string>,
                                             execute: (nat, string) -> Execution,
                                             r1: seq<AttemptRecord>, s1: bool, t1: nat,
                                             r2: seq<AttemptRecord>, s2: bool, t2: nat, k: nat)
    requires IsRun(task, maxAttempts, generate, execute, r1, s1, t1)
    requires IsRun(task, maxAttempts, generate, execute, r2, s2, t2)
    requires k <= |r1| && k <= |r2|
    ensures r1[..k] == r2[..k]
  {
    if k > 0 {
      RunsAgreeOnPrefix(task, maxAttempts, generate, execute, r1, s1, t1, r2, s2, t2, k - 1);
      assert RecordFollows(task, generate, execute, r1, k - 1);
      assert RecordFollows(task, generate, execute, r2, k - 1);
      assert r1[..k - 1] == r2[..k - 1];
      assert r1[..k] == r1[..k - 1] + [r1[k - 1]];
      assert r2[..k] == r2[..k - 1] + [r2[k - 1]];
    }
  }

  /** In a run, every record but the first follows a failure, and the
      generator gave usable code for each record. */
  lemma RunStep(task: string, maxAttempts: int, generate: (string, nat, seq<AttemptRecord>) -> Option<string>,
                execute: (nat, string) -> Execution, records: seq<AttemptRecord>, success: bool, started: nat, k: nat)
    requires IsRun(task, maxAttempts, generate, execute, records, success, started)
    requires k < |records|
    ensures Usable(Reply(task, generate, records[..k]))
    ensures k > 0 ==> !records[k - 1].success
  {
    assert RecordFollows(task, generate, execute, records, k);
  }

  /** A run that stopped cannot be extended by another run: the other run's
      records are no longer. */
  lemma RunStopsFirst(task: string, maxAttempts: int, generate: (string, nat, seq<AttemptRecord>) -> Option<string>,
                      execute: (nat, string) -> Execution,
                      r1: seq<AttemptRecord>, s1: bool, t1: nat,
                      r2: seq<AttemptRecord>, s2: bool, t2: nat)
    requires IsRun(task, maxAttempts, generate, execute, r1, s1, t1)
    requires IsRun(task, maxAttempts, generate, execute, r2, s2, t2)
    ensures |r2| <= |r1|
  {
    if |r1| < |r2| {
      var k := |r1|;
      RunsAgreeOnPrefix(task, maxAttempts, generate, execute, r1, s1, t1, r2, s2, t2, k);
      assert r2[..k] == r1;
      assert k > 0 ==> r2[k - 1] == r1[k - 1];
      RunStep(task, maxAttempts, generate, execute, r2, s2, t2, k);
      assert false;
    }
  }

  /** The specification of the loop leaves no freedom: for given inputs
      there is exactly one outcome. */
  lemma RunDeterminate(task: string, maxAttempts: int, generate: (string, nat, seq<AttemptRecord>) -> Option<string>,
                       execute: (nat, string) -> Execution,
                       r1: seq<AttemptRecord>, s1: bool, t1: nat,
                       r2: seq<AttemptRecord>, s2: bool, t2: nat)
    requires IsRun(task, maxAttempts, generate, execute, r1, s1, t1)
    requires IsRun(task, maxAttempts, generate, execute, r2, s2, t2)
    ensures r1 == r2 && s1 == s2 && t1 == t2
  {
    RunStopsFirst(task, maxAttempts, generate, execute, r1, s1, t1, r2, s2, t2);
    RunStopsFirst(task, maxAttempts, generate, execute, r2, s2, t2, r1, s1, t1);
    RunsAgreeOnPrefix(task, maxAttempts, generate, execute, r1, s1, t1, r2, s2, t2, |r1|);
    assert r1 == r1[..|r1|] && r2 == r2[..|r2|];
  }

  /** One entry of `execution_history` (the timestamp is not modelled). */
  datatype HistoryEntry = HistoryEntry(
    prompt: string,
    generatedCode: string,
    attempts: nat,
    success: bool,
    logs: seq<AttemptRecord>,
    learningApplied: bool)

  /** The session state that `execute_recursive_ai` reads and writes. */
  class Session {
    var executionHistory: seq<HistoryEntry>
    var currentAttempt: nat
    var generatedCode: string
    var executionLogs: seq<AttemptRecord>
    var isRunning: bool

    /** The initial session state. */
    constructor ()
      ensures executionHistory == [] && currentAttempt == 0 && generatedCode == ""
      ensures executionLogs == [] && !isRunning
    {
      executionHistory := [];
      currentAttempt := 0;
      generatedCode := "";
      executionLogs := [];
      isRunning := false;
    }

    /** `execute_recursive_ai(prompt, api_key, max_attempts, show_learning)`:
        run the loop, then append one history entry. The entry's `attempts`
        is `current_attempt`, the last attempt started; its code is the
        session's `generated_code`, which keeps the previous run's code when
        no attempt produced any. */
    method ExecuteRecursive(task: string, maxAttempts: int, generate: (string, nat, seq<AttemptRecord>) -> Option<string>,
                            execute: (nat, string) -> Execution)
      modifies this
      ensures IsRun(task, maxAttempts, generate, execute, executionLogs, Succeeded(executionLogs), currentAttempt)
      ensures generatedCode ==
        if executionLogs == [] then old(generatedCode) else executionLogs[|executionLogs| - 1].code
      ensures executionHistory == old(executionHistory) +
        [HistoryEntry(task, generatedCode, currentAttempt, Succeeded(executionLogs), executionLogs, |executionLogs| > 1)]
      ensures !isRunning
    {
      isRunning := true;
      currentAttempt := 0;
      executionLogs := [];
      var records, success, started := RunAttempts(task, maxAttempts, generate, execute);
      currentAttempt := started;
      executionLogs := records;
      if records != [] {
        generatedCode := records[|records| - 1].code;
      }
      isRunning := false;
      var entry := HistoryEntry(task, generatedCode, currentAttempt, success, executionLogs, |records| > 1);
      executionHistory := executionHistory + [entry];
    }
  }
}
