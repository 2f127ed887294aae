/**
Judging one job: copy, compile, run the test cases in order up to the first failure, and the two ways the result
becomes a verdict. Copying, compiling and running are given by their outcomes.
*/
module Judging {
  import opened Options

  datatype TestCase = TestCase(id: nat, input: string, expected: string, hidden: bool)

  // One run of the program: whether the command succeeded, what it printed, how long it took.
  datatype RunOutcome = RunOutcome(ok: bool, stdout: string, millis: nat)

  datatype CodeErr = NoError | CompileError | RunTimeError | FailTestCase | CopyError

  datatype Result = Result(success: bool, error: CodeErr, millis: nat)

  // A job as it meets the pool: whether the queue took it, whether a container was found for it, whether its code
  // could be copied, whether its language is compiled and the compilation succeeded, and what each test case would
  // print.
  datatype Job = Job(admitted: bool, served: bool, copied: bool, compiles: bool, compiled: bool,
                     cases: seq<TestCase>, runs: seq<RunOutcome>)

  ghost predicate WellFormed(job: Job) {
    |job.runs| == |job.cases|
  }

  // ---------------------------------------------------------------- strings.TrimSpace

  // White space as Unicode defines it.
  predicate IsSpace(c: char) {
    var u := c as int;
    0x9 <= u <= 0xd || u == 0x20 || u == 0x85 || u == 0xa0 || u == 0x1680 || 0x2000 <= u <= 0x200a
    || u == 0x2028 || u == 0x2029 || u == 0x202f || u == 0x205f || u == 0x3000
  }

  function TrimLeft(s: string): string {
    if s != [] && IsSpace(s[0]) then TrimLeft(s[1..]) else s
  }

  function TrimRight(s: string): string {
    if s != [] && IsSpace(s[|s| - 1]) then TrimRight(s[..|s| - 1]) else s
  }

  function TrimSpace(s: string): string {
    TrimRight(TrimLeft(s))
  }

  lemma {:induction false} TrimLeftCuts(s: string) returns (i: nat)
    ensures i <= |s| && TrimLeft(s) == s[i..]
    ensures (forall k :: 0 <= k < i ==> IsSpace(s[k])) && (i < |s| ==> !IsSpace(s[i]))
  {
    if s == [] || !IsSpace(s[0]) {
      i := 0;
    } else {
      i := TrimLeftCuts(s[1..]);
      assert forall k :: 1 <= k <= i ==> s[k] == s[1..][k - 1];
      i := i + 1;
    }
  }

  lemma {:induction false} TrimRightCuts(s: string) returns (j: nat)
    ensures j <= |s| && TrimRight(s) == s[..j]
    ensures (forall k :: j <= k < |s| ==> IsSpace(s[k])) && (j > 0 ==> !IsSpace(s[j - 1]))
  {
    var n := |s| - 1;
    if s == [] || !IsSpace(s[n]) {
      j := |s|;
    } else {
      j := TrimRightCuts(s[..n]);
    }
  }

  // `t` is `s` without the white space around it.
  ghost predicate IsTrimmed(s: string, i: nat, j: nat, t: string) {
    && i <= j <= |s| && t == s[i..j]
    && (forall k :: 0 <= k < i || j <= k < |s| ==> IsSpace(s[k]))
    && (t != "" ==> !IsSpace(t[0]) && !IsSpace(t[|t| - 1]))
  }

  lemma TrimSpaceTrims(s: string) returns (i: nat, j: nat)
    ensures IsTrimmed(s, i, j, TrimSpace(s))
  {
    i := TrimLeftCuts(s);
    var n := TrimRightCuts(s[i..]);
    j := i + n;
    assert s[i..][..n] == s[i..j];
    assert forall k :: j <= k < |s| ==> s[k] == s[i..][k - i];
    if n > 0 {
      assert s[i..j][0] == s[i] && s[i..j][n - 1] == s[i..][n - 1];
      assert i < |s| && s[i] == s[i..][0];
    }
  }

  // There is only one such string.
  lemma TrimmedOnce(s: string, i: nat, j: nat, t: string, k: nat, m: nat, u: string)
    requires IsTrimmed(s, i, j, t) && IsTrimmed(s, k, m, u)
    ensures t == u
  {
    assert t != "" ==> s[i] == t[0] && s[j - 1] == t[|t| - 1];
    assert u != "" ==> s[k] == u[0] && s[m - 1] == u[|u| - 1];
  }

  // So white space around a text makes no difference.
  lemma SurroundingSpaceIgnored(a: string, s: string, b: string)
    requires (forall k :: 0 <= k < |a| ==> IsSpace(a[k])) && (forall k :: 0 <= k < |b| ==> IsSpace(b[k]))
    ensures TrimSpace(a + s + b) == TrimSpace(s)
  {
    var i, j := TrimSpaceTrims(s);
    var k, m := TrimSpaceTrims(a + s + b);
    var t := TrimSpace(s);
    assert (a + s + b)[|a| + i..|a| + j] == t;
    forall x | 0 <= x < |a| + i || |a| + j <= x < |a + s + b| ensures IsSpace((a + s + b)[x]) {
      if |a| <= x < |a| + |s| {
        assert (a + s + b)[x] == s[x - |a|];
      } else if x >= |a| + |s| {
        assert (a + s + b)[x] == b[x - |a| - |s|];
      }
    }
    TrimmedOnce(a + s + b, |a| + i, |a| + j, t, k, m, TrimSpace(a + s + b));
  }

  // White space as Go's unicode package has it.
  lemma SpaceTable(c: char)
    ensures IsSpace(c) <==>
      c in {'\t', '\n', '\U{0B}', '\U{0C}', '\r', ' ', '\U{85}', '\U{A0}', '\U{1680}', '\U{2000}', '\U{2001}',
        '\U{2002}', '\U{2003}', '\U{2004}', '\U{2005}', '\U{2006}', '\U{2007}', '\U{2008}', '\U{2009}', '\U{200A}',
        '\U{2028}', '\U{2029}', '\U{202F}', '\U{205F}', '\U{3000}'}
  {
  }

  // ---------------------------------------------------------------- the first failing case

  predicate Passes(tc: TestCase, run: RunOutcome) {
    run.ok && TrimSpace(run.stdout) == TrimSpace(tc.expected)
  }

  function FirstFailing(cases: seq<TestCase>, runs: seq<RunOutcome>): (k: nat)
    requires |runs| == |cases|
    ensures k <= |cases|
  {
    if cases == [] || !Passes(cases[0], runs[0]) then 0 else 1 + FirstFailing(cases[1..], runs[1..])
  }

  ghost predicate AllPass(cases: seq<TestCase>, runs: seq<RunOutcome>)
    requires |runs| == |cases|
  {
    forall i :: 0 <= i < |cases| ==> Passes(cases[i], runs[i])
  }

  lemma {:induction false} FirstFailingIs(cases: seq<TestCase>, runs: seq<RunOutcome>, k: nat)
    requires |runs| == |cases|
    ensures FirstFailing(cases, runs) == k
      <==> k <= |cases| && (forall i :: 0 <= i < k ==> Passes(cases[i], runs[i]))
           && (k < |cases| ==> !Passes(cases[k], runs[k]))
  {
    if cases != [] && Passes(cases[0], runs[0]) && k > 0 {
      FirstFailingIs(cases[1..], runs[1..], k - 1);
      assert forall i :: 1 <= i < |cases| ==> cases[i] == cases[1..][i - 1] && runs[i] == runs[1..][i - 1];
      if k <= |cases| && forall i :: 0 <= i < k - 1 ==> Passes(cases[1..][i], runs[1..][i]) {
        assert forall i :: 0 <= i < k ==> Passes(cases[i], runs[i]);
      }
      if k <= |cases| && forall i :: 0 <= i < k ==> Passes(cases[i], runs[i]) {
        forall i | 0 <= i < k - 1 ensures Passes(cases[1..][i], runs[1..][i]) {
          assert Passes(cases[i + 1], runs[i + 1]);
        }
      }
    }
  }

  function Total(runs: seq<RunOutcome>): nat {
    if runs == [] then 0 else Total(runs[..|runs| - 1]) + runs[|runs| - 1].millis
  }

  // The total is the sum: it starts at nothing, and each run adds its own time.
  lemma {:induction false} TotalAdds(a: seq<RunOutcome>, b: seq<RunOutcome>)
    ensures Total(a + b) == Total(a) + Total(b)
    ensures |a| == 1 ==> Total(a) == a[0].millis
  {
    if |a| == 1 {
      assert a[..0] == [];
    }
    if b == [] {
      assert a + b == a;
    } else {
      var n := |b| - 1;
      TotalAdds(a, b[..n]);
      assert (a + b)[..|a + b| - 1] == a + b[..n];
    }
  }

  // What a copied and compiled job is answered with.
  function CaseResult(cases: seq<TestCase>, runs: seq<RunOutcome>): Result
    requires |runs| == |cases|
  {
    var k := FirstFailing(cases, runs);
    if k == |cases| then Result(true, NoError, Total(runs))
    else if !runs[k].ok then Result(false, RunTimeError, 0)
    else Result(false, FailTestCase, 0)
  }

  // Success means that every run succeeds and prints what is expected, up to surrounding white space; otherwise the
  // error tells what the first other case did.
  lemma CaseResultMeans(cases: seq<TestCase>, runs: seq<RunOutcome>)
    requires |runs| == |cases|
    ensures CaseResult(cases, runs).success <==>
      forall i :: 0 <= i < |cases| ==> runs[i].ok && TrimSpace(runs[i].stdout) == TrimSpace(cases[i].expected)
    ensures CaseResult(cases, runs).success ==>
      CaseResult(cases, runs).error == NoError && CaseResult(cases, runs).millis == Total(runs)
    ensures !CaseResult(cases, runs).success ==>
      var k := FirstFailing(cases, runs);
      k < |cases| && CaseResult(cases, runs).error == if runs[k].ok then FailTestCase else RunTimeError
  {
    FirstFailingIs(cases, runs, FirstFailing(cases, runs));
    assert forall i :: 0 <= i < |cases| ==>
      (Passes(cases[i], runs[i]) <==> runs[i].ok && TrimSpace(runs[i].stdout) == TrimSpace(cases[i].expected));
  }

  // Runs the cases in order and stops at the first that fails; `ran` counts the cases run.
  method RunCases(cases: seq<TestCase>, runs: seq<RunOutcome>) returns (result: Result, ran: nat)
    requires |runs| == |cases|
    ensures result == CaseResult(cases, runs)
    ensures ran == if FirstFailing(cases, runs) < |cases| then FirstFailing(cases, runs) + 1 else |cases|
  {
    var totalExecutionTime := 0;
    for i := 0 to |cases|
      invariant forall j :: 0 <= j < i ==> Passes(cases[j], runs[j])
      invariant totalExecutionTime == Total(runs[..i])
    {
      assert runs[..i + 1][..i] == runs[..i];
      totalExecutionTime := totalExecutionTime + runs[i].millis;
      if !runs[i].ok {
        FirstFailingIs(cases, runs, i);
        return Result(false, RunTimeError, 0), i + 1;
      }
      var actualOutput := TrimSpace(runs[i].stdout);
      var expectedOutput := TrimSpace(cases[i].expected);
      if actualOutput != expectedOutput {
        FirstFailingIs(cases, runs, i);
        return Result(false, FailTestCase, 0), i + 1;
      }
    }
    FirstFailingIs(cases, runs, |cases|);
    assert runs[..|cases|] == runs;
    return Result(true, NoError, totalExecutionTime), |cases|;
  }

  // The queue-full answer is the zero Result.
  const REFUSED := Result(false, NoError, 0)

  // What the caller of the pool receives; None when no container was found, and then it waits for ever.
  function Answer(job: Job): Option<Result>
    requires WellFormed(job)
  {
    if !job.admitted then Some(REFUSED)
    else if !job.served then None
    else if !job.copied then Some(Result(false, CopyError, 0))
    else if job.compiles && !job.compiled then Some(Result(false, CompileError, 0))
    else Some(CaseResult(job.cases, job.runs))
  }

  ghost predicate Solves(job: Job)
    requires WellFormed(job)
  {
    (job.compiles ==> job.compiled) && AllPass(job.cases, job.runs)
  }

  // The job was taken, given a container and copied into it.
  predicate Ran(job: Job) {
    job.admitted && job.served && job.copied
  }

  method ExecuteJob(job: Job) returns (result: Option<Result>)
    requires WellFormed(job)
    ensures result == Answer(job)
    ensures result == None <==> job.admitted && !job.served
    ensures result.Some? && result.value.success <==> Ran(job) && Solves(job)
    ensures result.Some? && result.value.success ==>
      result.value.error == NoError && result.value.millis == Total(job.runs)
  {
    if !job.admitted {
      return Some(REFUSED);
    }
    if !job.served {
      return None;
    }
    if !job.copied {
      return Some(Result(false, CopyError, 0));
    }
    if job.compiles && !job.compiled {
      return Some(Result(false, CompileError, 0));
    }
    var caseResult, ran := RunCases(job.cases, job.runs);
    FirstFailingIs(job.cases, job.runs, |job.cases|);
    return Some(caseResult);
  }

  // ---------------------------------------------------------------- verdicts

  datatype Verdict = Accepted | WrongAnswer | RuntimeError | CompilationError

  // The room's reading of a result: accepted unless the error is one of the three it knows.
  function HubVerdict(r: Result): Verdict {
    match r.error
    case CompileError => CompilationError
    case RunTimeError => RuntimeError
    case FailTestCase => WrongAnswer
    case _ => Accepted
  }

  // The HTTP handler's reading: accepted on success, unknown errors are runtime errors.
  function HttpVerdict(r: Result): Verdict {
    if r.success then Accepted
    else match r.error
      case RunTimeError => RuntimeError
      case CompileError => CompilationError
      case FailTestCase => WrongAnswer
      case _ => RuntimeError
  }

  lemma HttpAcceptsIffSolved(job: Job)
    requires WellFormed(job) && Answer(job).Some?
    ensures HttpVerdict(Answer(job).value) == Accepted <==> Ran(job) && Solves(job)
  {
    FirstFailingIs(job.cases, job.runs, |job.cases|);
  }

  // The room accepts a correct program, but also one that never ran: a refused job or a failed copy.
  lemma HubAcceptsIffSolvedOrNotRun(job: Job)
    requires WellFormed(job) && Answer(job).Some?
    ensures HubVerdict(Answer(job).value) == Accepted <==> !Ran(job) || Solves(job)
  {
    FirstFailingIs(job.cases, job.runs, |job.cases|);
  }

  // The two readings agree exactly on the jobs that ran.
  lemma VerdictsAgreeIffRun(job: Job)
    requires WellFormed(job) && Answer(job).Some?
    ensures HubVerdict(Answer(job).value) == HttpVerdict(Answer(job).value) <==> Ran(job)
  {
    FirstFailingIs(job.cases, job.runs, FirstFailing(job.cases, job.runs));
  }

  // What becomes of the answers to jobs that never ran: HTTP calls them runtime errors, the room accepts them.
  lemma NeverRanVerdicts(job: Job)
    requires WellFormed(job) && (!job.admitted || (job.served && !job.copied))
    ensures Answer(job) == Some(Result(false, if job.admitted then CopyError else NoError, 0))
    ensures HttpVerdict(Answer(job).value) == RuntimeError && HubVerdict(Answer(job).value) == Accepted
  {
  }

  // What each answer says about a job that ran.
  lemma VerdictsMean(job: Job)
    requires WellFormed(job) && Ran(job)
    ensures HttpVerdict(Answer(job).value) == CompilationError <==> job.compiles && !job.compiled
    ensures
      var k := FirstFailing(job.cases, job.runs);
      var ranOff := (job.compiles ==> job.compiled) && k < |job.cases|;
      && (HttpVerdict(Answer(job).value) == RuntimeError <==> ranOff && !job.runs[k].ok)
      && (HttpVerdict(Answer(job).value) == WrongAnswer <==> ranOff && job.runs[k].ok)
      && (ranOff && job.runs[k].ok ==> TrimSpace(job.runs[k].stdout) != TrimSpace(job.cases[k].expected))
  {
    FirstFailingIs(job.cases, job.runs, FirstFailing(job.cases, job.runs));
  }

  // ---------------------------------------------------------------- hidden cases

  // Test cases as the query returns them: public ones first.
  ghost predicate PublicFirst(cases: seq<TestCase>) {
    forall i, j :: 0 <= i < j < |cases| && cases[i].hidden ==> cases[j].hidden
  }

  lemma HiddenBlamedOnlyAfterPublic(cases: seq<TestCase>, runs: seq<RunOutcome>)
    requires |runs| == |cases| && PublicFirst(cases)
    requires FirstFailing(cases, runs) < |cases| && cases[FirstFailing(cases, runs)].hidden
    ensures forall i :: 0 <= i < |cases| && !cases[i].hidden ==> Passes(cases[i], runs[i])
  {
    FirstFailingIs(cases, runs, FirstFailing(cases, runs));
  }
}
