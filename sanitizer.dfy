/** Stack-trace sanitisation of one module's results (`adaptAssertions`). */
module Sanitizer {
  import opened Wrappers
  import opened Strings

  const NewLine: char := '\n'

  /** The stack-trace filter of the test runner's utilities: it receives the lines of a
      trace and produces the text stored back in the trace field. It is not modelled,
      so every operation here takes it as a parameter. */
  type TraceFilter = seq<string> -> string

  /** A trace field in a boolean position: absent and empty traces are falsy. */
  predicate Truthy(trace: Option<string>)
  {
    trace.Some? && trace.value != ""
  }

  /** One assertion of a test case; only its trace is touched by the sanitiser. */
  datatype Assertion = Assertion(message: string, stackTrace: Option<string>)

  /** The observable state of one test case. */
  datatype TestCaseView = TestCaseView(
    assertions: seq<Assertion>,
    failed: int,
    passed: int,
    stackTrace: Option<string>,
    message: Option<string>)

  /** An assertion after sanitisation: a truthy trace is split into lines and filtered. */
  function SanitizeAssertion(filter: TraceFilter, a: Assertion): Assertion
  {
    if Truthy(a.stackTrace) then a.(stackTrace := Some(filter(Split(a.stackTrace.value, NewLine))))
    else a
  }

  function SanitizeAll(filter: TraceFilter, s: seq<Assertion>): seq<Assertion>
  {
    seq(|s|, i requires 0 <= i < |s| => SanitizeAssertion(filter, s[i]))
  }

  /** A test case whose trace is promoted to a message. */
  predicate Promotes(t: TestCaseView)
  {
    t.failed > 0 && Truthy(t.stackTrace)
  }

  /** A test case after sanitisation: its assertions are sanitised; a failed test case with
      a truthy trace gets the first line as its message and the filtered remaining lines
      as its trace. */
  function AdaptTestCase(filter: TraceFilter, t: TestCaseView): TestCaseView
  {
    var sanitized := t.(assertions := SanitizeAll(filter, t.assertions));
    if Promotes(t) then
      var stackParts := Split(t.stackTrace.value, NewLine);
      sanitized.(stackTrace := Some(filter(stackParts[1..])), message := Some(stackParts[0]))
    else sanitized
  }

  /** What sanitisation keeps and what it rewrites: counts, assertion count and assertion
      messages are kept; an assertion without a truthy trace is untouched, and a truthy one
      becomes the filter of its lines; a test case that is not promoted keeps its message and
      trace, and a promoted one gets a single-line message. */
  lemma AdaptTestCaseEffect(filter: TraceFilter, t: TestCaseView)
    ensures var r := AdaptTestCase(filter, t);
      r.failed == t.failed && r.passed == t.passed &&
      |r.assertions| == |t.assertions| &&
      (forall i :: 0 <= i < |t.assertions| ==> r.assertions[i].message == t.assertions[i].message) &&
      (forall i :: 0 <= i < |t.assertions| && !Truthy(t.assertions[i].stackTrace) ==>
         r.assertions[i] == t.assertions[i]) &&
      (forall i :: 0 <= i < |t.assertions| && Truthy(t.assertions[i].stackTrace) ==>
         r.assertions[i].stackTrace == Some(filter(Split(t.assertions[i].stackTrace.value, NewLine)))) &&
      (!Promotes(t) ==> r.stackTrace == t.stackTrace && r.message == t.message) &&
      (Promotes(t) ==> r.message.Some? && NewLine !in r.message.value && r.stackTrace.Some?)
  {
  }

  /** The promoted message is the text of the trace before its first line break (all of it
      when there is none), and the filter receives the lines of the text after that break
      (no lines when there is none). */
  lemma PromotedMessage(filter: TraceFilter, t: TestCaseView)
    requires Promotes(t)
    ensures var trace := t.stackTrace.value;
      var cut := IndexOf(trace, NewLine);
      var r := AdaptTestCase(filter, t);
      r.message == Some(trace[..cut]) &&
      (cut == |trace| ==> r.stackTrace == Some(filter([]))) &&
      (cut < |trace| ==> r.stackTrace == Some(filter(Split(trace[cut + 1..], NewLine))))
  {
    var trace := t.stackTrace.value;
    SplitAtFirst(trace, NewLine);
  }

  /** The trace is recovered from the promoted message and the lines handed to the filter. */
  lemma PromotionLosesNothing(filter: TraceFilter, t: TestCaseView)
    requires Promotes(t)
    ensures var trace := t.stackTrace.value;
      var lines := Split(trace, NewLine);
      AdaptTestCase(filter, t).message == Some(lines[0]) &&
      AdaptTestCase(filter, t).stackTrace == Some(filter(lines[1..])) &&
      trace == Join([lines[0]] + lines[1..], NewLine)
  {
    var lines := Split(t.stackTrace.value, NewLine);
    JoinSplit(t.stackTrace.value, NewLine);
    assert [lines[0]] + lines[1..] == lines;
  }

  /** A test case, updated in place by the sanitiser. */
  class TestCase {
    var assertions: array<Assertion>
    var failed: int
    var passed: int
    var stackTrace: Option<string>
    var message: Option<string>

    constructor (assertions: array<Assertion>, failed: int, passed: int, stackTrace: Option<string>)
      ensures this.assertions == assertions
      ensures View() == TestCaseView(assertions[..], failed, passed, stackTrace, None)
    {
      this.assertions := assertions;
      this.failed := failed;
      this.passed := passed;
      this.stackTrace := stackTrace;
      this.message := None;
    }

    function View(): TestCaseView
      reads this, assertions
    {
      TestCaseView(assertions[..], failed, passed, stackTrace, message)
    }

    /** The body of the per-test-case callback of `adaptAssertions`. */
    method Adapt(filter: TraceFilter)
      modifies this, assertions
      ensures assertions == old(assertions)
      ensures View() == AdaptTestCase(filter, old(View()))
    {
      var a := assertions;
      ghost var original := a[..];
      var i := 0;
      while i < a.Length
        invariant 0 <= i <= a.Length
        invariant forall j :: 0 <= j < i ==> a[j] == SanitizeAssertion(filter, original[j])
        invariant forall j :: i <= j < a.Length ==> a[j] == original[j]
        invariant unchanged(this)
      {
        if Truthy(a[i].stackTrace) {
          a[i] := a[i].(stackTrace := Some(filter(Split(a[i].stackTrace.value, NewLine))));
        }
        i := i + 1;
      }
      assert a[..] == SanitizeAll(filter, original);
      if failed > 0 && Truthy(stackTrace) {
        var stackParts := Split(stackTrace.value, NewLine);
        var errorMessage := stackParts[0];
        stackParts := stackParts[1..];
        stackTrace := Some(filter(stackParts));
        message := Some(errorMessage);
      }
    }
  }

  /** A module's results; the sanitiser reads only `completed`. */
  class ModuleResult {
    var completed: map<string, TestCase>
    var failed: int
    var stackTrace: Option<string>
    var reportPrefix: string

    constructor (completed: map<string, TestCase>, failed: int, stackTrace: Option<string>, reportPrefix: string)
      ensures this.completed == completed && this.failed == failed
      ensures this.stackTrace == stackTrace && this.reportPrefix == reportPrefix
    {
      this.completed := completed;
      this.failed := failed;
      this.stackTrace := stackTrace;
      this.reportPrefix := reportPrefix;
    }

    /** The assertion arrays of all test cases. */
    ghost function Arrays(): set<array<Assertion>>
      reads this, completed.Values
    {
      set t | t in completed.Values :: t.assertions
    }

    /** Distinct keys hold distinct test cases with distinct assertion arrays. */
    ghost predicate Separate()
      reads this, completed.Values
    {
      forall k, k' :: k in completed && k' in completed && k != k' ==>
        completed[k] != completed[k'] && completed[k].assertions != completed[k'].assertions
    }
  }

  /** `adaptAssertions`: every test case of the module is sanitised in place; the module
      object itself, its key set and the identity of every test case are left alone. */
  method AdaptAssertions(m: ModuleResult, filter: TraceFilter)
    requires m.Separate()
    modifies m.completed.Values, m.Arrays()
    ensures unchanged(m)
    ensures m.Separate()
    ensures forall k :: k in m.completed ==> m.completed[k].assertions == old(m.completed[k].assertions)
    ensures forall k :: k in m.completed ==>
              m.completed[k].View() == AdaptTestCase(filter, old(m.completed[k].View()))
  {
    var todo := m.completed.Keys;
    while todo != {}
      invariant todo <= m.completed.Keys
      invariant forall k :: k in m.completed ==> m.completed[k].assertions == old(m.completed[k].assertions)
      invariant forall k :: k in m.completed && k !in todo ==>
                  m.completed[k].View() == AdaptTestCase(filter, old(m.completed[k].View()))
      invariant forall k :: k in todo ==> m.completed[k].View() == old(m.completed[k].View())
      decreases todo
    {
      var k :| k in todo;
      var testcase := m.completed[k];
      assert testcase.assertions in old(m.Arrays());
      testcase.Adapt(filter);
      todo := todo - {k};
    }
  }
}
