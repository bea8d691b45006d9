// `executeAgent`, from the race of handler, timeout and shutdown on: which `AgentResultV1` each outcome becomes.
module ExecuteRun {
  import opened Wrappers
  import opened Texts
  import opened JsonValue
  import opened JsonGate
  import opened AgentResults

  /** What the agent's function resolved to. `context.success(...)` brands an object: its output is a property it may
      not have, and what it has not is undefined. */
  datatype Reply =
    | Bare(value: Value)
    | Structured(output: Option<Value>, usage: Value, artifacts: Value, metadata: Value)

  /** What the agent's `outputParser` does with the output. */
  datatype Parser = NoParser | ParserThrows | ParsesTo(value: Value)

  datatype Outcome =
    | InputRefused                            // the agent's `inputParser` threw
    | Returned(reply: Reply, parser: Parser)
    | ThrewFailure(failure: Value)            // an `AgentExecutionError` made from this failure object
    | Threw
    | TimeoutFirst
    | ShutdownFirst

  datatype Execution = Execution(
    invocation: Invocation, heap: JsHeap, outcome: Outcome, startedAt: Text, completedAt: Text)

  predicate Truthy(v: Value) {
    match v
    case NullValue => false
    case Undefined => false
    case Boolean(b) => b
    case Numeric(n) => n != Int(0)
    case Text(s) => s != []
    case Reference(_) => true
    case Opaque => true
  }

  /** `...(success?.usage ? { usage: success.usage } : {})`. */
  function IfTruthy(v: Value): Value {
    if Truthy(v) then v else Undefined
  }

  predicate HasOutput(reply: Reply) {
    if reply.Structured? then reply.output.Some? else !reply.value.Undefined?
  }

  /** The output after the parser; undefined when there is none, none when the parser threw. */
  function Candidate(reply: Reply, parser: Parser): Option<Value> {
    if !HasOutput(reply) then Some(Undefined)
    else match parser
      case NoParser => Some(if reply.Structured? then reply.output.value else reply.value)
      case ParserThrows => None
      case ParsesTo(value) => Some(value)
  }

  /** The output as `asJsonValue` copies it; none when it or the parser throws. */
  function Output(h: Heap, reply: Reply, parser: Parser): Option<Json>
    requires HasOutput(reply)
  {
    var candidate := Candidate(reply, parser);
    if candidate.None? then None else Gate(h, candidate.value, {})
  }

  /** `terminalError`, before `parseAgentResult`. */
  function Ended(x: Execution, status: Status, problem: Problem): AgentResult {
    AgentResult(x.heap, x.invocation, status, None, Some(problem), Undefined, Undefined, Undefined,
                x.startedAt, x.completedAt)
  }

  function Failure(x: Execution, code: string, message: string, retryable: bool): AgentResult
    requires code != "" && message != ""
  {
    Ended(x, Failed, Worded(Ascii(code), Ascii(message), retryable))
  }

  function InvalidOutput(x: Execution): AgentResult {
    Failure(x, "AGENT_OUTPUT_INVALID", "Agent output validation failed", false)
  }

  function DetailsOf(h: Heap, failure: Value): Value {
    if failure.Reference? && failure.ref in h && !h[failure.ref].List?
    then Property(h[failure.ref].entries, Ascii("details"))
    else Undefined
  }

  /** The failure an `AgentExecutionError` carries: details that are no JSON value replace it. */
  function Carried(h: Heap, failure: Value): Problem {
    var details := DetailsOf(h, failure);
    if !details.Undefined? && Gate(h, details, {}).None?
    then Worded(Ascii("AGENT_OUTPUT_INVALID"), Ascii("Agent output validation failed"), false)
    else Thrown(failure)
  }

  /** The result of a reply, before `parseAgentResult`. */
  function Success(x: Execution, reply: Reply, output: Option<Json>): AgentResult {
    var structured := reply.Structured?;
    AgentResult(x.heap, x.invocation, Succeeded, output, None,
                if structured then IfTruthy(reply.usage) else Undefined,
                if structured then IfTruthy(reply.artifacts) else Undefined,
                if structured then IfTruthy(reply.metadata) else Undefined,
                x.startedAt, x.completedAt)
  }

  function OrInvalid(x: Execution, r: AgentResult): AgentResult {
    if Parses(r) then r else InvalidOutput(x)
  }

  function ExecuteAgent(x: Execution): AgentResult {
    match x.outcome
    case InputRefused => Failure(x, "AGENT_INPUT_INVALID", "Agent input validation failed", false)
    case TimeoutFirst =>
      Ended(x, TimedOut, Worded(Ascii("AGENT_EXECUTION_TIMEOUT"),
                                Ascii("Agent execution exceeded its configured timeout"), true))
    case ShutdownFirst =>
      Ended(x, Cancelled, Worded(Ascii("WORKER_SHUTDOWN"), Ascii("Worker shutdown cancelled the execution"), true))
    case ThrewFailure(failure) => OrInvalid(x, Ended(x, Failed, Carried(x.heap, failure)))
    case Threw => Failure(x, "AGENT_EXECUTION_FAILED", "Agent execution failed", false)
    case Returned(reply, parser) =>
      if !HasOutput(reply) then OrInvalid(x, Success(x, reply, None))
      else
        var output := Output(x.heap, reply, parser);
        if output.None? then InvalidOutput(x) else OrInvalid(x, Success(x, reply, output))
  }

  // ---- properties -----------------------------------------------------------------------------

  lemma WordedIsSent(x: Execution, status: Status, code: Name, message: Name, retryable: bool)
    requires status != Succeeded
    ensures var r := Ended(x, status, Worded(code, message, retryable));
            Parses(r) && Sent(r).Some?
  {
    hide Conforms, Gate;
  }

  lemma InvalidOutputIsSent(x: Execution)
    ensures Parses(InvalidOutput(x)) && Sent(InvalidOutput(x)).Some?
  {
    hide Parses, Sent;
    WordedIsSent(x, Failed, Ascii("AGENT_OUTPUT_INVALID"), Ascii("Agent output validation failed"), false);
  }

  /** A result that the Worker words itself. */
  lemma OwnWordingIsSent(x: Execution)
    requires !x.outcome.Returned? && !x.outcome.ThrewFailure?
    ensures Parses(ExecuteAgent(x)) && Sent(ExecuteAgent(x)).Some?
  {
    hide Parses, Sent, Ended;
    match x.outcome
    case InputRefused =>
      WordedIsSent(x, Failed, Ascii("AGENT_INPUT_INVALID"), Ascii("Agent input validation failed"), false);
    case TimeoutFirst =>
      WordedIsSent(x, TimedOut, Ascii("AGENT_EXECUTION_TIMEOUT"),
                   Ascii("Agent execution exceeded its configured timeout"), true);
    case ShutdownFirst =>
      WordedIsSent(x, Cancelled, Ascii("WORKER_SHUTDOWN"), Ascii("Worker shutdown cancelled the execution"), true);
    case Threw =>
      WordedIsSent(x, Failed, Ascii("AGENT_EXECUTION_FAILED"), Ascii("Agent execution failed"), false);
  }

  /** The promise of `executeAgent` never rejects: whatever happens, there is a result, and it keeps the contract. */
  lemma ResultKeepsContract(x: Execution)
    ensures Parses(ExecuteAgent(x))
  {
    hide Parses, Sent, Output, Success, Carried, Ended;
    InvalidOutputIsSent(x);
    if !x.outcome.Returned? && !x.outcome.ThrewFailure? { OwnWordingIsSent(x); }
  }

  predicate OutputRefused(x: Execution) {
    && x.outcome.Returned? && HasOutput(x.outcome.reply)
    && Output(x.heap, x.outcome.reply, x.outcome.parser).None?
  }

  /** An output that the agent's parser or `asJsonValue` refuses is reported as a failure, and that can be sent. */
  lemma RefusedOutputIsReported(x: Execution)
    requires OutputRefused(x)
    ensures ExecuteAgent(x) == InvalidOutput(x) && Sent(ExecuteAgent(x)).Some?
  {
    hide Output, Parses, Sent;
    InvalidOutputIsSent(x);
  }

  // ---- what it returns --------------------------------------------------------------------------

  predicate Falsy(v: Value) {
    v == NullValue || v == Undefined || v == Boolean(false) || v == Numeric(Int(0)) || v == Text([])
  }

  /** The result says that the run ended so, in the Worker's own words. */
  predicate Says(r: AgentResult, status: Status, code: string, retryable: bool) {
    && r.status == status && r.output.None? && r.usage.Undefined? && r.artifacts.Undefined? && r.metadata.Undefined?
    && r.problem.Some? && r.problem.value.Worded?
    && r.problem.value.code == Ascii(code) && r.problem.value.retryable == retryable
  }

  /** What the agent gave as its output, after its parser; none when it gave none or the parser threw. */
  predicate Offers(outcome: Outcome, v: Value)
    requires outcome.Returned?
  {
    && (outcome.reply.Bare? ==> !outcome.reply.value.Undefined?)
    && (outcome.reply.Structured? ==> outcome.reply.output.Some?)
    && !outcome.parser.ParserThrows?
    && v == if outcome.parser.ParsesTo? then outcome.parser.value
            else if outcome.reply.Bare? then outcome.reply.value
            else outcome.reply.output.value
  }

  predicate GivesNothing(outcome: Outcome)
    requires outcome.Returned?
  {
    outcome.reply == Bare(Undefined) || (outcome.reply.Structured? && outcome.reply.output.None?)
  }

  /** The finite tree that a value unfolds to, as far as one need look. */
  ghost predicate UnfoldsTo(h: Heap, v: Value, tree: Json) {
    exists depth: nat :: Unfold(h, v, depth) == Some(tree)
  }

  /** What belongs to a reply: a branded one has what is truthy, any other nothing. */
  ghost predicate Carries(r: AgentResult, reply: Reply) {
    && r.usage == (if reply.Structured? && !Falsy(reply.usage) then reply.usage else Undefined)
    && r.artifacts == (if reply.Structured? && !Falsy(reply.artifacts) then reply.artifacts else Undefined)
    && r.metadata == (if reply.Structured? && !Falsy(reply.metadata) then reply.metadata else Undefined)
  }

  /** The result that a reply calls for, if the contract accepts it. */
  ghost predicate Answers(x: Execution, r: AgentResult)
    requires x.outcome.Returned?
  {
    && r.status == Succeeded && r.problem.None? && Carries(r, x.outcome.reply)
    && r.heap == x.heap && r.invocation == x.invocation
    && r.startedAt == x.startedAt && r.completedAt == x.completedAt
    && if GivesNothing(x.outcome) then r.output.None?
       else r.output.Some? && exists v :: Offers(x.outcome, v) && UnfoldsTo(x.heap, v, r.output.value)
  }

  /** A reply succeeds with its own output, usage, artifacts and metadata exactly when the contract accepts that;
      otherwise, and when its output is refused, it fails as an invalid output. */
  lemma RepliesAreAnswered(x: Execution)
    requires x.outcome.Returned?
    ensures var r := ExecuteAgent(x);
            || (Answers(x, r) && Parses(r))
            || (Says(r, Failed, "AGENT_OUTPUT_INVALID", false) && !exists a :: Answers(x, a) && Parses(a))
  {
    hide Parses, Gate, Ascii;
    var reply, parser := x.outcome.reply, x.outcome.parser;
    if !GivesNothing(x.outcome) && !parser.ParserThrows? {
      var v := Candidate(reply, parser).value;
      assert Offers(x.outcome, v);
      TreeOfOutput(x, v);
    }
    forall a | Answers(x, a) ensures Replied(x) == Some(a) {
      AnswerIsReplied(x, a);
    }
    if Replied(x).Some? { RepliedAnswers(x); }
    WordingOfInvalid(x);
  }

  lemma WordingOfInvalid(x: Execution)
    ensures Says(InvalidOutput(x), Failed, "AGENT_OUTPUT_INVALID", false)
  {}

  lemma TreeIsGated(h: Heap, v: Value, tree: Json)
    ensures UnfoldsTo(h, v, tree) <==> Gate(h, v, {}) == Some(tree)
  {
    if depth: nat :| Unfold(h, v, depth) == Some(tree) {
      GateFindsTree(h, v, {}, depth);
    }
    if Gate(h, v, {}) == Some(tree) {
      GateGivesTree(h, v, {});
    }
  }

  lemma TreeOfOutput(x: Execution, v: Value)
    ensures forall tree :: UnfoldsTo(x.heap, v, tree) <==> Gate(x.heap, v, {}) == Some(tree)
  {
    hide Gate, UnfoldsTo;
    forall tree ensures UnfoldsTo(x.heap, v, tree) <==> Gate(x.heap, v, {}) == Some(tree) {
      TreeIsGated(x.heap, v, tree);
    }
  }

  lemma AnswerIsReplied(x: Execution, a: AgentResult)
    requires x.outcome.Returned? && Answers(x, a)
    ensures Replied(x) == Some(a)
  {
    hide Gate, UnfoldsTo;
    if !GivesNothing(x.outcome) {
      var v :| Offers(x.outcome, v) && UnfoldsTo(x.heap, v, a.output.value);
      TreeOfOutput(x, v);
    }
  }

  lemma RepliedAnswers(x: Execution)
    requires x.outcome.Returned? && Replied(x).Some?
    ensures Answers(x, Replied(x).value)
  {
    hide Gate, UnfoldsTo;
    if !GivesNothing(x.outcome) {
      var v := Candidate(x.outcome.reply, x.outcome.parser).value;
      assert Offers(x.outcome, v);
      TreeOfOutput(x, v);
    }
  }

  /** Every other outcome has its own status and code; a failure that the agent threw is passed on as it is when its
      details are JSON and the contract accepts it. */
  lemma OtherOutcomesSay(x: Execution)
    requires !x.outcome.Returned?
    ensures var r := ExecuteAgent(x);
            match x.outcome
            case InputRefused => Says(r, Failed, "AGENT_INPUT_INVALID", false)
            case TimeoutFirst => Says(r, TimedOut, "AGENT_EXECUTION_TIMEOUT", true)
            case ShutdownFirst => Says(r, Cancelled, "WORKER_SHUTDOWN", true)
            case Threw => Says(r, Failed, "AGENT_EXECUTION_FAILED", false)
            case ThrewFailure(failure) =>
              var details := DetailsOf(x.heap, failure);
              if Conforms(x.heap, failure, FAILURE, {})
                 && (details.Undefined? || exists tree :: UnfoldsTo(x.heap, details, tree))
              then r.status == Failed && r.problem == Some(Thrown(failure)) && r.output.None?
                   && r.usage.Undefined? && r.artifacts.Undefined? && r.metadata.Undefined?
              else Says(r, Failed, "AGENT_OUTPUT_INVALID", false)
  {
    hide Conforms, Gate;
    if x.outcome.ThrewFailure? {
      var failure := x.outcome.failure;
      var details := DetailsOf(x.heap, failure);
      TreeOfOutput(x, details);
      ThrownParses(x, failure);
    }
  }

  // ---- the results that cannot be sent --------------------------------------------------------

  /** What the agent's reply would become, if its output is not refused. */
  function Replied(x: Execution): Option<AgentResult>
    requires x.outcome.Returned?
  {
    var reply, parser := x.outcome.reply, x.outcome.parser;
    if !HasOutput(reply) then Some(Success(x, reply, None))
    else
      var output := Output(x.heap, reply, parser);
      if output.None? then None else Some(Success(x, reply, output))
  }

  /** A truthy value that reaches an undefined or an instance of a class. */
  ghost predicate Flaws(h: Heap, v: Value) {
    Truthy(v) && !Flawless(h, v)
  }

  /** The contract accepts what the agent came back with, but `asJsonValue` will not: usage, artifacts or metadata
      reach an undefined or an instance of a class; or the failure object is itself an instance of a class, or has
      details that are undefined. */
  ghost predicate Stranded(x: Execution) {
    match x.outcome
    case Returned(reply, parser) =>
      && Replied(x).Some? && Parses(Replied(x).value) && reply.Structured?
      && (Flaws(x.heap, reply.usage) || Flaws(x.heap, reply.artifacts) || Flaws(x.heap, reply.metadata))
    case ThrewFailure(failure) =>
      && Conforms(x.heap, failure, FAILURE, {}) && Carried(x.heap, failure).Thrown?
      && (x.heap[failure.ref].Exotic? || HasUndefined(x.heap[failure.ref].entries))
    case _ => false
  }

  predicate HasUndefined(es: seq<Entry>) {
    exists i :: 0 <= i < |es| && es[i].value.Undefined?
  }

  lemma ReturnedStranded(x: Execution)
    requires x.outcome.Returned?
    ensures Sent(ExecuteAgent(x)).None? <==> Stranded(x)
  {
    hide Parses, Sent, Output, Flawless;
    InvalidOutputIsSent(x);
    if Replied(x).Some? && Parses(Replied(x).value) {
      SentExactly(Replied(x).value);
    }
  }

  /** `asJsonValue` refuses what `executeAgent` hands over exactly for such outcomes. */
  lemma StrandedExactly(x: Execution)
    ensures Sent(ExecuteAgent(x)).None? <==> Stranded(x)
  {
    hide Sent, ExecuteAgent, Replied, Conforms;
    if x.outcome.Returned? {
      hide Stranded;
      ReturnedStranded(x);
    } else if x.outcome.ThrewFailure? {
      hide Stranded;
      FailureStranded(x);
    } else {
      OwnWordingIsSent(x);
    }
  }

  lemma FailureStranded(x: Execution)
    requires x.outcome.ThrewFailure?
    ensures Sent(ExecuteAgent(x)).None? <==> Stranded(x)
  {
    hide Parses, Sent, Flawless, Conforms, Gate;
    var failure := x.outcome.failure;
    var problem := Carried(x.heap, failure);
    var r := Ended(x, Failed, problem);
    InvalidOutputIsSent(x);
    if problem.Worded? {
      WordedIsSent(x, Failed, problem.code, problem.message, problem.retryable);
    } else {
      ThrownParses(x, failure);
      if Parses(r) {
        SentExactly(r);
        FailureFlaws(x.heap, failure);
      }
    }
  }

  lemma ThrownParses(x: Execution, failure: Value)
    ensures Parses(Ended(x, Failed, Thrown(failure))) <==> Conforms(x.heap, failure, FAILURE, {})
  {
    hide Conforms;
  }

  lemma {:induction false} PropertyIs(es: seq<Entry>, i: nat)
    requires DistinctEntries(es) && i < |es|
    ensures Property(es, es[i].key) == es[i].value
  {
    if i > 0 { PropertyIs(es[1..], i - 1); }
  }

  lemma {:induction false} FieldsEach(h: Heap, es: seq<Entry>, fields: seq<Field>, seen: set<Ref>, i: nat)
    requires FieldsConform(h, es, fields, seen) && i < |es|
    ensures var f := FieldOf(fields, es[i].key);
            f.Some? && (es[i].value.Undefined? || Conforms(h, es[i].value, f.value.schema, seen))
  {
    if i > 0 { FieldsEach(h, es[1..], fields, seen, i - 1); }
  }

  /** Every property of a failure but its details is a text or a boolean. */
  lemma FailureFields(key: Text)
    ensures var f := FieldOf(FAILURE.fields, key);
            f.Some? ==> f.value.schema.NonEmpty? || f.value.schema.Flag? || key == Ascii("details")
  {
    hide Ascii;
    var fields := FAILURE.fields;
    FieldOfMore(fields, key);
    FieldOfMore(fields[1..], key);
    FieldOfMore(fields[2..], key);
    FieldOfMore(fields[3..], key);
  }

  lemma EntriesFlawless(h: JsHeap, failure: Value, depth: nat)
    requires Conforms(h, failure, FAILURE, {}) && Carried(h, failure).Thrown?
    requires h[failure.ref].Plain? && !HasUndefined(h[failure.ref].entries)
    ensures var es := h[failure.ref].entries; forall i :: 0 <= i < |es| ==> !ReachesFlaw(h, es[i].value, depth)
  {
    hide Gate, Ascii;
    var es := h[failure.ref].entries;
    Shrinks(h, failure.ref, {});
    forall i | 0 <= i < |es| ensures !ReachesFlaw(h, es[i].value, depth) {
      FieldsEach(h, es, FAILURE.fields, {} + {failure.ref}, i);
      FailureFields(es[i].key);
      PropertyIs(es, i);
      if es[i].key == Ascii("details") {
        PassedIsFlawless(h, es[i].value);
      }
    }
  }

  /** A failure object whose details have passed the gate is flawed only at its own surface. */
  lemma FailureFlaws(h: JsHeap, failure: Value)
    requires Conforms(h, failure, FAILURE, {}) && Carried(h, failure).Thrown?
    ensures failure.Reference? && failure.ref in h && !h[failure.ref].List?
    ensures Flawless(h, failure) <==> !h[failure.ref].Exotic? && !HasUndefined(h[failure.ref].entries)
  {
    var o := h[failure.ref];
    if o.Exotic? {
      assert ReachesFlaw(h, failure, 1);
    } else if HasUndefined(o.entries) {
      var i :| 0 <= i < |o.entries| && o.entries[i].value.Undefined?;
      assert ReachesFlaw(h, o.entries[i].value, 0);
      assert ReachesFlaw(h, failure, 1);
    } else {
      forall depth: nat ensures !ReachesFlaw(h, failure, depth) {
        if depth > 0 {
          EntriesFlawless(h, failure, depth - 1);
        }
      }
    }
  }

  const INVOCATION: Invocation := Invocation([65], [66], [67])

  /** `return context.success({ metadata: { when: new Date() } })`. */
  const DATED: Execution :=
    Execution(INVOCATION, map[0 := Plain([Entry(Ascii("when"), Reference(1))]), 1 := Exotic([])],
              Returned(Structured(None, Undefined, Undefined, Reference(0)), NoParser), [], [])

  /** `return context.success({ usage: { inputTokens: undefined } })`. */
  const UNCOUNTED: Execution :=
    Execution(INVOCATION, map[0 := Plain([Entry(Ascii("inputTokens"), Undefined)])],
              Returned(Structured(None, Reference(0), Undefined, Undefined), NoParser), [], [])

  /** `return "ok"`. */
  const PLAIN: Execution := Execution(INVOCATION, map[], Returned(Bare(Text(Ascii("ok"))), NoParser), [], [])

  lemma DatedIsStranded()
    ensures Stranded(DATED)
  {
    hide Ascii;
    var h := DATED.heap;
    assert EntriesConform(h, [], {} + {0} + {1});
    assert Conforms(h, Reference(1), AnyJson, {} + {0});
    assert h[0].entries[1..] == [];
    assert Conforms(h, Reference(0), MapOfJson, {});
    assert ReachesFlaw(h, h[0].entries[0].value, 1);
    assert ReachesFlaw(h, Reference(0), 2);
  }

  lemma UncountedIsStranded()
    ensures Stranded(UNCOUNTED)
  {
    hide Ascii;
    var h := UNCOUNTED.heap;
    assert FieldOf(USAGE.fields, Ascii("inputTokens")).Some?;
    assert h[0].entries[1..] == [];
    assert Conforms(h, Reference(0), USAGE, {});
    assert ReachesFlaw(h, h[0].entries[0].value, 0);
    assert ReachesFlaw(h, Reference(0), 1);
  }

  lemma PlainIsSent()
    ensures ExecuteAgent(PLAIN).status == Succeeded && Sent(ExecuteAgent(PLAIN)).Some?
  {
    hide Ascii, Sent, Conforms, Flawless;
    var r := Success(PLAIN, PLAIN.outcome.reply, Some(Str(Ascii("ok"))));
    assert Parses(r) && ExecuteAgent(PLAIN) == r;
    SentExactly(r);
  }
}
