/**
 * Fetching and decoding one transaction, shared by the log loop and the polling
 * fallback: when a transaction is given up.
 */
module TransactionReader {
  const FETCH_ATTEMPTS: nat := 10
  const READ_ATTEMPTS: nat := 3

  /** One answer of the node to `getTransaction`; `Fault` also stands for a decoder that throws. */
  datatype Answer = Missing | Decodes | Fault | Refused

  datatype ReadResult = Decoded | Skipped | ThrewFault | ThrewRefused

  /** What ten tries come to: the first answer that is not "not yet", if there is one. */
  function Fetched(answers: seq<Answer>): Answer {
    if answers == [] then Missing
    else if answers[0] != Missing then answers[0]
    else Fetched(answers[1..])
  }

  /** The failure count of one signature and what `read` does, for one fetched answer. */
  function ReadOnce(failures: nat, answer: Answer): (nat, ReadResult) {
    match answer
    case Missing => (0, Skipped)
    case Decodes => (0, Decoded)
    case Refused => (failures, ThrewRefused)
    case Fault => if failures + 1 < READ_ATTEMPTS then (failures + 1, ThrewFault) else (0, Skipped)
  }

  function ReadAll(failures: nat, answers: seq<Answer>): seq<ReadResult>
    decreases |answers|
  {
    if answers == [] then []
    else
      var (next, result) := ReadOnce(failures, answers[0]);
      [result] + ReadAll(next, answers[1..])
  }

  function WithoutRefusals(answers: seq<Answer>): seq<Answer> {
    if answers == [] then []
    else (if answers[0].Refused? then [] else [answers[0]]) + WithoutRefusals(answers[1..])
  }

  function WithoutThrewRefused(results: seq<ReadResult>): seq<ReadResult> {
    if results == [] then []
    else (if results[0].ThrewRefused? then [] else [results[0]]) + WithoutThrewRefused(results[1..])
  }

  /**
   * The node refusing us says nothing about a transaction: however many rate limits
   * and outages fall between the reads, every other read ends as it would without them.
   */
  lemma {:induction false} RefusalsAreInvisible(failures: nat, answers: seq<Answer>)
    ensures WithoutThrewRefused(ReadAll(failures, answers)) == ReadAll(failures, WithoutRefusals(answers))
    decreases |answers|
  {
    if answers != [] {
      var (next, result) := ReadOnce(failures, answers[0]);
      RefusalsAreInvisible(next, answers[1..]);
      assert ReadAll(failures, answers)[1..] == ReadAll(next, answers[1..]);
      var rest := WithoutRefusals(answers[1..]);
      if answers[0].Refused? {
        assert WithoutRefusals(answers) == rest;
      } else {
        assert WithoutRefusals(answers)[0] == answers[0] && WithoutRefusals(answers)[1..] == rest;
      }
    }
  }

  /** The transaction's own faults since the node last had it decoded or did not have it, refusals left out. */
  function FaultsSince(failures: nat, answers: seq<Answer>): nat {
    if answers == [] then failures
    else
      var last, before := answers[|answers| - 1], FaultsSince(failures, answers[..|answers| - 1]);
      match last
      case Fault => before + 1
      case Refused => before
      case _ => 0
  }

  lemma {:induction false} FirstOfTheFaults(failures: nat, answers: seq<Answer>)
    requires failures < READ_ATTEMPTS && answers != []
    ensures FaultsSince(failures, answers) % READ_ATTEMPTS
            == FaultsSince(ReadOnce(failures, answers[0]).0, answers[1..]) % READ_ATTEMPTS
    decreases |answers|
  {
    var n := |answers| - 1;
    if n == 0 {
      assert answers[..0] == [] && answers[1..] == [] && FaultsSince(failures, []) == failures;
    } else {
      FirstOfTheFaults(failures, answers[..n]);
      assert answers[..n][1..] == answers[1..][..n - 1];
    }
  }

  /**
   * Of any reads of a transaction, one ends in a skip exactly when the node does not have
   * it, or at a third fault of its own: since it was last decoded, not served or skipped.
   */
  lemma {:induction false} SkippedOnlyAtThirdFault(failures: nat, answers: seq<Answer>, k: nat)
    requires failures < READ_ATTEMPTS && k < |answers|
    ensures |ReadAll(failures, answers)| == |answers|
    ensures ReadAll(failures, answers)[k] == Skipped
            <==> answers[k] == Missing
                 || (answers[k] == Fault && FaultsSince(failures, answers[..k + 1]) % READ_ATTEMPTS == 0)
    decreases |answers|
  {
    var (next, result) := ReadOnce(failures, answers[0]);
    var rest := answers[1..];
    assert ReadAll(failures, answers) == [result] + ReadAll(next, rest);
    if k == 0 {
      if rest != [] { SkippedOnlyAtThirdFault(next, rest, 0); }
      assert answers[..1][..0] == [] && FaultsSince(failures, []) == failures;
    } else {
      SkippedOnlyAtThirdFault(next, rest, k - 1);
      assert answers[..k + 1][1..] == rest[..k];
      FirstOfTheFaults(failures, answers[..k + 1]);
    }
  }

  class Reader {
    var readFailures: map<nat, nat>

    constructor ()
      ensures readFailures == map[]
    {
      readFailures := map[];
    }

    ghost function FailuresOf(signature: nat): nat
      reads this
    {
      if signature in readFailures then readFailures[signature] else 0
    }

    method Fetch(answers: seq<Answer>) returns (answer: Answer)
      requires |answers| == FETCH_ATTEMPTS
      ensures answer == Fetched(answers)
      ensures answer == Missing <==> forall k :: 0 <= k < |answers| ==> answers[k] == Missing
      ensures answer != Missing ==>
                exists k :: 0 <= k < |answers| && answers[k] == answer && forall i :: 0 <= i < k ==> answers[i] == Missing
    {
      var attempt := 0;
      while attempt < FETCH_ATTEMPTS
        invariant 0 <= attempt <= FETCH_ATTEMPTS
        invariant Fetched(answers) == Fetched(answers[attempt..])
        invariant forall i :: 0 <= i < attempt ==> answers[i] == Missing
      {
        if answers[attempt] != Missing { return answers[attempt]; }
        attempt := attempt + 1;
      }
      return Missing;
    }

    method Read(signature: nat, answers: seq<Answer>) returns (result: ReadResult)
      requires |answers| == FETCH_ATTEMPTS
      modifies this
      ensures (FailuresOf(signature), result) == ReadOnce(old(FailuresOf(signature)), Fetched(answers))
      ensures forall other :: other != signature ==> FailuresOf(other) == old(FailuresOf(other))
    {
      var answer := Fetch(answers);
      match answer {
        case Missing =>
          readFailures := readFailures - {signature};
          return Skipped;
        case Decodes =>
          readFailures := readFailures - {signature};
          return Decoded;
        case Refused => return ThrewRefused;
        case Fault =>
          var count := (if signature in readFailures then readFailures[signature] else 0) + 1;
          readFailures := readFailures[signature := count];
          if count < READ_ATTEMPTS { return ThrewFault; }
          readFailures := readFailures - {signature};
          return Skipped;
      }
    }
  }
}
