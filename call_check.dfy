/** The semantics of the WIFI_API_CALL_CHECK macro. A handler body is a straight-line
    list of calls; a checked call whose answer is not ESP_OK makes the handler return
    that answer at once, and an unchecked call's answer is ignored. Nothing already
    done is undone. */
module CallCheck {
  import opened EspTypes
  import opened Collaborators

  datatype Step = Checked(call: Action) | Unchecked(call: Action)

  /** What a handler returns, and the calls it made, in order. */
  datatype Outcome = Outcome(ret: EspErr, trace: seq<Action>)

  /** The calls a step list would make if nothing aborted it. */
  function Calls(steps: seq<Step>): (r: seq<Action>)
    ensures |r| == |steps|
    ensures forall i :: 0 <= i < |steps| ==> r[i] == steps[i].call
  {
    if steps == [] then [] else [steps[0].call] + Calls(steps[1..])
  }

  /** A checked call whose answer is not ESP_OK. */
  predicate Fails(s: Step, o: Oracle) {
    s.Checked? && o.answer(s.call) != ESP_OK
  }

  /** Run a handler body: the calls are made in order until a checked one fails.
      A run makes at most one call per step, and any result other than ESP_OK is the
      answer to the last call made. (RunShape states the full shape.) */
  function Run(steps: seq<Step>, o: Oracle): (r: Outcome)
    ensures |r.trace| <= |steps|
    ensures r.ret != ESP_OK ==> r.trace != [] && r.ret == o.answer(r.trace[|r.trace| - 1])
  {
    if steps == [] then Outcome(ESP_OK, [])
    else if Fails(steps[0], o) then Outcome(o.answer(steps[0].call), [steps[0].call])
    else
      var rest := Run(steps[1..], o);
      Outcome(rest.ret, [steps[0].call] + rest.trace)
  }

  /** The shape of every run. The trace is a prefix of the calls of the body (calls
      happen in body order and none is skipped or undone); ESP_OK means the whole body
      ran; any other result is the answer of the last call made, which was a checked
      call that failed. */
  lemma {:induction false} RunShape(steps: seq<Step>, o: Oracle)
    ensures Run(steps, o).trace <= Calls(steps)
    ensures Run(steps, o).ret == ESP_OK ==> Run(steps, o).trace == Calls(steps)
    ensures Run(steps, o).ret != ESP_OK ==>
              var t := Run(steps, o).trace;
              t != [] && Fails(steps[|t| - 1], o) && Run(steps, o).ret == o.answer(t[|t| - 1])
  {
    if steps != [] && !Fails(steps[0], o) {
      RunShape(steps[1..], o);
      assert Calls(steps) == [steps[0].call] + Calls(steps[1..]);
    }
  }

  /** Abort on the first failure: the result is that call's answer, and the trace is
      every call up to and including it. */
  lemma {:induction false} RunStopsAtFirstFailure(steps: seq<Step>, o: Oracle, k: nat)
    requires k < |steps| && Fails(steps[k], o)
    requires forall j :: 0 <= j < k ==> !Fails(steps[j], o)
    ensures Run(steps, o) == Outcome(o.answer(steps[k].call), Calls(steps[..k + 1]))
  {
    if k > 0 {
      RunStopsAtFirstFailure(steps[1..], o, k - 1);
      assert steps[1..][..k] == steps[..k + 1][1..];
    }
  }

  /** Without a failing checked call the whole body runs and ESP_OK is returned,
      whatever the unchecked calls answered. */
  lemma {:induction false} RunCompletes(steps: seq<Step>, o: Oracle)
    requires forall j :: 0 <= j < |steps| ==> !Fails(steps[j], o)
    ensures Run(steps, o) == Outcome(ESP_OK, Calls(steps))
  {
    if steps != [] {
      RunCompletes(steps[1..], o);
    }
  }

  /** Both directions: a body returns ESP_OK exactly when none of its checked calls fails. */
  lemma {:induction false} RunSucceedsIff(steps: seq<Step>, o: Oracle)
    ensures Run(steps, o).ret == ESP_OK <==> forall j :: 0 <= j < |steps| ==> !Fails(steps[j], o)
  {
    if steps != [] {
      RunSucceedsIff(steps[1..], o);
      assert forall j :: 0 < j < |steps| ==> steps[j] == steps[1..][j - 1];
    }
  }

  /** Running two bodies back to back when the first has no failing checked call:
      the first runs to its end and the second decides the result. */
  lemma {:induction false} RunAfterCleanPrefix(s1: seq<Step>, s2: seq<Step>, o: Oracle)
    requires forall j :: 0 <= j < |s1| ==> !Fails(s1[j], o)
    ensures Run(s1 + s2, o) == Outcome(Run(s2, o).ret, Calls(s1) + Run(s2, o).trace)
  {
    if s1 == [] {
      assert s1 + s2 == s2;
    } else {
      var s := s1 + s2;
      assert s[0] == s1[0] && s[1..] == s1[1..] + s2;
      RunAfterCleanPrefix(s1[1..], s2, o);
      assert Calls(s1) == [s1[0].call] + Calls(s1[1..]);
    }
  }
}
