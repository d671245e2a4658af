/**
  `EveryElectionWrapper`: asks EveryElection which elections are upcoming at a
  postcode and fails open. Any failure of the request leaves
  `request_success` false, and then there is taken to be an election but no
  explanation to show.
*/
module Elections {
  import opened Wrappers

  /** An entry of the `results` list: `election_title` and an optional `explanation`
      (an absent key and JSON `null` are both `None`). */
  datatype Election = Election(title: string, explanation: Option<string>)

  /** The parsed body of a response: the `results` key may be missing. */
  datatype ElectionsJson = ElectionsJson(results: Option<seq<Election>>)

  /** What `requests.get` gives back: a status and a body that may not parse as
      JSON, or an exception (a timeout, a refused connection). */
  datatype ElectionsResponse = Response(status: nat, json: Option<ElectionsJson>) | RequestFailed

  /** `{'title': ..., 'explanation': ...}` */
  datatype Explanation = Explanation(title: string, explanation: string)

  /** `raise_for_status` raises for client and server errors only. */
  predicate RaisesForStatus(status: nat)
  {
    400 <= status < 600
  }

  /** `get_data`: the `results` list, or `None` where it raises. A status other
      than 200 that is not an error falls through to parsing the body. */
  function GetData(response: ElectionsResponse): (r: Option<seq<Election>>)
    ensures r.Some? <==>
      response.Response? && !RaisesForStatus(response.status)
      && response.json.Some? && response.json.value.results.Some?
    ensures r.Some? ==> r.value == response.json.value.results.value
    ensures response.Response? && response.status == 200 && response.json.Some? ==> r == response.json.value.results
  {
    match response
    case RequestFailed => None
    case Response(status, json) =>
      if status != 200 && RaisesForStatus(status) then None
      else if json.None? then None
      else json.value.results
  }

  /** `'explanation' in election and election['explanation']`: present and not empty. */
  predicate HasExplanation(e: Election)
  {
    e.explanation.Some? && e.explanation.value != ""
  }

  function ExplanationOf(e: Election): Explanation
    requires HasExplanation(e)
  {
    Explanation(e.title, e.explanation.value)
  }

  /** The explanations of the elections that have one, in order. */
  function ExplanationsOf(elections: seq<Election>): seq<Explanation>
  {
    if elections == [] then []
    else
      var last := elections[|elections| - 1];
      ExplanationsOf(elections[..|elections| - 1]) + if HasExplanation(last) then [ExplanationOf(last)] else []
  }

  class EveryElectionWrapper {
    var requestSuccess: bool
    var elections: seq<Election>

    /** `__init__`: `self.elections` is only set when `get_data` returns. */
    constructor (response: ElectionsResponse)
      ensures requestSuccess <==> GetData(response).Some?
      ensures elections == if requestSuccess then GetData(response).value else []
    {
      var data := GetData(response);
      if data.Some? {
        elections := data.value;
        requestSuccess := true;
      } else {
        elections := [];
        requestSuccess := false;
      }
    }

    /** `has_election`: true after a failed request, else whether any election is listed. */
    function HasElection(): (b: bool)
      reads this
      ensures !requestSuccess ==> b
      ensures requestSuccess ==> (b <==> elections != [])
    {
      !requestSuccess || |elections| > 0
    }

    /** `get_explanations` */
    method GetExplanations() returns (explanations: seq<Explanation>)
      ensures explanations == if requestSuccess then ExplanationsOf(elections) else []
    {
      explanations := [];
      if !requestSuccess {
        return;
      }
      if |elections| > 0 {
        var i := 0;
        while i < |elections|
          invariant 0 <= i <= |elections|
          invariant explanations == ExplanationsOf(elections[..i])
        {
          var election := elections[i];
          if election.explanation.Some? && election.explanation.value != "" {
            explanations := explanations + [Explanation(election.title, election.explanation.value)];
          }
          assert elections[..i + 1][..i] == elections[..i];
          i := i + 1;
        }
        assert elections[..i] == elections;
      }
    }
  }

  /** The explanations of a concatenation are the concatenation of the explanations: order is kept. */
  lemma {:induction false} ExplanationsAppend(a: seq<Election>, b: seq<Election>)
    ensures ExplanationsOf(a + b) == ExplanationsOf(a) + ExplanationsOf(b)
    decreases |b|
  {
    if b == [] {
      assert a + b == a;
    } else {
      var b' := b[..|b| - 1];
      assert (a + b)[..|a + b| - 1] == a + b';
      assert (a + b)[|a + b| - 1] == b[|b| - 1];
      ExplanationsAppend(a, b');
    }
  }

  /** An explanation is listed exactly when some election carries it. */
  lemma {:induction false} ExplanationsMembers(elections: seq<Election>, x: Explanation)
    ensures x in ExplanationsOf(elections) <==>
      exists i :: 0 <= i < |elections| && HasExplanation(elections[i]) && x == ExplanationOf(elections[i])
  {
    if elections != [] {
      var init := elections[..|elections| - 1];
      ExplanationsMembers(init, x);
      if exists i :: 0 <= i < |init| && HasExplanation(init[i]) && x == ExplanationOf(init[i]) {
        var i :| 0 <= i < |init| && HasExplanation(init[i]) && x == ExplanationOf(init[i]);
        assert elections[i] == init[i];
      }
      if exists i :: 0 <= i < |elections| && HasExplanation(elections[i]) && x == ExplanationOf(elections[i]) {
        var i :| 0 <= i < |elections| && HasExplanation(elections[i]) && x == ExplanationOf(elections[i]);
        if i < |init| {
          assert init[i] == elections[i];
        }
      }
    }
  }

  /** One explanation at most per election, and one for each exactly when every election has one. */
  lemma {:induction false} ExplanationsCount(elections: seq<Election>)
    ensures |ExplanationsOf(elections)| <= |elections|
    ensures |ExplanationsOf(elections)| == |elections| <==> forall i :: 0 <= i < |elections| ==> HasExplanation(elections[i])
  {
    if elections != [] {
      var init := elections[..|elections| - 1];
      ExplanationsCount(init);
      if forall i :: 0 <= i < |elections| ==> HasExplanation(elections[i]) {
        assert forall i :: 0 <= i < |init| ==> init[i] == elections[i];
      }
    }
  }

  /** A transport failure, an error status, a body that is not JSON and a body
      without `results` all end in the failed state. */
  lemma FailureCases(status: nat, json: Option<ElectionsJson>)
    ensures GetData(RequestFailed).None?
    ensures RaisesForStatus(status) ==> GetData(Response(status, json)).None?
    ensures GetData(Response(status, None)).None?
    ensures GetData(Response(status, Some(ElectionsJson(None)))).None?
  {
  }
}
