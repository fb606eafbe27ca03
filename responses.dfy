/**
 * `assessResponse`: scores one keypress against the trial's role as a
 * signal-detection outcome and records the outcome on the trial's data
 * record in place.
 */
module Responses {
  import opened Wrappers
  import opened Trials

  /** The six outcomes written to `response_type`. */
  datatype ResponseType = NoResponse | WrongKey | TruePositive | FalseNegative | FalsePositive | TrueNegative

  /**
   * The outcome of a keypress (`None` is a missing response) on a trial of
   * `role`, with `yesKey` meaning "same as the target" and `noKey` "different".
   */
  function Classify(role: Role, response: Option<string>, yesKey: string, noKey: string): (r: ResponseType)
    ensures r == NoResponse <==> response.None?
    ensures (r == NoResponse || r == WrongKey) <==> response != Some(yesKey) && response != Some(noKey)
    ensures (r == TruePositive || r == FalseNegative) ==> role == ExactMatch
    ensures (r == FalsePositive || r == TrueNegative) ==> role != ExactMatch
  {
    if response != Some(yesKey) && response != Some(noKey) then
      if response.None? then NoResponse else WrongKey
    else if role == ExactMatch then
      if response == Some(yesKey) then TruePositive else FalseNegative
    else
      if response == Some(yesKey) then FalsePositive else TrueNegative
  }

  /** What `correct` is set to. */
  predicate IsCorrect(t: ResponseType)
  {
    t == TruePositive || t == TrueNegative
  }

  /**
   * The scoring of `assessResponse` on values: the three checks in the
   * source's order, then the outcome and whether it is correct. `None` stands
   * for a key or role that is `null` or `undefined`.
   */
  function Assess(role: Option<Role>, response: Option<string>, yesKey: Option<string>, noKey: Option<string>)
    : (r: Result<(ResponseType, bool)>)
    ensures r.Failure? <==> yesKey.None? || noKey.None? || role.None?
    ensures r.Failure? ==>
      r.error == (if yesKey.None? then YesKeyUndefined else if noKey.None? then NoKeyUndefined else MissingRole)
    ensures r.Success? ==> (r.value.1 <==> IsCorrect(r.value.0))
  {
    if yesKey.None? then Failure(YesKeyUndefined)
    else if noKey.None? then Failure(NoKeyUndefined)
    else if role.None? then Failure(MissingRole)
    else
      var t := Classify(role.value, response, yesKey.value, noKey.value);
      Success((t, IsCorrect(t)))
  }

  /** The trial data record `assessResponse` reads and updates. */
  class ResponseData {
    var role: Option<Role>
    var response: Option<string>
    var responseType: Option<ResponseType>
    var correct: Option<bool>

    constructor (role: Option<Role>, response: Option<string>)
      ensures this.role == role && this.response == response
      ensures responseType.None? && correct.None?
    {
      this.role := role;
      this.response := response;
      responseType := None;
      correct := None;
    }
  }

  /**
   * `assessResponse`: on success writes `response_type` and `correct` into
   * `data` and returns the same record; on an error leaves `data` untouched.
   */
  method AssessResponse(data: ResponseData, yesKey: Option<string>, noKey: Option<string>)
    returns (r: Result<ResponseData>)
    modifies data
    ensures data.role == old(data.role) && data.response == old(data.response)
    ensures r.Failure? <==> Assess(data.role, data.response, yesKey, noKey).Failure?
    ensures r.Failure? ==> r.error == Assess(data.role, data.response, yesKey, noKey).error
    ensures r.Failure? ==> unchanged(data)
    ensures r.Success? ==> r.value == data
    ensures r.Success? ==> data.responseType == Some(Assess(data.role, data.response, yesKey, noKey).value.0)
    ensures r.Success? ==> data.correct == Some(Assess(data.role, data.response, yesKey, noKey).value.1)
  {
    if yesKey.None? {
      return Failure(YesKeyUndefined);
    }
    if noKey.None? {
      return Failure(NoKeyUndefined);
    }
    if data.role.None? {
      return Failure(MissingRole);
    }
    var yes, no := yesKey.value, noKey.value;
    if data.response != Some(yes) && data.response != Some(no) {
      if data.response.None? {
        data.responseType := Some(NoResponse);
      } else {
        data.responseType := Some(WrongKey);
      }
    } else if data.role == Some(ExactMatch) {
      if data.response == Some(yes) {
        data.responseType := Some(TruePositive);
      } else {
        data.responseType := Some(FalseNegative);
      }
    } else {
      if data.response == Some(yes) {
        data.responseType := Some(FalsePositive);
      } else {
        data.responseType := Some(TrueNegative);
      }
    }
    if data.responseType == Some(TruePositive) || data.responseType == Some(TrueNegative) {
      data.correct := Some(true);
    } else {
      data.correct := Some(false);
    }
    return Success(data);
  }

  // ---------------------------------------------------------------------
  // What the scoring means
  // ---------------------------------------------------------------------

  /**
   * A trial is scored correct exactly when the participant pressed "same" on
   * an exact match, or pressed a "different" key that is not also the "same"
   * key on any other trial.
   */
  lemma CorrectIff(role: Role, response: Option<string>, yesKey: string, noKey: string)
    ensures IsCorrect(Classify(role, response, yesKey, noKey)) <==>
      (role == ExactMatch && response == Some(yesKey)) ||
      (role != ExactMatch && response == Some(noKey) && noKey != yesKey)
  {
  }

  /**
   * A missing response is always `noResponse`, a key that is neither the
   * "same" nor the "different" key always `wrongKey`, and neither is correct.
   */
  lemma InvalidResponses(role: Role, response: Option<string>, yesKey: string, noKey: string)
    requires response != Some(yesKey) && response != Some(noKey)
    ensures Classify(role, response, yesKey, noKey) == (if response.None? then NoResponse else WrongKey)
    ensures !IsCorrect(Classify(role, response, yesKey, noKey))
  {
  }

  /**
   * Only the meaning of a key matters, not its name: exchanging the two
   * keys in the mapping and in the response gives the same outcome.
   */
  lemma KeySwap(role: Role, response: Option<string>, yesKey: string, noKey: string)
    requires yesKey != noKey
    ensures Classify(role, Swapped(response, yesKey, noKey), noKey, yesKey) == Classify(role, response, yesKey, noKey)
  {
  }

  /** A response with the two keys exchanged. */
  function Swapped(response: Option<string>, a: string, b: string): Option<string>
  {
    if response == Some(a) then Some(b) else if response == Some(b) then Some(a) else response
  }

  /**
   * The 16-case coding table with "j" as the "same" key and "k" as the
   * "different" key ("w" is some other key).
   */
  lemma CodingTable()
    ensures Assess(Some(ExactMatch), Some("j"), Some("j"), Some("k")) == Success((TruePositive, true))
    ensures Assess(Some(ExactMatch), Some("k"), Some("j"), Some("k")) == Success((FalseNegative, false))
    ensures Assess(Some(ExactMatch), Some("w"), Some("j"), Some("k")) == Success((WrongKey, false))
    ensures Assess(Some(ExactMatch), None, Some("j"), Some("k")) == Success((NoResponse, false))
    ensures Assess(Some(TextureLure), Some("j"), Some("j"), Some("k")) == Success((FalsePositive, false))
    ensures Assess(Some(TextureLure), Some("k"), Some("j"), Some("k")) == Success((TrueNegative, true))
    ensures Assess(Some(TextureLure), Some("w"), Some("j"), Some("k")) == Success((WrongKey, false))
    ensures Assess(Some(TextureLure), None, Some("j"), Some("k")) == Success((NoResponse, false))
    ensures Assess(Some(ShapeLure), Some("j"), Some("j"), Some("k")) == Success((FalsePositive, false))
    ensures Assess(Some(ShapeLure), Some("k"), Some("j"), Some("k")) == Success((TrueNegative, true))
    ensures Assess(Some(ShapeLure), Some("w"), Some("j"), Some("k")) == Success((WrongKey, false))
    ensures Assess(Some(ShapeLure), None, Some("j"), Some("k")) == Success((NoResponse, false))
    ensures Assess(Some(Filler), Some("j"), Some("j"), Some("k")) == Success((FalsePositive, false))
    ensures Assess(Some(Filler), Some("k"), Some("j"), Some("k")) == Success((TrueNegative, true))
    ensures Assess(Some(Filler), Some("w"), Some("j"), Some("k")) == Success((WrongKey, false))
    ensures Assess(Some(Filler), None, Some("j"), Some("k")) == Success((NoResponse, false))
  {
  }

  /** The error cases: missing keys are reported before a missing role. */
  lemma ErrorTable()
    ensures Assess(Some(Filler), Some("k"), None, Some("k")) == Failure(YesKeyUndefined)
    ensures Assess(Some(Filler), Some("k"), Some("j"), None) == Failure(NoKeyUndefined)
    ensures Assess(None, Some("j"), Some("j"), Some("k")) == Failure(MissingRole)
    ensures Assess(None, Some("j"), None, None) == Failure(YesKeyUndefined)
  {
  }
}
