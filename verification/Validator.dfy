/** Semantic validation of a provider's response, over the already parsed payload. */
module Validator {
  datatype JsonValue = Text(blank: bool) | Number(value: real) | OtherValue

  datatype Parsed = NotJson | Payload(fields: map<string, JsonValue>)

  /** A response body: its trimmed length and what it parses to. */
  datatype Content = Content(length: nat, parsed: Parsed)

  datatype ReasonCode =
    | EmptyContent | ResponseTooLong | InvalidJson | MissingRequiredField
    | EmptyAnswer | InvalidConfidenceType | ConfidenceOutOfRange | ConfidenceTooLow

  datatype Contract = Contract(requiredFields: seq<string>, minConfidence: real, maxContentBytes: int)

  const DEFAULT_CONTRACT := Contract(["answer", "confidence"], 0.70, 32000)

  datatype Result = Result(valid: bool, score: real, reasonCodes: seq<ReasonCode>)

  predicate GoodAnswer(fields: map<string, JsonValue>) {
    "answer" in fields ==> fields["answer"].Text? && !fields["answer"].blank
  }

  predicate GoodConfidence(fields: map<string, JsonValue>, minConfidence: real) {
    "confidence" in fields ==>
      fields["confidence"].Number? && 0.0 <= fields["confidence"].value <= 1.0
          && minConfidence <= fields["confidence"].value
  }

  function Confidence(fields: map<string, JsonValue>): real {
    if "confidence" in fields && fields["confidence"].Number? then fields["confidence"].value else 0.0
  }

  /** What a response has to be for the contract to accept it. */
  predicate Satisfies(c: Content, contract: Contract) {
    && 0 < c.length <= contract.maxContentBytes
    && c.parsed.Payload?
    && (forall f :: f in contract.requiredFields ==> f in c.parsed.fields)
    && GoodAnswer(c.parsed.fields)
    && GoodConfidence(c.parsed.fields, contract.minConfidence)
  }

  /** Under the default contract an accepted response carries a confidence of 0.70 or more. */
  lemma DefaultContractConfidence(c: Content)
    requires Satisfies(c, DEFAULT_CONTRACT)
    ensures 0.70 <= Confidence(c.parsed.fields) <= 1.0
    ensures "answer" in c.parsed.fields && c.parsed.fields["answer"] == Text(false)
  {
    assert DEFAULT_CONTRACT.requiredFields[0] == "answer" && DEFAULT_CONTRACT.requiredFields[1] == "confidence";
  }

  /** The response gets as far as the checks on its fields. */
  predicate Complete(c: Content, contract: Contract) {
    && 0 < c.length <= contract.maxContentBytes && c.parsed.Payload?
    && forall f :: f in contract.requiredFields ==> f in c.parsed.fields
  }

  /** The confidence a complete response gives, if it is a number. */
  predicate Confident(fields: map<string, JsonValue>) {
    "confidence" in fields && fields["confidence"].Number?
  }

  /** What the code says about the fields of a complete response. */
  predicate FieldCode(k: ReasonCode, fields: map<string, JsonValue>, minConfidence: real) {
    match k
    case EmptyAnswer => !GoodAnswer(fields)
    case InvalidConfidenceType => "confidence" in fields && !fields["confidence"].Number?
    case ConfidenceOutOfRange => Confident(fields) && !(0.0 <= Confidence(fields) <= 1.0)
    case ConfidenceTooLow => Confident(fields) && 0.0 <= Confidence(fields) <= 1.0 && Confidence(fields) < minConfidence
    case _ => false
  }

  /** What the default contract asks for, spelled out. */
  lemma DefaultContractIff(c: Content)
    ensures Satisfies(c, DEFAULT_CONTRACT)
            <==> && 1 <= c.length <= 32000 && c.parsed.Payload?
                 && (var fields := c.parsed.fields;
                     && "answer" in fields && fields["answer"] == Text(false)
                     && "confidence" in fields && fields["confidence"].Number?
                     && 0.70 <= fields["confidence"].value <= 1.0
                     && Confidence(fields) == fields["confidence"].value)
  {
    assert DEFAULT_CONTRACT.requiredFields[0] == "answer" && DEFAULT_CONTRACT.requiredFields[1] == "confidence";
  }

  /** What the code says about the confidence of a complete response. */
  function ConfidenceCodes(fields: map<string, JsonValue>, minConfidence: real): seq<ReasonCode> {
    if "confidence" !in fields then []
    else if !fields["confidence"].Number? then [InvalidConfidenceType]
    else if !(0.0 <= Confidence(fields) <= 1.0) then [ConfidenceOutOfRange]
    else if Confidence(fields) < minConfidence then [ConfidenceTooLow]
    else []
  }

  /** How many of the first n required fields a response lacks. */
  function Missing(fields: map<string, JsonValue>, required: seq<string>): nat {
    if required == [] then 0
    else Missing(fields, required[..|required| - 1]) + if required[|required| - 1] in fields then 0 else 1
  }

  /** The result of a validation, stage by stage: what is wrong, each thing once, and the score. */
  ghost predicate Judges(r: Result, c: Content, contract: Contract) {
    && (r.valid <==> r.reasonCodes == [])
    && (if c.length == 0 then r == Result(false, 0.0, [EmptyContent])
        else if c.length > contract.maxContentBytes then r == Result(false, 0.0, [ResponseTooLong])
        else if c.parsed.NotJson? then r == Result(false, 0.0, [InvalidJson])
        else if !Complete(c, contract) then
          && r.score == 0.1 && |r.reasonCodes| == Missing(c.parsed.fields, contract.requiredFields)
          && forall k :: k in r.reasonCodes ==> k == MissingRequiredField
        else
          var fields := c.parsed.fields;
          && r.reasonCodes == (if GoodAnswer(fields) then [] else [EmptyAnswer])
                             + ConfidenceCodes(fields, contract.minConfidence)
          && r.score == if r.valid then Confidence(fields)
                        else if Confident(fields) && 0.0 <= Confidence(fields) <= 1.0 then Confidence(fields) * 0.5
                        else 0.2)
  }

  /** A complete response that is rejected scores half its confidence, if that is in range, or 0.2. */
  lemma ScoreMeans(c: Content, contract: Contract, r: Result)
    requires Complete(c, contract) && Judges(r, c, contract) && 1 <= c.length && !r.valid
    ensures var fields := c.parsed.fields;
            if "confidence" in fields && fields["confidence"].Number? && 0.0 <= fields["confidence"].value <= 1.0
            then r.score + r.score == fields["confidence"].value
            else r.score == 0.2
  {
  }

  method Validate(c: Content, contract: Contract) returns (r: Result)
    ensures Judges(r, c, contract)
    ensures r.valid <==> Satisfies(c, contract)
    ensures r.valid ==> r.score == Confidence(c.parsed.fields) && 0.0 <= r.score <= 1.0
    ensures !r.valid ==> 0.0 <= r.score <= 0.5
    ensures Complete(c, contract) ==>
              forall k :: k in r.reasonCodes <==> FieldCode(k, c.parsed.fields, contract.minConfidence)
    ensures MissingRequiredField in r.reasonCodes <==>
              0 < c.length <= contract.maxContentBytes && c.parsed.Payload?
              && exists f :: f in contract.requiredFields && f !in c.parsed.fields
  {
    var reasonCodes: seq<ReasonCode> := [];

    if c.length == 0 {
      return Result(false, 0.0, [EmptyContent]);
    }
    if c.length > contract.maxContentBytes {
      return Result(false, 0.0, [ResponseTooLong]);
    }
    if c.parsed.NotJson? {
      return Result(false, 0.0, [InvalidJson]);
    }
    var payload := c.parsed.fields;

    for i := 0 to |contract.requiredFields|
      invariant reasonCodes == [] <==> forall j :: 0 <= j < i ==> contract.requiredFields[j] in payload
      invariant forall k :: k in reasonCodes ==> k == MissingRequiredField
      invariant |reasonCodes| == Missing(payload, contract.requiredFields[..i])
    {
      assert contract.requiredFields[..i + 1][..i] == contract.requiredFields[..i];
      if contract.requiredFields[i] !in payload {
        reasonCodes := reasonCodes + [MissingRequiredField];
      }
    }
    assert contract.requiredFields[..|contract.requiredFields|] == contract.requiredFields;
    if |reasonCodes| > 0 {
      assert reasonCodes[0] in reasonCodes;
      return Result(false, 0.1, reasonCodes);
    }

    if "answer" in payload {
      if !payload["answer"].Text? || payload["answer"].blank {
        reasonCodes := reasonCodes + [EmptyAnswer];
      }
    }

    var confidence, confidenceSeen := 0.0, false;
    if "confidence" in payload {
      match payload["confidence"] {
        case Number(v) =>
          confidence, confidenceSeen := v, true;
        case _ =>
          reasonCodes := reasonCodes + [InvalidConfidenceType];
      }
      if confidenceSeen {
        if confidence < 0.0 || confidence > 1.0 {
          reasonCodes := reasonCodes + [ConfidenceOutOfRange];
        } else if confidence < contract.minConfidence {
          reasonCodes := reasonCodes + [ConfidenceTooLow];
        }
      }
    }

    if |reasonCodes| > 0 {
      var partial := 0.2;
      if confidenceSeen && 0.0 <= confidence <= 1.0 {
        partial := confidence * 0.5;
      }
      return Result(false, partial, reasonCodes);
    }

    var score := confidence;
    if score < 0.0 {
      score := 0.7;
    }
    if score > 1.0 {
      score := 1.0;
    }
    return Result(true, score, []);
  }
}
