/**
 * The decommission classifier: decides from the raw text of a failed
 * upstream call whether the provider reported the model as retired.
 */
module Classifier {
  import opened Wrappers
  import opened Text

  /**
   * How the `try` block of the classifier fares on a payload, reduced to the
   * two fields it reads. `Parsed` is a payload for which the block completes:
   * it holds `error.code` and `error.message` as the strings the regular
   * expression tests see, `None` when the field (or the `error` object, or
   * the parsed value itself) is missing or falsy. `ParseFailed` is a payload
   * for which the block throws: one that is not JSON, or one with a field
   * whose conversion to a string throws, such as an object whose `toString`
   * is not callable.
   */
  datatype ParseResult = Parsed(code: Option<string>, message: Option<string>) | ParseFailed

  /** The marker looked for in `error.code`. */
  const CodeMarker: string := "model_decommissioned"

  /** The phrase looked for in `error.message`, and in a payload that is not JSON. */
  const MessagePhrase: string := "decommissioned"

  /** The phrase occurs inside the marker, at offset 6. */
  lemma MarkerHoldsPhrase()
    ensures Contains(CodeMarker, MessagePhrase)
  {
    assert CodeMarker[6..6 + |MessagePhrase|] == MessagePhrase;
    ContainsAt(CodeMarker, MessagePhrase, 6);
  }

  /**
   * The classifier. A payload that parses is judged by its error code and
   * error message alone; only a payload that does not parse is searched as
   * raw text. A positive verdict always rests on the phrase "decommissioned",
   * in any case, in the part of the payload that was inspected.
   */
  function IsDecommissionedPayload(parse: string -> ParseResult, payload: string): (r: bool)
    ensures r ==> match parse(payload)
      case Parsed(code, message) =>
        ContainsIgnoringCase(code.GetOr(""), MessagePhrase) || ContainsIgnoringCase(message.GetOr(""), MessagePhrase)
      case ParseFailed => ContainsIgnoringCase(payload, MessagePhrase)
  {
    match parse(payload)
    case Parsed(code, message) =>
      var byCode := ContainsIgnoringCase(code.GetOr(""), CodeMarker);
      MarkerHoldsPhrase();
      assert byCode ==> ContainsIgnoringCase(code.GetOr(""), MessagePhrase) by {
        if byCode {
          ContainsTransitive(Lower(code.GetOr("")), CodeMarker, MessagePhrase);
        }
      }
      byCode || ContainsIgnoringCase(message.GetOr(""), MessagePhrase)
    case ParseFailed => ContainsIgnoringCase(payload, MessagePhrase)
  }

  /**
   * A payload that parses but has no error code or message is not a
   * decommission, even when the phrase appears elsewhere in it.
   */
  lemma ParsedWithoutErrorFields(parse: string -> ParseResult, payload: string)
    requires parse(payload) == Parsed(None, None)
    ensures !IsDecommissionedPayload(parse, payload)
  {
    NotContainsLonger(Lower(""), CodeMarker);
    NotContainsLonger(Lower(""), MessagePhrase);
  }

  /** For a payload whose `try` block completes, the verdict depends on the parsed fields only, never on the raw text. */
  lemma ParsedIgnoresRawText(parse: string -> ParseResult, p: string, q: string)
    requires parse(p).Parsed? && parse(p) == parse(q)
    ensures IsDecommissionedPayload(parse, p) == IsDecommissionedPayload(parse, q)
  {
  }

  /**
   * The whole rule, for every payload: a payload whose `try` block completes
   * is a decommission exactly when the marker occurs in its lower-cased error
   * code or the phrase in its lower-cased error message; any other payload
   * exactly when the phrase occurs in its lower-cased raw text.
   */
  lemma DecommissionedIffOccurs(parse: string -> ParseResult, payload: string)
    ensures parse(payload).Parsed? ==>
      (IsDecommissionedPayload(parse, payload) <==>
        (exists i :: OccursAt(Lower(parse(payload).code.GetOr("")), CodeMarker, i))
        || (exists i :: OccursAt(Lower(parse(payload).message.GetOr("")), MessagePhrase, i)))
    ensures parse(payload).ParseFailed? ==>
      (IsDecommissionedPayload(parse, payload) <==> exists i :: OccursAt(Lower(payload), MessagePhrase, i))
  {
    match parse(payload)
    case Parsed(code, message) =>
      ContainsIffOccurs(Lower(code.GetOr("")), CodeMarker);
      ContainsIffOccurs(Lower(message.GetOr("")), MessagePhrase);
    case ParseFailed =>
      ContainsIffOccurs(Lower(payload), MessagePhrase);
  }

  /** An error code holding the marker, in any mix of cases, is a decommission whatever the message. */
  lemma CodeMarkerDecides(parse: string -> ParseResult, payload: string, code: string, message: Option<string>)
    requires parse(payload) == Parsed(Some(code), message) && ContainsIgnoringCase(code, CodeMarker)
    ensures IsDecommissionedPayload(parse, payload)
  {
  }

  /** An error message holding the phrase, in any mix of cases, is a decommission whatever the code. */
  lemma MessagePhraseDecides(parse: string -> ParseResult, payload: string, code: Option<string>, message: string)
    requires parse(payload) == Parsed(code, Some(message)) && ContainsIgnoringCase(message, MessagePhrase)
    ensures IsDecommissionedPayload(parse, payload)
  {
  }

  /** A payload on which the `try` block throws is a decommission whenever its raw text holds the phrase in any case. */
  lemma RawTextDecides(parse: string -> ParseResult, payload: string)
    requires parse(payload) == ParseFailed && ContainsIgnoringCase(payload, MessagePhrase)
    ensures IsDecommissionedPayload(parse, payload)
  {
  }

  /** `{"error":{"code":"model_decommissioned","message":"x"}}` is a decommission. */
  lemma CodeExample(parse: string -> ParseResult, payload: string)
    requires parse(payload) == Parsed(Some("model_decommissioned"), Some("x"))
    ensures IsDecommissionedPayload(parse, payload)
  {
    assert CodeMarker[0..|CodeMarker|] == CodeMarker;
    LowerMeaning(CodeMarker);
    ContainsAt(Lower(CodeMarker), CodeMarker, 0);
  }

  /** Example: the code `MODEL_Decommissioned`, in mixed case, is a decommission. */
  lemma CodeExampleUpperCase(parse: string -> ParseResult, payload: string)
    requires parse(payload) == Parsed(Some("MODEL_Decommissioned"), None)
    ensures IsDecommissionedPayload(parse, payload)
  {
    assert Lower("MODEL_Decommissioned") == CodeMarker;
    assert CodeMarker[0..|CodeMarker|] == CodeMarker;
    ContainsAt(CodeMarker, CodeMarker, 0);
  }

  /** Example: a message with `Decommissioned` capitalised is a decommission. */
  lemma MessageExample(parse: string -> ParseResult, payload: string)
    requires parse(payload) == Parsed(None, Some("The model `x` has been Decommissioned"))
    ensures IsDecommissionedPayload(parse, payload)
  {
    var m := "The model `x` has been Decommissioned";
    assert Lower(m)[23..23 + |MessagePhrase|] == MessagePhrase;
    ContainsAt(Lower(m), MessagePhrase, 23);
  }

  /** Example: the text `model DECOMMISSIONED`, on which the `try` block throws, is a decommission. */
  lemma RawTextExample(parse: string -> ParseResult, payload: string)
    requires payload == "model DECOMMISSIONED" && parse(payload) == ParseFailed
    ensures IsDecommissionedPayload(parse, payload)
  {
    assert Lower(payload)[6..6 + |MessagePhrase|] == MessagePhrase;
    ContainsAt(Lower(payload), MessagePhrase, 6);
  }

  /** `{"error":{"code":"invalid_api_key"}}` is not a decommission. */
  lemma InvalidKeyExample(parse: string -> ParseResult, payload: string)
    requires parse(payload) == Parsed(Some("invalid_api_key"), None)
    ensures !IsDecommissionedPayload(parse, payload)
  {
    NotContainsLonger(Lower("invalid_api_key"), CodeMarker);
    NotContainsLonger(Lower(""), MessagePhrase);
  }
}
