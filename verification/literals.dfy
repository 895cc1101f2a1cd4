/** Equalities between string literals that the concrete cases rely on,
    proved a few characters at a time. */
module Literals {
  /** The decimal `0.000000000000000100`, trailing zeros included. */
  const LongDecimal: string := "0.000000000000000100"
  const ShortDecimal: string := "0.0000000000000001"

  /** The text of an Observation with a decimal quantity, up to the
      decimal. */
  const ObservationPrefix: string := "{\"resourceType\":\"Observation\",\"valueQuantity\":{\"value\":"

  lemma PrefixHead()
    ensures "{" + "\"" + "resourceType" + "\"" + ":" + "\"" + "Observation" + "\"" + ","
      == "{\"resourceType\":\"Observation\","
  {
    assert "{" + "\"" == "{\"";
    assert "{\"" + "resourceType" == "{\"resourceType";
    assert "{\"resourceType" + "\"" == "{\"resourceType\"";
    assert "{\"resourceType\"" + ":" == "{\"resourceType\":";
    assert "{\"resourceType\":" + "\"" == "{\"resourceType\":\"";
    assert "{\"resourceType\":\"" + "Observation" == "{\"resourceType\":\"Observation";
    assert "{\"resourceType\":\"Observation" + "\"" == "{\"resourceType\":\"Observation\"";
    assert "{\"resourceType\":\"Observation\"" + "," == "{\"resourceType\":\"Observation\",";
  }

  lemma PrefixTail()
    ensures "{\"resourceType\":\"Observation\"," + "\"" + "valueQuantity" + "\"" + ":" + "{" + "\"" + "value" + "\"" + ":"
      == ObservationPrefix
  {
    assert "{\"resourceType\":\"Observation\"," + "\"" == "{\"resourceType\":\"Observation\",\"";
    assert "{\"resourceType\":\"Observation\",\"" + "valueQuantity" == "{\"resourceType\":\"Observation\",\"valueQuantity";
    assert "{\"resourceType\":\"Observation\",\"valueQuantity" + "\"" == "{\"resourceType\":\"Observation\",\"valueQuantity\"";
    assert "{\"resourceType\":\"Observation\",\"valueQuantity\"" + ":" == "{\"resourceType\":\"Observation\",\"valueQuantity\":";
    assert "{\"resourceType\":\"Observation\",\"valueQuantity\":" + "{" == "{\"resourceType\":\"Observation\",\"valueQuantity\":{";
    assert "{\"resourceType\":\"Observation\",\"valueQuantity\":{" + "\"" == "{\"resourceType\":\"Observation\",\"valueQuantity\":{\"";
    assert "{\"resourceType\":\"Observation\",\"valueQuantity\":{\"" + "value" == "{\"resourceType\":\"Observation\",\"valueQuantity\":{\"value";
    assert "{\"resourceType\":\"Observation\",\"valueQuantity\":{\"value" + "\"" == "{\"resourceType\":\"Observation\",\"valueQuantity\":{\"value\"";
    assert "{\"resourceType\":\"Observation\",\"valueQuantity\":{\"value\"" + ":" == "{\"resourceType\":\"Observation\",\"valueQuantity\":{\"value\":";
  }

  /** The pieces the printer produces, put together. */
  lemma PrefixPieces()
    ensures "{" + "\"" + "resourceType" + "\"" + ":" + "\"" + "Observation" + "\"" + "," + "\"" + "valueQuantity" + "\"" + ":" + "{" + "\"" + "value" + "\"" + ":"
      == ObservationPrefix
  {
    PrefixHead();
    PrefixTail();
  }

  lemma LongDecimalLiteral()
    ensures ObservationPrefix + LongDecimal + "}}"
      == "{\"resourceType\":\"Observation\",\"valueQuantity\":{\"value\":0.000000000000000100}}"
  {
    assert ObservationPrefix + LongDecimal == "{\"resourceType\":\"Observation\",\"valueQuantity\":{\"value\":0.000000000000000100";
  }

  lemma ShortDecimalLiteral()
    ensures ObservationPrefix + ShortDecimal + "}}"
      == "{\"resourceType\":\"Observation\",\"valueQuantity\":{\"value\":0.0000000000000001}}"
  {
    assert ObservationPrefix + ShortDecimal == "{\"resourceType\":\"Observation\",\"valueQuantity\":{\"value\":0.0000000000000001";
  }

  // ---------------------------------------------------------------------
  // A Conformance whose `acceptUnknown` carries an extension

  /** The text before the first field of a Conformance. */
  const ConformanceHead: string := "{\"resourceType\":\"Conformance\","
  /** The text up to the extension's url, without and with the value
      `elements`. */
  const CompanionHead: string := "{\"resourceType\":\"Conformance\",\"_acceptUnknown\":{\"extension\":[{\"url\":\""
  const ValueHead: string := "{\"resourceType\":\"Conformance\",\"acceptUnknown\":\"elements\",\"_acceptUnknown\":{\"extension\":[{\"url\":\""

  lemma ConformanceHeadPieces()
    ensures "{" + "\"" + "resourceType" + "\"" + ":" + "\"" + "Conformance" + "\"" + "," == ConformanceHead
  {
    assert "{" + "\"" == "{\"";
    assert "{\"" + "resourceType" == "{\"resourceType";
    assert "{\"resourceType" + "\"" == "{\"resourceType\"";
    assert "{\"resourceType\"" + ":" == "{\"resourceType\":";
    assert "{\"resourceType\":" + "\"" == "{\"resourceType\":\"";
    assert "{\"resourceType\":\"" + "Conformance" == "{\"resourceType\":\"Conformance";
    assert "{\"resourceType\":\"Conformance" + "\"" == "{\"resourceType\":\"Conformance\"";
    assert "{\"resourceType\":\"Conformance\"" + "," == "{\"resourceType\":\"Conformance\",";
  }

  lemma CompanionKeyPieces(h: string)
    requires h == ConformanceHead
    ensures h + "\"" + "_acceptUnknown" + "\"" + ":" + "{" + "\"" + "extension"
      == "{\"resourceType\":\"Conformance\",\"_acceptUnknown\":{\"extension"
  {
    assert h + "\"" == "{\"resourceType\":\"Conformance\",\"";
    assert h + "\"" + "_acceptUnknown" == "{\"resourceType\":\"Conformance\",\"_acceptUnknown";
    assert h + "\"" + "_acceptUnknown" + "\"" == "{\"resourceType\":\"Conformance\",\"_acceptUnknown\"";
    assert h + "\"" + "_acceptUnknown" + "\"" + ":" == "{\"resourceType\":\"Conformance\",\"_acceptUnknown\":";
    assert h + "\"" + "_acceptUnknown" + "\"" + ":" + "{" == "{\"resourceType\":\"Conformance\",\"_acceptUnknown\":{";
    assert h + "\"" + "_acceptUnknown" + "\"" + ":" + "{" + "\"" == "{\"resourceType\":\"Conformance\",\"_acceptUnknown\":{\"";
  }

  lemma CompanionUrlPieces(h: string)
    requires h == "{\"resourceType\":\"Conformance\",\"_acceptUnknown\":{\"extension"
    ensures h + "\"" + ":" + "[" + "{" + "\"" + "url" + "\"" + ":" + "\"" == CompanionHead
  {
    assert h + "\"" == "{\"resourceType\":\"Conformance\",\"_acceptUnknown\":{\"extension\"";
    assert h + "\"" + ":" == "{\"resourceType\":\"Conformance\",\"_acceptUnknown\":{\"extension\":";
    assert h + "\"" + ":" + "[" == "{\"resourceType\":\"Conformance\",\"_acceptUnknown\":{\"extension\":[";
    assert h + "\"" + ":" + "[" + "{" == "{\"resourceType\":\"Conformance\",\"_acceptUnknown\":{\"extension\":[{";
    assert h + "\"" + ":" + "[" + "{" + "\"" == "{\"resourceType\":\"Conformance\",\"_acceptUnknown\":{\"extension\":[{\"";
    assert h + "\"" + ":" + "[" + "{" + "\"" + "url" == "{\"resourceType\":\"Conformance\",\"_acceptUnknown\":{\"extension\":[{\"url";
    assert h + "\"" + ":" + "[" + "{" + "\"" + "url" + "\"" == "{\"resourceType\":\"Conformance\",\"_acceptUnknown\":{\"extension\":[{\"url\"";
    assert h + "\"" + ":" + "[" + "{" + "\"" + "url" + "\"" + ":" == "{\"resourceType\":\"Conformance\",\"_acceptUnknown\":{\"extension\":[{\"url\":";
  }

  lemma ValueMemberPieces(h: string)
    requires h == ConformanceHead
    ensures h + "\"" + "acceptUnknown" + "\"" + ":" + "\"" + "elements" + "\"" + ","
      == "{\"resourceType\":\"Conformance\",\"acceptUnknown\":\"elements\","
  {
    assert h + "\"" == "{\"resourceType\":\"Conformance\",\"";
    assert h + "\"" + "acceptUnknown" == "{\"resourceType\":\"Conformance\",\"acceptUnknown";
    assert h + "\"" + "acceptUnknown" + "\"" == "{\"resourceType\":\"Conformance\",\"acceptUnknown\"";
    assert h + "\"" + "acceptUnknown" + "\"" + ":" == "{\"resourceType\":\"Conformance\",\"acceptUnknown\":";
    assert h + "\"" + "acceptUnknown" + "\"" + ":" + "\"" == "{\"resourceType\":\"Conformance\",\"acceptUnknown\":\"";
    assert h + "\"" + "acceptUnknown" + "\"" + ":" + "\"" + "elements" == "{\"resourceType\":\"Conformance\",\"acceptUnknown\":\"elements";
    assert h + "\"" + "acceptUnknown" + "\"" + ":" + "\"" + "elements" + "\"" == "{\"resourceType\":\"Conformance\",\"acceptUnknown\":\"elements\"";
  }

  lemma ValueKeyPieces(h: string)
    requires h == "{\"resourceType\":\"Conformance\",\"acceptUnknown\":\"elements\","
    ensures h + "\"" + "_acceptUnknown" + "\"" + ":" + "{" + "\"" + "extension"
      == "{\"resourceType\":\"Conformance\",\"acceptUnknown\":\"elements\",\"_acceptUnknown\":{\"extension"
  {
    assert h + "\"" == "{\"resourceType\":\"Conformance\",\"acceptUnknown\":\"elements\",\"";
    assert h + "\"" + "_acceptUnknown" == "{\"resourceType\":\"Conformance\",\"acceptUnknown\":\"elements\",\"_acceptUnknown";
    assert h + "\"" + "_acceptUnknown" + "\"" == "{\"resourceType\":\"Conformance\",\"acceptUnknown\":\"elements\",\"_acceptUnknown\"";
    assert h + "\"" + "_acceptUnknown" + "\"" + ":" == "{\"resourceType\":\"Conformance\",\"acceptUnknown\":\"elements\",\"_acceptUnknown\":";
    assert h + "\"" + "_acceptUnknown" + "\"" + ":" + "{" == "{\"resourceType\":\"Conformance\",\"acceptUnknown\":\"elements\",\"_acceptUnknown\":{";
    assert h + "\"" + "_acceptUnknown" + "\"" + ":" + "{" + "\"" == "{\"resourceType\":\"Conformance\",\"acceptUnknown\":\"elements\",\"_acceptUnknown\":{\"";
  }

  lemma ValueUrlPieces(h: string)
    requires h == "{\"resourceType\":\"Conformance\",\"acceptUnknown\":\"elements\",\"_acceptUnknown\":{\"extension"
    ensures h + "\"" + ":" + "[" + "{" + "\"" + "url" + "\"" + ":" + "\"" == ValueHead
  {
    assert h + "\"" == "{\"resourceType\":\"Conformance\",\"acceptUnknown\":\"elements\",\"_acceptUnknown\":{\"extension\"";
    assert h + "\"" + ":" == "{\"resourceType\":\"Conformance\",\"acceptUnknown\":\"elements\",\"_acceptUnknown\":{\"extension\":";
    assert h + "\"" + ":" + "[" == "{\"resourceType\":\"Conformance\",\"acceptUnknown\":\"elements\",\"_acceptUnknown\":{\"extension\":[";
    assert h + "\"" + ":" + "[" + "{" == "{\"resourceType\":\"Conformance\",\"acceptUnknown\":\"elements\",\"_acceptUnknown\":{\"extension\":[{";
    assert h + "\"" + ":" + "[" + "{" + "\"" == "{\"resourceType\":\"Conformance\",\"acceptUnknown\":\"elements\",\"_acceptUnknown\":{\"extension\":[{\"";
    assert h + "\"" + ":" + "[" + "{" + "\"" + "url" == "{\"resourceType\":\"Conformance\",\"acceptUnknown\":\"elements\",\"_acceptUnknown\":{\"extension\":[{\"url";
    assert h + "\"" + ":" + "[" + "{" + "\"" + "url" + "\"" == "{\"resourceType\":\"Conformance\",\"acceptUnknown\":\"elements\",\"_acceptUnknown\":{\"extension\":[{\"url\"";
    assert h + "\"" + ":" + "[" + "{" + "\"" + "url" + "\"" + ":" == "{\"resourceType\":\"Conformance\",\"acceptUnknown\":\"elements\",\"_acceptUnknown\":{\"extension\":[{\"url\":";
  }

  /** The text from the extension's url on, with the url `http://foo` and
      the string value `AAA`, appended to a head `h`. */
  function FooTail(h: string): string {
    h + "http://foo" + "\"" + "," + "\"" + "valueString" + "\"" + ":" + "\"" + "AAA" + "\"" + "}" + "]" + "}" + "}"
  }

  lemma CompanionLiteral(h: string)
    requires h == CompanionHead
    ensures FooTail(h)
      == "{\"resourceType\":\"Conformance\",\"_acceptUnknown\":{\"extension\":[{\"url\":\"http://foo\",\"valueString\":\"AAA\"}]}}"
  {
    assert h + "http://foo" == "{\"resourceType\":\"Conformance\",\"_acceptUnknown\":{\"extension\":[{\"url\":\"http://foo";
    assert h + "http://foo" + "\"" + "," + "\"" + "valueString"
      == "{\"resourceType\":\"Conformance\",\"_acceptUnknown\":{\"extension\":[{\"url\":\"http://foo\",\"valueString";
    assert h + "http://foo" + "\"" + "," + "\"" + "valueString" + "\"" + ":" + "\"" + "AAA"
      == "{\"resourceType\":\"Conformance\",\"_acceptUnknown\":{\"extension\":[{\"url\":\"http://foo\",\"valueString\":\"AAA";
  }

  lemma ValueLiteral(h: string)
    requires h == ValueHead
    ensures FooTail(h)
      == "{\"resourceType\":\"Conformance\",\"acceptUnknown\":\"elements\",\"_acceptUnknown\":{\"extension\":[{\"url\":\"http://foo\",\"valueString\":\"AAA\"}]}}"
  {
    assert h + "http://foo" == "{\"resourceType\":\"Conformance\",\"acceptUnknown\":\"elements\",\"_acceptUnknown\":{\"extension\":[{\"url\":\"http://foo";
    assert h + "http://foo" + "\"" + "," + "\"" + "valueString"
      == "{\"resourceType\":\"Conformance\",\"acceptUnknown\":\"elements\",\"_acceptUnknown\":{\"extension\":[{\"url\":\"http://foo\",\"valueString";
    assert h + "http://foo" + "\"" + "," + "\"" + "valueString" + "\"" + ":" + "\"" + "AAA"
      == "{\"resourceType\":\"Conformance\",\"acceptUnknown\":\"elements\",\"_acceptUnknown\":{\"extension\":[{\"url\":\"http://foo\",\"valueString\":\"AAA";
  }

  // ---------------------------------------------------------------------
  // Regrouping the printer's output

  /** Two string members in an object. */
  lemma StringMembersRegroup(k0: string, v0: string, k1: string, v1: string)
    ensures "{" + (("\"" + k0 + "\"") + ":" + ("\"" + v0 + "\"")) + "," + (("\"" + k1 + "\"") + ":" + ("\"" + v1 + "\"")) + "}"
      == "{" + "\"" + k0 + "\"" + ":" + "\"" + v0 + "\"" + "," + "\"" + k1 + "\"" + ":" + "\"" + v1 + "\"" + "}"
  {
  }

  /** One member holding a one-item array. */
  lemma ArrayMemberRegroup(k: string, p: string)
    ensures "{" + (("\"" + k + "\"") + ":" + ("[" + p + "]")) + "}"
      == "{" + "\"" + k + "\"" + ":" + "[" + p + "]" + "}"
  {
  }

  /** A string member followed by a member holding `p`. */
  lemma StringThenRegroup(k0: string, v0: string, k1: string, p: string)
    ensures "{" + (("\"" + k0 + "\"") + ":" + ("\"" + v0 + "\"")) + "," + (("\"" + k1 + "\"") + ":" + p) + "}"
      == "{" + "\"" + k0 + "\"" + ":" + "\"" + v0 + "\"" + "," + "\"" + k1 + "\"" + ":" + p + "}"
  {
  }

  /** Two string members followed by a member holding `p`. */
  lemma TwoStringsThenRegroup(k0: string, v0: string, k1: string, v1: string, k2: string, p: string)
    ensures "{" + (("\"" + k0 + "\"") + ":" + ("\"" + v0 + "\"")) + "," + (("\"" + k1 + "\"") + ":" + ("\"" + v1 + "\"")) + "," + (("\"" + k2 + "\"") + ":" + p) + "}"
      == "{" + "\"" + k0 + "\"" + ":" + "\"" + v0 + "\"" + "," + "\"" + k1 + "\"" + ":" + "\"" + v1 + "\"" + "," + "\"" + k2 + "\"" + ":" + p + "}"
  {
  }

  /** Appending a concatenation is appending its parts one by one. */
  lemma Append(x: string, p: string, y: string)
    ensures x + (p + y) == x + p + y
  {
  }

  /** Appending seventeen parts at once or one by one. */
  lemma Splice17(x: string, y0: string, y1: string, y2: string, y3: string, y4: string, y5: string, y6: string, y7: string, y8: string, y9: string, y10: string, y11: string, y12: string, y13: string, y14: string, y15: string, y16: string)
    ensures x + (y0 + y1 + y2 + y3 + y4 + y5 + y6 + y7 + y8 + y9 + y10 + y11 + y12 + y13 + y14 + y15 + y16) == x + y0 + y1 + y2 + y3 + y4 + y5 + y6 + y7 + y8 + y9 + y10 + y11 + y12 + y13 + y14 + y15 + y16
  {
    Append(x, y0 + y1 + y2 + y3 + y4 + y5 + y6 + y7 + y8 + y9 + y10 + y11 + y12 + y13 + y14 + y15, y16);
    Append(x, y0 + y1 + y2 + y3 + y4 + y5 + y6 + y7 + y8 + y9 + y10 + y11 + y12 + y13 + y14, y15);
    Append(x, y0 + y1 + y2 + y3 + y4 + y5 + y6 + y7 + y8 + y9 + y10 + y11 + y12 + y13, y14);
    Append(x, y0 + y1 + y2 + y3 + y4 + y5 + y6 + y7 + y8 + y9 + y10 + y11 + y12, y13);
    Append(x, y0 + y1 + y2 + y3 + y4 + y5 + y6 + y7 + y8 + y9 + y10 + y11, y12);
    Append(x, y0 + y1 + y2 + y3 + y4 + y5 + y6 + y7 + y8 + y9 + y10, y11);
    Append(x, y0 + y1 + y2 + y3 + y4 + y5 + y6 + y7 + y8 + y9, y10);
    Append(x, y0 + y1 + y2 + y3 + y4 + y5 + y6 + y7 + y8, y9);
    Append(x, y0 + y1 + y2 + y3 + y4 + y5 + y6 + y7, y8);
    Append(x, y0 + y1 + y2 + y3 + y4 + y5 + y6, y7);
    Append(x, y0 + y1 + y2 + y3 + y4 + y5, y6);
    Append(x, y0 + y1 + y2 + y3 + y4, y5);
    Append(x, y0 + y1 + y2 + y3, y4);
    Append(x, y0 + y1 + y2, y3);
    Append(x, y0 + y1, y2);
    Append(x, y0, y1);
  }

  /** Appending twenty-five parts at once or one by one. */
  lemma Splice25(x: string, y0: string, y1: string, y2: string, y3: string, y4: string, y5: string, y6: string, y7: string, y8: string, y9: string, y10: string, y11: string, y12: string, y13: string, y14: string, y15: string, y16: string, y17: string, y18: string, y19: string, y20: string, y21: string, y22: string, y23: string, y24: string)
    ensures x + (y0 + y1 + y2 + y3 + y4 + y5 + y6 + y7 + y8 + y9 + y10 + y11 + y12 + y13 + y14 + y15 + y16 + y17 + y18 + y19 + y20 + y21 + y22 + y23 + y24) == x + y0 + y1 + y2 + y3 + y4 + y5 + y6 + y7 + y8 + y9 + y10 + y11 + y12 + y13 + y14 + y15 + y16 + y17 + y18 + y19 + y20 + y21 + y22 + y23 + y24
  {
    Append(x, y0 + y1 + y2 + y3 + y4 + y5 + y6 + y7 + y8 + y9 + y10 + y11 + y12 + y13 + y14 + y15 + y16 + y17 + y18 + y19 + y20 + y21 + y22 + y23, y24);
    Append(x, y0 + y1 + y2 + y3 + y4 + y5 + y6 + y7 + y8 + y9 + y10 + y11 + y12 + y13 + y14 + y15 + y16 + y17 + y18 + y19 + y20 + y21 + y22, y23);
    Append(x, y0 + y1 + y2 + y3 + y4 + y5 + y6 + y7 + y8 + y9 + y10 + y11 + y12 + y13 + y14 + y15 + y16 + y17 + y18 + y19 + y20 + y21, y22);
    Append(x, y0 + y1 + y2 + y3 + y4 + y5 + y6 + y7 + y8 + y9 + y10 + y11 + y12 + y13 + y14 + y15 + y16 + y17 + y18 + y19 + y20, y21);
    Append(x, y0 + y1 + y2 + y3 + y4 + y5 + y6 + y7 + y8 + y9 + y10 + y11 + y12 + y13 + y14 + y15 + y16 + y17 + y18 + y19, y20);
    Append(x, y0 + y1 + y2 + y3 + y4 + y5 + y6 + y7 + y8 + y9 + y10 + y11 + y12 + y13 + y14 + y15 + y16 + y17 + y18, y19);
    Append(x, y0 + y1 + y2 + y3 + y4 + y5 + y6 + y7 + y8 + y9 + y10 + y11 + y12 + y13 + y14 + y15 + y16 + y17, y18);
    Append(x, y0 + y1 + y2 + y3 + y4 + y5 + y6 + y7 + y8 + y9 + y10 + y11 + y12 + y13 + y14 + y15 + y16, y17);
    Append(x, y0 + y1 + y2 + y3 + y4 + y5 + y6 + y7 + y8 + y9 + y10 + y11 + y12 + y13 + y14 + y15, y16);
    Append(x, y0 + y1 + y2 + y3 + y4 + y5 + y6 + y7 + y8 + y9 + y10 + y11 + y12 + y13 + y14, y15);
    Append(x, y0 + y1 + y2 + y3 + y4 + y5 + y6 + y7 + y8 + y9 + y10 + y11 + y12 + y13, y14);
    Append(x, y0 + y1 + y2 + y3 + y4 + y5 + y6 + y7 + y8 + y9 + y10 + y11 + y12, y13);
    Append(x, y0 + y1 + y2 + y3 + y4 + y5 + y6 + y7 + y8 + y9 + y10 + y11, y12);
    Append(x, y0 + y1 + y2 + y3 + y4 + y5 + y6 + y7 + y8 + y9 + y10, y11);
    Append(x, y0 + y1 + y2 + y3 + y4 + y5 + y6 + y7 + y8 + y9, y10);
    Append(x, y0 + y1 + y2 + y3 + y4 + y5 + y6 + y7 + y8, y9);
    Append(x, y0 + y1 + y2 + y3 + y4 + y5 + y6 + y7, y8);
    Append(x, y0 + y1 + y2 + y3 + y4 + y5 + y6, y7);
    Append(x, y0 + y1 + y2 + y3 + y4 + y5, y6);
    Append(x, y0 + y1 + y2 + y3 + y4, y5);
    Append(x, y0 + y1 + y2 + y3, y4);
    Append(x, y0 + y1 + y2, y3);
    Append(x, y0 + y1, y2);
    Append(x, y0, y1);
  }

  /** The companion's text with the extension object's text inside. */
  lemma CompanionFlat(url: string, s: string)
    ensures "{" + "\"" + "extension" + "\"" + ":" + "[" + ("{" + "\"" + "url" + "\"" + ":" + "\"" + url + "\"" + "," + "\"" + "valueString" + "\"" + ":" + "\"" + s + "\"" + "}") + "]" + "}"
      == "{" + "\"" + "extension" + "\"" + ":" + "[" + "{" + "\"" + "url" + "\"" + ":" + "\"" + url + "\"" + "," + "\"" + "valueString" + "\"" + ":" + "\"" + s + "\"" + "}" + "]" + "}"
  {
    Splice17("{" + "\"" + "extension" + "\"" + ":" + "[", "{", "\"", "url", "\"", ":", "\"", url, "\"", ",", "\"", "valueString", "\"", ":", "\"", s, "\"", "}");
  }

  /** The document's text with the companion's text inside. */
  lemma CompanionDocFlat(url: string, s: string)
    ensures "{" + "\"" + "resourceType" + "\"" + ":" + "\"" + "Conformance" + "\"" + "," + "\"" + "_acceptUnknown" + "\"" + ":" + ("{" + "\"" + "extension" + "\"" + ":" + "[" + "{" + "\"" + "url" + "\"" + ":" + "\"" + url + "\"" + "," + "\"" + "valueString" + "\"" + ":" + "\"" + s + "\"" + "}" + "]" + "}") + "}"
      == "{" + "\"" + "resourceType" + "\"" + ":" + "\"" + "Conformance" + "\"" + "," + "\"" + "_acceptUnknown" + "\"" + ":" + "{" + "\"" + "extension" + "\"" + ":" + "[" + "{" + "\"" + "url" + "\"" + ":" + "\"" + url + "\"" + "," + "\"" + "valueString" + "\"" + ":" + "\"" + s + "\"" + "}" + "]" + "}" + "}"
  {
    Splice25("{" + "\"" + "resourceType" + "\"" + ":" + "\"" + "Conformance" + "\"" + "," + "\"" + "_acceptUnknown" + "\"" + ":", "{", "\"", "extension", "\"", ":", "[", "{", "\"", "url", "\"", ":", "\"", url, "\"", ",", "\"", "valueString", "\"", ":", "\"", s, "\"", "}", "]", "}");
  }

  /** The document's text with the companion's text inside. */
  lemma ValueDocFlat(url: string, s: string)
    ensures "{" + "\"" + "resourceType" + "\"" + ":" + "\"" + "Conformance" + "\"" + "," + "\"" + "acceptUnknown" + "\"" + ":" + "\"" + "elements" + "\"" + "," + "\"" + "_acceptUnknown" + "\"" + ":" + ("{" + "\"" + "extension" + "\"" + ":" + "[" + "{" + "\"" + "url" + "\"" + ":" + "\"" + url + "\"" + "," + "\"" + "valueString" + "\"" + ":" + "\"" + s + "\"" + "}" + "]" + "}") + "}"
      == "{" + "\"" + "resourceType" + "\"" + ":" + "\"" + "Conformance" + "\"" + "," + "\"" + "acceptUnknown" + "\"" + ":" + "\"" + "elements" + "\"" + "," + "\"" + "_acceptUnknown" + "\"" + ":" + "{" + "\"" + "extension" + "\"" + ":" + "[" + "{" + "\"" + "url" + "\"" + ":" + "\"" + url + "\"" + "," + "\"" + "valueString" + "\"" + ":" + "\"" + s + "\"" + "}" + "]" + "}" + "}"
  {
    Splice25("{" + "\"" + "resourceType" + "\"" + ":" + "\"" + "Conformance" + "\"" + "," + "\"" + "acceptUnknown" + "\"" + ":" + "\"" + "elements" + "\"" + "," + "\"" + "_acceptUnknown" + "\"" + ":", "{", "\"", "extension", "\"", ":", "[", "{", "\"", "url", "\"", ":", "\"", url, "\"", ",", "\"", "valueString", "\"", ":", "\"", s, "\"", "}", "]", "}");
  }

  /** Three items between braces, separated by commas. */
  lemma ThreeItemsRegroup(a: string, b: string, c: string)
    ensures "{" + (a + "," + (b + "," + c)) + "}" == "{" + a + "," + b + "," + c + "}"
  {
  }

  /** The pieces of the document without a value spell the literal. */
  lemma CompanionDocLiteral()
    ensures "{" + "\"" + "resourceType" + "\"" + ":" + "\"" + "Conformance" + "\"" + "," + "\"" + "_acceptUnknown" + "\"" + ":" + "{" + "\"" + "extension" + "\"" + ":" + "[" + "{" + "\"" + "url" + "\"" + ":" + "\"" + "http://foo" + "\"" + "," + "\"" + "valueString" + "\"" + ":" + "\"" + "AAA" + "\"" + "}" + "]" + "}" + "}"
      == "{\"resourceType\":\"Conformance\",\"_acceptUnknown\":{\"extension\":[{\"url\":\"http://foo\",\"valueString\":\"AAA\"}]}}"
  {
    ConformanceHeadPieces();
    CompanionKeyPieces(ConformanceHead);
    CompanionUrlPieces("{\"resourceType\":\"Conformance\",\"_acceptUnknown\":{\"extension");
    CompanionLiteral(CompanionHead);
  }

  /** The pieces of the document with the value `elements` spell the
      literal. */
  lemma ValueDocLiteral()
    ensures "{" + "\"" + "resourceType" + "\"" + ":" + "\"" + "Conformance" + "\"" + "," + "\"" + "acceptUnknown" + "\"" + ":" + "\"" + "elements" + "\"" + "," + "\"" + "_acceptUnknown" + "\"" + ":" + "{" + "\"" + "extension" + "\"" + ":" + "[" + "{" + "\"" + "url" + "\"" + ":" + "\"" + "http://foo" + "\"" + "," + "\"" + "valueString" + "\"" + ":" + "\"" + "AAA" + "\"" + "}" + "]" + "}" + "}"
      == "{\"resourceType\":\"Conformance\",\"acceptUnknown\":\"elements\",\"_acceptUnknown\":{\"extension\":[{\"url\":\"http://foo\",\"valueString\":\"AAA\"}]}}"
  {
    ConformanceHeadPieces();
    ValueMemberPieces(ConformanceHead);
    ValueKeyPieces("{\"resourceType\":\"Conformance\",\"acceptUnknown\":\"elements\",");
    ValueUrlPieces("{\"resourceType\":\"Conformance\",\"acceptUnknown\":\"elements\",\"_acceptUnknown\":{\"extension");
    ValueLiteral(ValueHead);
  }
}
