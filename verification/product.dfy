/** The product configuration (main.py, `ProductConfig`) and the body of the
    availability request built from it (`AirUpChecker._get_request_body`). */
module Product {
  import opened Text

  /** main.py `ProductConfig`. */
  datatype ProductConfig = ProductConfig(
    url: string,
    cartId: string,
    bottleHandle: string,
    flavorHandle: string,
    country: string,
    language: string)

  /** The literal text before each spliced value, and after the last one. */
  const BodyLabels: seq<string> := [
    "[{\"cartId\":\"", "\",\"bottleHandle\":\"", "\",\"flavorHandle\":\"",
    "\",\"country\":\"", "\",\"language\":\""]
  const BodyEnd: string := "\"}]"

  /** The five values, in the order the body lists them. The URL is not part of the body. */
  function BodyValues(config: ProductConfig): seq<string> {
    [config.cartId, config.bottleHandle, config.flavorHandle, config.country, config.language]
  }

  /** Each label followed by its value, as is, then `end`. */
  function Spliced(labels: seq<string>, values: seq<string>, end: string): string
    requires |labels| == |values|
    decreases |labels|
  {
    if labels == [] then end
    else labels[0] + values[0] + Spliced(labels[1..], values[1..], end)
  }

  /** `_get_request_body`: the values are spliced in without any JSON escaping. */
  function RequestBody(config: ProductConfig): string {
    Spliced(BodyLabels, BodyValues(config), BodyEnd)
  }

  /** The body is the source's f-string. */
  lemma RequestBodyText(config: ProductConfig)
    ensures RequestBody(config)
            == "[{\"cartId\":\"" + config.cartId
               + "\",\"bottleHandle\":\"" + config.bottleHandle
               + "\",\"flavorHandle\":\"" + config.flavorHandle
               + "\",\"country\":\"" + config.country
               + "\",\"language\":\"" + config.language + "\"}]"
  {
  }

  predicate NotQuote(c: char) {
    c != '"'
  }

  predicate QuoteFree(s: string) {
    forall i :: 0 <= i < |s| ==> NotQuote(s[i])
  }

  /** Reads the values back from text laid out by `Spliced`, taking each value to
      end at the next double quote. */
  function ReadSpliced(labels: seq<string>, end: string, text: string): Option<seq<string>>
    decreases |labels|
  {
    if labels == [] then
      if text == end then Some([]) else None
    else
      match StripPrefix(text, labels[0])
      case None => None
      case Some(r) =>
        var (value, rest) := Span(r, NotQuote);
        match ReadSpliced(labels[1..], end, rest)
        case None => None
        case Some(values) => Some([value] + values)
  }

  /** Every label after the first, and the end, starts with a double quote. */
  predicate Quoting(labels: seq<string>, end: string) {
    && (forall k :: 1 <= k < |labels| ==> |labels[k]| > 0 && labels[k][0] == '"')
    && |end| > 0 && end[0] == '"'
  }

  /** Spliced text whose first label starts with a quote starts with a quote. */
  lemma SplicedHead(labels: seq<string>, values: seq<string>, end: string)
    requires |labels| == |values| && |end| > 0 && end[0] == '"'
    requires labels != [] ==> |labels[0]| > 0 && labels[0][0] == '"'
    ensures var t := Spliced(labels, values, end); |t| > 0 && t[0] == '"'
  {
    if labels != [] {
      assert Spliced(labels, values, end)[0] == labels[0][0];
    }
  }

  /** One label and its value are read off the front. */
  lemma ReadSplicedStep(labels: seq<string>, end: string, value: string, rest: string)
    requires labels != [] && QuoteFree(value)
    requires |rest| > 0 && rest[0] == '"'
    ensures ReadSpliced(labels, end, labels[0] + value + rest)
            == match ReadSpliced(labels[1..], end, rest)
               case None => None
               case Some(values) => Some([value] + values)
  {
    var text := labels[0] + value + rest;
    assert text == labels[0] + (value + rest);
    assert StripPrefix(text, labels[0]) == Some(value + rest);
    SpanOf(value, rest, NotQuote);
  }

  lemma QuotingTail(labels: seq<string>, end: string)
    requires labels != [] && Quoting(labels, end)
    ensures Quoting(labels[1..], end)
  {
    forall k | 1 <= k < |labels[1..]|
      ensures |labels[1..][k]| > 0 && labels[1..][k][0] == '"'
    {
      assert labels[1..][k] == labels[k + 1];
    }
  }

  lemma QuoteFreeTail(values: seq<string>)
    requires values != [] && forall k :: 0 <= k < |values| ==> QuoteFree(values[k])
    ensures forall k :: 0 <= k < |values[1..]| ==> QuoteFree(values[1..][k])
  {
    forall k | 0 <= k < |values[1..]|
      ensures QuoteFree(values[1..][k])
    {
      assert values[1..][k] == values[k + 1];
    }
  }

  lemma {:induction false} ReadSplicedRoundTrip(labels: seq<string>, values: seq<string>, end: string)
    requires |labels| == |values| && Quoting(labels, end)
    requires forall k :: 0 <= k < |values| ==> QuoteFree(values[k])
    ensures ReadSpliced(labels, end, Spliced(labels, values, end)) == Some(values)
    decreases |labels|
  {
    if labels != [] {
      var rest := Spliced(labels[1..], values[1..], end);
      SplicedHead(labels[1..], values[1..], end);
      ReadSplicedStep(labels, end, values[0], rest);
      QuotingTail(labels, end);
      QuoteFreeTail(values);
      ReadSplicedRoundTrip(labels[1..], values[1..], end);
      assert [values[0]] + values[1..] == values;
    }
  }

  /** Reading a body back: the five values. */
  function ParseBody(body: string): Option<seq<string>> {
    ReadSpliced(BodyLabels, BodyEnd, body)
  }

  /** When no value contains a double quote, the body determines the five values. */
  lemma RequestBodyRoundTrip(config: ProductConfig)
    requires forall k :: 0 <= k < 5 ==> QuoteFree(BodyValues(config)[k])
    ensures ParseBody(RequestBody(config)) == Some(BodyValues(config))
  {
    assert Quoting(BodyLabels, BodyEnd);
    ReadSplicedRoundTrip(BodyLabels, BodyValues(config), BodyEnd);
  }

  /** Moving the text of the second label from the end of the first value to the
      start of the second leaves the spliced text as it was. */
  lemma SplicedShift(labels: seq<string>, u: seq<string>, v: seq<string>, end: string)
    requires |labels| == |u| == |v| >= 2
    requires u[0] == labels[1] && u[1] == [] && v[0] == [] && v[1] == labels[1]
    requires u[2..] == v[2..]
    ensures Spliced(labels, u, end) == Spliced(labels, v, end)
  {
    var tail := Spliced(labels[2..], u[2..], end);
    assert labels[1..][1..] == labels[2..] && u[1..][1..] == u[2..] && v[1..][1..] == v[2..];
    assert Spliced(labels, u, end) == labels[0] + labels[1] + (labels[1] + [] + tail);
    assert Spliced(labels, v, end) == labels[0] + [] + (labels[1] + labels[1] + tail);
  }

  /** Because nothing is escaped, a value that contains a quote can pose as the
      next field: two configurations that differ in their cart id post the same body. */
  lemma RequestBodyNotEscaped()
    ensures exists a: ProductConfig, b: ProductConfig ::
              a.cartId != b.cartId && RequestBody(a) == RequestBody(b)
  {
    var sep := BodyLabels[1];
    assert |sep| > 0;
    var a := ProductConfig("", sep, "", "", "", "");
    var b := ProductConfig("", "", sep, "", "", "");
    SplicedShift(BodyLabels, BodyValues(a), BodyValues(b), BodyEnd);
    assert RequestBody(a) == RequestBody(b);
  }
}
