/**
 * Redelivery bookkeeping: the `x-retry-*` header codec, trace passthrough, the retry schedule, and what
 * one failed handling does with a message. The main result follows a message through any number of failures.
 */
module RetryHeaders {
  import opened Common
  import opened Text

  type Headers = map<string, string>
  type Bytes = seq<bv8>

  // ---------------------------------------------------------------------------
  // Numbers in headers
  // ---------------------------------------------------------------------------

  datatype Numeral = Finite(value: real) | NotFinite

  /** The largest integer a number holds exactly. */
  const MAX_SAFE: nat := 0x1F_FFFF_FFFF_FFFF

  /**
   * How a spelling is read as a number. Any reading is allowed, however it treats signs, exponents, blanks or
   * nonsense, as long as it reads back the decimal form of a safe natural number.
   */
  ghost predicate ReadsBack(number: string -> Numeral) {
    forall n: nat | n <= MAX_SAFE :: number(Decimal(n)) == Finite(n as real)
  }

  /** The plainest reading: digits, and nothing else. */
  function ReadDigits(s: string): Numeral {
    if s != "" && forall i | 0 <= i < |s| :: IsDigit(s[i]) then Finite(DigitsValue(s) as real) else NotFinite
  }

  lemma DigitsReadBack()
    ensures ReadsBack(ReadDigits)
  {
    forall n: nat | n <= MAX_SAFE ensures ReadDigits(Decimal(n)) == Finite(n as real) {
      DecimalRoundTrip(n);
    }
  }

  // ---------------------------------------------------------------------------
  // The codec
  // ---------------------------------------------------------------------------

  const ATTEMPT: string := "x-retry-attempt"
  const DUE_AT: string := "x-retry-due-at"
  const ORIGINAL_TOPIC: string := "x-retry-original-topic"
  const CONSUMER_GROUP: string := "x-retry-consumer-group"
  const RETRY_NAMES: set<string> := {ATTEMPT, DUE_AT, ORIGINAL_TOPIC, CONSUMER_GROUP}
  const TRACE_NAMES: seq<string> := ["traceparent", "tracestate", "baggage"]

  lemma NamesDiffer()
    ensures ATTEMPT != DUE_AT && ATTEMPT != ORIGINAL_TOPIC && ATTEMPT != CONSUMER_GROUP
    ensures DUE_AT != ORIGINAL_TOPIC && DUE_AT != CONSUMER_GROUP && ORIGINAL_TOPIC != CONSUMER_GROUP
  {
    assert |ATTEMPT| == 15 && |DUE_AT| == 14 && |ORIGINAL_TOPIC| == |CONSUMER_GROUP| == 22;
    assert ORIGINAL_TOPIC[8] == 'o' && CONSUMER_GROUP[8] == 'c';
  }

  datatype Retry = Retry(attempt: nat, dueAtMs: real, originalTopic: string, consumerGroup: string)

  function EncodeRetry(attempt: nat, dueAtMs: nat, topic: string, group: string): Headers {
    map[ATTEMPT := Decimal(attempt), DUE_AT := Decimal(dueAtMs), ORIGINAL_TOPIC := topic, CONSUMER_GROUP := group]
  }

  /** A missing header reads as not-a-number. */
  function ReadNumber(number: string -> Numeral, h: Headers, name: string): Numeral {
    if name in h then number(h[name]) else NotFinite
  }

  predicate IsInteger(n: Numeral) { n.Finite? && n.value.Floor as real == n.value }

  function DecodeRetry(number: string -> Numeral, h: Headers): Option<Retry> {
    var attempt, dueAt := ReadNumber(number, h, ATTEMPT), ReadNumber(number, h, DUE_AT);
    if !IsInteger(attempt) || attempt.value < 1.0 then None
    else if dueAt.NotFinite? then None
    else if ORIGINAL_TOPIC !in h || CONSUMER_GROUP !in h then None
    else Some(Retry(attempt.value.Floor, dueAt.value, h[ORIGINAL_TOPIC], h[CONSUMER_GROUP]))
  }

  /** The headers a retry copy travels with. */
  function Republished(h: Headers, attempt: nat, dueAtMs: nat, topic: string, group: string): Headers {
    h + Traced(h) + EncodeRetry(attempt, dueAtMs, topic, group)
  }

  /** The trace headers that are present. */
  function Traced(h: Headers): Headers { map name | name in TRACE_NAMES && name in h :: h[name] }

  lemma TracedMeans(h: Headers)
    ensures forall name :: name in Traced(h) <==> name in {"traceparent", "tracestate", "baggage"} && name in h
    ensures forall name | name in Traced(h) :: Traced(h)[name] == h[name]
  {
  }

  method TraceHeaders(h: Headers) returns (out: Headers)
    ensures out == Traced(h)
  {
    out := map[];
    for i := 0 to |TRACE_NAMES|
      invariant out == map name | name in TRACE_NAMES[..i] && name in h :: h[name]
    {
      var name := TRACE_NAMES[i];
      assert TRACE_NAMES[..i + 1] == TRACE_NAMES[..i] + [name];
      if name in h {
        out := out[name := h[name]];
      }
    }
    assert TRACE_NAMES[..|TRACE_NAMES|] == TRACE_NAMES;
  }

  /** Reading a republished bag gives back what was written, whatever retry headers it carried before. */
  lemma RetryRoundTrip(number: string -> Numeral, h: Headers, attempt: nat, dueAtMs: nat, topic: string, group: string)
    requires ReadsBack(number) && 1 <= attempt <= MAX_SAFE && dueAtMs <= MAX_SAFE
    ensures DecodeRetry(number, Republished(h, attempt, dueAtMs, topic, group))
            == Some(Retry(attempt, dueAtMs as real, topic, group))
  {
    NamesDiffer();
    var r, e := Republished(h, attempt, dueAtMs, topic, group), EncodeRetry(attempt, dueAtMs, topic, group);
    assert e[ATTEMPT] == Decimal(attempt) && e[DUE_AT] == Decimal(dueAtMs) && e[ORIGINAL_TOPIC] == topic
      && e[CONSUMER_GROUP] == group;
    assert forall name | name in e :: r[name] == e[name];
    assert (attempt as real).Floor == attempt;
  }

  /** Every other header, the trace headers included, travels unchanged. */
  lemma OtherHeadersTravel(h: Headers, attempt: nat, dueAtMs: nat, topic: string, group: string)
    ensures Republished(h, attempt, dueAtMs, topic, group) - RETRY_NAMES == h - RETRY_NAMES
    ensures forall name | name in TRACE_NAMES && name in h ::
      name in Republished(h, attempt, dueAtMs, topic, group)
        && Republished(h, attempt, dueAtMs, topic, group)[name] == h[name]
  {
    var r := Republished(h, attempt, dueAtMs, topic, group);
    assert h + Traced(h) == h;
    assert EncodeRetry(attempt, dueAtMs, topic, group).Keys == RETRY_NAMES;
    forall name | name in TRACE_NAMES ensures name !in RETRY_NAMES {
      assert name[0] != 'x';
    }
  }

  /**
   * Reading, in the wire's own terms: the attempt must be a whole number from one up, the due time a number, and
   * topic and group must be there.
   */
  lemma DecodeMeans(number: string -> Numeral, h: Headers, attempt: nat, dueAtMs: real, topic: string, group: string)
    ensures DecodeRetry(number, h) == Some(Retry(attempt, dueAtMs, topic, group)) <==>
              && {"x-retry-attempt", "x-retry-due-at", "x-retry-original-topic", "x-retry-consumer-group"} <= h.Keys
              && number(h["x-retry-attempt"]) == Finite(attempt as real) && attempt >= 1
              && number(h["x-retry-due-at"]) == Finite(dueAtMs)
              && h["x-retry-original-topic"] == topic && h["x-retry-consumer-group"] == group
  {
    assert (attempt as real).Floor == attempt;
  }
}
