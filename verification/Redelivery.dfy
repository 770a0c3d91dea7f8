/**
 * One failed handling: the retry schedule, the retry copy and the dead letter; and what they add up to along
 * a whole redelivery chain.
 */
module Redelivery {
  import opened Common
  import opened Text
  import opened RetryHeaders

  // ---------------------------------------------------------------------------
  // Messages
  // ---------------------------------------------------------------------------

  datatype HeaderValue = Undefined | Single(text: string) | Multiple(texts: seq<string>)

  datatype Payload = Payload(key: Option<string>, value: Option<Bytes>, headers: map<string, HeaderValue>)

  /** What `handleMessage` reads from a payload. */
  datatype Content = Content(key: string, value: Bytes, headers: Headers)

  function HeaderText(v: HeaderValue): string
    requires !v.Undefined?
  {
    if v.Single? then v.text else if v.texts == [] then "" else v.texts[0]
  }

  function Bag(h: map<string, HeaderValue>): Headers {
    map name | name in h && !h[name].Undefined? :: HeaderText(h[name])
  }

  method DecodeHeaderBag(h: map<string, HeaderValue>) returns (out: Headers)
    ensures out == Bag(h)
  {
    out := map[];
    var left := h.Keys;
    while left != {}
      invariant left <= h.Keys
      invariant out == map name | name in h && name !in left && !h[name].Undefined? :: HeaderText(h[name])
      decreases |left|
    {
      var name :| name in left;
      left := left - {name};
      if !h[name].Undefined? {
        out := out[name := HeaderText(h[name])];
      }
    }
  }

  function Read(p: Payload): Content {
    Content(if p.key.Some? then p.key.value else "", if p.value.Some? then p.value.value else [], Bag(p.headers))
  }

  /**
   * What is read of a payload: the text of each defined header, of a list its first; an absent key or value is empty.
   */
  lemma ReadMeans(p: Payload)
    ensures var m := Read(p);
            && m.key == (if p.key.None? then "" else p.key.value)
            && m.value == (if p.value.None? then [] else p.value.value)
            && (forall name :: name in m.headers <==> name in p.headers && p.headers[name] != Undefined)
            && (forall name, text | name in p.headers && p.headers[name] == Single(text) :: m.headers[name] == text)
            && (forall name, texts | name in p.headers && p.headers[name] == Multiple(texts) ::
                  m.headers[name] == if |texts| > 0 then texts[0] else "")
  {
  }

  /** A publish puts text headers on the wire. */
  function Wire(m: Content): Payload {
    Payload(Some(m.key), Some(m.value), map name | name in m.headers :: Single(m.headers[name]))
  }

  /** What is published is what the next consumer reads. */
  lemma WireRoundTrip(m: Content)
    ensures Read(Wire(m)) == m
  {
    assert Bag(Wire(m).headers) == m.headers;
  }

  /** The same message apart from retry bookkeeping: key, bytes and every header that is not `x-retry-*`. */
  predicate SameMessage(a: Content, b: Content) {
    a.key == b.key && a.value == b.value && a.headers - RETRY_NAMES == b.headers - RETRY_NAMES
  }

  // ---------------------------------------------------------------------------
  // The schedule
  // ---------------------------------------------------------------------------

  datatype Settings = Settings(topic: string, group: string, delaysMs: seq<nat>)

  function MaxAttempts(c: Settings): nat { |c.delaysMs| }

  function DelayForAttempt(c: Settings, attempt: int): Result<nat, string> {
    if 0 <= attempt - 1 < |c.delaysMs| then Ok(c.delaysMs[attempt - 1]) else Err("RetrySchedule: attempt exceeds max")
  }

  function AttemptOf(number: string -> Numeral, m: Content): nat {
    var retry := DecodeRetry(number, m.headers);
    if retry.Some? then retry.value.attempt else 0
  }

  /** The clock and the schedule stay within exactly representable milliseconds. */
  predicate Exact(c: Settings, now: nat) {
    |c.delaysMs| <= MAX_SAFE && forall k | 0 <= k < |c.delaysMs| :: now + c.delaysMs[k] <= MAX_SAFE
  }

  // ---------------------------------------------------------------------------
  // One failure
  // ---------------------------------------------------------------------------

  datatype Letter = Letter(content: Content, attempts: nat)

  datatype Verdict = Again(copy: Content) | GiveUp(letter: Letter) | OutOfSchedule

  /** `scheduleRetryOrDeadLetter`: the decision, before anything is published. */
  function OnFailure(number: string -> Numeral, c: Settings, m: Content, now: nat): Verdict {
    var attempt := AttemptOf(number, m);
    if attempt + 1 > MaxAttempts(c) then GiveUp(Letter(m, attempt))
    else
      var delay := DelayForAttempt(c, attempt + 1);
      if delay.Err? then OutOfSchedule
      else Again(m.(headers := Republished(m.headers, attempt + 1, now + delay.value, c.topic, c.group)))
  }

  /**
   * Whatever headers a message carries, forged ones included, one failure either schedules attempt n + 1 at
   * exactly its delay from now, or dead-letters after the last; the schedule is never asked for more. The
   * copy and the letter are the same message.
   */
  lemma OneFailure(number: string -> Numeral, c: Settings, m: Content, now: nat)
    requires ReadsBack(number) && Exact(c, now)
    ensures var a, v := AttemptOf(number, m), OnFailure(number, c, m, now);
            if a >= MaxAttempts(c) then v == GiveUp(Letter(m, a))
            else && v.Again? && SameMessage(v.copy, m) && AttemptOf(number, v.copy) == a + 1
                 && DecodeRetry(number, v.copy.headers)
                      == Some(Retry(a + 1, (now + c.delaysMs[a]) as real, c.topic, c.group))
  {
    var a := AttemptOf(number, m);
    if a < MaxAttempts(c) { CopyTravels(number, c, m, a + 1, now + c.delaysMs[a]); }
  }

  lemma CopyTravels(number: string -> Numeral, c: Settings, m: Content, attempt: nat, dueAtMs: nat)
    requires ReadsBack(number) && 1 <= attempt <= MAX_SAFE && dueAtMs <= MAX_SAFE
    ensures var copy := m.(headers := Republished(m.headers, attempt, dueAtMs, c.topic, c.group));
            && SameMessage(copy, m) && AttemptOf(number, copy) == attempt
            && DecodeRetry(number, copy.headers) == Some(Retry(attempt, dueAtMs as real, c.topic, c.group))
  {
    RetryRoundTrip(number, m.headers, attempt, dueAtMs, c.topic, c.group);
    OtherHeadersTravel(m.headers, attempt, dueAtMs, c.topic, c.group);
  }

  // ---------------------------------------------------------------------------
  // A chain of failures
  // ---------------------------------------------------------------------------

  datatype Fate = Waiting(content: Content) | Dead(letter: Letter, failures: nat) | Stuck

  /** Where a message is after failing at each of these times, every copy travelling over the wire. */
  function FateAfter(number: string -> Numeral, c: Settings, m: Content, failures: seq<nat>): Fate {
    if failures == [] then Waiting(m)
    else
      var before := FateAfter(number, c, m, failures[..|failures| - 1]);
      if !before.Waiting? then before
      else
        var v := OnFailure(number, c, before.content, failures[|failures| - 1]);
        if v.Again? then Waiting(Read(Wire(v.copy))) else if v.GiveUp? then Dead(v.letter, |failures|) else Stuck
  }

  /** How many retries a message has left when it arrives. */
  function RetriesLeft(number: string -> Numeral, c: Settings, m: Content): nat {
    if AttemptOf(number, m) >= MaxAttempts(c) then 0 else MaxAttempts(c) - AttemptOf(number, m)
  }

  /**
   * The redelivery chain: attempts are numbered consecutively from where the message started, and exactly one
   * failure more than the retries it had left ends in a dead letter; key, bytes and other headers are the
   * original ones throughout.
   */
  lemma {:induction false} RetryChain(number: string -> Numeral, c: Settings, m: Content, failures: seq<nat>)
    requires ReadsBack(number) && forall now | now in failures :: Exact(c, now)
    ensures var a, n, fate := AttemptOf(number, m), RetriesLeft(number, c, m), FateAfter(number, c, m, failures);
            if |failures| <= n then
              && fate.Waiting? && AttemptOf(number, fate.content) == a + |failures|
              && SameMessage(fate.content, m)
            else
              && fate.Dead? && fate.failures == n + 1 && fate.letter.attempts == a + n
              && SameMessage(fate.letter.content, m)
  {
    if failures != [] {
      var last, earlier := failures[|failures| - 1], failures[..|failures| - 1];
      RetryChain(number, c, m, earlier);
      var before := FateAfter(number, c, m, earlier);
      if before.Waiting? {
        assert Exact(c, last);
        OneFailure(number, c, before.content, last);
        var v := OnFailure(number, c, before.content, last);
        if v.Again? { WireRoundTrip(v.copy); }
      }
    }
  }

  /**
   * A message without retry headers, under the default schedule of five delays, is dead-lettered by its sixth
   * failure.
   */
  lemma DefaultSchedule(number: string -> Numeral, topic: string, group: string, m: Content, failures: seq<nat>)
    requires ReadsBack(number) && DecodeRetry(number, m.headers).None?
    requires var c := Settings(topic, group, [5000, 30000, 120000, 600000, 3600000]);
             forall now | now in failures :: Exact(c, now)
    ensures var c := Settings(topic, group, [5000, 30000, 120000, 600000, 3600000]);
            FateAfter(number, c, m, failures).Dead? <==> |failures| >= 6
  {
    RetryChain(number, Settings(topic, group, [5000, 30000, 120000, 600000, 3600000]), m, failures);
  }

  // ---------------------------------------------------------------------------
  // The dead letter
  // ---------------------------------------------------------------------------

  datatype Report = Report(error: string, stack: string, failedAt: string)

  const DLQ_ATTEMPTS: string := "x-dlq-attempts"
  const DLQ_NAMES: set<string> :=
    {"x-dlq-original-topic", "x-dlq-consumer-group", DLQ_ATTEMPTS, "x-dlq-error", "x-dlq-stack", "x-dlq-failed-at"}

  function Clip(s: string): string { if |s| <= 4096 then s else s[..4096] }

  function Forensics(c: Settings, attempts: nat, r: Report): Headers {
    map["x-dlq-original-topic" := c.topic, "x-dlq-consumer-group" := c.group, DLQ_ATTEMPTS := Decimal(attempts),
        "x-dlq-error" := r.error, "x-dlq-stack" := Clip(r.stack), "x-dlq-failed-at" := r.failedAt]
  }

  function DlqCopy(c: Settings, l: Letter, r: Report): Content {
    l.content.(headers := l.content.headers + Traced(l.content.headers) + Forensics(c, l.attempts, r))
  }

  /**
   * The copy on the dead-letter topic keeps key, bytes and every header that is not `x-dlq-*`, and names its
   * attempts.
   */
  lemma DlqCopyIsFaithful(number: string -> Numeral, c: Settings, l: Letter, r: Report)
    requires ReadsBack(number) && l.attempts <= MAX_SAFE
    ensures var d := DlqCopy(c, l, r);
            && d.key == l.content.key && d.value == l.content.value
            && d.headers - DLQ_NAMES == l.content.headers - DLQ_NAMES
            && ReadNumber(number, d.headers, DLQ_ATTEMPTS) == Finite(l.attempts as real)
  {
    var h := l.content.headers;
    assert h + Traced(h) == h;
    assert Forensics(c, l.attempts, r).Keys == DLQ_NAMES;
    assert |DLQ_ATTEMPTS| == 14 && forall name | name in DLQ_NAMES && |name| == 14 :: name == DLQ_ATTEMPTS;
  }

  datatype Row = Row(messageId: string, topic: string, value: Bytes, headers: Headers, attempts: nat, error: string,
    failedAt: string)

  function RowFor(c: Settings, id: string, l: Letter, r: Report): Row {
    Row(id, c.topic, l.content.value, l.content.headers, l.attempts, r.error, r.failedAt)
  }

  /** The copy and the row say, under the agreed names, where the message came from, what happened and when. */
  lemma LetterTellsItsStory(c: Settings, id: string, l: Letter, r: Report)
    ensures var h := DlqCopy(c, l, r).headers;
            && {"x-dlq-original-topic", "x-dlq-consumer-group", "x-dlq-attempts", "x-dlq-error", "x-dlq-stack",
                 "x-dlq-failed-at"} <= h.Keys
            && h["x-dlq-original-topic"] == c.topic && h["x-dlq-consumer-group"] == c.group
            && h["x-dlq-attempts"] == Decimal(l.attempts) && h["x-dlq-error"] == r.error
            && h["x-dlq-failed-at"] == r.failedAt
            && h["x-dlq-stack"] <= r.stack && |h["x-dlq-stack"]| == if |r.stack| < 4096 then |r.stack| else 4096
    ensures var row, d := RowFor(c, id, l, r), DlqCopy(c, l, r);
            && row.messageId == id && row.topic == d.headers["x-dlq-original-topic"] && row.value == d.value
            && row.headers == l.content.headers && row.error == d.headers["x-dlq-error"]
            && row.failedAt == d.headers["x-dlq-failed-at"] && Decimal(row.attempts) == d.headers["x-dlq-attempts"]
  {
    assert |"x-dlq-original-topic"| == 20 && |"x-dlq-consumer-group"| == 20 && |"x-dlq-attempts"| == 14;
    assert |"x-dlq-error"| == 11 && |"x-dlq-stack"| == 11 && |"x-dlq-failed-at"| == 15;
    assert "x-dlq-original-topic"[6] == 'o' && "x-dlq-consumer-group"[6] == 'c';
    assert "x-dlq-error"[6] == 'e' && "x-dlq-stack"[6] == 's';
  }

  class DeadLetterPublisher {
    const settings: Settings
    var topicDlq: seq<Content>
    var rows: seq<Row>

    constructor (settings: Settings)
      ensures this.settings == settings && topicDlq == [] && rows == []
    {
      this.settings := settings;
      topicDlq, rows := [], [];
    }

    /** The topic first, then the row; a failure of the first leaves no row. */
    method Publish(id: string, l: Letter, r: Report, sent: Reply, added: Reply) returns (ok: bool)
      modifies this
      ensures ok <==> sent.Done? && added.Done?
      ensures topicDlq == old(topicDlq) + if sent.Refused? then [] else [DlqCopy(settings, l, r)]
      ensures rows == old(rows) + if !sent.Done? || added.Refused? then [] else [RowFor(settings, id, l, r)]
    {
      var trace := TraceHeaders(l.content.headers);
      if !sent.Refused? {
        topicDlq := topicDlq + [l.content.(headers := l.content.headers + trace + Forensics(settings, l.attempts, r))];
      }
      if !sent.Done? {
        return false;
      }
      ok := Record(id, l, r, added);
    }

    /** The row alone, for the transport that has no topics. */
    method Record(id: string, l: Letter, r: Report, added: Reply) returns (ok: bool)
      modifies this`rows
      ensures ok <==> added.Done?
      ensures rows == old(rows) + if added.Refused? then [] else [RowFor(settings, id, l, r)]
    {
      if !added.Refused? {
        rows := rows + [RowFor(settings, id, l, r)];
      }
      return added.Done?;
    }
  }
}
