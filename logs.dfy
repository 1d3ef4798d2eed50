/** The decision logic of the log sinks in botleague_helpers/logs.py: the
    mapping of a loguru level to a Stackdriver severity, and the Slack
    sink's rule for which error messages are posted and how duplicates are
    counted. Times are whole seconds; the md5 digest of a message text is
    the function `digest`; whether Slack accepts a post is the input
    `delivered`. */
module Logs {
  import opened Py

  const VALID_STACK_DRIVER_LEVELS := ["DEFAULT", "DEBUG", "INFO", "NOTICE", "WARNING",
                                      "ERROR", "CRITICAL", "ALERT", "EMERGENCY"]

  /** The levels the Slack sink reacts to. */
  const ALERT_LEVELS := ["ERROR", "CRITICAL", "ALERT", "EMERGENCY"]

  /** A message is posted again only after this many seconds. */
  const RESEND_AFTER := 60 * 5

  /** The severity the Stackdriver sink logs a record of `level` with:
      loguru's own SUCCESS, TRACE and EXCEPTION are translated, a level
      Stackdriver knows is kept, anything else becomes INFO. */
  function Severity(level: string): (severity: string)
    ensures severity in VALID_STACK_DRIVER_LEVELS
    ensures level in VALID_STACK_DRIVER_LEVELS ==> severity == level
    ensures level == "SUCCESS" ==> severity == "NOTICE"
    ensures level == "TRACE" ==> severity == "DEBUG"
    ensures level == "EXCEPTION" ==> severity == "ERROR"
    ensures level !in VALID_STACK_DRIVER_LEVELS && level !in ["SUCCESS", "TRACE", "EXCEPTION"] ==> severity == "INFO"
  {
    if level == "SUCCESS" then "NOTICE"
    else if level == "TRACE" then "DEBUG"
    else if level == "EXCEPTION" then "ERROR"
    else if level in VALID_STACK_DRIVER_LEVELS then level
    else "INFO"
  }

  /** Mapping a severity again changes nothing. */
  lemma SeverityIdempotent(level: string)
    ensures Severity(Severity(level)) == Severity(level)
  {
  }

  /** `SlackMsgHash`: when the text was last posted (None until the first
      post completes) and how often it was logged. */
  datatype MsgHash = MsgHash(lastNotified: Option<int>, count: nat)

  /** One record reaching the Slack sink. */
  datatype Event = Event(level: string, text: string, now: int, delivered: bool)

  /** `send_message` for the digest `h`: reading `msg_hashes[h].count` for
      the text creates the entry (count 0) if there is none; a post Slack
      refuses raises right there, leaving that entry behind; a post that
      succeeds shows the count before this record and stamps the time. */
  function Send(hashes: map<string, MsgHash>, h: string, now: int, delivered: bool): (out: (Result<Option<nat>>, map<string, MsgHash>))
    ensures h in out.1 && out.1.Keys == hashes.Keys + {h}
    ensures forall g | g in hashes && g != h :: out.1[g] == hashes[g]
    ensures delivered ==> out.0 == Ok(Some(if h in hashes then hashes[h].count else 0))
                          && out.1[h] == MsgHash(Some(now), out.0.value.value + 1)
    ensures !delivered ==> out.0 == Err(ClientError) && out.1 == hashes[h := if h in hashes then hashes[h] else MsgHash(None, 0)]
  {
    var entry := if h in hashes then hashes[h] else MsgHash(None, 0);
    if delivered then (Ok(Some(entry.count)), hashes[h := MsgHash(Some(now), entry.count + 1)])
    else (Err(ClientError), hashes[h := entry])
  }

  /** What the Slack sink does with one record: its outcome (Some(count
      shown) when posted, None when not, an error when it raises) and the
      table of message digests afterwards. */
  function SinkStep(hashes: map<string, MsgHash>, digest: string -> string, e: Event): (out: (Result<Option<nat>>, map<string, MsgHash>))
  {
    if e.level !in ALERT_LEVELS then (Ok(None), hashes)
    else
      var h := digest(e.text);
      if h in hashes then
        match hashes[h].lastNotified
        case None => (Err(TypeError), hashes)
        case Some(last) =>
          if e.now - last > RESEND_AFTER then Send(hashes, h, e.now, e.delivered)
          else (Ok(None), hashes[h := MsgHash(Some(last), hashes[h].count + 1)])
      else Send(hashes, h, e.now, e.delivered)
  }

  /** The Slack sink (the closure over `msg_hashes` made by
      `add_slack_error_sink`). */
  class SlackSink {
    var hashes: map<string, MsgHash>
    const digest: string -> string

    constructor (digest: string -> string)
      ensures hashes == map[] && this.digest == digest
    {
      hashes := map[];
      this.digest := digest;
    }

    method Sink(level: string, text: string, now: int, delivered: bool) returns (r: Result<Option<nat>>)
      modifies this
      ensures (r, hashes) == SinkStep(old(hashes), digest, Event(level, text, now, delivered))
    {
      if level !in ALERT_LEVELS {
        return Ok(None);
      }
      var h := digest(text);
      var send := true;
      if h in hashes {
        match hashes[h].lastNotified {
          case None =>
            return Err(TypeError);
          case Some(last) =>
            send := now - last > RESEND_AFTER;
        }
      }
      if send {
        var entry := if h in hashes then hashes[h] else MsgHash(None, 0);
        hashes := hashes[h := entry];
        if !delivered {
          return Err(ClientError);
        }
        r := Ok(Some(entry.count));
        hashes := hashes[h := MsgHash(Some(now), entry.count)];
      } else {
        r := Ok(None);
      }
      hashes := hashes[h := hashes[h].(count := hashes[h].count + 1)];
      assert send ==> hashes == old(hashes)[h := MsgHash(Some(now), hashes[h].count)];
    }
  }

  // ---------------------------------------------------------------------------
  // Properties of one record
  // ---------------------------------------------------------------------------

  /** Records below ERROR are ignored: nothing is posted, nothing counted. */
  lemma IgnoredLevels(hashes: map<string, MsgHash>, digest: string -> string, e: Event)
    requires e.level !in ALERT_LEVELS
    ensures SinkStep(hashes, digest, e) == (Ok(None), hashes)
  {
  }

  /** The first record with a text is posted (showing count 0) when Slack
      accepts it, and its entry then says one record was logged. */
  lemma FirstOccurrencePosted(hashes: map<string, MsgHash>, digest: string -> string, e: Event)
    requires e.level in ALERT_LEVELS && digest(e.text) !in hashes && e.delivered
    ensures SinkStep(hashes, digest, e) == (Ok(Some(0)), hashes[digest(e.text) := MsgHash(Some(e.now), 1)])
  {
  }

  /** A text seen before is posted again exactly when more than five
      minutes have passed since it was last posted. */
  lemma RepeatPostedOnlyAfterFiveMinutes(hashes: map<string, MsgHash>, digest: string -> string, e: Event, last: int)
    requires e.level in ALERT_LEVELS && e.delivered
    requires digest(e.text) in hashes && hashes[digest(e.text)].lastNotified == Some(last)
    ensures SinkStep(hashes, digest, e).0.Ok?
    ensures SinkStep(hashes, digest, e).0.value.Some? <==> e.now - last > RESEND_AFTER
    ensures SinkStep(hashes, digest, e).1[digest(e.text)].lastNotified
         == Some(if e.now - last > RESEND_AFTER then e.now else last)
  {
  }

  // ---------------------------------------------------------------------------
  // Properties of a sequence of records
  // ---------------------------------------------------------------------------

  /** Every entry has been stamped by a completed post. */
  predicate Stamped(hashes: map<string, MsgHash>) {
    forall h | h in hashes :: hashes[h].lastNotified.Some?
  }

  /** The table after the records `events`, one after the other. */
  function SinkAll(hashes: map<string, MsgHash>, digest: string -> string, events: seq<Event>): map<string, MsgHash>
    decreases |events|
  {
    if events == [] then hashes
    else SinkAll(SinkStep(hashes, digest, events[0]).1, digest, events[1..])
  }

  /** How many of `events` are at an alert level and have a text with
      digest `h`. */
  function Occurrences(digest: string -> string, events: seq<Event>, h: string): nat
    decreases |events|
  {
    if events == [] then 0
    else (if events[0].level in ALERT_LEVELS && digest(events[0].text) == h then 1 else 0)
         + Occurrences(digest, events[1..], h)
  }

  function CountOf(hashes: map<string, MsgHash>, h: string): nat {
    if h in hashes then hashes[h].count else 0
  }

  /** While Slack accepts every post, each alert-level record adds exactly
      one to the count of its text, posted or not, and every entry stays
      stamped. */
  lemma {:induction false} CountsEveryRecord(hashes: map<string, MsgHash>, digest: string -> string, events: seq<Event>, h: string)
    requires Stamped(hashes)
    requires forall i | 0 <= i < |events| :: events[i].delivered
    ensures Stamped(SinkAll(hashes, digest, events))
    ensures CountOf(SinkAll(hashes, digest, events), h) == CountOf(hashes, h) + Occurrences(digest, events, h)
    decreases |events|
  {
    if events != [] {
      var next := SinkStep(hashes, digest, events[0]).1;
      assert Stamped(next) && CountOf(next, h) == CountOf(hashes, h) + Occurrences(digest, events[..1], h);
      CountsEveryRecord(next, digest, events[1..], h);
    }
  }

  /** An entry never stamped stays exactly as it is through any records:
      those with its text raise before they are counted, and the others
      leave it alone. */
  lemma {:induction false} UnstampedEntryPersists(hashes: map<string, MsgHash>, digest: string -> string, events: seq<Event>, h: string)
    requires h in hashes && hashes[h].lastNotified.None?
    ensures h in SinkAll(hashes, digest, events) && SinkAll(hashes, digest, events)[h] == hashes[h]
    decreases |events|
  {
    if events != [] {
      var next := SinkStep(hashes, digest, events[0]).1;
      assert h in next && next[h] == hashes[h];
      UnstampedEntryPersists(next, digest, events[1..], h);
    }
  }

  /** A post Slack refuses leaves an entry that was never stamped, and from
      then on, whatever records come in between, every record with that
      text makes the sink raise TypeError (subtracting None from the time)
      without being counted. */
  lemma RefusedPostPoisonsText(hashes: map<string, MsgHash>, digest: string -> string, e: Event,
                               between: seq<Event>, later: Event)
    requires e.level in ALERT_LEVELS && digest(e.text) !in hashes && !e.delivered
    requires later.level in ALERT_LEVELS && digest(later.text) == digest(e.text)
    ensures var after := SinkStep(hashes, digest, e).1;
            var mid := SinkAll(after, digest, between);
            SinkStep(hashes, digest, e).0 == Err(ClientError)
            && SinkStep(mid, digest, later) == (Err(TypeError), mid)
  {
    UnstampedEntryPersists(SinkStep(hashes, digest, e).1, digest, between, digest(e.text));
  }
}
