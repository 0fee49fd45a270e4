/**
 * The retry loop of `Input::setUserInput`, with the standard input stream
 * replaced by the sequence of outcomes its successive reads produce.
 */
module LineReader {
  import opened Sanitize

  /** What one `std::getline` on standard input yields. */
  datatype Event =
    | Line(text: string)  // a line was read; the line break is already dropped
    | Fail                // the stream's failbit was set: cleared, rest of the line discarded
    | Eof                 // the stream reports end of file (Ctrl+D)

  /** The result of the loop: a sanitised line, or the `runtime_error` for an interrupted input. */
  datatype ReadOutcome = Value(line: string) | Interrupted

  /** An event after which the loop starts over: a read failure, or a line holding an escape character. */
  predicate Retried(e: Event) {
    e.Fail? || (e.Line? && HasControlSignal(e.text))
  }

  /** The position of the event that ends the loop, `|events|` when every event is retried. */
  function FirstFinal(events: seq<Event>): (k: nat)
    ensures k <= |events|
    ensures forall j :: 0 <= j < k ==> Retried(events[j])
    ensures k < |events| ==> !Retried(events[k])
  {
    if events == [] then 0
    else if Retried(events[0]) then 1 + FirstFinal(events[1..])
    else 0
  }

  /**
   * What the loop returns on a stream that produces `events`: the trim of the
   * first line it does not retry, or `Interrupted` when end of file comes
   * first. A stream whose events run out reports end of file.
   */
  function ReadLine(events: seq<Event>): (r: ReadOutcome)
    ensures r.Value? ==> Sanitized(r.line)
  {
    var k := FirstFinal(events);
    if k < |events| && events[k].Line? then Value(Trim(events[k].text)) else Interrupted
  }

  /** The loop itself: one event per iteration, retrying on failures and escape characters. */
  method SetUserInput(events: seq<Event>) returns (r: ReadOutcome)
    ensures r == ReadLine(events)
  {
    var i := 0;
    while i < |events|
      invariant i <= |events|
      invariant forall j :: 0 <= j < i ==> Retried(events[j])
    {
      match events[i]
      case Eof =>
        return Interrupted;
      case Fail =>
        i := i + 1;
      case Line(input) =>
        if HasControlSignal(input) {
          i := i + 1;
        } else {
          return Value(Trim(input));
        }
    }
    return Interrupted;
  }

  /** An end of file before any acceptable line interrupts the read, whatever follows it. */
  lemma EofInterrupts(events: seq<Event>, k: nat)
    requires k < |events| && events[k] == Eof
    requires forall j :: 0 <= j < k ==> Retried(events[j])
    ensures ReadLine(events) == Interrupted
  {
  }

  /** The first line without an escape character, after any number of retries, is the one returned, trimmed. */
  lemma FirstAcceptedLine(events: seq<Event>, k: nat)
    requires k < |events| && events[k].Line? && !HasControlSignal(events[k].text)
    requires forall j :: 0 <= j < k ==> Retried(events[j])
    ensures ReadLine(events) == Value(Trim(events[k].text))
  {
  }

  /** Retried events leave no trace: the loop then behaves as on the rest of the stream. */
  lemma {:induction false} RetriesAreSkipped(retried: seq<Event>, rest: seq<Event>)
    requires forall j :: 0 <= j < |retried| ==> Retried(retried[j])
    ensures ReadLine(retried + rest) == ReadLine(rest)
  {
    FirstFinalAfterRetries(retried, rest);
    var k := FirstFinal(rest);
    if k < |rest| {
      assert (retried + rest)[|retried| + k] == rest[k];
    }
  }

  lemma {:induction false} FirstFinalAfterRetries(retried: seq<Event>, rest: seq<Event>)
    requires forall j :: 0 <= j < |retried| ==> Retried(retried[j])
    ensures FirstFinal(retried + rest) == |retried| + FirstFinal(rest)
  {
    if retried != [] {
      FirstFinalAfterRetries(retried[1..], rest);
      assert (retried + rest)[0] == retried[0];
      assert (retried + rest)[1..] == retried[1..] + rest;
    } else {
      assert retried + rest == rest;
    }
  }

  /** A line holding an escape character is never what the loop returns. */
  lemma ReturnedLineIsAccepted(events: seq<Event>)
    requires ReadLine(events).Value?
    ensures exists k :: 0 <= k < |events| && events[k].Line? && !HasControlSignal(events[k].text) &&
                        ReadLine(events).line == Trim(events[k].text)
  {
  }

  /** A stream of which every read fails or holds an escape character ends interrupted. */
  lemma AllRetriedInterrupts(events: seq<Event>)
    requires forall j :: 0 <= j < |events| ==> Retried(events[j])
    ensures ReadLine(events) == Interrupted
  {
  }
}
