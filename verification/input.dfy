/**
 * The class `Input`: one sanitised line of user input, read once, copied by
 * value, and offered as a string or as an `unsigned int`.
 */
module InputObject {
  import opened Wrappers
  import opened Sanitize
  import opened LineReader
  import opened UnsignedFormat

  class Input {
    /** `_userInput`: the line as stored after sanitisation. */
    var userInput: string

    /** Every object made by reading holds a trimmed line without escape characters. */
    ghost predicate Valid()
      reads this
    {
      Sanitized(userInput)
    }

    /** The member initialiser `_userInput(...)` with the sanitised line the read loop returned. */
    constructor Init(line: string)
      requires Sanitized(line)
      ensures userInput == line && Valid()
    {
      userInput := line;
    }

    /**
     * `Input(prompt)`: runs the read loop on the stream's events; `None`
     * stands for the `runtime_error` thrown when the input is interrupted,
     * in which case no object exists.
     */
    static method Read(events: seq<Event>) returns (r: Option<Input>)
      ensures r.Some? <==> ReadLine(events).Value?
      ensures r.Some? ==> fresh(r.value) && r.value.Valid()
      ensures r.Some? ==> r.value.userInput == ReadLine(events).line
    {
      var outcome := SetUserInput(events);
      if outcome.Interrupted? {
        return None;
      }
      var obj := new Input.Init(outcome.line);
      return Some(obj);
    }

    /** The copy constructor: the new object holds the same line; the source is only read. */
    constructor Copy(source: Input)
      ensures userInput == source.userInput
      ensures source.Valid() ==> Valid()
    {
      userInput := source.userInput;
    }

    /**
     * `operator=`: the target takes the source's line, the source keeps its
     * own, self-assignment changes nothing, and the target is returned.
     */
    method Assign(source: Input) returns (self: Input)
      modifies this
      ensures self == this
      ensures userInput == old(source.userInput)
      ensures source.userInput == old(source.userInput)
      ensures source == this ==> userInput == old(userInput)
      ensures old(source.Valid()) ==> Valid()
    {
      if this != source {
        userInput := source.userInput;
      }
      self := this;
    }

    /** `stringFormat`: the stored line exactly, which is trimmed and free of escape characters. */
    function StringFormat(): (s: string)
      reads this
      ensures s == userInput
      ensures Valid() ==> IsTrimmed(s) && !HasControlSignal(s)
    {
      userInput
    }

    /**
     * `unsignedIntegerFormat`: the emptiness check, the digit check over
     * everything after an optional '+', the `strtoul` conversion with its
     * ERANGE and `*endptr` tests, and the `unsigned int` bound.
     */
    method UnsignedIntegerFormat() returns (r: Parsed)
      ensures r == Classify(userInput)
      ensures r.Ok? <==> WellFormed(userInput) && Number(userInput) <= UINT_MAX
      ensures r.Ok? ==> r.n as int == Number(userInput)
      ensures r == OutOfRange <==> WellFormed(userInput) && UINT_MAX < Number(userInput) <= ULONG_MAX
    {
      var s := userInput;
      if |s| == 0 || (|s| == 1 && s[0] == '+') {
        return InvalidFormat;
      }
      var first := if s[0] == '+' then 1 else 0;
      for i := first to |s|
        invariant forall j :: first <= j < i ==> IsDigit(s[j])
      {
        if !IsDigit(s[i]) {
          assert !IsDigit(Body(s)[i - first]);
          return InvalidFormat;
        }
      }
      assert Body(s) == s[first..];
      StrtoulOnWellFormed(s);
      var conversion := Strtoul(s);
      if conversion.rangeError || conversion.end != |s| {
        return InvalidFormat;
      }
      if conversion.value > UINT_MAX {
        return OutOfRange;
      }
      return Ok(conversion.value as uint32);
    }
  }

  /** A copy answers both accessors exactly as its original does. */
  method CopyAgrees(original: Input) returns (same: bool)
    ensures same
  {
    var copy := new Input.Copy(original);
    var a := original.UnsignedIntegerFormat();
    var b := copy.UnsignedIntegerFormat();
    same := copy.StringFormat() == original.StringFormat() && a == b && copy != original;
  }
}
