# InputLib in Dafny

A model of the C++ class `Input` (Input.cpp). An `Input` reads one line from
standard input and retries until it gets a line it can use. It trims spaces
and tabs from both ends of that line and stores the result. It then offers the
line as a string (`stringFormat`) or as an `unsigned int`
(`unsignedIntegerFormat`). The model has five modules:

- `Wrappers`: the `Option` type. It stands for `std::string::npos` results and
  for a construction that aborts.
- `Sanitize`: the escape-character check and the trim. The trim is built from
  models of `find_first_not_of(" \t")` and `find_last_not_of(" \t")`. Its
  lemmas say the trim is the slice between the first and the last non-blank
  character, is idempotent, and undoes any padding of spaces and tabs.
- `LineReader`: the retry loop of `setUserInput`. Standard input becomes a
  sequence of read events: `Line(s)`, `Fail` or `Eof`. `SetUserInput` is a
  `while` loop over that sequence. It is proved equal to the reference
  function `ReadLine`, and lemmas state what `ReadLine` returns.
- `UnsignedFormat`: the conversion. `Strtoul` models `strtoul` in base 10,
  with `ULONG_MAX` = 2^64-1 and the ERANGE flag. `Classify` is the reference
  meaning, stated with `UINT_MAX` = 2^32-1 and `ULONG_MAX`. It returns
  `Ok(n)`, `InvalidFormat` (`std::invalid_argument`) or `OutOfRange`
  (`std::out_of_range`).
- `InputObject`: the class `Input`, with its one field `userInput`
  (`_userInput`). It has the reading constructor, the copy constructor,
  `operator=` (as `Assign`) and the two accessors. `UnsignedIntegerFormat`
  keeps the source's index loop over the characters. It is proved equal to
  `Classify`.

Two behaviours of the code that the model keeps:

- `operator=` overwrites `_userInput` of an existing object in place, so the
  stored line can change after construction. `Assign` models this as a state
  change.
- `strtoul` reports ERANGE only beyond `unsigned long`. An input whose number
  lies between `UINT_MAX` and `ULONG_MAX` is therefore `OutOfRange`, and only
  larger numbers are `InvalidFormat`.

## Model

| member | source | states |
|---|---|---|
| `Sanitize.HasControlSignal` | Input.cpp:106 | a line is rejected exactly when some index of it holds the escape character 0x1B |
| `Sanitize.FindFirstNotBlank` | Input.cpp:112 | gives the first index holding neither a space nor a tab, with blanks only before it; gives `npos` exactly when the line is all blank |
| `Sanitize.FindLastNotBlank` | Input.cpp:113 | gives the last index holding neither a space nor a tab, with blanks only after it; gives `npos` exactly when the line is all blank |
| `Sanitize.Trim` | Input.cpp:111-116 | the result has no leading or trailing space or tab; it is "" exactly when the line is empty or all spaces and tabs; every character in it comes from the line |
| `Sanitize.TrimIsSlice` | Input.cpp:112-116 | when the line has a non-blank character, the result is exactly the slice from the first non-blank index to the last one, inclusive, with interior spaces and tabs kept |
| `Sanitize.TrimOfTrimmed` | Input.cpp:111-116 | a line with no blank at either end is returned unchanged |
| `Sanitize.TrimIdempotent` | Input.cpp:111-116 | trimming a trimmed line changes nothing |
| `Sanitize.TrimStripsPadding` | Input.cpp:111-116 | any spaces and tabs added around a trimmed line are removed, and nothing else |
| `Sanitize.TrimDecomposes` | Input.cpp:111-116 | every line is its trim with runs of spaces and tabs before and after it |
| `Sanitize.TrimExample` | Input.cpp:116 | `"  hello world  "` becomes `"hello world"`, with the interior space kept |
| `LineReader.FirstFinal` | Input.cpp:93-109 | finds the first event that is neither a read failure nor a line with an escape character; every event before it is one of those |
| `LineReader.ReadLine` | Input.cpp:83-117 | a line that the loop returns is trimmed and holds no escape character |
| `LineReader.SetUserInput` | Input.cpp:82-117 | the loop returns what `ReadLine` prescribes: the trim of the first line without an escape character, or `Interrupted` when end of file comes first or the stream ends |
| `LineReader.EofInterrupts` | Input.cpp:93-95 | an end of file reached after only retried events makes the read `Interrupted`, whatever comes after it |
| `LineReader.FirstAcceptedLine` | Input.cpp:105-116 | the first line without an escape character that comes after only retried events is returned, trimmed |
| `LineReader.FirstFinalAfterRetries` | Input.cpp:97-109 | retried events in front of a stream move the stopping point by their number and change nothing else |
| `LineReader.RetriesAreSkipped` | Input.cpp:97-109 | read failures and lines with an escape character in front of a stream do not change the outcome |
| `LineReader.ReturnedLineIsAccepted` | Input.cpp:105-116 | a returned value is the trim of a line of the stream that has no escape character |
| `LineReader.AllRetriedInterrupts` | Input.cpp:97-109 | a stream made only of failures and lines with an escape character ends `Interrupted` |
| `UnsignedFormat.SignLength` | Input.cpp:148 | the digit check starts at index 1 exactly when the input begins with '+', and at index 0 otherwise |
| `UnsignedFormat.IsDigit` | Input.cpp:149 | a character passes the digit test exactly when it is one of '0' to '9' |
| `UnsignedFormat.DecimalValue` | Input.cpp:155 | the base-10 value of a sequence of `k` digits is below `10^k` |
| `UnsignedFormat.ValueOfNumeral` | Input.cpp:153-155 | the base-10 value of the decimal numeral of `n` is `n` |
| `UnsignedFormat.ValueLeadingZero` | Input.cpp:153-155 | a leading '0' does not change the base-10 value |
| `UnsignedFormat.DigitRun` | Input.cpp:155 | gives the length of the leading run of digits: all of it digits, followed by a non-digit or the end |
| `UnsignedFormat.Strtoul` | Input.cpp:153-155 | `endptr` stays within the string; the value never exceeds `ULONG_MAX`; with ERANGE set, it is `ULONG_MAX` |
| `UnsignedFormat.StrtoulOnWellFormed` | Input.cpp:148-159 | after the digit check, `strtoul` consumes the whole input, so the `*endptr` test cannot fire; ERANGE is set exactly when the number exceeds `ULONG_MAX`; otherwise the value is the number |
| `UnsignedFormat.Classify` | Input.cpp:142-167 | the reference outcome agrees with `strtoul`: `InvalidFormat` exactly when the digit check fails or ERANGE is set; `OutOfRange` exactly when the check passes, there is no ERANGE and the value exceeds `UINT_MAX`; otherwise the value `strtoul` returns |
| `UnsignedFormat.ClassifyNumeral` | Input.cpp:142-167 | the decimal numeral of `n`, with or without a '+', gives `n` when `n <= UINT_MAX`, `OutOfRange` when `UINT_MAX < n <= ULONG_MAX`, and `InvalidFormat` beyond |
| `UnsignedFormat.ClassifyLeadingZero` | Input.cpp:148-166 | a '0' inserted after the optional leading '+' of a well-formed input (so `"5"` becomes `"05"` and `"+5"` becomes `"+05"`) does not change the outcome |
| `UnsignedFormat.ClassifyInvalidExamples` | Input.cpp:143-150 | `""`, `"+"`, `"-5"`, `"12a"` and `"++1"` are `InvalidFormat` |
| `UnsignedFormat.NumeralAppend` | Input.cpp:155 | appending a digit to the numeral of `n` gives the numeral of `10n` plus that digit |
| `UnsignedFormat.ClassifyNumberExamples` | Input.cpp:153-166 | `"42"` gives 42 and `"+7"` gives 7 |
| `UnsignedFormat.ClassifyOutOfRangeExample` | Input.cpp:162-163 | `"4294967296"`, one more than `UINT_MAX`, is `OutOfRange` |
| `InputObject.Input.Init` | Input.cpp:44 | the member initialiser accepts only a sanitised line, the kind the read loop returns; it stores that line, and the new object holds the class invariant |
| `InputObject.Input.Read` | Input.cpp:44 | construction yields an object exactly when the read loop returns a line; that object is new, holds that line, and its line is trimmed and free of escape characters; otherwise no object exists (`runtime_error`) |
| `InputObject.Input.Copy` | Input.cpp:50 | the copy holds the same line as the source and keeps its invariant |
| `InputObject.Input.Assign` | Input.cpp:57-61 | the target takes the source's line; the source keeps its own; self-assignment changes nothing; the target itself is returned |
| `InputObject.Input.StringFormat` | Input.cpp:129 | returns the stored line exactly; for an object made by reading, that line is trimmed and free of escape characters |
| `InputObject.Input.UnsignedIntegerFormat` | Input.cpp:142-167 | equals `Classify` of the stored line: `Ok(v)` exactly when it is well formed and `v <= UINT_MAX`, `OutOfRange` exactly when `UINT_MAX < v <= ULONG_MAX`, and `InvalidFormat` otherwise |
| `InputObject.CopyAgrees` | Input.cpp:50 | a copy is a different object whose two accessors give the same answers as the original's |

## Left out

- Prompting and diagnostics: the prompt on standard output and the messages on
  standard error (Input.cpp:86-88, 101, 107). They only print text, so the
  model has no prompt parameter.
- `std::getline` and the stream's flags. A read is one abstract event. A
  failed read followed by `clear()` and `ignore()` (Input.cpp:98-102) is one
  `Fail` event. The `ignore()` discards the rest of the line, and that
  discarded text never reaches the program.
- End of file on a final line without a line break. `getline` then sets
  eofbit after reading text, and the code throws (Input.cpp:94). This is
  modelled only as an explicit `Eof` event. A stream whose events run out is
  read as end of file.
- `strtoul` is modelled only on the inputs the digit check lets through,
  plus an optional '+'. Leading white space and a '-' sign are not modelled:
  the digit check rejects both before the call. `errno` is the `rangeError`
  flag of the result.
- `std::isdigit` is modelled as '0'..'9', which is the "C" locale. Other
  locales and negative `char` values are not modelled.
- Integer widths are fixed: `unsigned int` is 32 bits and `unsigned long` is
  64 bits (LP64). Where `unsigned long` is 32 bits, `OutOfRange` cannot occur.
- Exceptions are result values. `Input.Read` returns `None` for the
  `runtime_error`. `Parsed` holds `InvalidFormat` and `OutOfRange`.
- The destructor (Input.cpp:66) has no behaviour. Input.hpp holds only
  declarations.
