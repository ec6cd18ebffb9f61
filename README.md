# pyscan port-range parser and scan bookkeeping, in Dafny

pyscan is a small TCP port scanner (`main.py`). This project models its two
pieces of logic:

- **`parse_ports`**: the user's port argument ("22", "20-443", default
  "1-65535") becomes a Python `range` of ports, or a `ValueError`. It is
  modelled as the pure function `Ports.ParsePorts`. The result is a
  `PortRange(start, stop)` standing for `range(start, stop)`. The errors
  are the datatype `ParseError`:
  - `InvalidRange`: "Invalid port range", raised both for a wrong number of
    parts and for a reversed range;
  - `RangeOutOfBounds`: "Port range out of bounds";
  - `InvalidPortNumber`: "Invalid port number";
  - `NotAnInteger`: the `ValueError` raised by `int` itself, naming the
    literal it rejected.

  The checks run in the code's order: part count, conversion of the first
  part and then the second, bounds, order.
- **`process_scan` bookkeeping**: one future is submitted per port in port
  order. The futures are then consumed in completion order, and each one
  advances the progress bar by one before `future.result()` re-raises a
  worker exception. The closing line uses the range wording exactly when
  the range holds more than one port. This is modelled by the method
  `Scan.ProcessScan`, which runs sequentially. It is specified by the
  functions `FirstRaise`, `Advances`, `Outcome` and `ChooseSummary`. The
  completion order (`as_completed`) and each task's fate are inputs.

The Python built-ins the parser uses are modelled in `PyText`:
`str.split` with a one-character separator, `int()` on decimal literals,
and `str()` of an integer.

Three behaviours of `main.py` worth noting, all kept by the model:
- one "Invalid port range" message covers both a wrong part count and a
  reversed range (main.py:80, 88);
- an out-of-range single port gets its own "Invalid port number" message
  (main.py:95);
- `future.result()` (main.py:145) re-raises a worker's exception, which ends
  the completion loop and escapes `process_scan` (`Aborted`).

## Model

| member | source | states |
|---|---|---|
| `Ports.ParsePorts` | main.py:76-96 | every accepted argument gives a non-empty range whose first and last ports lie in [1, 65535] |
| `Ports.ParsedPortsAreContiguous` | main.py:84-96 | the ports of any accepted argument are non-empty, all in [1, 65535], and each is the previous plus one |
| `Ports.SinglePortText` | main.py:92-96 | the numeral of p parses to the one-port range [p] when 1 <= p <= 65535, and to the invalid-port-number error otherwise (0, 65536, ...) |
| `Ports.RangeText` | main.py:77-90 | "a-b" for numerals a, b: out-of-bounds error if either bound is outside [1, 65535], even when a > b; else invalid-range error if a > b; else range(a, b+1) |
| `Ports.RangeTextPorts` | main.py:82-90 | for 1 <= a <= b <= 65535, "a-b" yields exactly a, a+1, ..., b, that is b - a + 1 ports |
| `Ports.TooManyDashes` | main.py:77-80 | an argument with two or more '-' is an invalid range whatever its parts contain, so no conversion error can be reported for it |
| `Ports.LeadingDash` | main.py:77-82 | "-y" takes the range path and fails converting the empty first part |
| `Ports.ConversionOrder` | main.py:82 | both parts are converted before any bound is checked, the first part first: the first literal `int` rejects is the one reported |
| `Ports.FormatRoundTrip` | main.py:76-96 | parsing the written form ("p" or "a-b") of any valid range gives that range back |
| `Ports.AcceptedSingleForm` | main.py:92-96 | every accepted argument without '-' is a numeral of its one port |
| `Ports.AcceptedRangeForm` | main.py:77-90 | every accepted argument with '-' is two numerals, of its first and last port, joined by a single '-' |
| `Ports.PortRange.Ports` | main.py:137 | iterating `range(start, stop)` yields consecutive integers, from start to stop - 1 when non-empty |
| `Ports.PortRange.Len` | main.py:131 | `len(range(start, stop))` is the number of integers iteration yields |
| `Ports.RangeMembership` | main.py:90 | an integer is among a range's ports exactly when start <= x < stop |
| `Ports.ExampleSinglePort` | main.py:92-96 | "22" gives range(22, 23) |
| `Ports.ExampleRange` | main.py:77-90 | "20-443" gives range(20, 444) |
| `Ports.ExampleDefaultArgument` | main.py:26-29 | the default "1-65535" gives all 65535 ports |
| `Ports.ExamplePortZero` | main.py:94-95 | "0" is an invalid port number |
| `Ports.ExamplePortTooLarge` | main.py:94-95 | "65536" is an invalid port number |
| `Ports.ExampleReversedRange` | main.py:87-88 | "10-5" is an invalid range |
| `Ports.ExampleReversedOutOfBounds` | main.py:84-88 | "70000-5" is out of bounds, not an invalid range: bounds come first |
| `Ports.ExampleThreeParts` | main.py:77-80 | "a-b-c" is an invalid range, not a conversion error |
| `Ports.ExampleLeadingDash` | main.py:77-82 | "-5" fails converting the empty literal |
| `Ports.ExampleFirstLiteralReported` | main.py:82 | "a-b" reports the literal "a" |
| `PyText.Split` | main.py:78 | `str.split` gives one more part than there are separators, and no part contains the separator |
| `PyText.JoinSplit` | main.py:78 | joining the parts with the separator gives the string back |
| `PyText.SplitJoin` | main.py:78 | splitting a join of separator-free parts gives the parts back |
| `PyText.IntOf` | main.py:82 | `int()` accepts exactly the non-empty digit strings; a k-digit literal's value is below 10^k, and at least 10^(k-1) when it has no leading zero |
| `PyText.DigitsValue` | main.py:93 | the positional value of a digit string lies below 10^k, and at least 10^(k-1) unless zero-padded |
| `PyText.IntStr` | main.py:149 | `str()` of an integer is non-empty and starts with '-' exactly when the integer is negative |
| `PyText.Str` | main.py:149 | `str(n)` is a non-empty string of digits, with no leading zero unless n is 0 |
| `PyText.IntOfStr` | main.py:93 | `int(str(n)) == n` |
| `PyText.StrOfIntOf` | main.py:93 | a numeral without leading zeros is `str` of its `int` value, so `int` is one-to-one on such numerals |
| `Scan.ProcessScan` | main.py:118-152 | the submitted ports are the range's ports in order; the bar's label is the range's progress label and its total is their number; advances and outcome are those of `Advances` and `Outcome`; the scan finishes iff no task raises, and then the bar is advanced exactly once per submitted port |
| `Scan.ProgressTask.constructor` | main.py:131 | the progress task starts with the range's label, total `len(ports)` and nothing completed |
| `Scan.ProgressTask.Advance` | main.py:144 | advancing adds to the completed count and changes nothing else |
| `Scan.FirstRaise` | main.py:141-145 | the position of the first consumed future whose result raises: every earlier one returned, and the one at it raised |
| `Scan.CompletionOrderIsPermutation` | main.py:141 | a completion order yields each of the n futures, none twice |
| `Scan.CompletionCountsEachFutureOnce` | main.py:141-145 | without exceptions the bar advances once per future; with one, it advances up to and including the first raising future, and every earlier one returned |
| `Scan.ChooseSummary` | main.py:148-152 | the range wording is chosen exactly when there is more than one port, naming the first and last port; otherwise the line names `start`, which is the only port of a one-port range |
| `Scan.ParsedRangeSummary` | main.py:148-152 | after parsing "a-b", the range wording names a and b when a < b; "a-a" gets the single-port wording |
| `Scan.ParsedPortSummary` | main.py:148-152 | after parsing "p", the closing line names port p |

## Left out

- Command-line parsing, the `wait` option and the exit codes (main.py:15-69) are not modelled. They are CLI plumbing.
- DNS resolution (`socket.gethostbyname`, main.py:40) is not modelled. It is a network call.
- `scan_port` (main.py:97-107) is not modelled: a socket connect with a floating-point timeout, whose only effect is a printed line. Each task's fate is an input instead (`TaskOutcome`).
- Thread-pool concurrency is not modelled: the pool size of 10, scheduling, and the executor's shutdown waiting for outstanding futures after an exception. Completion order is an input permutation, and the completion loop runs sequentially.
- Rendering is not modelled: `display_banner` with its wall-clock date (main.py:108-117) and the `rich` progress bar's drawing. The bar's label, total and count are modelled. `print` is replaced by returning the summary as data (`Summary.Text` gives its wording).
- `KeyboardInterrupt` handling (main.py:62-64) is not modelled. It is a signal.
- `PyText.IntOf`: does not model the other literals Python's `int()` accepts: surrounding whitespace, a leading sign, `_` digit separators and non-ASCII digits. Only non-empty ASCII decimal digit strings convert.
- `PyText.IntOf`: does not model the limit on literal length that recent Python versions impose (a `ValueError` above 4300 digits, `sys.get_int_max_str_digits()`; 3.11 and later and the 2022 security releases of 3.7-3.10). The model converts a digit string of any length, so for example `"0" * 4300 + "22"` parses to port 22 here but is a conversion error under that limit. The limit depends on the interpreter version and its configuration.
- `Scan.Summary.Text` and `Scan.ProgressLabel` (main.py:131, 149, 152) are the printed wording only. They are text data with no contract; what the lines name is stated by `ChooseSummary`.
- The text of a `ValueError` raised by `int` is not modelled, only the literal it names.
