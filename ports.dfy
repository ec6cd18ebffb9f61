/**
 * The port-specification parser of the scanner (`parse_ports` in main.py):
 * a string such as "22" or "20-443" becomes the contiguous run of TCP port
 * numbers it names, or one of the errors the parser raises.
 */
module Ports {
  import opened Wrappers
  import opened PyText

  const MinPort: int := 1
  const MaxPort: int := 65535

  predicate InBounds(p: int) {
    MinPort <= p <= MaxPort
  }

  /** Python's `range(start, stop)` with step 1. */
  datatype PortRange = PortRange(start: int, stop: int) {

    /** The integers the range yields, in iteration order: each one more than the last. */
    function Ports(): (ps: seq<int>)
      ensures forall i :: 0 < i < |ps| ==> ps[i] == ps[i - 1] + 1
      ensures |ps| > 0 ==> ps[0] == start && ps[|ps| - 1] == stop - 1
    {
      if start < stop then seq(stop - start, i requires 0 <= i < stop - start => start + i) else []
    }

    /** `len(range(start, stop))`: the number of integers the range yields. */
    function Len(): (n: nat)
      ensures n == |Ports()|
    {
      if start < stop then stop - start else 0
    }

    /** A non-empty range of valid TCP ports. */
    predicate Valid() {
      start < stop && InBounds(start) && InBounds(stop - 1)
    }
  }

  /**
   * The `ValueError`s the parser lets escape. `InvalidRange`,
   * `RangeOutOfBounds` and `InvalidPortNumber` are raised by the parser with
   * the whole argument in the message; `NotAnInteger` is raised by `int`
   * and names the literal it could not convert.
   */
  datatype ParseError =
    | InvalidRange(arg: string)
    | RangeOutOfBounds(arg: string)
    | InvalidPortNumber(arg: string)
    | NotAnInteger(literal: string)

  /**
   * With a '-' the argument must split into exactly two parts; each is
   * converted (first, then second); both must be ports; the first must not
   * exceed the second. Without one it is a single port.
   */
  function ParsePorts(arg: string): (r: Result<PortRange, ParseError>)
    ensures r.Ok? ==> r.value.Valid()
  {
    if '-' in arg then ParseRange(arg, Split(arg, '-')) else ParseSingle(arg)
  }

  /** The range branch, given the parts of `arg` around each '-'. */
  function ParseRange(arg: string, parts: seq<string>): Result<PortRange, ParseError> {
    if |parts| != 2 then Err(InvalidRange(arg))
    else match IntOf(parts[0])
      case None => Err(NotAnInteger(parts[0]))
      case Some(portMin) =>
        match IntOf(parts[1])
        case None => Err(NotAnInteger(parts[1]))
        case Some(portMax) =>
          if !(InBounds(portMin) && InBounds(portMax)) then Err(RangeOutOfBounds(arg))
          else if portMin > portMax then Err(InvalidRange(arg))
          else Ok(PortRange(portMin, portMax + 1))
  }

  /** The single-port branch. */
  function ParseSingle(arg: string): Result<PortRange, ParseError> {
    match IntOf(arg)
    case None => Err(NotAnInteger(arg))
    case Some(port) =>
      if !InBounds(port) then Err(InvalidPortNumber(arg))
      else Ok(PortRange(port, port + 1))
  }

  /** The text a user writes for a range: "p" for one port, "a-b" otherwise. */
  function Format(r: PortRange): string
    requires r.Valid()
  {
    if r.Len() == 1 then Str(r.start) else Str(r.start) + "-" + Str(r.stop - 1)
  }

  lemma DigitsHaveNoDash(s: string)
    requires AllDigits(s)
    ensures '-' !in s
  {
  }

  /** "x-y" with no '-' in x or y splits into exactly x and y. */
  lemma SplitPair(x: string, y: string)
    requires '-' !in x && '-' !in y
    ensures '-' in x + "-" + y
    ensures Split(x + "-" + y, '-') == [x, y]
  {
    SplitAtFirst(x, '-', y);
    SplitNoSeparator(y, '-');
    assert x + "-" + y == x + ['-'] + y;
    assert (x + "-" + y)[|x|] == '-';
  }

  /** Every accepted argument yields a non-empty run of consecutive valid ports. */
  lemma ParsedPortsAreContiguous(arg: string)
    requires ParsePorts(arg).Ok?
    ensures var ps := ParsePorts(arg).value.Ports();
      && |ps| >= 1
      && (forall i :: 0 <= i < |ps| ==> InBounds(ps[i]))
      && (forall i :: 0 <= i < |ps| - 1 ==> ps[i + 1] == ps[i] + 1)
  {
  }

  /** `x in range(start, stop)` holds exactly for the integers from start up to, not including, stop. */
  lemma RangeMembership(r: PortRange, x: int)
    ensures x in r.Ports() <==> r.start <= x < r.stop
  {
    if r.start <= x < r.stop {
      assert r.Ports()[x - r.start] == x;
    }
  }

  /** A single numeral is the one-port range when it is a port, the port-number error otherwise. */
  lemma SinglePortText(p: nat)
    ensures ParsePorts(Str(p)) ==
      if InBounds(p) then Ok(PortRange(p, p + 1)) else Err(InvalidPortNumber(Str(p)))
    ensures InBounds(p) ==> ParsePorts(Str(p)).value.Ports() == [p]
  {
    DigitsHaveNoDash(Str(p));
    IntOfStr(p);
  }

  /**
   * "a-b" for numerals a and b: the bounds are checked before the order, so a
   * bound outside [1, 65535] is reported as out of bounds even when a > b.
   */
  lemma RangeText(a: nat, b: nat)
    ensures var arg := Str(a) + "-" + Str(b);
      ParsePorts(arg) ==
        if !(InBounds(a) && InBounds(b)) then Err(RangeOutOfBounds(arg))
        else if a > b then Err(InvalidRange(arg))
        else Ok(PortRange(a, b + 1))
  {
    DigitsHaveNoDash(Str(a));
    DigitsHaveNoDash(Str(b));
    SplitPair(Str(a), Str(b));
    IntOfStr(a);
    IntOfStr(b);
  }

  /** A well-ordered range "a-b" of ports yields exactly a, a+1, ..., b. */
  lemma RangeTextPorts(a: nat, b: nat)
    requires InBounds(a) && InBounds(b) && a <= b
    ensures ParsePorts(Str(a) + "-" + Str(b)).Ok?
    ensures var ps := ParsePorts(Str(a) + "-" + Str(b)).value.Ports();
      && |ps| == b - a + 1
      && (forall i :: 0 <= i < |ps| ==> ps[i] == a + i)
  {
    RangeText(a, b);
  }

  /** More than one '-' is an invalid range, whatever the parts hold: no conversion is tried. */
  lemma TooManyDashes(arg: string)
    requires Count(arg, '-') >= 2
    ensures ParsePorts(arg) == Err(InvalidRange(arg))
  {
    assert '-' in multiset(arg);
  }

  /** A leading '-' takes the range path and fails converting the empty first part. */
  lemma LeadingDash(y: string)
    requires '-' !in y
    ensures ParsePorts("-" + y) == Err(NotAnInteger(""))
  {
    SplitAtFirst("", '-', y);
    SplitNoSeparator(y, '-');
    assert "-" + y == "" + ['-'] + y;
    assert ("-" + y)[0] == '-';
  }

  /**
   * Both parts are converted before any bound is checked, the first part
   * before the second: the first literal `int` rejects is the one reported.
   */
  lemma ConversionOrder(x: string, y: string)
    requires '-' !in x && '-' !in y
    ensures IntOf(x).None? ==> ParsePorts(x + "-" + y) == Err(NotAnInteger(x))
    ensures IntOf(x).Some? && IntOf(y).None? ==> ParsePorts(x + "-" + y) == Err(NotAnInteger(y))
  {
    SplitPair(x, y);
  }

  /** Parsing the user-facing text of a valid range gives the range back. */
  lemma FormatRoundTrip(r: PortRange)
    requires r.Valid()
    ensures ParsePorts(Format(r)) == Ok(r)
  {
    if r.Len() == 1 {
      assert Format(r) == Str(r.start) && r == PortRange(r.start, r.start + 1);
      SinglePortText(r.start);
    } else {
      assert Format(r) == Str(r.start) + "-" + Str(r.stop - 1);
      assert r == PortRange(r.start, (r.stop - 1) + 1) && r.start < r.stop - 1;
      RangeText(r.start, r.stop - 1);
    }
  }

  /** Conversely, an accepted argument without '-' is a numeral of its one port. */
  lemma AcceptedSingleForm(arg: string)
    requires ParsePorts(arg).Ok? && '-' !in arg
    ensures var r := ParsePorts(arg).value;
      IntOf(arg) == Some(r.start) && r.Len() == 1
  {
    SingleBranchAccepted(arg);
  }

  /**
   * Conversely, an accepted argument with a '-' is two numerals, of its
   * first and last port, joined by that single '-'.
   */
  lemma AcceptedRangeForm(arg: string)
    requires ParsePorts(arg).Ok? && '-' in arg
    ensures var r := ParsePorts(arg).value; var parts := Split(arg, '-');
      && |parts| == 2
      && arg == parts[0] + "-" + parts[1]
      && IntOf(parts[0]) == Some(r.start)
      && IntOf(parts[1]) == Some(r.stop - 1)
  {
    var parts := Split(arg, '-');
    RangeBranchAccepted(arg, parts);
    JoinSplit(arg, '-');
    JoinTwo(parts, '-');
  }

  lemma RangeBranchAccepted(arg: string, parts: seq<string>)
    requires ParseRange(arg, parts).Ok?
    ensures var r := ParseRange(arg, parts).value;
      |parts| == 2 && IntOf(parts[0]) == Some(r.start) && IntOf(parts[1]) == Some(r.stop - 1)
  {
  }

  lemma SingleBranchAccepted(arg: string)
    requires ParseSingle(arg).Ok?
    ensures IntOf(arg) == Some(ParseSingle(arg).value.start) && ParseSingle(arg).value.Len() == 1
  {
  }

  lemma JoinTwo(parts: seq<string>, sep: char)
    requires |parts| == 2
    ensures Join(parts, sep) == parts[0] + [sep] + parts[1]
  {
    assert Join(parts[1..], sep) == parts[1];
  }

  // Worked examples: the argument's documented forms, the default "1-65535",
  // and one rejected argument of each kind.

  lemma ExampleSinglePort()
    ensures ParsePorts("22") == Ok(PortRange(22, 23))
  {
    assert Str(22) == "22";
    SinglePortText(22);
  }

  lemma ExampleRange()
    ensures ParsePorts("20-443") == Ok(PortRange(20, 444))
  {
    assert Str(20) + "-" + Str(443) == "20-443";
    RangeText(20, 443);
  }

  lemma ExampleDefaultArgument()
    ensures ParsePorts("1-65535") == Ok(PortRange(1, 65536))
    ensures ParsePorts("1-65535").value.Len() == 65535
  {
    assert Str(1) + "-" + Str(65535) == "1-65535";
    RangeText(1, 65535);
  }

  lemma ExamplePortZero()
    ensures ParsePorts("0") == Err(InvalidPortNumber("0"))
  {
    assert Str(0) == "0";
    SinglePortText(0);
  }

  lemma ExamplePortTooLarge()
    ensures ParsePorts("65536") == Err(InvalidPortNumber("65536"))
  {
    assert Str(65536) == "65536";
    SinglePortText(65536);
  }

  lemma ExampleReversedRange()
    ensures ParsePorts("10-5") == Err(InvalidRange("10-5"))
  {
    assert Str(10) + "-" + Str(5) == "10-5";
    RangeText(10, 5);
  }

  lemma ExampleReversedOutOfBounds()
    ensures ParsePorts("70000-5") == Err(RangeOutOfBounds("70000-5"))
  {
    assert Str(70000) + "-" + Str(5) == "70000-5";
    RangeText(70000, 5);
  }

  lemma ExampleThreeParts()
    ensures ParsePorts("a-b-c") == Err(InvalidRange("a-b-c"))
  {
    assert Count("a-b-c", '-') == 2;
    TooManyDashes("a-b-c");
  }

  lemma ExampleLeadingDash()
    ensures ParsePorts("-5") == Err(NotAnInteger(""))
  {
    assert "-5" == "-" + "5";
    LeadingDash("5");
  }

  lemma ExampleFirstLiteralReported()
    ensures ParsePorts("a-b") == Err(NotAnInteger("a"))
  {
    assert "a-b" == "a" + "-" + "b";
    assert !IsDigit('a');
    ConversionOrder("a", "b");
  }
}
