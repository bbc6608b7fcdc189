/**
 * `DiscoveryEngine`: the event-bus handler that takes a discovery request,
 * expands its target, sweeps it with `fping`, checks the port on the first live
 * address and hands that address, the port and the credentials to the worker
 * process. Everything the handler learns from the operating system or the
 * network is an oracle in `Env`; the model states which reply each answer of
 * the oracles produces.
 */
module DiscoveryEngine {
  import opened Wrappers
  import opened JavaText
  import opened Json

  const DISCOVERY_ADDRESS := "discovery"
  const REQUEST_TYPE := "Discovery"

  /** The limits the handler asks of the processes and the connect; time itself is left to the oracles. */
  const FPING_TIMEOUT_SECONDS := 30
  const PORT_SCAN_TIMEOUT_MS := 2000
  const PROCESS_TIMEOUT_SECONDS := 60

  /**
   * What running a child process gives the handler: `start()` threw (with the
   * exception's message), or the process ran, its merged output was read to
   * the end, and `waitFor` either saw it exit (with its exit value) or timed out.
   * A run always has a finite output: the source reads to end of file before
   * `waitFor` starts its deadline, so a child that keeps its output open
   * blocks the handler, and such a run has no value here.
   */
  datatype Run = NotStarted(message: Option<string>) | Ran(output: string, exited: bool, exitCode: int)

  /**
   * The oracles: the `fping` run for a command line, whether a TCP connect to
   * (ip, port) succeeds, the worker run for a payload, the library's JSON text
   * of nested values, and the message the JVM gives an exception of each kind.
   */
  datatype Env = Env(
    ping: seq<string> -> Run,
    portOpen: (string, int) -> bool,
    worker: Object -> Run,
    nestedText: Json -> string,
    jvmMessage: JvmError -> Option<string>)

  /** Why a request fails; each failure is answered with its message. */
  datatype Failure =
    | InvalidRequestType
    | NoContexts
    | MissingFields
    | InvalidIpOrRange
    | NoActiveIps
    | FpingTimedOut
    | PortClosed(port: int, ip: string)
    | WorkerTimedOut
    | WorkerFailed(exitCode: int)
    | Thrown(message: Option<string>)  // an exception caught by the handler, with `getMessage()`

  /** `err.getMessage()` of the failed future. */
  function Message(f: Failure): Option<string> {
    match f
    case InvalidRequestType => Some("Invalid request type")
    case NoContexts => Some("No discovery contexts provided")
    case MissingFields => Some("Missing required fields")
    case InvalidIpOrRange => Some("Invalid IP or range")
    case NoActiveIps => Some("No active IPs found")
    case FpingTimedOut => Some("fping timed out")
    case PortClosed(port, ip) => Some("Port " + IntToDecimal(port) + " is not open on IP: " + ip)
    case WorkerTimedOut => Some("Go process timed out")
    case WorkerFailed(code) => Some("Go process failed with exit code: " + IntToDecimal(code))
    case Thrown(m) => m
  }

  // ---------------------------------------------------------------------------
  // The request checks
  // ---------------------------------------------------------------------------

  /** What the handler takes from the first context: the target text, the port and the credentials. */
  datatype Target = Target(ipInput: string, port: int, credentials: seq<Json>)

  /**
   * The first context: `getJsonObject(0)` (null, or a cast failure), then
   * `getString("ip")`, `getInteger("port")` and `getJsonArray("credentials")` in
   * that order, the last two throwing on a value of the wrong type; a null
   * among the three is "Missing required fields".
   */
  function ReadContext(first: Json, env: Env): (r: Result<Target, Failure>)
    ensures r.Success? <==>
      && first.JObj?
      && GetString(first.members, "ip", env.nestedText).Some?
      && GetInteger(first.members, "port").Value?
      && GetJsonArray(first.members, "credentials").Value?
    ensures r.Success? ==>
      r.value == Target(GetString(first.members, "ip", env.nestedText).value,
                        GetInteger(first.members, "port").value,
                        GetJsonArray(first.members, "credentials").value)
    ensures first.JObj? && !GetInteger(first.members, "port").Mismatch?
            && !GetJsonArray(first.members, "credentials").Mismatch? && r.Failure?
        ==> r.error == MissingFields
    ensures r.Failure? && r.error != MissingFields ==> r.error.Thrown?
  {
    match ElementObject(first)
    case Null => Failure(Thrown(env.jvmMessage(NullPointer)))
    case Mismatch => Failure(Thrown(env.jvmMessage(ClassCast)))
    case Value(context) =>
      var ip := GetString(context, "ip", env.nestedText);
      var port := GetInteger(context, "port");
      var credentials := GetJsonArray(context, "credentials");
      // Either getter throws a `ClassCastException`; the model keeps one message per exception kind, so which throws first does not show.
      if port.Mismatch? || credentials.Mismatch? then Failure(Thrown(env.jvmMessage(ClassCast)))
      else if ip.None? || port.Null? || credentials.Null? then Failure(MissingFields)
      else Success(Target(ip.value, port.value, credentials.value))
  }

  /**
   * The three request checks, in order: the request type, then a non-empty
   * `contexts` array, then the fields of its first element and of no other.
   */
  function ReadRequest(request: Object, env: Env): (r: Result<Target, Failure>)
    ensures GetString(request, "requestType", env.nestedText) != Some(REQUEST_TYPE) ==> r == Failure(InvalidRequestType)
    ensures GetString(request, "requestType", env.nestedText) == Some(REQUEST_TYPE)
            && GetJsonArray(request, "contexts") in {Null, Value([])}
        ==> r == Failure(NoContexts)
    ensures GetString(request, "requestType", env.nestedText) == Some(REQUEST_TYPE)
            && GetJsonArray(request, "contexts").Value? && GetJsonArray(request, "contexts").value != []
        ==> r == ReadContext(GetJsonArray(request, "contexts").value[0], env)
    ensures GetString(request, "requestType", env.nestedText) == Some(REQUEST_TYPE)
            && GetJsonArray(request, "contexts").Mismatch?
        ==> r == Failure(Thrown(env.jvmMessage(ClassCast)))
  {
    if GetString(request, "requestType", env.nestedText) != Some(REQUEST_TYPE) then Failure(InvalidRequestType)
    else
      match GetJsonArray(request, "contexts")
      case Mismatch => Failure(Thrown(env.jvmMessage(ClassCast)))
      case Null => Failure(NoContexts)
      case Value(contexts) =>
        if contexts == [] then Failure(NoContexts)
        else ReadContext(contexts[0], env)
  }

  // ---------------------------------------------------------------------------
  // The two target grammars
  // ---------------------------------------------------------------------------

  /** `\d+`: one or more ASCII digits. */
  predicate IsNumeral(s: string) {
    s != [] && IsDigits(s)
  }

  /** A match of `(\d+\.\d+\.\d+\.)(\d+)-(\d+)`: three octet texts, and the two bounds. */
  datatype RangeInput = RangeInput(a: string, b: string, c: string, first: string, last: string)

  predicate WellFormed(rg: RangeInput) {
    IsNumeral(rg.a) && IsNumeral(rg.b) && IsNumeral(rg.c) && IsNumeral(rg.first) && IsNumeral(rg.last)
  }

  /** Group 1 of the match: the three octets with their dots, copied as written. */
  function Base(rg: RangeInput): string {
    rg.a + "." + rg.b + "." + rg.c + "."
  }

  /** The text a range input is written as. */
  function RangeText(rg: RangeInput): string {
    Base(rg) + rg.first + "-" + rg.last
  }

  /** `Base(rg) + x` is the four pieces `a`, `b`, `c`, `x` joined by dots. */
  lemma BaseJoin(rg: RangeInput, x: string)
    ensures Base(rg) + x == Join([rg.a, rg.b, rg.c, x], '.')
  {
    JoinFour(rg.a, rg.b, rg.c, x, '.');
  }

  lemma JoinFour(p0: string, p1: string, p2: string, p3: string, sep: char)
    ensures Join([p0, p1, p2, p3], sep) == p0 + [sep] + p1 + [sep] + p2 + [sep] + p3
  {
    assert [p0, p1, p2, p3][1..] == [p1, p2, p3];
    assert [p1, p2, p3][1..] == [p2, p3];
    assert [p2, p3][1..] == [p3];
    assert Join([p3], sep) == p3;
    assert Join([p2, p3], sep) == p2 + [sep] + p3;
    assert Join([p1, p2, p3], sep) == p1 + [sep] + (p2 + [sep] + p3);
  }

  lemma JoinTwo(p0: string, p1: string, sep: char)
    ensures Join([p0, p1], sep) == p0 + [sep] + p1
  {
    assert [p0, p1][1..] == [p1];
  }

  lemma NoDotInNumeral(s: string)
    requires IsDigits(s)
    ensures '.' !in s && '-' !in s
  {
  }

  /**
   * `IP_RANGE_PATTERN.matcher(s).matches()` and its groups: the text cut at
   * its dots must give four pieces, the last of which cut at its dash must give
   * two, all five non-empty runs of ASCII digits.
   */
  function ParseRange(s: string): (r: Option<RangeInput>)
    ensures r.Some? ==> WellFormed(r.value) && RangeText(r.value) == s
  {
    var parts := Split(s, '.');
    if |parts| != 4 then None
    else
      var bounds := Split(parts[3], '-');
      if |bounds| != 2 then None
      else
        var rg := RangeInput(parts[0], parts[1], parts[2], bounds[0], bounds[1]);
        if !WellFormed(rg) then None
        else
          ParseRangeSound(s, rg);
          Some(rg)
  }

  lemma ParseRangeSound(s: string, rg: RangeInput)
    requires |Split(s, '.')| == 4
    requires Split(s, '.') == [rg.a, rg.b, rg.c, Split(s, '.')[3]]
    requires Split(Split(s, '.')[3], '-') == [rg.first, rg.last]
    ensures RangeText(rg) == s
  {
    var tail := Split(s, '.')[3];
    JoinSplit(s, '.');
    JoinSplit(tail, '-');
    JoinTwo(rg.first, rg.last, '-');
    assert tail == rg.first + "-" + rg.last;
    BaseJoin(rg, tail);
  }

  /** Every well-formed range text matches, with the groups it was written with. */
  lemma ParseRangeComplete(rg: RangeInput)
    requires WellFormed(rg)
    ensures ParseRange(RangeText(rg)) == Some(rg)
  {
    var tail := rg.first + "-" + rg.last;
    NoDotInNumeral(rg.a);
    NoDotInNumeral(rg.b);
    NoDotInNumeral(rg.c);
    NoDotInNumeral(rg.first);
    NoDotInNumeral(rg.last);
    assert '.' !in tail;
    BaseJoin(rg, tail);
    assert RangeText(rg) == Base(rg) + tail;
    SplitJoin([rg.a, rg.b, rg.c, tail], '.');
    JoinTwo(rg.first, rg.last, '-');
    assert Join([rg.first, rg.last], '-') == tail;
    SplitJoin([rg.first, rg.last], '-');
  }

  /** `\d{1,3}`. */
  predicate IsOctetText(s: string) {
    1 <= |s| <= 3 && IsDigits(s)
  }

  /** `ip.matches("^(\\d{1,3}\\.){3}\\d{1,3}$")`. */
  predicate IsQuadShaped(s: string) {
    var parts := Split(s, '.');
    |parts| == 4 && forall k :: 0 <= k < 4 ==> IsOctetText(parts[k])
  }

  /** The `allMatch` lambda: `Integer.parseInt(part)` in 0..255, false when it throws. */
  predicate IsOctet(part: string) {
    ParseInt(part).Some? && 0 <= ParseInt(part).value <= 255
  }

  /** `isValidIp`: the shape, then every piece of `ip.split("\\.")` a number in 0..255. */
  predicate IsValidIp(s: string) {
    IsQuadShaped(s) && forall k :: 0 <= k < 4 ==> IsOctet(Split(s, '.')[k])
  }

  /**
   * A single address is valid exactly when it is four dot-separated runs of one
   * to three ASCII digits, each of value at most 255; leading zeros are allowed.
   */
  lemma ValidIpIff(s: string)
    ensures IsValidIp(s) <==>
      var parts := Split(s, '.');
      |parts| == 4 && forall k :: 0 <= k < 4 ==> IsOctetText(parts[k]) && DigitsValue(parts[k]) <= 255
  {
    var parts := Split(s, '.');
    if |parts| == 4 && forall k :: 0 <= k < 4 ==> IsOctetText(parts[k]) {
      forall k | 0 <= k < 4
        ensures ParseInt(parts[k]) == Some(DigitsValue(parts[k]))
      {
        ParseIntOfShortDigits(parts[k]);
      }
    }
  }

  /** A number in 0..255 prints as an octet text of that value. */
  lemma OctetOfByte(n: nat)
    requires n <= 255
    ensures IsOctetText(NatToDecimal(n)) && DigitsValue(NatToDecimal(n)) <= 255
    ensures '.' !in NatToDecimal(n)
  {
    DecimalOfByteWidth(n);
  }

  /** Four numbers printed without leading zeros and joined by dots. */
  function Dotted(octets: seq<nat>): string
    requires |octets| == 4
  {
    Join(seq(4, k requires 0 <= k < 4 => NatToDecimal(octets[k])), '.')
  }

  /** Four numbers in 0..255, printed and joined by dots, make a valid address. */
  lemma DottedQuadIsValid(octets: seq<nat>)
    requires |octets| == 4 && forall k :: 0 <= k < 4 ==> octets[k] <= 255
    ensures IsValidIp(Dotted(octets))
  {
    var parts := seq(4, k requires 0 <= k < 4 => NatToDecimal(octets[k]));
    forall k | 0 <= k < 4
      ensures '.' !in parts[k] && IsOctetText(parts[k]) && DigitsValue(parts[k]) <= 255
    {
      OctetOfByte(octets[k]);
    }
    SplitJoin(parts, '.');
    ValidIpIff(Join(parts, '.'));
  }

  /** No text is both a range and a single address: the fourth piece of a range holds a dash. */
  lemma RangeIsNotAddress(s: string)
    requires ParseRange(s).Some?
    ensures !IsValidIp(s)
  {
    var rg := ParseRange(s).value;
    var tail := Split(s, '.')[3];
    JoinSplit(tail, '-');
    JoinTwo(rg.first, rg.last, '-');
    assert tail[|rg.first|] == '-';
    assert !IsDigits(tail);
  }

  // ---------------------------------------------------------------------------
  // expandIpRange
  // ---------------------------------------------------------------------------

  /** `baseIp + i` for i from `start` to `end`, ascending. */
  function RangeIps(base: string, start: int, end: int): (r: seq<string>)
    requires 0 <= start
    ensures |r| == if start <= end then end - start + 1 else 0
  {
    if start <= end then seq(end - start + 1, i requires 0 <= i <= end - start => base + IntToDecimal(start + i))
    else []
  }

  /** The i-th address of a range. */
  lemma RangeIpAt(base: string, start: int, end: int, i: int)
    requires 0 <= start && 0 <= i <= end - start
    ensures RangeIps(base, start, end)[i] == base + IntToDecimal(start + i)
  {
  }

  /**
   * The matched range: both bounds through `Integer.parseInt`, which throws
   * `NumberFormatException` on a bound past `int`, then the bounds check. A
   * range whose bounds are out of order or past 255 gives no address.
   */
  function ExpandRange(rg: RangeInput): Result<seq<string>, Failure>
    requires WellFormed(rg)
  {
    match ParseInt(rg.first)
    case None => Failure(Thrown(Some(NumberFormatMessage(rg.first))))
    case Some(start) =>
      match ParseInt(rg.last)
      case None => Failure(Thrown(Some(NumberFormatMessage(rg.last))))
      case Some(end) =>
        // The digits carry no sign, so `start` is never negative.
        if start <= end && start >= 0 && end <= 255 then Success(RangeIps(Base(rg), start, end)) else Success([])
  }

  /**
   * What `expandIpRange` returns, or the exception it throws. A text that
   * matches the range grammar is never tried as a single address.
   */
  function Expansion(ipInput: string): Result<seq<string>, Failure> {
    match ParseRange(ipInput)
    case Some(rg) => ExpandRange(rg)
    case None => Success(if IsValidIp(ipInput) then [ipInput] else [])
  }

  /** `expandIpRange(ipInput)`: the addresses are appended one by one in a `for` loop. */
  method ExpandIpRange(ipInput: string) returns (r: Result<seq<string>, Failure>)
    ensures r == Expansion(ipInput)
  {
    var ips: seq<string> := [];
    var matcher := ParseRange(ipInput);
    if matcher.Some? {
      assert Expansion(ipInput) == ExpandRange(matcher.value);
      var baseIp := Base(matcher.value);
      var start := ParseInt(matcher.value.first);
      if start.None? {
        return Failure(Thrown(Some(NumberFormatMessage(matcher.value.first))));
      }
      var end := ParseInt(matcher.value.last);
      if end.None? {
        return Failure(Thrown(Some(NumberFormatMessage(matcher.value.last))));
      }
      if start.value <= end.value && start.value >= 0 && end.value <= 255 {
        ips := AddRange(baseIp, start.value, end.value);
        assert ExpandRange(matcher.value) == Success(ips);
      } else {
        assert ExpandRange(matcher.value) == Success([]);
      }
    } else if IsValidIp(ipInput) {
      ips := ips + [ipInput];
      assert ips == [ipInput];
    } else {
      assert Expansion(ipInput) == Success([]);
    }
    return Success(ips);
  }

  /** The `for` loop of `expandIpRange`: `ips.add(baseIp + i)` for i from `start` to `end`. */
  method AddRange(baseIp: string, start: int, end: int) returns (ips: seq<string>)
    requires 0 <= start <= end
    ensures ips == RangeIps(baseIp, start, end)
  {
    ghost var all := RangeIps(baseIp, start, end);
    ips := [];
    for i := start to end + 1
      invariant ips == all[..i - start]
    {
      RangeIpAt(baseIp, start, end, i - start);
      assert all[..i + 1 - start] == all[..i - start] + [all[i - start]];
      ips := ips + [baseIp + IntToDecimal(i)];
    }
    assert all[..end + 1 - start] == all;
  }

  /** A well-formed range with s <= e <= 255 expands to the addresses from `base + s` to `base + e`. */
  lemma RangeExpansion(rg: RangeInput, s: int, e: int)
    requires WellFormed(rg)
    requires ParseInt(rg.first) == Some(s) && ParseInt(rg.last) == Some(e)
    requires s <= e <= 255
    ensures 0 <= s
    ensures Expansion(RangeText(rg)) == Success(RangeIps(Base(rg), s, e))
  {
    ParseRangeComplete(rg);
  }

  /**
   * The addresses of a range: e - s + 1 of them, the i-th is `base + (s + i)`,
   * and its last piece reads back as s + i, so they ascend.
   */
  lemma RangeIpsAscend(base: string, s: int, e: int)
    requires 0 <= s <= e <= 255
    ensures var ips := RangeIps(base, s, e);
      && |ips| == e - s + 1
      && (forall i :: 0 <= i < |ips| ==> ips[i] == base + IntToDecimal(s + i))
      && (forall i :: 0 <= i < |ips| ==> ParseInt(ips[i][|base|..]) == Some(s + i))
  {
    var ips := RangeIps(base, s, e);
    forall i | 0 <= i < |ips|
      ensures ips[i] == base + IntToDecimal(s + i)
      ensures ParseInt(ips[i][|base|..]) == Some(s + i)
    {
      RangeIpAt(base, s, e, i);
      SuffixReadsBack(base, s + i);
    }
  }

  /** The addresses of a range are pairwise distinct. */
  lemma RangeIpsDistinct(base: string, s: int, e: int)
    requires 0 <= s <= e <= 255
    ensures var ips := RangeIps(base, s, e);
      forall i, j :: 0 <= i < j < |ips| ==> ips[i] != ips[j]
  {
    var ips := RangeIps(base, s, e);
    RangeIpsAscend(base, s, e);
    forall i, j | 0 <= i < j < |ips|
      ensures ips[i] != ips[j]
    {
      DistinctSuffixes(base, s + i, s + j);
    }
  }

  lemma DistinctSuffixes(base: string, m: int, n: int)
    requires 0 <= m < n <= 255
    ensures base + IntToDecimal(m) != base + IntToDecimal(n)
  {
    SuffixReadsBack(base, m);
    SuffixReadsBack(base, n);
  }

  lemma SuffixReadsBack(base: string, n: int)
    requires 0 <= n <= 255
    ensures ParseInt((base + IntToDecimal(n))[|base|..]) == Some(n)
  {
    assert (base + IntToDecimal(n))[|base|..] == IntToDecimal(n);
    ParseIntOfDecimal(n);
  }

  /** A range that matches the grammar but has s > e or e > 255 expands to nothing. */
  lemma EmptyRange(rg: RangeInput, s: int, e: int)
    requires WellFormed(rg)
    requires ParseInt(rg.first) == Some(s) && ParseInt(rg.last) == Some(e)
    requires s > e || e > 255
    ensures Expansion(RangeText(rg)) == Success([])
  {
    ParseRangeComplete(rg);
  }

  lemma NoDashInDecimal(n: int)
    requires 0 <= n
    ensures '-' !in IntToDecimal(n) && '.' !in IntToDecimal(n)
  {
    NoDotInNumeral(NatToDecimal(n));
  }

  /** No character of a range's base is a dash. */
  lemma NoDashInBase(rg: RangeInput)
    requires WellFormed(rg)
    ensures forall k :: 0 <= k < |Base(rg)| ==> Base(rg)[k] != '-'
  {
    NoDotInNumeral(rg.a);
    NoDotInNumeral(rg.b);
    NoDotInNumeral(rg.c);
  }

  /** A single address is accepted exactly when it is valid, and then expands to itself. */
  lemma SingleAddress(ipInput: string)
    ensures Expansion(ipInput) == Success([ipInput]) <==> IsValidIp(ipInput)
  {
    if IsValidIp(ipInput) {
      if ParseRange(ipInput).Some? {
        RangeIsNotAddress(ipInput);
      }
    } else if ParseRange(ipInput).Some? {
      var rg := ParseRange(ipInput).value;
      if Expansion(ipInput) == Success([ipInput]) {
        var start := ParseInt(rg.first).value;
        assert 0 <= start;
        var only := Base(rg) + IntToDecimal(start);
        RangeIpAt(Base(rg), start, ParseInt(rg.last).value, 0);
        assert only == ipInput;
        assert ipInput[|Base(rg)| + |rg.first|] == '-';
        NoDashInDecimal(start);
        NoDashInBase(rg);
      }
    }
  }

  /**
   * The three octets of a range are copied, not checked: when the first is
   * past 255, every address the range expands to fails the single-address check.
   */
  lemma RangeBaseNotChecked(rg: RangeInput, s: int, e: int, i: nat)
    requires WellFormed(rg) && DigitsValue(rg.a) > 255
    requires 0 <= s <= e <= 255 && i <= e - s
    ensures !IsValidIp(RangeIps(Base(rg), s, e)[i])
  {
    var last := IntToDecimal(s + i);
    RangeIpAt(Base(rg), s, e, i);
    NoDotInNumeral(rg.a);
    NoDotInNumeral(rg.b);
    NoDotInNumeral(rg.c);
    NoDashInDecimal(s + i);
    BaseJoin(rg, last);
    SplitJoin([rg.a, rg.b, rg.c, last], '.');
    ValidIpIff(Base(rg) + last);
  }

  /**
   * When all three octets of a range are valid, every address it expands to
   * is a valid single address and so expands again to exactly itself.
   */
  lemma ReExpansion(rg: RangeInput, s: int, e: int, i: nat)
    requires WellFormed(rg)
    requires IsOctetText(rg.a) && IsOctetText(rg.b) && IsOctetText(rg.c)
    requires DigitsValue(rg.a) <= 255 && DigitsValue(rg.b) <= 255 && DigitsValue(rg.c) <= 255
    requires 0 <= s <= e <= 255 && i <= e - s
    ensures var address := RangeIps(Base(rg), s, e)[i];
      Expansion(address) == Success([address])
  {
    var last := NatToDecimal(s + i);
    var address := RangeIps(Base(rg), s, e)[i];
    assert IntToDecimal(s + i) == last;
    RangeIpAt(Base(rg), s, e, i);
    OctetOfByte(s + i);
    NoDotInNumeral(rg.a);
    NoDotInNumeral(rg.b);
    NoDotInNumeral(rg.c);
    BaseJoin(rg, last);
    SplitJoin([rg.a, rg.b, rg.c, last], '.');
    ValidIpIff(address);
    SingleAddress(address);
  }

  // ---------------------------------------------------------------------------
  // performFping
  // ---------------------------------------------------------------------------

  /** `fping -q -a -r 1 <ips...>`: quiet, print the live targets, one retry. */
  function FpingCommand(ips: seq<string>): seq<string> {
    ["fping", "-q", "-a", "-r", "1"] + ips
  }

  /** The addresses a sweep reports: every output line trimmed, the blank ones dropped, in order. */
  function LiveIps(lines: seq<string>): (r: seq<string>)
    ensures forall k :: 0 <= k < |r| ==> r[k] != []
    decreases |lines|
  {
    if lines == [] then [] else Kept(lines[0]) + LiveIps(lines[1..])
  }

  /** `line.trim()`, unless that is empty. */
  function Kept(line: string): (r: seq<string>)
    ensures |r| <= 1 && forall k :: 0 <= k < |r| ==> r[k] != []
  {
    var ip := Trim(line);
    if ip != [] then [ip] else []
  }

  /** The sweep keeps the order of the lines: the addresses of two runs of lines are those of each, in turn. */
  lemma {:induction false} LiveIpsAppend(a: seq<string>, b: seq<string>)
    ensures LiveIps(a + b) == LiveIps(a) + LiveIps(b)
    decreases |a|
  {
    if a != [] {
      assert (a + b)[1..] == a[1..] + b;
      LiveIpsAppend(a[1..], b);
    } else {
      assert a + b == b;
    }
  }

  /** No address is reported exactly when every line is blank. */
  lemma {:induction false} NoLiveIpsIffBlank(lines: seq<string>)
    ensures LiveIps(lines) == [] <==> forall k :: 0 <= k < |lines| ==> IsBlank(lines[k])
    decreases |lines|
  {
    if lines != [] {
      var tail := lines[1..];
      NoLiveIpsIffBlank(tail);
      assert LiveIps(lines) == Kept(lines[0]) + LiveIps(tail);
      if forall k :: 0 <= k < |lines| ==> IsBlank(lines[k]) {
        assert IsBlank(lines[0]);
        forall k | 0 <= k < |tail|
          ensures IsBlank(tail[k])
        {
          assert tail[k] == lines[k + 1];
        }
      } else {
        var k :| 0 <= k < |lines| && !IsBlank(lines[k]);
        if k == 0 {
          assert Kept(lines[0]) != [];
        } else {
          assert tail[k - 1] == lines[k];
        }
      }
    }
  }

  /** The first address reported is the first non-blank line, trimmed. */
  lemma {:induction false} FirstLiveIp(lines: seq<string>, j: nat)
    requires j < |lines| && !IsBlank(lines[j])
    requires forall k :: 0 <= k < j ==> IsBlank(lines[k])
    ensures LiveIps(lines) != [] && LiveIps(lines)[0] == Trim(lines[j])
    decreases j
  {
    assert LiveIps(lines) == Kept(lines[0]) + LiveIps(lines[1..]);
    if j > 0 {
      var tail := lines[1..];
      forall k | 0 <= k < j - 1
        ensures IsBlank(tail[k])
      {
        assert tail[k] == lines[k + 1];
      }
      assert tail[j - 1] == lines[j];
      FirstLiveIp(tail, j - 1);
      assert Kept(lines[0]) == [];
    } else {
      assert Kept(lines[0]) == [Trim(lines[0])];
    }
  }

  /**
   * What `performFping` returns, or throws: nothing to sweep gives no address;
   * a process that did not start throws its exception; one that did not exit
   * in time throws "fping timed out" after its output was read; otherwise the
   * live addresses. The exit value of `fping` is not looked at.
   */
  function Liveness(ips: seq<string>, env: Env): Result<seq<string>, Failure> {
    if ips == [] then Success([])
    else
      match env.ping(FpingCommand(ips))
      case NotStarted(m) => Failure(Thrown(m))
      case Ran(output, exited, _) =>
        if !exited then Failure(FpingTimedOut) else Success(LiveIps(ReadLines(output)))
  }

  /** `performFping(ips)`: the `readLine` loop adds the trimmed non-blank lines to `activeIps`. */
  method PerformFping(ips: seq<string>, env: Env) returns (r: Result<seq<string>, Failure>)
    ensures r == Liveness(ips, env)
  {
    if ips == [] {
      return Success([]);
    }
    var process := env.ping(FpingCommand(ips));
    if process.NotStarted? {
      return Failure(Thrown(process.message));
    }
    var activeIps := ReadActiveIps(process.output);
    if !process.exited {
      return Failure(FpingTimedOut);
    }
    return Success(activeIps);
  }

  /** The `readLine` loop of `performFping` over the sweep's output. */
  method ReadActiveIps(output: string) returns (activeIps: seq<string>)
    ensures activeIps == LiveIps(ReadLines(output))
  {
    activeIps := [];
    var unread := output;
    while unread != []
      invariant activeIps + LiveIps(ReadLines(unread)) == LiveIps(ReadLines(output))
      decreases |unread|
    {
      var (line, rest) := ReadLine(unread);
      LiveIpsStep(activeIps, unread, output);
      activeIps := AddTrimmed(activeIps, line);
      unread := rest;
    }
  }

  /** The loop body: `var ip = line.trim(); if (!ip.isEmpty()) activeIps.add(ip);`. */
  method AddTrimmed(activeIps: seq<string>, line: string) returns (r: seq<string>)
    ensures r == activeIps + Kept(line)
  {
    r := activeIps;
    var ip := Trim(line);
    if ip != [] {
      r := r + [ip];
    }
  }

  /** One `readLine` of the sweep's output: its line, if not blank, comes before those of the rest. */
  lemma LiveIpsStep(activeIps: seq<string>, unread: string, output: string)
    requires unread != []
    requires activeIps + LiveIps(ReadLines(unread)) == LiveIps(ReadLines(output))
    ensures var (line, rest) := ReadLine(unread);
      (activeIps + Kept(line)) + LiveIps(ReadLines(rest)) == LiveIps(ReadLines(output))
  {
    var lines := ReadLines(unread);
    ReadLinesStep(unread);
    assert LiveIps(lines) == Kept(lines[0]) + LiveIps(lines[1..]);
    assert (activeIps + Kept(lines[0])) + LiveIps(lines[1..]) == activeIps + (Kept(lines[0]) + LiveIps(lines[1..]));
  }

  // ---------------------------------------------------------------------------
  // spawnDiscoveryProcess
  // ---------------------------------------------------------------------------

  /** The one context of the worker's request: the chosen address, the port and the credentials as received. */
  function WorkerContext(ip: string, port: int, credentials: seq<Json>): (r: Object)
    ensures Keys(r) == ["ip", "port", "credentials"]
    ensures Get(r, "ip") == Some(JStr(ip))
    ensures Get(r, "port") == Some(JNum(port))
    ensures Get(r, "credentials") == Some(JArr(credentials))
  {
    PutThree("ip", JStr(ip), "port", JNum(port), "credentials", JArr(credentials));
    Put(Put(Put([], "ip", JStr(ip)), "port", JNum(port)), "credentials", JArr(credentials))
  }

  /** The request the worker is given on its command line (as JSON text, whose encoding is not modelled). */
  function Payload(ip: string, port: int, credentials: seq<Json>): (r: Object)
    ensures Keys(r) == ["requestType", "contexts"]
    ensures Get(r, "requestType") == Some(JStr(REQUEST_TYPE))
    ensures Get(r, "contexts") == Some(JArr([JObj(WorkerContext(ip, port, credentials))]))
  {
    PutTwo("requestType", JStr(REQUEST_TYPE), "contexts", JArr([JObj(WorkerContext(ip, port, credentials))]));
    Put(Put([], "requestType", JStr(REQUEST_TYPE)), "contexts", JArr([JObj(WorkerContext(ip, port, credentials))]))
  }

  /**
   * The payload is a discovery request in the engine's own format: reading it
   * with the engine's own checks gives back the address, the port and the
   * credentials it was built from.
   */
  lemma PayloadRoundTrip(ip: string, port: int, credentials: seq<Json>, env: Env)
    requires IsInt32(port)
    ensures ReadRequest(Payload(ip, port, credentials), env) == Success(Target(ip, port, credentials))
  {
    var context := JObj(WorkerContext(ip, port, credentials));
    PayloadFields(ip, port, credentials, env);
    assert ReadRequest(Payload(ip, port, credentials), env) == ReadContext(context, env);
    ContextRoundTrip(ip, port, credentials, env);
  }

  /** The payload reads as a discovery request with the one context. */
  lemma PayloadFields(ip: string, port: int, credentials: seq<Json>, env: Env)
    ensures GetString(Payload(ip, port, credentials), "requestType", env.nestedText) == Some(REQUEST_TYPE)
    ensures GetJsonArray(Payload(ip, port, credentials), "contexts") == Value([JObj(WorkerContext(ip, port, credentials))])
  {
    var payload := Payload(ip, port, credentials);
    assert Get(payload, "requestType") == Some(JStr(REQUEST_TYPE));
  }

  /** The one context of the payload reads back as the target it was built from. */
  lemma ContextRoundTrip(ip: string, port: int, credentials: seq<Json>, env: Env)
    requires IsInt32(port)
    ensures ReadContext(JObj(WorkerContext(ip, port, credentials)), env) == Success(Target(ip, port, credentials))
  {
    var context := WorkerContext(ip, port, credentials);
    assert Get(context, "ip") == Some(JStr(ip));
    assert GetString(context, "ip", env.nestedText) == Some(ip);
    assert Get(context, "port") == Some(JNum(port)) && ToInt32(port) == port;
    assert GetInteger(context, "port") == Value(port);
    assert Get(context, "credentials") == Some(JArr(credentials));
    assert GetJsonArray(context, "credentials") == Value(credentials);
  }

  /** `output.append(line).append("\n")` for every line. */
  function JoinLines(lines: seq<string>): string
    decreases |lines|
  {
    if lines == [] then [] else lines[0] + "\n" + JoinLines(lines[1..])
  }

  /** Text ending with a newline, as the `StringBuilder` leaves it. */
  function Terminated(s: string): string {
    if s == [] || s[|s| - 1] == '\n' then s else s + "\n"
  }

  /**
   * Reading the worker's output line by line and appending a newline to each
   * line gives the output back, with a final newline added when it lacked one,
   * as long as it uses no carriage return.
   */
  lemma {:induction false} OutputKept(s: string)
    requires '\r' !in s
    ensures JoinLines(ReadLines(s)) == Terminated(s)
    decreases |s|
  {
    if s != [] {
      var (line, rest) := ReadLine(s);
      ReadLineWithoutReturn(s);
      JoinLinesStep(s);
      if s == line {
        assert ReadLines(rest) == [];
        assert s[|s| - 1] != '\n';
      } else {
        OutputKept(rest);
        if rest != [] {
          assert s[|s| - 1] == rest[|rest| - 1];
        }
      }
    }
  }

  /** One `readLine` of the worker's output: its line and a newline come before the rest. */
  lemma JoinLinesStep(s: string)
    requires s != []
    ensures var (line, rest) := ReadLine(s);
      JoinLines(ReadLines(s)) == line + "\n" + JoinLines(ReadLines(rest))
  {
    var lines := ReadLines(s);
    ReadLinesStep(s);
    assert JoinLines(lines) == lines[0] + "\n" + JoinLines(lines[1..]);
  }

  /** The `readLine` loop of `spawnDiscoveryProcess`, appending each line and a newline to `output`. */
  method ReadOutput(s: string) returns (output: string)
    ensures output == JoinLines(ReadLines(s))
  {
    output := [];
    var unread := s;
    while unread != []
      invariant output + JoinLines(ReadLines(unread)) == JoinLines(ReadLines(s))
      decreases |unread|
    {
      var (line, rest) := ReadLine(unread);
      ReadOutputStep(output, unread, s);
      output := output + line + "\n";
      unread := rest;
    }
  }

  /** One turn of `ReadOutput` keeps its invariant. */
  lemma ReadOutputStep(output: string, unread: string, s: string)
    requires unread != []
    requires output + JoinLines(ReadLines(unread)) == JoinLines(ReadLines(s))
    ensures var (line, rest) := ReadLine(unread);
      output + line + "\n" + JoinLines(ReadLines(rest)) == JoinLines(ReadLines(s))
  {
    var (line, rest) := ReadLine(unread);
    JoinLinesStep(unread);
    var tail := JoinLines(ReadLines(rest));
    assert output + (line + "\n" + tail) == output + line + "\n" + tail;
  }

  /** `{status: "success", result}`. */
  function SuccessReply(result: string): (r: Object)
    ensures Keys(r) == ["status", "result"]
    ensures Get(r, "status") == Some(JStr("success"))
    ensures Get(r, "result") == Some(JStr(result))
  {
    PutTwo("status", JStr("success"), "result", JStr(result));
    Put(Put([], "status", JStr("success")), "result", JStr(result))
  }

  /**
   * What `spawnDiscoveryProcess` returns, or throws: the worker's output when
   * it exits with 0, "Go process timed out" when it does not exit in time, and
   * the exit code in the message otherwise.
   */
  function WorkerOutcome(ip: string, port: int, credentials: seq<Json>, env: Env): (r: Result<Object, Failure>)
    ensures var run := env.worker(Payload(ip, port, credentials));
      r.Success? <==> run.Ran? && run.exited && run.exitCode == 0
    ensures var run := env.worker(Payload(ip, port, credentials));
      r.Success? ==> r.value == SuccessReply(JoinLines(ReadLines(run.output)))
    ensures var run := env.worker(Payload(ip, port, credentials));
      && (run.NotStarted? ==> r == Failure(Thrown(run.message)))
      && (run.Ran? && !run.exited ==> r == Failure(WorkerTimedOut))
      && (run.Ran? && run.exited && run.exitCode != 0 ==> r == Failure(WorkerFailed(run.exitCode)))
  {
    match env.worker(Payload(ip, port, credentials))
    case NotStarted(m) => Failure(Thrown(m))
    case Ran(output, exited, code) =>
      if !exited then Failure(WorkerTimedOut)
      else if code != 0 then Failure(WorkerFailed(code))
      else Success(SuccessReply(JoinLines(ReadLines(output))))
  }

  /** `spawnDiscoveryProcess(ip, port, credentials)`: the output is accumulated line by line. */
  method SpawnDiscoveryProcess(ip: string, port: int, credentials: seq<Json>, env: Env) returns (r: Result<Object, Failure>)
    ensures r == WorkerOutcome(ip, port, credentials, env)
  {
    var processInput := Payload(ip, port, credentials);
    var process := env.worker(processInput);
    if process.NotStarted? {
      return Failure(Thrown(process.message));
    }
    var output := ReadOutput(process.output);
    if !process.exited {
      return Failure(WorkerTimedOut);
    }
    if process.exitCode != 0 {
      return Failure(WorkerFailed(process.exitCode));
    }
    return Success(SuccessReply(output));
  }

  // ---------------------------------------------------------------------------
  // handleDiscoveryRequest and the reply
  // ---------------------------------------------------------------------------

  /**
   * The blocking body of `handleDiscoveryRequest`: the request checks, then
   * expansion, the sweep, the port check on the first live address, and the
   * worker; the first stage that fails decides the outcome.
   */
  function Discover(request: Object, env: Env): Result<Object, Failure> {
    match ReadRequest(request, env)
    case Failure(f) => Failure(f)
    case Success(target) =>
      match Expansion(target.ipInput)
      case Failure(f) => Failure(f)
      case Success(ips) =>
        if ips == [] then Failure(InvalidIpOrRange)
        else
          match Liveness(ips, env)
          case Failure(f) => Failure(f)
          case Success(activeIps) =>
            if activeIps == [] then Failure(NoActiveIps)
            else if !env.portOpen(activeIps[0], target.port) then Failure(PortClosed(target.port, activeIps[0]))
            else WorkerOutcome(activeIps[0], target.port, target.credentials, env)
  }

  /** `handleDiscoveryRequest(request)`: the stages in order, each failure returning at once. */
  method HandleDiscoveryRequest(request: Object, env: Env) returns (r: Result<Object, Failure>)
    ensures r == Discover(request, env)
  {
    var target := ReadRequest(request, env);
    if target.Failure? {
      return Failure(target.error);
    }
    var ips := ExpandIpRange(target.value.ipInput);
    if ips.Failure? {
      return Failure(ips.error);
    }
    if ips.value == [] {
      return Failure(InvalidIpOrRange);
    }
    var activeIps := PerformFping(ips.value, env);
    if activeIps.Failure? {
      return Failure(activeIps.error);
    }
    if activeIps.value == [] {
      return Failure(NoActiveIps);
    }
    var activeIp := activeIps.value[0];
    if !env.portOpen(activeIp, target.value.port) {
      return Failure(PortClosed(target.value.port, activeIp));
    }
    r := SpawnDiscoveryProcess(activeIp, target.value.port, target.value.credentials, env);
  }

  /** `errorResponse(message)`: a null message is stored as JSON null. */
  function ErrorResponse(message: Option<string>): (r: Object)
    ensures Keys(r) == ["status", "message"]
    ensures Get(r, "status") == Some(JStr("error"))
    ensures Get(r, "message") == Some(if message.Some? then JStr(message.value) else JNull)
  {
    var text := if message.Some? then JStr(message.value) else JNull;
    PutTwo("status", JStr("error"), "message", text);
    Put(Put([], "status", JStr("error")), "message", text)
  }

  /** The one message the event-bus consumer replies with: the result, or the error response. */
  function Reply(request: Object, env: Env): Object {
    match Discover(request, env)
    case Success(result) => result
    case Failure(f) => ErrorResponse(Message(f))
  }

  /**
   * When the output of every child process ends (the only runs `Run` can
   * describe), every request gets exactly one reply, of one of two shapes: a
   * success carrying the worker's output, or an error carrying the failure's
   * message.
   */
  lemma ReplyShape(request: Object, env: Env)
    ensures var reply := Reply(request, env);
      match Discover(request, env)
      case Success(_) =>
        && Keys(reply) == ["status", "result"] && Get(reply, "status") == Some(JStr("success"))
      case Failure(f) =>
        && Keys(reply) == ["status", "message"] && Get(reply, "status") == Some(JStr("error"))
        && Get(reply, "message") == Some(if Message(f).Some? then JStr(Message(f).value) else JNull)
  {
    match Discover(request, env)
    case Success(result) =>
      var t := ReadRequest(request, env).value;
      var ips := Expansion(t.ipInput).value;
      var activeIps := Liveness(ips, env).value;
      assert Discover(request, env) == WorkerOutcome(activeIps[0], t.port, t.credentials, env);
    case Failure(_) =>
  }

  /** Only `contexts[0]` is read: two requests that agree on the type and the first context get the same outcome. */
  lemma OnlyFirstContextUsed(r1: Object, r2: Object, env: Env)
    requires GetString(r1, "requestType", env.nestedText) == GetString(r2, "requestType", env.nestedText)
    requires GetJsonArray(r1, "contexts").Value? && GetJsonArray(r2, "contexts").Value?
    requires GetJsonArray(r1, "contexts").value != [] && GetJsonArray(r2, "contexts").value != []
    requires GetJsonArray(r1, "contexts").value[0] == GetJsonArray(r2, "contexts").value[0]
    ensures Discover(r1, env) == Discover(r2, env)
  {
    assert ReadRequest(r1, env) == ReadRequest(r2, env);
  }

  /** A failed request check decides the outcome before any process is started or any port is tried. */
  lemma RequestChecksFirst(request: Object, env: Env, ping: seq<string> -> Run, portOpen: (string, int) -> bool, worker: Object -> Run)
    requires ReadRequest(request, env).Failure?
    ensures Discover(request, env) == Failure(ReadRequest(request, env).error)
    ensures Discover(request, env.(ping := ping, portOpen := portOpen, worker := worker)) == Discover(request, env)
  {
    assert ReadRequest(request, env.(ping := ping, portOpen := portOpen, worker := worker)) == ReadRequest(request, env);
  }

  /** A target that expands to nothing is "Invalid IP or range", and no sweep is run. */
  lemma EmptyTargetSkipsSweep(request: Object, env: Env, t: Target, ping: seq<string> -> Run, worker: Object -> Run)
    requires ReadRequest(request, env) == Success(t)
    requires Expansion(t.ipInput) == Success([])
    ensures Discover(request, env) == Failure(InvalidIpOrRange)
    ensures Discover(request, env.(ping := ping, worker := worker)) == Discover(request, env)
  {
    assert ReadRequest(request, env.(ping := ping, worker := worker)) == ReadRequest(request, env);
  }

  /** A sweep that prints only blank lines is "No active IPs found". */
  lemma BlankSweepHasNoActiveIps(request: Object, env: Env, t: Target, ips: seq<string>, output: string, code: int)
    requires ReadRequest(request, env) == Success(t)
    requires Expansion(t.ipInput) == Success(ips) && ips != []
    requires env.ping(FpingCommand(ips)) == Ran(output, true, code)
    requires forall k :: 0 <= k < |ReadLines(output)| ==> IsBlank(ReadLines(output)[k])
    ensures Discover(request, env) == Failure(NoActiveIps)
  {
    NoLiveIpsIffBlank(ReadLines(output));
  }

  /**
   * Only the first live address goes on: it is the first non-blank line of the
   * sweep, trimmed; a closed port on it is the reply, an open one hands it to
   * the worker with the requested port and credentials.
   */
  lemma FirstLiveAddressProbed(request: Object, env: Env, t: Target, ips: seq<string>, output: string, code: int, j: nat)
    requires ReadRequest(request, env) == Success(t)
    requires Expansion(t.ipInput) == Success(ips) && ips != []
    requires env.ping(FpingCommand(ips)) == Ran(output, true, code)
    requires j < |ReadLines(output)| && !IsBlank(ReadLines(output)[j])
    requires forall k :: 0 <= k < j ==> IsBlank(ReadLines(output)[k])
    ensures var ip := Trim(ReadLines(output)[j]);
      Discover(request, env) ==
        if env.portOpen(ip, t.port) then WorkerOutcome(ip, t.port, t.credentials, env)
        else Failure(PortClosed(t.port, ip))
  {
    FirstLiveIp(ReadLines(output), j);
  }

  /**
   * A closed port on the chosen address is answered with
   * "Port <port> is not open on IP: <ip>", whatever the worker would have done.
   */
  lemma ClosedPortNeverRunsWorker(request: Object, env: Env, t: Target, ips: seq<string>, activeIps: seq<string>, worker: Object -> Run)
    requires ReadRequest(request, env) == Success(t)
    requires Expansion(t.ipInput) == Success(ips) && ips != []
    requires Liveness(ips, env) == Success(activeIps) && activeIps != []
    requires !env.portOpen(activeIps[0], t.port)
    ensures Discover(request, env) == Failure(PortClosed(t.port, activeIps[0]))
    ensures Message(Discover(request, env).error) == Some("Port " + IntToDecimal(t.port) + " is not open on IP: " + activeIps[0])
    ensures Discover(request, env.(worker := worker)) == Discover(request, env)
  {
    assert ReadRequest(request, env.(worker := worker)) == ReadRequest(request, env);
    assert Liveness(ips, env.(worker := worker)) == Liveness(ips, env);
  }
}
