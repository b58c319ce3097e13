/**
 * The pause helper's command line: exactly one argument, a whole number of
 * hours or minutes such as "2h" or "60m", converted to seconds. Stopping
 * and restarting the services and the sleep itself are not part of this
 * model; the result says how long the pause would last, or the exit status.
 */
module Pause {
  import opened Wrappers
  import opened Decimal

  datatype Unit = Hours | Minutes

  /** The groups of a successful match: the digits and the unit letter. */
  datatype Duration = Duration(digits: string, unit: Unit)

  function UnitChar(u: Unit): char {
    match u
    case Hours => 'h'
    case Minutes => 'm'
  }

  /**
   * The match of ^(\d+)([hm])$: digits, then one unit letter, then the end
   * of the argument or a single newline that ends it.
   */
  function MatchDuration(arg: string): (r: Option<Duration>)
    ensures r.Some? ==> |r.value.digits| >= 1 && AllDigits(r.value.digits)
    ensures r.Some? ==>
      arg == r.value.digits + [UnitChar(r.value.unit)] ||
      arg == r.value.digits + [UnitChar(r.value.unit), '\n']
  {
    var body := if |arg| > 0 && arg[|arg| - 1] == '\n' then arg[..|arg| - 1] else arg;
    if |body| >= 2 && AllDigits(body[..|body| - 1]) && body[|body| - 1] in {'h', 'm'} then
      var unit := if body[|body| - 1] == 'h' then Hours else Minutes;
      assert body == body[..|body| - 1] + [UnitChar(unit)];
      Some(Duration(body[..|body| - 1], unit))
    else
      None
  }

  /** Every argument of the shape the pattern describes matches, with those groups. */
  lemma MatchAccepts(digits: string, u: Unit)
    requires |digits| >= 1 && AllDigits(digits)
    ensures MatchDuration(digits + [UnitChar(u)]) == Some(Duration(digits, u))
    ensures MatchDuration(digits + [UnitChar(u), '\n']) == Some(Duration(digits, u))
  {
    var arg := digits + [UnitChar(u)];
    assert arg[..|arg| - 1] == digits;
    var withNewline := digits + [UnitChar(u), '\n'];
    assert withNewline[..|withNewline| - 1] == arg;
  }

  /** A whole number of minutes, and an hour as sixty of them. */
  lemma WholeMinutes(m: nat)
    ensures (m * 60) % 60 == 0 && m * 60 * 60 == m * 3600
  {
  }

  /** value * 3600 for hours, value * 60 for minutes. */
  function Seconds(d: Duration): (s: nat)
    requires AllDigits(d.digits)
    ensures s % 60 == 0
    ensures d.unit == Hours ==> s == DigitsValue(d.digits) * 3600
    ensures d.unit == Minutes ==> s == DigitsValue(d.digits) * 60
  {
    var value := DigitsValue(d.digits);
    WholeMinutes(value * 60);
    WholeMinutes(value);
    match d.unit
    case Hours => value * 3600
    case Minutes => value * 60
  }

  /** How the script ends: an error exit, or a pause of some seconds. */
  datatype PauseResult = Exit(status: int) | Paused(seconds: nat)

  /** The script on `argv` (the script name first). */
  function Run(argv: seq<string>): (r: PauseResult)
    ensures r.Exit? ==> r.status == 1
    ensures |argv| != 2 ==> r.Exit?
    ensures |argv| == 2 ==> (r.Exit? <==> MatchDuration(argv[1]).None?)
    ensures r.Paused? ==> r.seconds % 60 == 0
  {
    if |argv| != 2 then Exit(1)
    else
      match MatchDuration(argv[1])
      case None => Exit(1)
      case Some(d) => Paused(Seconds(d))
  }

  /** str(n) + "h" pauses for n hours. */
  lemma HoursRoundTrip(script: string, n: nat)
    ensures Run([script, NatToString(n) + "h"]) == Paused(n * 3600)
  {
    MatchAccepts(NatToString(n), Hours);
    DigitsValueOfNatToString(n);
  }

  /** str(n) + "m" pauses for n minutes. */
  lemma MinutesRoundTrip(script: string, n: nat)
    ensures Run([script, NatToString(n) + "m"]) == Paused(n * 60)
  {
    MatchAccepts(NatToString(n), Minutes);
    DigitsValueOfNatToString(n);
  }

  /** A leading zero is accepted and changes nothing. */
  lemma LeadingZeroAccepted(script: string, digits: string, u: Unit)
    requires |digits| >= 1 && AllDigits(digits)
    ensures Run([script, "0" + digits + [UnitChar(u)]]) == Run([script, digits + [UnitChar(u)]])
    ensures Run([script, digits + [UnitChar(u)]]).Paused?
  {
    LeadingZeroIgnored(digits);
    MatchAccepts("0" + digits, u);
    MatchAccepts(digits, u);
    assert "0" + digits + [UnitChar(u)] == ("0" + digits) + [UnitChar(u)];
  }

  /** A trailing newline after the unit is accepted and changes nothing. */
  lemma TrailingNewlineAccepted(script: string, digits: string, u: Unit)
    requires |digits| >= 1 && AllDigits(digits)
    ensures Run([script, digits + [UnitChar(u), '\n']]) == Run([script, digits + [UnitChar(u)]])
  {
    MatchAccepts(digits, u);
  }

  /** Without digits, with another unit letter, or with anything after the unit, the script exits with 1. */
  lemma MalformedRejected(script: string, arg: string)
    requires arg == [] || (arg[|arg| - 1] != 'h' && arg[|arg| - 1] != 'm' &&
      (arg[|arg| - 1] != '\n' || |arg| < 2 || (arg[|arg| - 2] != 'h' && arg[|arg| - 2] != 'm')))
    ensures Run([script, arg]) == Exit(1)
  {
  }
}
