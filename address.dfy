/**
 * `validateConfig` (main.go): the ordered guards over a device IP and UDP
 * port given as strings. An IP literal is read as net.ParseIP reads an IPv4
 * dotted quad.
 */
module Address {
  import opened Results
  import Numbers

  /**
   * The IPv4 scanner behind net.ParseIP, from position i with the current
   * field's value and digit count and the dots seen so far: digits only,
   * fields of at most 255 without a leading zero, exactly three single dots
   * with a digit on both sides.
   */
  function ScanIPv4(s: string, i: nat, val: nat, digits: nat, dots: nat): (ok: bool)
    requires i <= |s|
    ensures ok ==> forall j :: i <= j < |s| ==> Numbers.IsDigit(s[j]) || s[j] == '.'
    ensures ok && i < |s| ==> Numbers.IsDigit(s[|s| - 1])
    ensures ok && dots < 3 ==> i < |s|
    ensures ok && i == 0 && 0 < |s| ==> Numbers.IsDigit(s[0])
    decreases |s| - i
  {
    if i == |s| then dots == 3
    else if Numbers.IsDigit(s[i]) then
      if digits == 1 && val == 0 then false
      else
        var v := val * 10 + Numbers.DigitValue(s[i]);
        v <= 255 && ScanIPv4(s, i + 1, v, digits + 1, dots)
    else if s[i] == '.' then
      if i == 0 || i == |s| - 1 || s[i - 1] == '.' then false
      else dots < 3 && ScanIPv4(s, i + 1, 0, 0, dots + 1)
    else false
  }

  /** `net.ParseIP(ip) != nil`, for IPv4 literals. */
  function IsIPLiteral(ip: string): (ok: bool)
    ensures ok ==> |ip| > 0 && Numbers.IsDigit(ip[0]) && Numbers.IsDigit(ip[|ip| - 1])
    ensures ok ==> forall j :: 0 <= j < |ip| ==> Numbers.IsDigit(ip[j]) || ip[j] == '.'
  {
    ScanIPv4(ip, 0, 0, 0, 0)
  }

  const MinPort: int := 1
  const MaxPort: int := 65535

  /** A port string the guards accept: strconv.Atoi reads it, and it lies in [1, 65535]. */
  predicate IsPort(port: string)
  {
    Numbers.Atoi(port).Ok? && MinPort <= Numbers.Atoi(port).value <= MaxPort
  }

  datatype ConfigError =
    | EmptyIP
    | InvalidIP(ip: string)
    | EmptyPort
    | PortNotNumber(port: string)
    | PortOutOfRange(n: int)

  /** `validateConfig`: nil, or the error of the first failing guard. */
  function ValidateConfig(ip: string, port: string): (r: Option<ConfigError>)
    ensures r.None? <==> IsIPLiteral(ip) && IsPort(port)
    ensures ip == "" ==> r == Some(EmptyIP)
    ensures ip != "" && !IsIPLiteral(ip) ==> r == Some(InvalidIP(ip))
    ensures IsIPLiteral(ip) && port == "" ==> r == Some(EmptyPort)
    ensures IsIPLiteral(ip) && port != "" && Numbers.Atoi(port).Err? ==> r == Some(PortNotNumber(port))
    ensures IsIPLiteral(ip) && Numbers.Atoi(port).Ok? && !IsPort(port) ==>
      r == Some(PortOutOfRange(Numbers.Atoi(port).value))
  {
    if ip == "" then Some(EmptyIP)
    else if !IsIPLiteral(ip) then Some(InvalidIP(ip))
    else if port == "" then Some(EmptyPort)
    else match Numbers.Atoi(port)
      case Err(_) => Some(PortNotNumber(port))
      case Ok(n) => if n < MinPort || n > MaxPort then Some(PortOutOfRange(n)) else None
  }

  /** Ports just outside [1, 65535] are out of range. */
  lemma PortBoundaries()
    ensures ValidateConfig("10.0.0.7", "0") == Some(PortOutOfRange(0))
    ensures ValidateConfig("10.0.0.7", "65536") == Some(PortOutOfRange(65536))
  {
    assert IsIPLiteral("10.0.0.7");
    assert "65536"[..4] == "6553" && "6553"[..3] == "655" && "655"[..2] == "65" && "65"[..1] == "6";
    Numbers.AtoiDigits("0");
    Numbers.AtoiDigits("65536");
  }

  /** The ends of [1, 65535] are accepted. */
  lemma PortLimitsAccepted()
    ensures ValidateConfig("10.0.0.7", "1") == None
    ensures ValidateConfig("10.0.0.7", "65535") == None
  {
    assert IsIPLiteral("10.0.0.7");
    assert "65535"[..4] == "6553" && "6553"[..3] == "655" && "655"[..2] == "65" && "65"[..1] == "6";
    Numbers.AtoiDigits("1");
    Numbers.AtoiDigits("65535");
  }

  /** A sign before the port is allowed (a negative one is then out of range); a space is not. */
  lemma PortSigns()
    ensures ValidateConfig("10.0.0.7", "+80") == None
    ensures ValidateConfig("10.0.0.7", "-1") == Some(PortOutOfRange(-1))
    ensures ValidateConfig("10.0.0.7", " 80") == Some(PortNotNumber(" 80"))
  {
    assert IsIPLiteral("10.0.0.7");
    assert "+80"[1..] == "80" && "80"[..1] == "8" && "8"[..0] == "";
    assert Numbers.DigitsValue("80") == 80;
    assert "-1"[1..] == "1" && "1"[..0] == "";
    assert Numbers.DigitsValue("1") == 1;
    assert !Numbers.IsDigit(" 80"[0]);
  }

  /** The IP guard comes before every port guard. */
  lemma IPCheckedFirst(ip: string, port: string)
    requires !IsIPLiteral(ip)
    ensures ValidateConfig(ip, port) == Some(if ip == "" then EmptyIP else InvalidIP(ip))
  {
  }

  /** What net.ParseIP refuses: leading zeros, fields over 255, missing or extra fields. */
  lemma IPv4Examples()
    ensures IsIPLiteral("192.168.1.2")
    ensures !IsIPLiteral("192.168.01.2")
    ensures !IsIPLiteral("256.1.1.1")
    ensures !IsIPLiteral("1.2.3")
    ensures !IsIPLiteral("1.2.3.4.5")
    ensures !IsIPLiteral("1..2.3")
    ensures !IsIPLiteral("1.2.3.")
  {
  }
}
