/** Server endpoints as text: the agent prints host:port, the webserver splits and parses it. */
module Endpoints {
  import opened Collections

  datatype Endpoint = Endpoint(host: string, port: int)
  {
    function Address(): string {
      host + ":" + PrintInt(port)
    }
  }

  predicate IsDigit(c: char) {
    '0' <= c <= '9'
  }

  function Digit(d: nat): (c: char)
    requires d < 10
    ensures IsDigit(c) && DigitValue(c) == d
  {
    ('0' as int + d) as char
  }

  function DigitValue(c: char): (d: nat)
    requires IsDigit(c)
    ensures d < 10
  {
    c as int - '0' as int
  }

  function PrintNat(n: nat): (s: string)
    ensures |s| > 0 && forall c :: c in s ==> IsDigit(c)
  {
    if n < 10 then [Digit(n)] else PrintNat(n / 10) + [Digit(n % 10)]
  }

  function PrintInt(n: int): string {
    if n < 0 then "-" + PrintNat(-n) else PrintNat(n)
  }

  // ---- Python's int(text), for ASCII text ----

  predicate IsSpace(c: char) {
    c == ' ' || '\t' <= c <= '\r'
  }

  function Strip(s: string): string
    decreases |s|
  {
    if s == "" then ""
    else if IsSpace(s[0]) then Strip(s[1..])
    else if IsSpace(s[|s| - 1]) then Strip(s[..|s| - 1])
    else s
  }

  /** Digits, with single underscores allowed between two of them. */
  function ParseDigits(s: string): Option<nat>
    decreases |s|
  {
    if s == "" || !IsDigit(s[|s| - 1]) then None
    else
      var last, front := DigitValue(s[|s| - 1]), s[..|s| - 1];
      if front == "" then Some(last)
      else
        var digits := if front[|front| - 1] == '_' then front[..|front| - 1] else front;
        match ParseDigits(digits)
        case None => None
        case Some(value) => Some(10 * value + last)
  }

  function ParseInt(s: string): Option<int> {
    var t := Strip(s);
    if t == "" then None
    else if t[0] == '-' || t[0] == '+' then
      match ParseDigits(t[1..])
      case None => None
      case Some(value) =>
        var n: int := value;
        Some(if t[0] == '-' then -n else n)
    else
      match ParseDigits(t)
      case None => None
      case Some(value) => Some(value)
  }

  // ---- rsplit(":", 1) ----

  /** The text before and after the last colon; None when there is no colon and the unpacking raises. */
  function RSplit(s: string): (r: Option<(string, string)>)
    ensures r.Some? ==> s == r.value.0 + ":" + r.value.1 && ':' !in r.value.1
    ensures r.None? <==> ':' !in s
    decreases |s|
  {
    if s == "" then None
    else if s[|s| - 1] == ':' then Some((s[..|s| - 1], ""))
    else
      match RSplit(s[..|s| - 1])
      case None => None
      case Some((host, port)) => Some((host, port + [s[|s| - 1]]))
  }

  function ParseEndpoint(s: string): Option<Endpoint> {
    match RSplit(s)
    case None => None
    case Some((host, port)) =>
      match ParseInt(port)
      case None => None
      case Some(n) => Some(Endpoint(host, n))
  }

  // ---- The round trip ----

  lemma {:induction false} RSplitLast(host: string, port: string)
    requires ':' !in port
    ensures RSplit(host + ":" + port) == Some((host, port))
    decreases |port|
  {
    var s := host + ":" + port;
    if port == "" {
      assert s[..|s| - 1] == host;
    } else {
      var front := port[..|port| - 1];
      assert s[..|s| - 1] == host + ":" + front;
      RSplitLast(host, front);
      assert port == front + [port[|port| - 1]];
    }
  }

  lemma {:induction false} ParsePrintedNat(n: nat)
    ensures ParseDigits(PrintNat(n)) == Some(n)
  {
    if n >= 10 {
      ParsePrintedNat(n / 10);
      var s, front := PrintNat(n), PrintNat(n / 10);
      assert s[..|s| - 1] == front;
      assert front[|front| - 1] in front;
    }
  }

  lemma ParsePrintedInt(n: int)
    ensures ParseInt(PrintInt(n)) == Some(n)
  {
    var s := PrintInt(n);
    if n < 0 {
      var digits := PrintNat(-n);
      assert s[1..] == digits && digits[|digits| - 1] in digits;
      assert Strip(s) == s;
      ParsePrintedNat(-n);
    } else {
      assert s[0] in s && s[|s| - 1] in s;
      assert Strip(s) == s;
      ParsePrintedNat(n);
    }
  }

  /** Every endpoint survives the trip, colons in the host included. */
  lemma AddressRoundTrip(e: Endpoint)
    ensures ParseEndpoint(e.Address()) == Some(e)
  {
    RSplitLast(e.host, PrintInt(e.port));
    ParsePrintedInt(e.port);
  }

  /** Exactly the texts with a colon whose last part int() accepts are endpoints. */
  lemma EndpointTexts(s: string, e: Endpoint)
    ensures ParseEndpoint(s) == Some(e) <==>
      exists port :: s == e.host + ":" + port && ':' !in port && ParseInt(port) == Some(e.port)
  {
    forall port | s == e.host + ":" + port && ':' !in port ensures RSplit(s) == Some((e.host, port)) {
      RSplitLast(e.host, port);
    }
  }
}
