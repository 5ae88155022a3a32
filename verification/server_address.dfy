/** The server addresses the tool accepts: a bare host ("localhost",
    "SERVER\INSTANCE") on the default port, "host:port", and the SQL Server
    spelling "host,port", which is handed to the driver unchanged. */
module ServerAddress {
  import opened Wrappers
  import opened Text
  import opened Strings

  datatype ParsedServer = ParsedServer(server: string, port: int, hasExplicitPort: bool)

  datatype AddressError = EmptyAddress | InvalidPort(portText: string)

  const DefaultPort: int := 1433

  /** The port recorded for the comma spelling: the driver reads the port
      from the server text itself. */
  const DriverPort: int := -1

  predicate InPortRange(port: Option<int>) {
    port.Some? && 1 <= port.value <= 65535
  }

  /** `s` holds `sep` exactly once and both sides of it are non-empty. */
  predicate TwoParts(s: string, sep: char) {
    var parts := Split(s, sep);
    sep in s && |parts| == 2 && parts[0] != "" && parts[1] != ""
  }

  /** The second piece, trimmed and read by `parseInt`. */
  function PortOf(parts: seq<string>): Result<int, AddressError>
    requires |parts| == 2
  {
    var portText := Trim(parts[1]);
    var port := ParseInt(portText);
    if InPortRange(port) then Success(port.value) else Failure(InvalidPort(portText))
  }

  /** The comma spelling: it is accepted exactly when the trimmed second
      piece reads as a port in range, and then the whole text is the server
      name, with the port sentinel. */
  predicate CommaReading(t: string, r: Result<ParsedServer, AddressError>)
    requires TwoParts(t, ',')
  {
    var portText := Trim(Split(t, ',')[1]);
    && (r.Success? <==> InPortRange(ParseInt(portText)))
    && (r.Success? ==> r.value == ParsedServer(t, DriverPort, true))
    && (r.Failure? ==> r.error == InvalidPort(portText))
  }

  /** The colon spelling: it is accepted exactly when the trimmed second
      piece reads as a port in range, and then the trimmed first piece is
      the server name and the read number the port. */
  predicate ColonReading(t: string, r: Result<ParsedServer, AddressError>)
    requires TwoParts(t, ':')
  {
    var parts := Split(t, ':');
    var portText := Trim(parts[1]);
    && (r.Success? <==> InPortRange(ParseInt(portText)))
    && (r.Success? ==> r.value == ParsedServer(Trim(parts[0]), ParseInt(portText).value, true))
    && (r.Failure? ==> r.error == InvalidPort(portText))
  }

  /** `parseServerAddress`: empty input is rejected, anything else is
      trimmed and then read. */
  function ParseServerAddress(serverInput: string): (r: Result<ParsedServer, AddressError>)
    ensures r == Failure(EmptyAddress) <==> serverInput == ""
    ensures r.Failure? && serverInput != "" ==> r.error.InvalidPort?
    ensures r.Success? ==> Trimmed(r.value.server)
    ensures r.Success? && !r.value.hasExplicitPort ==> r.value == ParsedServer(Trim(serverInput), DefaultPort, false)
    ensures r.Success? && r.value.hasExplicitPort ==> r.value.port == DriverPort || 1 <= r.value.port <= 65535
    ensures r.Success? && r.value.port == DriverPort ==> r.value == ParsedServer(Trim(serverInput), DriverPort, true)
  {
    if serverInput == "" then Failure(EmptyAddress) else ReadTrimmed(Trim(serverInput))
  }

  /** The reading of a trimmed address. The comma spelling is tried first,
      then the colon spelling; anything else is a bare host on the default
      port. */
  function ReadTrimmed(trimmed: string): (r: Result<ParsedServer, AddressError>)
    ensures TwoParts(trimmed, ',') ==> CommaReading(trimmed, r)
    ensures !TwoParts(trimmed, ',') && TwoParts(trimmed, ':') ==> ColonReading(trimmed, r)
    ensures !TwoParts(trimmed, ',') && !TwoParts(trimmed, ':') ==> r == Success(ParsedServer(trimmed, DefaultPort, false))
    ensures r.Failure? ==> r.error.InvalidPort?
    ensures r.Success? ==> r.value.server == trimmed || Trimmed(r.value.server)
    ensures r.Success? && !r.value.hasExplicitPort ==> r.value == ParsedServer(trimmed, DefaultPort, false)
    ensures r.Success? && r.value.hasExplicitPort ==> r.value.port == DriverPort || 1 <= r.value.port <= 65535
    ensures r.Success? && r.value.port == DriverPort ==> r.value == ParsedServer(trimmed, DriverPort, true)
  {
    if TwoParts(trimmed, ',') then
      var _ :- PortOf(Split(trimmed, ','));
      Success(ParsedServer(trimmed, DriverPort, true))
    else if TwoParts(trimmed, ':') then
      var parts := Split(trimmed, ':');
      var port :- PortOf(parts);
      Success(ParsedServer(Trim(parts[0]), port, true))
    else
      Success(ParsedServer(trimmed, DefaultPort, false))
  }

  /** `formatServerAddress`, as written: an explicit port other than 1433 is
      appended after a comma, 1433 after a colon. */
  function FormatServerAddress(server: string, port: int, hasExplicitPort: bool): (r: string)
    ensures !hasExplicitPort ==> r == server
    ensures hasExplicitPort ==> |r| > |server| + 1 && r[..|server|] == server
    ensures hasExplicitPort ==> (r[|server|] == ',' <==> port != DefaultPort) && (r[|server|] == ':' <==> port == DefaultPort)
    ensures hasExplicitPort ==> r[|server| + 1..] == IntToString(port)
  {
    if hasExplicitPort then
      var sep := if port != DefaultPort then "," else ":";
      PortAfter(server, sep, IntToString(port));
      server + sep + IntToString(port)
    else server
  }

  /** The port text of a formatted address reads back as the port. */
  lemma {:induction false} FormattedPortReadsBack(server: string, port: int)
    ensures var r := FormatServerAddress(server, port, true);
      ParseInt(r[|server| + 1..]) == Some(port)
  {
    ParseIntOfString(port, "");
    assert IntToString(port) + "" == IntToString(port);
  }

  lemma {:induction false} PortAfter(server: string, sep: string, text: string)
    requires |sep| == 1 && text != ""
    ensures var r := server + sep + text;
      |r| > |server| + 1 && r[..|server|] == server && r[|server|] == sep[0] && r[|server| + 1..] == text + ""
  {
    var r := server + sep + text;
    assert r[|server| + 1..] == text;
  }

  /** The display form of a parsed address with the comma spelling, whose
      text already carries its port, printed as it stands. */
  function FormatParsedServer(p: ParsedServer): string {
    if p.port == DriverPort then p.server else FormatServerAddress(p.server, p.port, p.hasExplicitPort)
  }

  /** A host the parser reads as a bare host: trimmed, non-empty, and
      without either port separator. */
  predicate PlainHost(host: string) {
    host != "" && Trimmed(host) && ',' !in host && ':' !in host
  }

  /** Whitespace around the input never matters, as long as something is
      left to parse. */
  lemma {:induction false} ParseIgnoresSurroundingSpace(pre: string, x: string, post: string)
    requires AllSpace(pre) && AllSpace(post) && x != ""
    ensures ParseServerAddress(pre + x + post) == ParseServerAddress(x)
  {
    TrimSurrounded(pre, x, post);
  }

  /** Input made only of whitespace passes the emptiness check and yields an
      empty server name on the default port. */
  lemma {:induction false} ParseBlankInput()
    ensures ParseServerAddress(" ") == Success(ParsedServer("", DefaultPort, false))
  {
    assert Trim(" ") == "" by {
      DropLeadingAllSpace(" ");
    }
  }

  /** A bare host keeps its name and gets the default port. */
  lemma {:induction false} ParseBareHost(host: string)
    requires PlainHost(host)
    ensures ParseServerAddress(host) == Success(ParsedServer(host, DefaultPort, false))
  {
    TrimOfTrimmed(host);
    SplitNoSep(host, ',');
    SplitNoSep(host, ':');
  }

  lemma {:induction false} PortTextFacts(port: int)
    requires port > 0
    ensures ',' !in IntToString(port) && ':' !in IntToString(port)
    ensures Trim(IntToString(port)) == IntToString(port)
    ensures IntToString(port) != ""
    ensures ParseInt(IntToString(port)) == Some(port)
  {
    var d := IntToString(port);
    assert d == NatToString(port);
    assert forall i :: 0 <= i < |d| ==> IsDigit(d[i]);
    assert NoSpace(d);
    assert d + "" == d;
    ParseIntOfString(port, "");
  }

  /** The comma spelling: a valid port keeps the whole text as the server
      name, an out-of-range port is rejected. */
  lemma {:induction false} ParseCommaForm(host: string, port: int)
    requires host != "" && Trimmed(host) && ',' !in host && port > 0
    ensures var text := host + "," + IntToString(port);
      ParseServerAddress(text) ==
        if port <= 65535 then Success(ParsedServer(text, DriverPort, true))
        else Failure(InvalidPort(IntToString(port)))
  {
    var text := host + "," + IntToString(port);
    PortTextFacts(port);
    CommaTextShape(host, IntToString(port));
    assert PortOf(Split(text, ',')) ==
      if port <= 65535 then Success(port) else Failure(InvalidPort(IntToString(port)));
  }

  lemma {:induction false} CommaTextShape(host: string, d: string)
    requires host != "" && Trimmed(host) && ',' !in host
    requires d != "" && Trimmed(d) && ',' !in d
    ensures Trim(host + "," + d) == host + "," + d
    ensures TwoParts(host + "," + d, ',') && Split(host + "," + d, ',') == [host, d]
  {
    var text := host + "," + d;
    assert text == host + [','] + d;
    assert text[0] == host[0] && text[|text| - 1] == d[|d| - 1];
    TrimOfTrimmed(text);
    SplitAtFirst(host, ',', d);
    SplitNoSep(d, ',');
    assert text[|host|] == ',';
  }

  lemma {:induction false} ColonTextShape(host: string, port: int)
    requires PlainHost(host) && port > 0
    ensures var text := host + ":" + IntToString(port);
      Trim(text) == text && !TwoParts(text, ',') && TwoParts(text, ':')
      && Split(text, ':') == [host, IntToString(port)]
  {
    PortTextFacts(port);
    ColonTextTrimmed(host, IntToString(port));
    ColonTextSplit(host, IntToString(port));
  }

  lemma {:induction false} ColonTextTrimmed(host: string, d: string)
    requires PlainHost(host) && d != "" && Trimmed(d)
    ensures Trim(host + ":" + d) == host + ":" + d
  {
    var text := host + ":" + d;
    assert text[0] == host[0] && text[|text| - 1] == d[|d| - 1];
    TrimOfTrimmed(text);
  }

  lemma {:induction false} ColonTextSplit(host: string, d: string)
    requires PlainHost(host) && ',' !in d && ':' !in d
    ensures ',' !in host + ":" + d
    ensures (host + ":" + d)[|host|] == ':'
    ensures Split(host + ":" + d, ':') == [host, d]
  {
    var text := host + ":" + d;
    assert text == host + [':'] + d;
    SplitAtFirst(host, ':', d);
    SplitNoSep(d, ':');
  }

  /** The colon spelling: the host and the port are read apart. */
  lemma {:induction false} ParseColonForm(host: string, port: int)
    requires PlainHost(host) && port > 0
    ensures var text := host + ":" + IntToString(port);
      ParseServerAddress(text) ==
        if port <= 65535 then Success(ParsedServer(host, port, true))
        else Failure(InvalidPort(IntToString(port)))
  {
    var text := host + ":" + IntToString(port);
    ColonTextShape(host, port);
    PortTextFacts(port);
    TrimOfTrimmed(host);
    assert ParseServerAddress(text) == ReadTrimmed(text);
  }

  /** The comma spelling wins over the colon spelling: with a comma present
      the colon is part of the host. */
  lemma {:induction false} ParseCommaBeforeColon()
    ensures ParseServerAddress("a:1,2") == Success(ParsedServer("a:1,2", DriverPort, true))
  {
    assert "a:1" + "," + "2" == "a:1,2";
    assert IntToString(2) == "2";
    assert Trimmed("a:1");
    ParseCommaForm("a:1", 2);
  }

  /** Every non-empty input is read in one of three ways, decided by its
      trimmed text: the comma spelling, else the colon spelling, else a bare
      host on the default port. */
  lemma {:induction false} ParseServerAddressBranches(x: string)
    requires x != ""
    ensures var t := Trim(x);
      && (TwoParts(t, ',') ==> CommaReading(t, ParseServerAddress(x)))
      && (!TwoParts(t, ',') && TwoParts(t, ':') ==> ColonReading(t, ParseServerAddress(x)))
      && (!TwoParts(t, ',') && !TwoParts(t, ':') ==> ParseServerAddress(x) == Success(ParsedServer(t, DefaultPort, false)))
  {
    assert ParseServerAddress(x) == ReadTrimmed(Trim(x));
  }

  /** A separator with nothing after it, or a second separator, does not
      make a port spelling: such text is a bare host as it stands. */
  lemma {:induction false} ParseNotTwoParts()
    ensures ParseServerAddress("h:") == Success(ParsedServer("h:", DefaultPort, false))
    ensures ParseServerAddress("a,b,c") == Success(ParsedServer("a,b,c", DefaultPort, false))
  {
    assert Trimmed("h:") && Trimmed("a,b,c");
    TrimOfTrimmed("h:");
    TrimOfTrimmed("a,b,c");
    assert "h:" == "h" + [':'] + "";
    SplitAtFirst("h", ':', "");
    SplitNoSep("", ':');
    assert !TwoParts("h:", ':');
    assert "a,b,c" == "a" + [','] + "b,c";
    assert "b,c" == "b" + [','] + "c";
    SplitAtFirst("a", ',', "b,c");
    SplitAtFirst("b", ',', "c");
    SplitNoSep("c", ',');
    assert !TwoParts("a,b,c", ',');
    SplitNoSep("a,b,c", ':');
  }

  /** The port text is trimmed before it is read, so a space in front of
      the port is accepted. */
  lemma {:induction false} ParseSpacedPort(host: string, port: int)
    requires PlainHost(host) && 1 <= port <= 65535
    ensures ParseServerAddress(host + ": " + IntToString(port)) == Success(ParsedServer(host, port, true))
  {
    var d := IntToString(port);
    SpacedPortText(port);
    ColonSpelling(host, " " + d);
    Regroup(host, ":", " ", d);
    ColonSpace();
  }

  lemma {:induction false} SpacedPortText(port: int)
    requires port > 0
    ensures var t := " " + IntToString(port);
      t != "" && ',' !in t && ':' !in t && !IsSpace(t[|t| - 1])
      && Trim(t) == IntToString(port) && ParseInt(IntToString(port)) == Some(port)
  {
    var d := IntToString(port);
    PortTextFacts(port);
    assert " " + d + "" == " " + d;
    TrimSurrounded(" ", d, "");
  }

  /** `parseInt` stops at the first non-digit, so text after the port's
      digits is accepted and ignored: "h:80x" is port 80. */
  lemma {:induction false} ParseTrailingPort(host: string, port: int, rest: string)
    requires PlainHost(host) && 1 <= port <= 65535
    requires ',' !in rest && ':' !in rest && (rest == "" || (!IsDigit(rest[0]) && !IsSpace(rest[|rest| - 1])))
    ensures ParseServerAddress(host + ":" + IntToString(port) + rest) == Success(ParsedServer(host, port, true))
  {
    var text := IntToString(port) + rest;
    TrailingPortText(port, rest);
    assert InPortRange(ParseInt(Trim(text)));
    ColonSpelling(host, text);
    Regroup(host, ":", IntToString(port), rest);
  }

  lemma {:induction false} TrailingPortText(port: int, rest: string)
    requires port > 0
    requires ',' !in rest && ':' !in rest && (rest == "" || (!IsDigit(rest[0]) && !IsSpace(rest[|rest| - 1])))
    ensures var t := IntToString(port) + rest;
      t != "" && ',' !in t && ':' !in t && !IsSpace(t[|t| - 1])
      && Trim(t) == t && ParseInt(t) == Some(port)
  {
    var d := IntToString(port);
    PortTextFacts(port);
    ParseIntOfString(port, rest);
    var text := d + rest;
    assert text[0] == d[0] && text[|text| - 1] == (if rest == "" then d[|d| - 1] else rest[|rest| - 1]);
    TrimOfTrimmed(text);
  }

  lemma {:induction false} Regroup(a: string, b: string, c: string, d: string)
    ensures a + b + (c + d) == a + (b + c) + d && a + b + (c + d) == a + b + c + d
  {
  }

  lemma {:induction false} ColonSpace()
    ensures ":" + " " == ": "
  {
  }

  /** `host:text` with a plain host: the host is kept, and the trimmed text
      decides the port. */
  lemma {:induction false} ColonSpelling(host: string, text: string)
    requires PlainHost(host) && text != "" && ',' !in text && ':' !in text && !IsSpace(text[|text| - 1])
    ensures var portText := Trim(text);
      ParseServerAddress(host + ":" + text) ==
        if InPortRange(ParseInt(portText)) then Success(ParsedServer(host, ParseInt(portText).value, true))
        else Failure(InvalidPort(portText))
  {
    var t := host + ":" + text;
    assert t[0] == host[0] && t[|t| - 1] == text[|text| - 1];
    TrimOfTrimmed(t);
    TrimOfTrimmed(host);
    ColonTextSplit(host, text);
    SplitNoSep(t, ',');
    assert !TwoParts(t, ',') && TwoParts(t, ':');
    assert ParseServerAddress(t) == ReadTrimmed(t);
    assert ColonReading(t, ReadTrimmed(t));
  }

  /** For an address without an explicit port the display form is the
      trimmed input. */
  lemma {:induction false} FormatBareAddress(x: string)
    requires ParseServerAddress(x).Success? && !ParseServerAddress(x).value.hasExplicitPort
    ensures FormatParsedServer(ParseServerAddress(x).value) == Trim(x)
    ensures FormatServerAddress(ParseServerAddress(x).value.server, ParseServerAddress(x).value.port, false) == Trim(x)
  {
  }

  /** As written, formatting a parsed comma-spelled address appends the
      port sentinel to a text that already carries its port. */
  lemma {:induction false} FormatCommaFormAsWritten(x: string)
    requires ParseServerAddress(x).Success? && ParseServerAddress(x).value.port == DriverPort
    ensures var p := ParseServerAddress(x).value;
      FormatServerAddress(p.server, p.port, p.hasExplicitPort) == Trim(x) + ",-1"
  {
    var p := ParseServerAddress(x).value;
    assert p == ParsedServer(Trim(x), DriverPort, true);
    SentinelText();
    SentinelSuffix(Trim(x));
    assert FormatServerAddress(p.server, p.port, p.hasExplicitPort) == Trim(x) + "," + "-1";
  }

  lemma {:induction false} SentinelSuffix(a: string)
    ensures a + "," + "-1" == a + ",-1"
  {
    assert "," + "-1" == ",-1";
    assert a + "," + "-1" == a + ("," + "-1");
  }

  lemma {:induction false} SentinelText()
    ensures IntToString(DriverPort) == "-1"
  {
    assert NatToString(1) == "1";
  }

  /** The display form of a parsed comma-spelled address is the trimmed
      input. */
  lemma {:induction false} FormatCommaFormCorrected(x: string)
    requires ParseServerAddress(x).Success? && ParseServerAddress(x).value.port == DriverPort
    ensures FormatParsedServer(ParseServerAddress(x).value) == Trim(x)
  {
  }

  /** Concretely: "h,5" is displayed as "h,5,-1" by the function as written. */
  lemma {:induction false} FormatCommaFormExample()
    ensures FormatServerAddress("h,5", DriverPort, true) == "h,5,-1"
    ensures ParseServerAddress("h,5") == Success(ParsedServer("h,5", DriverPort, true))
    ensures FormatParsedServer(ParsedServer("h,5", DriverPort, true)) == "h,5"
  {
    CommaFormParsed();
    CommaFormDisplayed();
  }

  lemma {:induction false} CommaFormParsed()
    ensures ParseServerAddress("h,5") == Success(ParsedServer("h,5", DriverPort, true))
  {
    assert IntToString(5) == "5";
    assert "h" + "," + "5" == "h,5";
    ParseCommaForm("h", 5);
  }

  lemma {:induction false} CommaFormDisplayed()
    ensures FormatServerAddress("h,5", DriverPort, true) == "h,5,-1"
  {
    SentinelText();
  }

  /** Formatting then parsing: the colon spelling survives for port 1433,
      every other explicit port comes back in the comma spelling, and a
      bare host comes back unchanged. */
  lemma {:induction false} ParseFormatted(host: string, port: int)
    requires PlainHost(host) && 1 <= port <= 65535
    ensures port == DefaultPort ==>
      ParseServerAddress(FormatServerAddress(host, port, true)) == Success(ParsedServer(host, port, true))
    ensures port != DefaultPort ==>
      ParseServerAddress(FormatServerAddress(host, port, true))
        == Success(ParsedServer(FormatServerAddress(host, port, true), DriverPort, true))
    ensures ParseServerAddress(FormatServerAddress(host, port, false)) == Success(ParsedServer(host, DefaultPort, false))
  {
    if port == DefaultPort {
      ParseColonForm(host, port);
    } else {
      ParseCommaForm(host, port);
    }
    ParseBareHost(host);
  }
}
