/** How a failure inside the container reaches the host: `main` prints a one-line JSON envelope
    and a human line on stderr, and the host adapter reads the category back. */
module ErrorEnvelope {
  import opened Outcome
  import opened Text
  import opened Json
  import opened Process

  const MAX_STDERR := 16384
  const MARK := "bitheim: error:"

  /** `_map_error_category` */
  function Category(e: Failure): string {
    match e
    case RpcAuthenticationError => "authentication"
    case RpcIncompatibleNodeError => "incompatible"
    case RpcTimeoutError => "timeout"
    case RpcUnavailableError => "unavailable"
    case RpcMalformedResponseError => "malformed_response"
    case RpcProtocolError => "malformed_response"
    case RpcResponseSizeExceededError => "malformed_response"
    case RpcResourceNotFoundError => "not_found"
    case ConfigurationError => "configuration"
    case _ => "unexpected"
  }

  /** Instances of `BitheimError` print their own message, everything else a fixed sentence. */
  predicate IsBitheimError(e: Failure) {
    !(e.ConfigurationError? || e.ValueError? || e.OtherException?)
  }

  function PrintedMessage(e: Failure, message: string): string {
    if IsBitheimError(e) then message else "An unexpected error occurred."
  }

  /** The envelope as a dictionary. */
  function Envelope(category: string): map<Key, Value> {
    map[
      Key.schema := Value.Text(Str("bitheim.delegated-error")),
      Key.version := Int(1),
      Key.category := Value.Text(Str(category))]
  }

  /** Everything `main` writes to stderr when a handler fails inside the container. */
  function MainStderr(dumps: map<Key, Value> -> string, e: Failure, message: string): string {
    dumps(Envelope(Category(e))) + "\n" + (MARK + " " + PrintedMessage(e, message) + "\n")
  }

  /** The host's reading of a category; `None` for one it does not know. */
  function CategoryFailure(category: Value): Option<Failure> {
    if category == Value.Text(Str("authentication")) then Some(RpcAuthenticationError)
    else if category == Value.Text(Str("incompatible")) then Some(RpcIncompatibleNodeError)
    else if category == Value.Text(Str("timeout")) then Some(RpcTimeoutError)
    else if category == Value.Text(Str("malformed_response")) then Some(RpcMalformedResponseError)
    else if category == Value.Text(Str("not_found")) then Some(RpcResourceNotFoundError)
    else if category == Value.Text(Str("unavailable")) then Some(RpcUnavailableError)
    else None
  }

  function EnvelopeFailure(v: Value): Option<Failure> {
    if v.Obj? && Get(v.fields, Key.schema) == Value.Text(Str("bitheim.delegated-error")) &&
       PyEqInt(Get(v.fields, Key.version), 1) && AsMap(v.fields).Keys == {Key.schema, Key.version, Key.category}
    then CategoryFailure(Get(v.fields, Key.category))
    else None
  }

  function LineFailure(loads: Loads, line: string): Option<Failure> {
    if line != "" && line[0] == '{' && line[|line| - 1] == '}' then
      var v := LoadsUnique(loads, line);
      if v.Some? then EnvelopeFailure(v.value) else None
    else None
  }

  predicate ReadableLines(lines: seq<string>) {
    |lines| == 1 || (|lines| == 2 && StartsWith(lines[1], MARK))
  }

  function LinesFailure(loads: Loads, lines: seq<string>): Failure {
    if ReadableLines(lines) then
      var f := LineFailure(loads, Strip(lines[0]));
      if f.Some? then f.value else RpcUnavailableError
    else RpcUnavailableError
  }

  /** The exception the host raises after a delegated command exits with a non-zero code. */
  function HostFailure(loads: Loads, stderr: string): Failure {
    if stderr != "" && Utf8Len(stderr) <= MAX_STDERR
    then LinesFailure(loads, SplitLines(Strip(stderr))) else RpcUnavailableError
  }

  /** What each container-side class becomes on the host when its envelope is read. */
  function Image(e: Failure): Failure {
    match e
    case RpcAuthenticationError => RpcAuthenticationError
    case RpcIncompatibleNodeError => RpcIncompatibleNodeError
    case RpcTimeoutError => RpcTimeoutError
    case RpcMalformedResponseError => RpcMalformedResponseError
    case RpcProtocolError => RpcMalformedResponseError
    case RpcResponseSizeExceededError => RpcMalformedResponseError
    case RpcResourceNotFoundError => RpcResourceNotFoundError
    case _ => RpcUnavailableError
  }

  /** What is taken from `json`: an envelope is dumped on one line of printable ASCII between
      braces, and reads back as itself. */
  ghost predicate DumpsEnvelopes(loads: Loads, dumps: map<Key, Value> -> string) {
    forall e: Failure ::
      var text := dumps(Envelope(Category(e)));
      loads(text).Some? && Writes(loads(text).value, Envelope(Category(e))) && |text| >= 2 && Printable(text) &&
      text[0] == '{' && text[|text| - 1] == '}'
  }

  /** What `text=True` makes of a process's output: every "\r\n" and every other "\r" becomes "\n". */
  function Universal(s: string): string {
    if s == "" then ""
    else if s[0] != '\r' then [s[0]] + Universal(s[1..])
    else ['\n'] + Universal(s[if |s| > 1 && s[1] == '\n' then 2 else 1..])
  }

  /** What the host gets to see of that. */
  function HostStderr(dumps: map<Key, Value> -> string, e: Failure, message: string): string {
    Universal(MainStderr(dumps, e, message))
  }

  /** When the host can make out the envelope: stderr is short enough, and the message holds
      no line boundary other than at its very end, where stripping removes it. */
  predicate Legible(dumps: map<Key, Value> -> string, e: Failure, message: string) {
    Utf8Len(HostStderr(dumps, e, message)) <= 16384 && NoBreak(RStrip(PrintedMessage(e, message)))
  }

  /** Whatever stderr says, the host raises an `RpcError`. */
  lemma HostFailureIsRpc(loads: Loads, stderr: string)
    ensures HostFailure(loads, stderr).IsRpc()
  {
    hide SplitLines, Strip, Utf8Len, LoadsUnique;
  }

  // ----- Proof -----

  lemma BreaksAreSpaces(c: char)
    ensures IsBreak(c) ==> IsSpace(c)
  {
  }

  lemma {:induction false} RStripTail(a: string, b: string)
    requires RStrip(b) != ""
    ensures RStrip(a + b) == a + RStrip(b)
  {
    if IsSpace(b[|b| - 1]) {
      RStripTail(a, b[..|b| - 1]);
      assert (a + b)[..|a + b| - 1] == a + b[..|b| - 1];
    }
  }

  /** Only white space follows: stripping stops at the end of `a`. */
  lemma {:induction false} RStripBlank(a: string, b: string)
    requires RStrip(b) == ""
    ensures RStrip(a + b) == RStrip(a)
  {
    if b == "" {
      assert a + b == a;
    } else {
      RStripBlank(a, b[..|b| - 1]);
      assert (a + b)[..|a + b| - 1] == a + b[..|b| - 1];
    }
  }

  lemma LineEndAt(s: string, n: nat)
    requires n <= |s| && (forall i :: 0 <= i < n ==> !IsBreak(s[i])) && (n < |s| ==> IsBreak(s[n]))
    ensures LineEnd(s) == n
  {
  }

  lemma SplitFirstLine(a: string, t: string)
    requires NoBreak(a)
    ensures SplitLines(a + "\n" + t) == [a] + SplitLines(t)
  {
    var s := a + "\n" + t;
    LineEndAt(s, |a|);
    assert s[..|a|] == a && s[|a| + 1..] == t;
  }

  lemma SplitTail(t: string)
    requires t != "" && !IsSpace(t[|t| - 1])
    ensures NoBreak(t) ==> SplitLines(t) == [t]
    ensures !NoBreak(t) ==> |SplitLines(t)| >= 2
  {
    var n := LineEnd(t);
    BreaksAreSpaces(t[|t| - 1]);
    if n < |t| {
      assert n < |t| - 1;
      var w := if t[n] == '\r' && n + 1 < |t| && t[n + 1] == '\n' then 2 else 1;
      assert t[n + w..] != "";
    }
  }

  lemma RStripBlanks(s: string)
    requires s != "" && !IsSpace(s[|s| - 1])
    ensures RStrip(s) == s && RStrip(" ") == "" && RStrip("\n") == ""
  {
    assert " "[..0] == "" && "\n"[..0] == "";
  }

  lemma BlankIsSpace()
    ensures IsSpace(' ') && IsSpace('\n') && forall c :: ' ' < c <= '~' ==> !IsSpace(c)
    ensures forall c :: ' ' <= c <= '~' ==> !IsBreak(c)
  {
  }

  /** The human line after stripping: it keeps its mark, and holds a line boundary exactly
      when the stripped message does. */
  lemma HumanLine(mark: string, p: string) returns (t: string)
    requires mark != "" && Printable(mark) && mark[|mark| - 1] != ' '
    ensures t == RStrip(mark + " " + p + "\n")
    ensures StartsWith(t, mark) && !IsSpace(t[|t| - 1])
    ensures NoBreak(t) <==> NoBreak(RStrip(p))
  {
    hide RStrip, IsBreak, IsSpace;
    t := RStrip(mark + " " + p + "\n");
    BlankIsSpace();
    RStripBlanks(mark);
    RStripBlank(mark + " " + p, "\n");
    var m, r := mark + " ", RStrip(p);
    if r == "" {
      RStripBlank(m, p);
      RStripBlank(mark, " ");
      assert t == mark;
    } else {
      RStripTail(m, p);
      assert t == m + r;
      assert forall i :: 0 <= i < |r| ==> t[|m| + i] == r[i];
    }
  }

  lemma MarkIsPlain()
    ensures MARK != "" && Printable(MARK) && MARK[|MARK| - 1] != ' '
  {
  }

  lemma LStripNothing(a: string, b: string)
    requires a != "" && !IsSpace(a[0])
    ensures LStrip(a + b) == a + b
  {
    assert (a + b)[0] == a[0];
  }

  /** A stderr made of a one-line text and a marked human line splits into that text followed
      by the lines of the human part. */
  lemma TwoParts(mark: string, text: string, p: string) returns (t: string)
    requires mark != "" && Printable(mark) && mark[|mark| - 1] != ' '
    requires |text| >= 2 && Printable(text) && text[0] != ' '
    ensures SplitLines(Strip(text + "\n" + (mark + " " + p + "\n"))) == [text] + SplitLines(t)
    ensures StartsWith(t, mark) && !IsSpace(t[|t| - 1])
    ensures NoBreak(t) <==> NoBreak(RStrip(p))
  {
    hide RStrip, SplitLines, LStrip;
    t := HumanLine(mark, p);
    var tail := mark + " " + p + "\n";
    LStripNothing(text, "\n" + tail);
    assert text + "\n" + tail == text + ("\n" + tail);
    RStripTail(text + "\n", tail);
    SplitFirstLine(text, t);
  }

  lemma EnvelopeRead(category: string, v: Value)
    requires Writes(v, Envelope(category))
    ensures UniqueDeep(v) && EnvelopeFailure(v) == CategoryFailure(Value.Text(Str(category)))
  {
    forall p | p in v.fields ensures UniqueDeep(p.value) {
      var i :| 0 <= i < |v.fields| && v.fields[i] == p;
      GetAt(v.fields, i, p.key);
    }
  }

  lemma CategoryRead(e: Failure)
    ensures CategoryFailure(Value.Text(Str(Category(e)))) ==
      if Image(e) == RpcUnavailableError && !e.RpcUnavailableError? then None else Some(Image(e))
  {
    WordsDiffer();
  }

  /** No two of the category words are equal. */
  lemma WordsDiffer()
    ensures var w := ["authentication", "incompatible", "timeout", "malformed_response", "not_found", "unavailable",
                      "configuration", "unexpected"];
      forall i, j :: 0 <= i < j < |w| ==> w[i] != w[j]
  {
    assert "timeout" != "not_found" && |"unexpected"| == 10 && |"unavailable"| == 11 && |"incompatible"| == 12;
    assert |"authentication"| == 14 && |"malformed_response"| == 18 && |"configuration"| == 13 && |"timeout"| == 7;
    assert |"not_found"| == 9;
  }

  lemma FirstLineRead(loads: Loads, text: string, v: Value)
    requires loads(text) == Some(v) && UniqueDeep(v)
    requires text != "" && text[0] == '{' && text[|text| - 1] == '}'
    ensures LineFailure(loads, Strip(text)) == EnvelopeFailure(v)
  {
    hide EnvelopeFailure, UniqueDeep, Strip;
    StripTight(text);
  }

  lemma LinesRead(loads: Loads, text: string, rest: seq<string>)
    ensures LinesFailure(loads, [text] + rest) ==
      if |rest| == 0 || (|rest| == 1 && StartsWith(rest[0], MARK)) then
        var f := LineFailure(loads, Strip(text));
        if f.Some? then f.value else RpcUnavailableError
      else RpcUnavailableError
  {
    hide LineFailure, Strip;
  }

  /** The host's reading of any stderr made of a JSON line and a marked human line. */
  lemma HostReads(loads: Loads, text: string, v: Value, p: string)
    requires loads(text) == Some(v) && UniqueDeep(v)
    requires |text| >= 2 && Printable(text) && text[0] == '{' && text[|text| - 1] == '}'
    ensures var stderr := text + "\n" + (MARK + " " + p + "\n");
      HostFailure(loads, stderr) ==
      if Utf8Len(stderr) <= MAX_STDERR && NoBreak(RStrip(p)) && EnvelopeFailure(v).Some?
      then EnvelopeFailure(v).value else RpcUnavailableError
  {
    MarkIsPlain();
    var t := TwoParts(MARK, text, p);
    SplitTail(t);
    FirstLineRead(loads, text, v);
    LinesRead(loads, text, SplitLines(t));
  }

  lemma {:induction false} UniversalPlain(a: string, b: string)
    requires forall i :: 0 <= i < |a| ==> a[i] != '\r'
    ensures Universal(a + b) == a + Universal(b)
  {
    if a == "" {
      assert a + b == b;
    } else {
      UniversalPlain(a[1..], b);
      assert (a + b)[1..] == a[1..] + b;
    }
  }

  /** No carriage return is left, and text without one is left alone. */
  lemma {:induction false} UniversalRule(s: string)
    ensures forall i :: 0 <= i < |Universal(s)| ==> Universal(s)[i] != '\r'
    ensures (forall i :: 0 <= i < |s| ==> s[i] != '\r') ==> Universal(s) == s
    decreases |s|
  {
    if s == "" {
    } else {
      UniversalRule(s[if s[0] == '\r' && |s| > 1 && s[1] == '\n' then 2 else 1..]);
    }
  }

  lemma RStripCons(c: char, s: string)
    ensures RStrip([c] + s) == if RStrip(s) != "" then [c] + RStrip(s) else if IsSpace(c) then "" else [c]
  {
    if RStrip(s) != "" {
      RStripTail([c], s);
    } else {
      RStripBlank([c], s);
      assert [c][..0] == "";
    }
  }

  /** Both texts are blank or neither is, and line boundaries remain in both or in neither. */
  predicate SameBreaks(p: string, q: string) {
    (RStrip(p) == "" <==> RStrip(q) == "") && (NoBreak(RStrip(p)) <==> NoBreak(RStrip(q)))
  }

  /** The same character before both, or a line boundary that is white space before each. */
  lemma SameBreaksCons(c: char, d: char, p: string, q: string)
    requires SameBreaks(p, q) && (c == d || (IsBreak(c) && IsBreak(d)))
    ensures SameBreaks([c] + p, [d] + q)
  {
    hide RStrip;
    RStripCons(c, p);
    RStripCons(d, q);
    BreaksAreSpaces(c);
    BreaksAreSpaces(d);
    NoBreakCons(c, RStrip(p));
    NoBreakCons(d, RStrip(q));
    NoBreakCons(c, "");
    NoBreakCons(d, "");
    assert [c] + "" == [c] && [d] + "" == [d];
  }

  lemma NoBreakCons(c: char, s: string)
    ensures NoBreak([c] + s) <==> !IsBreak(c) && NoBreak(s)
  {
    hide IsBreak;
    assert forall i :: 0 <= i < |s| ==> ([c] + s)[i + 1] == s[i];
    assert ([c] + s)[0] == c;
  }

  /** A carriage return before a newline adds nothing. */
  lemma SameBreaksPair(p: string)
    ensures SameBreaks("\r\n" + p, "\n" + p)
  {
    hide RStrip;
    RStripCons('\n', p);
    RStripCons('\r', "\n" + p);
    assert "\r\n" + p == ['\r'] + ("\n" + p);
    NoBreakCons('\n', RStrip(p));
    NoBreakCons('\r', "\n" + RStrip(p));
  }

  /** Reading a line of text as the host does keeps its end, and what matters of its boundaries. */
  lemma {:induction false} UniversalLine(p: string) returns (q: string)
    ensures Universal(p + "\n") == q + "\n" && SameBreaks(p, q)
    decreases |p|
  {
    hide SameBreaks;
    if p == "" || p == "\r" {
      q := "";
      LastLine();
      assert "" + "\n" == "\n" && "\r" + "\n" == "\r\n";
    } else if p[0] != '\r' {
      var rest := UniversalLine(p[1..]);
      q := [p[0]] + rest;
      assert (p + "\n")[1..] == p[1..] + "\n" && p == [p[0]] + p[1..];
      SameBreaksCons(p[0], p[0], p[1..], rest);
    } else if p[1] != '\n' {
      var rest := UniversalLine(p[1..]);
      q := "\n" + rest;
      assert (p + "\n")[1..] == p[1..] + "\n" && p == ['\r'] + p[1..];
      SameBreaksCons('\r', '\n', p[1..], rest);
    } else {
      var rest := UniversalLine(p[2..]);
      q := "\n" + rest;
      assert (p + "\n")[2..] == p[2..] + "\n" && p == "\r\n" + p[2..];
      SameBreaksPair(p[2..]);
      SameBreaksCons('\n', '\n', p[2..], rest);
      SameBreaksTransitive(p, "\n" + p[2..], q);
    }
  }

  lemma SameBreaksTransitive(p: string, q: string, r: string)
    requires SameBreaks(p, q) && SameBreaks(q, r)
    ensures SameBreaks(p, r)
  {
  }

  lemma LastLine()
    ensures Universal("\n") == "\n" && Universal("\r\n") == "\n" && SameBreaks("", "") && SameBreaks("\r", "")
  {
    assert "\r\n"[2..] == "" && "\n"[1..] == "" && "\r"[..0] == "";
  }

  /** What the host sees of a printable line and a marked human line. */
  lemma UniversalParts(text: string, mark: string, p: string) returns (q: string)
    requires Printable(text) && Printable(mark)
    ensures Universal(text + "\n" + (mark + " " + p + "\n")) == text + "\n" + (mark + " " + q + "\n")
    ensures NoBreak(RStrip(q)) <==> NoBreak(RStrip(p))
  {
    hide Universal, RStrip;
    q := UniversalLine(p);
    var head := text + "\n" + mark + " ";
    assert forall i :: 0 <= i < |head| ==> head[i] != '\r';
    UniversalPlain(head, p + "\n");
    assert text + "\n" + (mark + " " + p + "\n") == head + (p + "\n");
    assert text + "\n" + (mark + " " + q + "\n") == head + (q + "\n");
  }

  /** The host raises the image of the container's exception whenever the stderr is legible,
      and `RpcUnavailableError` whenever it is not. */
  lemma CategoryRoundTrip(loads: Loads, dumps: map<Key, Value> -> string, e: Failure, message: string)
    requires DumpsEnvelopes(loads, dumps)
    ensures HostFailure(loads, HostStderr(dumps, e, message)) ==
            if Legible(dumps, e, message) then Image(e) else RpcUnavailableError
  {
    var text := dumps(Envelope(Category(e)));
    var v := loads(text).value;
    CategoryRead(e);
    EnvelopeRead(Category(e), v);
    MarkIsPlain();
    var q := UniversalParts(text, MARK, PrintedMessage(e, message));
    HostReads(loads, text, v, q);
  }

  /** Hence the class survives exactly when its stderr is legible or its image is the default anyway. */
  lemma CategorySurvivesIff(loads: Loads, dumps: map<Key, Value> -> string, e: Failure, message: string)
    requires DumpsEnvelopes(loads, dumps)
    ensures HostFailure(loads, HostStderr(dumps, e, message)) == Image(e) <==>
            Legible(dumps, e, message) || Image(e) == RpcUnavailableError
  {
    CategoryRoundTrip(loads, dumps, e, message);
  }

  // ----- The words -----

  /** The category that each exception is given. */
  lemma CategoryWords(e: Failure)
    ensures Category(e) == "authentication" <==> e == RpcAuthenticationError
    ensures Category(e) == "incompatible" <==> e == RpcIncompatibleNodeError
    ensures Category(e) == "timeout" <==> e == RpcTimeoutError
    ensures Category(e) == "unavailable" <==> e == RpcUnavailableError
    ensures Category(e) == "not_found" <==> e == RpcResourceNotFoundError
    ensures Category(e) == "malformed_response" <==>
      e in {RpcMalformedResponseError, RpcProtocolError, RpcResponseSizeExceededError}
    ensures Category(e) == "configuration" <==> e == ConfigurationError
    ensures Category(e) == "unexpected" <==>
      e in {RpcError, RpcExecutionContextError, LifecycleError, RuntimeUnavailableError, StartupTimeoutError,
            ShutdownTimeoutError, NodeIncompatibleError, ExecutionContextError, ValueError, OtherException}
  {
    assert |"authentication"| == 14 && |"incompatible"| == 12 && |"timeout"| == 7 && |"malformed_response"| == 18;
    assert |"not_found"| == 9 && |"unavailable"| == 11 && |"configuration"| == 13 && |"unexpected"| == 10;
  }

  /** What `main` writes: the envelope on a line of its own, then a human line. */
  lemma StderrWords(dumps: map<Key, Value> -> string, e: Failure, message: string)
    ensures var shown := if e in {ConfigurationError, ValueError, OtherException} then "An unexpected error occurred."
                         else message;
      var envelope := map[Key.schema := Value.Text(Str("bitheim.delegated-error")), Key.version := Int(1),
                          Key.category := Value.Text(Str(Category(e)))];
      MainStderr(dumps, e, message) == dumps(envelope) + "\nbitheim: error: " + shown + "\n"
  {
    hide Category;
    Regrouped(dumps(Envelope(Category(e))), PrintedMessage(e, message));
  }

  lemma Regrouped(head: string, shown: string)
    ensures head + "\n" + (MARK + " " + shown + "\n") == head + "\nbitheim: error: " + shown + "\n"
  {
    assert "\n" + (MARK + " ") == "\nbitheim: error: ";
    assert head + "\n" + (MARK + " " + shown + "\n") == head + ("\n" + (MARK + " ")) + shown + "\n";
  }

  /** Stderr of at most 16384 bytes whose first line is an envelope of this category, alone or before one line that
      begins with "bitheim: error:". */
  predicate SaysCategory(loads: Loads, stderr: string, word: string) {
    stderr != "" && Utf8Len(stderr) <= 16384 &&
    var lines := SplitLines(Strip(stderr));
    (|lines| == 1 || (|lines| == 2 && |lines[1]| >= 15 && lines[1][..15] == "bitheim: error:")) &&
    var line := Strip(lines[0]);
    line != "" && line[0] == '{' && line[|line| - 1] == '}' &&
    var v := loads(line);
    v.Some? && UniqueDeep(v.value) && IsEnvelope(v.value) &&
    Get(v.value.fields, Key.category) == Value.Text(Str(word))
  }

  /** An object with three members: the schema's name, version 1 and a category. */
  predicate IsEnvelope(v: Value) {
    v.Obj? && AsMap(v.fields).Keys == {Key.schema, Key.version, Key.category} &&
    Get(v.fields, Key.schema) == Value.Text(Str("bitheim.delegated-error")) && IsOne(Get(v.fields, Key.version))
  }

  /** The number 1, however it is written, or `true`. */
  predicate IsOne(v: Value) {
    v == Int(1) || v == Flt(Finite(1.0)) || v == Num(Dec(false, 1, 0)) || v == Bool(true)
  }

  lemma ReadableIff(lines: seq<string>)
    ensures ReadableLines(lines) <==>
      |lines| == 1 || (|lines| == 2 && |lines[1]| >= 15 && lines[1][..15] == "bitheim: error:")
  {
    assert |MARK| == 15;
  }

  lemma EnvelopeFailureIff(v: Value)
    ensures EnvelopeFailure(v) == if IsEnvelope(v) then CategoryFailure(Get(v.fields, Key.category)) else None
  {
    hide AsMap, CategoryFailure;
  }

  /** The word for a category that the host knows. */
  predicate IsWord(word: string, e: Failure) {
    match e
    case RpcAuthenticationError => word == "authentication"
    case RpcIncompatibleNodeError => word == "incompatible"
    case RpcTimeoutError => word == "timeout"
    case RpcMalformedResponseError => word == "malformed_response"
    case RpcResourceNotFoundError => word == "not_found"
    case _ => false
  }

  lemma CategoryFailureIff(category: Value, e: Failure)
    requires e != RpcUnavailableError
    ensures CategoryFailure(category) == Some(e) <==>
      category.Text? && category.t.Str? && IsWord(category.t.s, e)
  {
    assert |"authentication"| == 14 && |"incompatible"| == 12 && |"timeout"| == 7 && |"malformed_response"| == 18;
    assert |"not_found"| == 9;
  }

  /** The host raises anything but `RpcUnavailableError` exactly when stderr holds an envelope with the word for it,
      and `RpcUnavailableError` for everything else. */
  lemma HostFailureIff(loads: Loads, stderr: string, e: Failure)
    requires e != RpcUnavailableError
    ensures HostFailure(loads, stderr) == e <==> exists word :: SaysCategory(loads, stderr, word) && IsWord(word, e)
  {
    hide EnvelopeFailure, CategoryFailure, Strip, SplitLines, Utf8Len, UniqueDeep, AsMap, ReadableLines, IsWord;
    var lines := SplitLines(Strip(stderr));
    ReadableIff(lines);
    if |lines| >= 1 {
      var v := loads(Strip(lines[0]));
      if v.Some? {
        EnvelopeFailureIff(v.value);
        if IsEnvelope(v.value) {
          CategoryFailureIff(Get(v.value.fields, Key.category), e);
        }
      }
    }
  }
}
