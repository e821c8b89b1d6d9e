/** Reading `docker compose ps --format json`. */
module Containers {
  import opened Outcome
  import opened Text
  import opened Json
  import opened Domain
  import opened Process

  /** The objects among the values, in order. */
  function Objects(items: seq<Value>): seq<Fields> {
    if items == [] then [] else
      (if items[0].Obj? then [items[0].fields] else []) + Objects(items[1..])
  }

  /** One JSON value a line, blank lines skipped, objects added to those already found;
      `None` when a line is not JSON. */
  function LineObjects(loads: Loads, lines: seq<string>, found: seq<Fields>): Option<seq<Fields>> {
    if lines == [] then Some(found)
    else if Strip(lines[0]) == "" then LineObjects(loads, lines[1..], found)
    else
      var v := loads(Strip(lines[0]));
      if v.None? then None
      else LineObjects(loads, lines[1..], if v.value.Obj? then found + [v.value.fields] else found)
  }

  function Listed(loads: Loads, text: string): Option<seq<Fields>> {
    if StartsWith(text, "[") then
      var v := loads(text);
      if v.None? then None
      else if v.value.Arr? then Some(Objects(v.value.items))
      else Some([])
    else
      LineObjects(loads, SplitLines(text), [])
  }

  predicate IsCore(c: Fields) { IsText(Get(c, Key.Service), "bitcoin-core") }

  /** `str(value).lower()`, or the empty word for a value that spells no known word. */
  function Word(v: Value): string { if v.Text? && v.t.Str? then Lower(v.t.s) else "" }

  function StateOfCore(c: Fields): LifecycleState {
    var word := Word(Get(c, Key.State));
    if word == "running" then
      if Word(Get(c, Key.Health)) == "unhealthy" then UNHEALTHY else STARTING
    else if word == "exited" || word == "dead" || word == "created" then STOPPED
    else UNKNOWN
  }

  function FirstCore(cs: seq<Fields>): (state: LifecycleState)
    ensures state !in {HEALTHY, INCOMPATIBLE}
  {
    if cs == [] then UNKNOWN
    else if IsCore(cs[0]) then StateOfCore(cs[0])
    else FirstCore(cs[1..])
  }

  function PsState(loads: Loads, out: string): (state: LifecycleState)
    ensures state !in {HEALTHY, INCOMPATIBLE}
  {
    var text := Strip(out);
    if text == "" then STOPPED else
      var cs := Listed(loads, text);
      if cs.None? then UNKNOWN
      else if cs.value == [] then STOPPED
      else FirstCore(cs.value)
  }

  lemma {:induction false} FirstCoreIs(cs: seq<Fields>, i: nat)
    requires i < |cs| && IsCore(cs[i]) && forall j :: 0 <= j < i ==> !IsCore(cs[j])
    ensures FirstCore(cs) == StateOfCore(cs[i])
  {
    if i == 0 {
    } else {
      FirstCoreIs(cs[1..], i - 1);
    }
  }

  lemma {:induction false} NoCore(cs: seq<Fields>)
    requires forall j :: 0 <= j < |cs| ==> !IsCore(cs[j])
    ensures FirstCore(cs) == UNKNOWN
  {
    if cs == [] {
    } else {
      NoCore(cs[1..]);
    }
  }

  // ----- The reading, in words -----

  /** The first entry for the service "bitcoin-core". */
  predicate FirstCoreAt(cs: seq<Fields>, i: int) {
    0 <= i < |cs| && IsText(Get(cs[i], Key.Service), "bitcoin-core") &&
    forall j :: 0 <= j < i ==> !IsText(Get(cs[j], Key.Service), "bitcoin-core")
  }

  predicate SaysRunning(c: Fields) { Spells(Get(c, Key.State), "running") }

  predicate SaysUnhealthy(c: Fields) { Spells(Get(c, Key.Health), "unhealthy") }

  predicate SaysAtRest(c: Fields) {
    Spells(Get(c, Key.State), "exited") || Spells(Get(c, Key.State), "dead") || Spells(Get(c, Key.State), "created")
  }

  /** The state that belongs to what the entry says. */
  predicate EntryReads(c: Fields, state: LifecycleState) {
    (state == STARTING <==> SaysRunning(c) && !SaysUnhealthy(c)) &&
    (state == UNHEALTHY <==> SaysRunning(c) && SaysUnhealthy(c)) &&
    (state == STOPPED <==> SaysAtRest(c)) &&
    (state == UNKNOWN <==> !SaysRunning(c) && !SaysAtRest(c))
  }

  /** The state that belongs to a list of entries: that of the first bitcoin-core entry, UNKNOWN without one. */
  predicate EntriesRead(cs: seq<Fields>, state: LifecycleState) {
    (forall i :: 0 <= i < |cs| && FirstCoreAt(cs, i) ==> EntryReads(cs[i], state)) &&
    ((forall i :: 0 <= i < |cs| ==> !IsText(Get(cs[i], Key.Service), "bitcoin-core")) ==> state == UNKNOWN)
  }

  /** The state that belongs to the whole output: STOPPED if it lists no entry, UNKNOWN if it is not JSON. */
  predicate OutputReads(loads: Loads, out: string, state: LifecycleState) {
    if Strip(out) == "" then state == STOPPED
    else
      var cs := Listed(loads, Strip(out));
      if cs.None? then state == UNKNOWN
      else if cs.value == [] then state == STOPPED
      else EntriesRead(cs.value, state)
  }

  lemma WordsDiffer()
    ensures "running" != "exited" && "running" != "dead" && "running" != "created" && "running" != "" && "" != "exited"
    ensures "exited" != "dead" && "exited" != "created" && "dead" != "created" && "" != "dead" && "" != "created"
  {
    assert "running"[0] != "exited"[0] && "running"[0] != "created"[0] && "exited"[0] != "created"[0];
    assert |"dead"| == 4 && |"exited"| == 6 && |"running"| == 7 && |"created"| == 7;
  }

  lemma CoreRead(c: Fields)
    ensures EntryReads(c, StateOfCore(c))
  {
    hide AsMap, Lower;
    WordsDiffer();
  }

  lemma FirstCoreRead(cs: seq<Fields>)
    ensures EntriesRead(cs, FirstCore(cs))
  {
    hide EntryReads, StateOfCore, IsText, FirstCore;
    forall i | FirstCoreAt(cs, i) ensures EntryReads(cs[i], FirstCore(cs)) {
      FirstCoreIs(cs, i);
      CoreRead(cs[i]);
    }
    if forall i :: 0 <= i < |cs| ==> !IsText(Get(cs[i], Key.Service), "bitcoin-core") {
      NoCore(cs);
    }
  }

  /** Which state the output of `ps` is read as, for all output. */
  lemma PsStateRead(loads: Loads, out: string)
    ensures OutputReads(loads, out, PsState(loads, out))
  {
    hide EntriesRead, FirstCore, Listed, Strip;
    var listed := Listed(loads, Strip(out));
    if listed.Some? {
      FirstCoreRead(listed.value);
    }
  }

  /** The output's first bitcoin-core entry says that it is running. */
  predicate ShowsRunning(loads: Loads, out: string) {
    Strip(out) != "" &&
    var cs := Listed(loads, Strip(out));
    cs.Some? && exists i :: 0 <= i < |cs.value| && FirstCoreAt(cs.value, i) && SaysRunning(cs.value[i])
  }

  /** The output lists no container at all, or its first bitcoin-core container is at rest. */
  predicate AtRest(loads: Loads, out: string) {
    Strip(out) == "" ||
    var cs := Listed(loads, Strip(out));
    cs.Some? && (cs.value == [] ||
      exists i :: 0 <= i < |cs.value| && FirstCoreAt(cs.value, i) && SaysAtRest(cs.value[i]))
  }

  /** Running is read exactly from the word "running", and STOPPED exactly from its three words or from output
      without any entry. Output that is JSON but holds no object (such as `[]` or `5`) is such. */
  lemma StoppedIffAtRest(loads: Loads, out: string)
    ensures PsState(loads, out) == STOPPED <==> AtRest(loads, out)
    ensures PsState(loads, out) in {STARTING, UNHEALTHY} <==> ShowsRunning(loads, out)
  {
    hide Strip, Listed, SaysRunning, SaysAtRest, SaysUnhealthy, IsText, FirstCore, PsState;
    PsStateRead(loads, out);
    var listed := Listed(loads, Strip(out));
    if Strip(out) != "" && listed.Some? && exists i :: 0 <= i < |listed.value| && IsCore(listed.value[i]) {
      var i := LeastCore(listed.value);
      assert FirstCoreAt(listed.value, i);
      forall k | FirstCoreAt(listed.value, k) ensures k == i {
      }
    }
  }

  // ----- What is listed -----

  /** The objects among the values, one after another: the only function that keeps single objects, drops
      everything else and respects joining. */
  lemma {:induction false} ObjectsJoined(a: seq<Value>, b: seq<Value>)
    ensures Objects(a + b) == Objects(a) + Objects(b)
    ensures forall f :: Objects([Obj(f)]) == [f]
    ensures forall v: Value :: !v.Obj? ==> Objects([v]) == []
  {
    hide Objects;
    if a == [] {
      NoObjects();
      assert a + b == b && [] + Objects(b) == Objects(b);
    } else {
      ObjectsJoined(a[1..], b);
      ObjectsNext(a);
      ObjectsNext(a + b);
      assert (a + b)[0] == a[0] && (a + b)[1..] == a[1..] + b;
    }
    SingleObject();
  }

  lemma SingleObject()
    ensures forall f :: Objects([Obj(f)]) == [f]
    ensures forall v: Value :: !v.Obj? ==> Objects([v]) == []
  {
    assert forall v: Value :: [v][1..] == [];
  }

  /** Text that is not an array is read line by line, blank lines left out: all lines must be JSON. */
  lemma {:induction false} LinesListed(loads: Loads, lines: seq<string>, found: seq<Fields>, vs: seq<Value>)
    requires |vs| == |StripAll(lines)|
    requires forall i :: 0 <= i < |vs| ==> loads(StripAll(lines)[i]) == Some(vs[i])
    ensures LineObjects(loads, lines, found) == Some(found + Objects(vs))
  {
    hide Strip, StripAll, Objects;
    StripAllNext(lines);
    if lines == [] {
      NoObjects();
      assert found + [] == found;
    } else if Strip(lines[0]) == "" {
      LinesListed(loads, lines[1..], found, vs);
    } else {
      var rest := StripAll(lines[1..]);
      var x := Strip(lines[0]);
      assert ([x] + rest)[0] == x && loads(x) == Some(vs[0]);
      forall i | 0 <= i < |rest| ensures loads(rest[i]) == Some(vs[1..][i]) {
        assert ([x] + rest)[i + 1] == rest[i];
      }
      var one := if vs[0].Obj? then [vs[0].fields] else [];
      LinesListed(loads, lines[1..], found + one, vs[1..]);
      ObjectsNext(vs);
      assert found + one + Objects(vs[1..]) == found + (one + Objects(vs[1..]));
      assert one == [] ==> found + one == found;
    }
  }

  lemma NoObjects()
    ensures Objects([]) == []
  {
  }

  lemma ObjectsNext(vs: seq<Value>)
    requires vs != []
    ensures Objects(vs) == (if vs[0].Obj? then [vs[0].fields] else []) + Objects(vs[1..])
  {
  }

  lemma {:induction false} LinesRefused(loads: Loads, lines: seq<string>, found: seq<Fields>, x: string)
    requires x in StripAll(lines) && loads(x) == None
    ensures LineObjects(loads, lines, found) == None
  {
    hide Strip;
    if loads(Strip(lines[0])).Some? || Strip(lines[0]) == "" {
      assert forall f :: x in StripAll(lines[1..]) ==> LineObjects(loads, lines[1..], f) == None by {
        forall f | x in StripAll(lines[1..]) ensures LineObjects(loads, lines[1..], f) == None {
          LinesRefused(loads, lines[1..], f, x);
        }
      }
    }
  }

  /** What `ps` output lists, for all output: the objects of one array, or of the values on the lines. */
  lemma ListedExact(loads: Loads, text: string, vs: seq<Value>)
    ensures |text| > 0 && text[0] == '[' && loads(text) == Some(Arr(vs)) ==> Listed(loads, text) == Some(Objects(vs))
    ensures |text| > 0 && text[0] == '[' && loads(text) == None ==> Listed(loads, text) == None
    ensures (text == "" || text[0] != '[') && |vs| == |StripAll(SplitLines(text))| &&
            (forall i :: 0 <= i < |vs| ==> loads(StripAll(SplitLines(text))[i]) == Some(vs[i])) ==>
              Listed(loads, text) == Some(Objects(vs))
    ensures (text == "" || text[0] != '[') && (exists x :: x in StripAll(SplitLines(text)) && loads(x) == None) ==>
              Listed(loads, text) == None
  {
    hide SplitLines, StripAll, Objects, LineObjects;
    assert |text| > 0 ==> text[..1] == [text[0]];
    var lines := SplitLines(text);
    if |vs| == |StripAll(lines)| && forall i :: 0 <= i < |vs| ==> loads(StripAll(lines)[i]) == Some(vs[i]) {
      LinesListed(loads, lines, [], vs);
      assert [] + Objects(vs) == Objects(vs);
    }
    if x :| x in StripAll(lines) && loads(x) == None {
      LinesRefused(loads, lines, [], x);
    }
  }

  /** So a lone number is read as a node at rest. */
  lemma NumberReadsStopped(loads: Loads)
    requires loads("5") == Some(Int(5))
    ensures PsState(loads, "5") == STOPPED
  {
    hide Strip, SplitLines;
    StripTight("5");
    OneLine("5");
  }

  lemma {:induction false} LeastCore(cs: seq<Fields>) returns (i: nat)
    requires exists k :: 0 <= k < |cs| && IsCore(cs[k])
    ensures i < |cs| && IsCore(cs[i]) && forall j :: 0 <= j < i ==> !IsCore(cs[j])
  {
    i := 0;
    while !IsCore(cs[i])
      invariant i < |cs| && forall j :: 0 <= j < i ==> !IsCore(cs[j])
      decreases |cs| - i
    {
      i := i + 1;
    }
  }

  /** The adapter's loop over output written one value a line. */
  method ReadLines(loads: Loads, lines: seq<string>) returns (containers: Option<seq<Fields>>)
    ensures containers == LineObjects(loads, lines, [])
  {
    var found: seq<Fields> := [];
    var n := 0;
    while n < |lines|
      invariant n <= |lines|
      invariant LineObjects(loads, lines, []) == LineObjects(loads, lines[n..], found)
    {
      var stripped := Strip(lines[n]);
      assert lines[n..][0] == lines[n] && lines[n..][1..] == lines[n + 1..];
      if stripped != "" {
        var obj := loads(stripped);
        if obj.None? {
          return None;
        }
        if obj.value.Obj? {
          found := found + [obj.value.fields];
        }
      }
      n := n + 1;
    }
    return Some(found);
  }

  /** The adapter's search for the bitcoin-core service. */
  method FindCore(containers: seq<Fields>) returns (state: LifecycleState)
    ensures state == FirstCore(containers) && EntriesRead(containers, state)
  {
    FirstCoreRead(containers);
    for k := 0 to |containers|
      invariant FirstCore(containers) == FirstCore(containers[k..])
    {
      if IsCore(containers[k]) {
        return StateOfCore(containers[k]);
      }
    }
    return UNKNOWN;
  }

  method ReadPs(loads: Loads, out: string) returns (state: LifecycleState)
    ensures state == PsState(loads, out) && OutputReads(loads, out, state)
  {
    hide EntriesRead;
    PsStateRead(loads, out);
    var text := Strip(out);
    if text == "" {
      return STOPPED;
    }
    var containers: Option<seq<Fields>>;
    if StartsWith(text, "[") {
      var parsed := loads(text);
      if parsed.None? {
        return UNKNOWN;
      }
      containers := Some(if parsed.value.Arr? then Objects(parsed.value.items) else []);
    } else {
      containers := ReadLines(loads, SplitLines(text));
    }
    if containers.None? {
      return UNKNOWN;
    }
    if containers.value == [] {
      return STOPPED;
    }
    state := FindCore(containers.value);
  }
}
