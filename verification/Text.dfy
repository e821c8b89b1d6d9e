/** The parts of Python's `str` that the program relies on: stripping, line splitting,
    case folding of ASCII words, UTF-8 length, and the anchored hexadecimal patterns. */
module Text {

  /** The characters at which `str.splitlines` breaks. */
  predicate IsBreak(c: char) {
    c == '\n' || c == '\r' || c == '\U{0B}' || c == '\U{0C}' || c == '\U{1C}' || c == '\U{1D}' ||
    c == '\U{1E}' || c == '\U{85}' || c == '\U{2028}' || c == '\U{2029}'
  }

  /** The characters that `str.strip` and `str.split` treat as white space. */
  predicate IsSpace(c: char) {
    '\t' <= c <= '\r' || '\U{1C}' <= c <= ' ' || c == '\U{85}' || c == '\U{A0}' || c == '\U{1680}' ||
    '\U{2000}' <= c <= '\U{200A}' || c == '\U{2028}' || c == '\U{2029}' || c == '\U{202F}' ||
    c == '\U{205F}' || c == '\U{3000}'
  }

  function LStrip(s: string): (r: string)
    ensures r == "" || !IsSpace(r[0])
    ensures |r| <= |s| && r == s[|s| - |r|..]
    ensures forall i :: 0 <= i < |s| - |r| ==> IsSpace(s[i])
  {
    if s != "" && IsSpace(s[0]) then LStrip(s[1..]) else s
  }

  function RStrip(s: string): (r: string)
    ensures r == "" || !IsSpace(r[|r| - 1])
    ensures |r| <= |s| && r == s[..|r|]
    ensures forall i :: |r| <= i < |s| ==> IsSpace(s[i])
  {
    if s != "" && IsSpace(s[|s| - 1]) then RStrip(s[..|s| - 1]) else s
  }

  function Strip(s: string): (r: string)
    ensures r == "" || (!IsSpace(r[0]) && !IsSpace(r[|r| - 1]))
  {
    RStrip(LStrip(s))
  }

  /** Exactly the white space at both ends goes. */
  lemma StripExact(s: string) returns (i: nat, j: nat)
    ensures i <= j <= |s| && Strip(s) == s[i..j]
    ensures forall k :: 0 <= k < |s| && !(i <= k < j) ==> IsSpace(s[k])
    ensures i < j ==> !IsSpace(s[i]) && !IsSpace(s[j - 1])
  {
    hide IsSpace, LStrip, RStrip;
    var t := LStrip(s);
    var r := RStrip(t);
    i := |s| - |t|;
    j := i + |r|;
    assert s[i..j] == r;
    forall k | j <= k < |s| ensures IsSpace(s[k]) {
      assert s[k] == t[k - i];
    }
  }

  /** Text that neither begins nor ends with white space is left alone. */
  lemma StripTight(s: string)
    requires s == "" || (!IsSpace(s[0]) && !IsSpace(s[|s| - 1]))
    ensures Strip(s) == s
  {
  }

  /** Index of the first line boundary, or the length. */
  function LineEnd(s: string): (n: nat)
    ensures n <= |s|
    ensures forall i :: 0 <= i < n ==> !IsBreak(s[i])
    ensures n < |s| ==> IsBreak(s[n])
  {
    if s == "" || IsBreak(s[0]) then 0 else 1 + LineEnd(s[1..])
  }

  /** `str.splitlines()`: terminators dropped, "\r\n" counted once, no final empty line. */
  function SplitLines(s: string): (lines: seq<string>)
    ensures s == "" <==> lines == []
  {
    if s == "" then [] else
      var n := LineEnd(s);
      if n == |s| then [s]
      else
        var w := if s[n] == '\r' && n + 1 < |s| && s[n + 1] == '\n' then 2 else 1;
        [s[..n]] + SplitLines(s[n + w..])
  }

  /** A line stands there: between line boundaries, the pair "\r\n" counting as one, or at an end of the
      text that is not empty. */
  predicate LineAt(s: string, i: int, j: int) {
    0 <= i <= j <= |s| && (forall k :: i <= k < j ==> !IsBreak(s[k])) &&
    (i == 0 || (IsBreak(s[i - 1]) && !(s[i - 1] == '\r' && i < |s| && s[i] == '\n'))) &&
    (if j == |s| then i < j else IsBreak(s[j]))
  }

  ghost predicate LineFrom(s: string, k: nat, line: string) {
    exists i, j :: k <= i && LineAt(s, i, j) && s[i..j] == line
  }

  /** The lines are exactly the stretches that stand so. */
  lemma LinesIff(s: string, line: string)
    ensures line in SplitLines(s) <==> exists i, j :: LineAt(s, i, j) && s[i..j] == line
  {
    LinesFrom(s, 0, line);
    assert s[0..] == s;
  }

  lemma {:induction false} LinesFrom(s: string, k: nat, line: string)
    requires k <= |s| && (k == 0 || (IsBreak(s[k - 1]) && !(s[k - 1] == '\r' && k < |s| && s[k] == '\n')))
    ensures line in SplitLines(s[k..]) <==> LineFrom(s, k, line)
    decreases |s| - k
  {
    hide IsBreak, LineFrom, LineEnd, SplitLines;
    var t := s[k..];
    LinesUnfold(t);
    if t == "" {
      NoLineLeft(s, line);
    } else {
      var n := k + LineEnd(t);
      TailSlices(s, k, n);
      assert forall i :: k <= i < n ==> s[i] == t[i - k];
      if n == |s| {
        assert t == s[k..n];
        LineStep(s, k, n, n, line);
        NoLineLeft(s, line);
      } else {
        assert s[n] == t[n - k] && (n + 1 < |s| ==> s[n + 1] == t[n + 1 - k]);
        var next := n + if s[n] == '\r' && n + 1 < |s| && s[n + 1] == '\n' then 2 else 1;
        BreaksFeed();
        TailSlices(s, k, next);
        LineStep(s, k, n, next, line);
        LinesFrom(s, next, line);
      }
    }
  }

  lemma TailSlices(s: string, a: nat, b: nat)
    requires a <= b <= |s|
    ensures s[a..][..b - a] == s[a..b] && s[a..][b - a..] == s[b..]
  {
  }

  lemma LinesUnfold(t: string)
    ensures t == "" ==> SplitLines(t) == []
    ensures t != "" ==>
      var n := LineEnd(t);
      SplitLines(t) == if n == |t| then [t]
        else [t[..n]] + SplitLines(t[n + if t[n] == '\r' && n + 1 < |t| && t[n + 1] == '\n' then 2 else 1..])
  {
    hide LineEnd, IsBreak;
  }

  lemma BreaksFeed()
    ensures IsBreak('\n') && IsBreak('\r')
  {
  }

  lemma NoLineLeft(s: string, line: string)
    ensures !LineFrom(s, |s|, line)
  {
  }

  /** The first of the remaining lines, and those after its terminator. */
  lemma LineStep(s: string, k: nat, n: nat, next: nat, line: string)
    requires LineAt(s, k, n) && n <= next <= |s| && (n < |s| ==> n < next <= n + 2)
    requires next == n + 2 ==> s[n] == '\r' && s[n + 1] == '\n'
    requires next == n + 1 ==> !(s[n] == '\r' && next < |s| && s[next] == '\n')
    ensures LineFrom(s, k, line) <==> line == s[k..n] || LineFrom(s, next, line)
  {
    hide IsBreak;
    BreaksFeed();
    if LineFrom(s, k, line) {
      var i, j :| k <= i && LineAt(s, i, j) && s[i..j] == line;
      if i == k {
        assert j == n;
      } else {
        assert i > n && next <= i;
      }
    }
  }

  predicate NoBreak(s: string) {
    forall i :: 0 <= i < |s| ==> !IsBreak(s[i])
  }

  lemma OneLine(s: string)
    requires s != "" && NoBreak(s)
    ensures SplitLines(s) == [s]
  {
  }

  function WordEnd(s: string): (n: nat)
    ensures n <= |s|
    ensures forall i :: 0 <= i < n ==> !IsSpace(s[i])
    ensures n < |s| ==> IsSpace(s[n])
  {
    if s == "" || IsSpace(s[0]) then 0 else 1 + WordEnd(s[1..])
  }

  /** `str.split()` with no argument. */
  function Words(s: string): seq<string>
    decreases |s|
  {
    var t := LStrip(s);
    if t == "" then [] else
      var n := WordEnd(t);
      [t[..n]] + Words(t[n..])
  }

  /** A word stands there: a stretch without white space that cannot be lengthened. */
  predicate WordAt(s: string, i: int, j: int) {
    0 <= i < j <= |s| && (forall k :: i <= k < j ==> !IsSpace(s[k])) &&
    (i == 0 || IsSpace(s[i - 1])) && (j == |s| || IsSpace(s[j]))
  }

  ghost predicate WordFrom(s: string, k: nat, w: string) {
    exists i, j :: k <= i && WordAt(s, i, j) && s[i..j] == w
  }

  /** The words are exactly the stretches that stand so. */
  lemma WordsIff(s: string, w: string)
    ensures w in Words(s) <==> exists i, j :: WordAt(s, i, j) && s[i..j] == w
  {
    WordsFrom(s, 0, w);
    assert s[0..] == s;
  }

  lemma {:induction false} WordsFrom(s: string, k: nat, w: string)
    requires k <= |s| && (k == 0 || k == |s| || IsSpace(s[k]))
    ensures w in Words(s[k..]) <==> WordFrom(s, k, w)
    decreases |s| - k
  {
    hide IsSpace, WordFrom, WordEnd, LStrip, Words, WordAt;
    var b, n := NextWord(s, k);
    WordsNext(s, k, b, n);
    if b == |s| {
      NoWordLeft(s, k, w);
    } else {
      WordStep(s, k, b, n, w);
      WordsFrom(s, n, w);
    }
  }

  lemma WordsNext(s: string, k: nat, b: nat, n: nat)
    requires k <= b <= n <= |s| && LStrip(s[k..]) == s[b..] && (b < |s| ==> WordEnd(s[b..]) == n - b)
    ensures Words(s[k..]) == if b == |s| then [] else [s[b..n]] + Words(s[n..])
  {
    hide LStrip, WordEnd, Words, IsSpace;
    WordsUnfold(s[k..]);
    if b == |s| {
      assert s[b..] == "";
    } else {
      TailSlices(s, b, n);
      assert s[b..] != "";
    }
  }

  /** Where the next word begins and ends, if there is one. */
  lemma NextWord(s: string, k: nat) returns (b: nat, n: nat)
    requires k <= |s| && (k == 0 || k == |s| || IsSpace(s[k]))
    ensures k <= b <= n <= |s| && (forall i :: k <= i < b ==> IsSpace(s[i])) && LStrip(s[k..]) == s[b..]
    ensures b < |s| ==> WordAt(s, b, n) && WordEnd(s[b..]) == n - b
    ensures n == |s| || (n > b && IsSpace(s[n]))
  {
    hide IsSpace, WordEnd, LStrip, WordAt;
    b := AfterBlanks(s, k);
    n := AfterWord(s, b);
    if b < |s| {
      assert k < b ==> IsSpace(s[b - 1]);
      ThereIsWord(s, b, n);
    }
  }

  lemma AfterBlanks(s: string, k: nat) returns (b: nat)
    requires k <= |s|
    ensures k <= b <= |s| && (forall i :: k <= i < b ==> IsSpace(s[i])) && LStrip(s[k..]) == s[b..]
    ensures b < |s| ==> !IsSpace(s[b])
  {
    hide IsSpace, LStrip;
    var u := s[k..];
    b := |s| - |LStrip(u)|;
    forall i | k <= i < b ensures IsSpace(s[i]) {
      assert s[i] == u[i - k];
    }
    assert u[b - k..] == s[b..];
    assert b < |s| ==> s[b] == s[b..][0];
  }

  lemma AfterWord(s: string, b: nat) returns (n: nat)
    requires b <= |s|
    ensures b <= n <= |s| && WordEnd(s[b..]) == n - b && forall i :: b <= i < n ==> !IsSpace(s[i])
    ensures n == |s| || IsSpace(s[n])
  {
    hide IsSpace, WordEnd;
    var t := s[b..];
    n := b + WordEnd(t);
    forall i | b <= i < n ensures !IsSpace(s[i]) {
      assert s[i] == t[i - b];
    }
    assert n < |s| ==> s[n] == t[n - b];
  }

  lemma ThereIsWord(s: string, b: nat, n: nat)
    requires b <= n <= |s| && b < |s| && !IsSpace(s[b]) && forall i :: b <= i < n ==> !IsSpace(s[i])
    requires (b == 0 || IsSpace(s[b - 1])) && (n == |s| || IsSpace(s[n]))
    ensures b < n && WordAt(s, b, n)
  {
    hide IsSpace;
  }

  lemma WordsUnfold(u: string)
    ensures var t := LStrip(u);
      Words(u) == if t == "" then [] else [t[..WordEnd(t)]] + Words(t[WordEnd(t)..])
  {
    hide LStrip, WordEnd, IsSpace;
  }

  lemma NotBlank(s: string, i: int, j: int)
    requires WordAt(s, i, j)
    ensures !IsSpace(s[i])
  {
  }

  lemma NoWordLeft(s: string, k: nat, w: string)
    requires k <= |s| && forall i :: k <= i < |s| ==> IsSpace(s[i])
    ensures !WordFrom(s, k, w)
  {
    hide IsSpace;
    if WordFrom(s, k, w) {
      var i, j :| k <= i && WordAt(s, i, j) && s[i..j] == w;
      NotBlank(s, i, j);
    }
  }

  /** The first of the remaining words, and those after it. */
  lemma WordStep(s: string, k: nat, b: nat, n: nat, w: string)
    requires k <= b && WordAt(s, b, n) && forall i :: k <= i < b ==> IsSpace(s[i])
    ensures WordFrom(s, k, w) <==> w == s[b..n] || WordFrom(s, n, w)
  {
    hide IsSpace;
    if WordFrom(s, k, w) {
      var i, j :| k <= i && WordAt(s, i, j) && s[i..j] == w;
      assert !IsSpace(s[i]);
      if i == b {
        assert j < |s| ==> IsSpace(s[j]);
        assert n < |s| ==> IsSpace(s[n]);
      } else {
        assert i >= n;
      }
    }
  }

  /** `[x.strip() for x in lines if x.strip()]` */
  function StripAll(lines: seq<string>): seq<string> {
    if lines == [] then [] else
      (if Strip(lines[0]) != "" then [Strip(lines[0])] else []) + StripAll(lines[1..])
  }

  lemma StripAllNext(lines: seq<string>)
    ensures lines == [] ==> StripAll(lines) == []
    ensures lines != [] && Strip(lines[0]) == "" ==> StripAll(lines) == StripAll(lines[1..])
    ensures lines != [] && Strip(lines[0]) != "" ==> StripAll(lines) == [Strip(lines[0])] + StripAll(lines[1..])
  {
    hide Strip;
  }

  lemma {:induction false} StripAllIff(lines: seq<string>, x: string)
    ensures x in StripAll(lines) <==> x != "" && exists line :: line in lines && Strip(line) == x
  {
    hide Strip;
    if lines == [] {
    } else {
      StripAllIff(lines[1..], x);
      assert forall line :: line in lines <==> line == lines[0] || line in lines[1..];
    }
  }

  /** `str.lower` as far as comparison with ASCII words can see it: the ASCII capitals, and
      the Kelvin sign, the only other character whose lower-case form is one ASCII letter. */
  function LowerChar(c: char): char {
    if 'A' <= c <= 'Z' then (c as int + 32) as char
    else if c == '\U{212A}' then 'k'
    else c
  }

  function Lower(s: string): (r: string)
    ensures |r| == |s|
    ensures forall i :: 0 <= i < |s| ==> r[i] == LowerChar(s[i])
  {
    seq(|s|, i requires 0 <= i < |s| => LowerChar(s[i]))
  }

  /** Text lowers to an ASCII word exactly when it spells it in capitals and small letters, "k" also as the Kelvin
      sign. */
  lemma LowersTo(s: string, word: string)
    requires forall i :: 0 <= i < |word| ==> 97 <= word[i] as int <= 122
    ensures Lower(s) == word <==>
      |s| == |word| && forall i :: 0 <= i < |s| ==>
        s[i] == word[i] || s[i] as int + 32 == word[i] as int || (word[i] == 'k' && s[i] == '\U{212A}')
  {
    if |s| == |word| {
      assert forall i :: 0 <= i < |s| ==> Lower(s)[i] == LowerChar(s[i]);
    }
  }

  /** The code points of white space and of line boundaries. */
  lemma CodePoints(c: char)
    ensures IsSpace(c) <==>
      c as int in {9, 10, 11, 12, 13, 28, 29, 30, 31, 32, 133, 160, 5760, 8192, 8193, 8194, 8195, 8196, 8197, 8198,
                   8199, 8200, 8201, 8202, 8232, 8233, 8239, 8287, 12288}
    ensures IsBreak(c) <==> c as int in {10, 11, 12, 13, 28, 29, 30, 133, 8232, 8233}
  {
  }

  predicate StartsWith(s: string, prefix: string) {
    |prefix| <= |s| && s[..|prefix|] == prefix
  }

  /** `part in s` */
  predicate HasPart(s: string, part: string) {
    StartsWith(s, part) || (s != "" && HasPart(s[1..], part))
  }

  /** The part is some slice of the text. */
  lemma {:induction false} HasPartIff(s: string, part: string)
    ensures HasPart(s, part) <==> exists i, j :: 0 <= i <= j <= |s| && s[i..j] == part
  {
    if StartsWith(s, part) {
      assert s[0..|part|] == part;
    } else if s == "" {
      assert forall i, j :: 0 <= i <= j <= |s| ==> s[i..j] == "";
    } else {
      HasPartIff(s[1..], part);
      if HasPart(s[1..], part) {
        var i, j :| 0 <= i <= j <= |s[1..]| && s[1..][i..j] == part;
        assert s[i + 1..j + 1] == part;
      }
      if exists i, j :: 0 <= i <= j <= |s| && s[i..j] == part {
        var i, j :| 0 <= i <= j <= |s| && s[i..j] == part;
        assert s[0..j] == s[..j];
        assert i > 0;
        assert s[1..][i - 1..j - 1] == part;
      }
    }
  }

  function CharBytes(c: char): nat {
    if c < '\U{80}' then 1 else if c < '\U{800}' then 2 else if c < '\U{10000}' then 3 else 4
  }

  /** `len(s.encode("utf-8"))` */
  function Utf8Len(s: string): nat {
    if s == "" then 0 else CharBytes(s[0]) + Utf8Len(s[1..])
  }

  /** The length is counted character by character. */
  lemma {:induction false} Utf8Joined(s: string, t: string)
    ensures Utf8Len(s + t) == Utf8Len(s) + Utf8Len(t)
  {
    if s == "" {
      assert s + t == t;
    } else {
      Utf8Joined(s[1..], t);
      assert (s + t)[1..] == s[1..] + t;
    }
  }

  /** And each character by its code point. */
  lemma Utf8OfOne(c: char)
    ensures Utf8Len([c]) ==
      if c as int < 128 then 1 else if c as int < 2048 then 2 else if c as int < 65536 then 3 else 4
  {
    assert [c][1..] == "";
  }

  predicate Printable(s: string) {
    forall i :: 0 <= i < |s| ==> ' ' <= s[i] <= '~'
  }

  lemma {:induction false} PrintableUtf8(s: string)
    requires Printable(s)
    ensures Utf8Len(s) == |s|
  {
    if s == "" {
    } else {
      PrintableUtf8(s[1..]);
    }
  }

  predicate LowerHex(c: char) { '0' <= c <= '9' || 'a' <= c <= 'f' }

  predicate AnyHex(c: char) { LowerHex(c) || 'A' <= c <= 'F' }

  /** `re.match("^[0-9a-f]{64}$", s)`: `$` also matches just before one final newline. */
  predicate HexMatch(s: string) {
    (|s| == 64 || (|s| == 65 && s[64] == '\n')) && forall i :: 0 <= i < 64 ==> LowerHex(s[i])
  }

  /** `re.match("^[0-9a-fA-F]{64}$", s)` */
  predicate AnyHexMatch(s: string) {
    (|s| == 64 || (|s| == 65 && s[64] == '\n')) && forall i :: 0 <= i < 64 ==> AnyHex(s[i])
  }

  /** `len(s) == 64 and all(c in "0123456789abcdef" for c in s)` */
  predicate StrictHex(s: string) {
    |s| == 64 && forall i :: 0 <= i < 64 ==> LowerHex(s[i])
  }
}
