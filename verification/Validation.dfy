/** The checks on names and durations made at the service and configuration boundaries. */
module Validation {
  import opened Outcome
  import opened Text
  import opened Json

  predicate IdStart(c: char) { 'a' <= c <= 'z' || 'A' <= c <= 'Z' || '0' <= c <= '9' }

  predicate IdChar(c: char) { IdStart(c) || c == '_' || c == '-' }

  /** `^[a-zA-Z0-9][a-zA-Z0-9_-]*$` on text that does not end in a newline. */
  predicate IdMatch(s: string) {
    s != "" && IdStart(s[0]) && forall i :: 0 <= i < |s| ==> IdChar(s[i])
  }

  /** The node identifier with surrounding white space removed, when what remains is one. */
  function ValidNodeId(s: string): Option<string> {
    if IdMatch(Strip(s)) then Some(Strip(s)) else None
  }

  lemma IdTight(s: string)
    ensures IdMatch(s) ==> Strip(s) == s
  {
    if IdMatch(s) {
      assert IdChar(s[0]) && IdChar(s[|s| - 1]);
      StripTight(s);
    }
  }

  /** Validating a second time changes nothing, and only identifiers are fixed points. */
  lemma NodeIdIdempotent(s: string)
    ensures ValidNodeId(s).Some? ==> ValidNodeId(ValidNodeId(s).value) == ValidNodeId(s)
    ensures IdMatch(s) ==> ValidNodeId(s) == Some(s)
  {
    hide LStrip, RStrip, Strip;
    IdTight(s);
    IdTight(Strip(s));
  }

  /** What is accepted, and as what: letters, digits, underscores and hyphens, the first of them a letter or a digit,
      between any white space. */
  lemma NodeIdRule(s: string, node: string)
    ensures ValidNodeId(s) == Some(node) <==>
      node == Strip(s) && node != "" && node[0] !in "_-" &&
      forall i :: 0 <= i < |node| ==>
        'a' <= node[i] <= 'z' || 'A' <= node[i] <= 'Z' || '0' <= node[i] <= '9' || node[i] in "_-"
  {
    hide Strip;
    assert forall c :: c in "_-" <==> c == '_' || c == '-';
  }

  /** A finite positive number of seconds. */
  predicate PositiveFinite(f: Float) { f.Finite? && f.r > 0.0 }
}
