/** Redaction of structured log data. */
module Redaction {
  import opened Outcome
  import opened Text
  import opened Json

  datatype Scalar = Nothing | Flag(b: bool) | Whole(i: int) | Real(f: Float)

  /** Log data: a mapping is its items in order, each key given as `str(key)`, so that two of
      them may coincide; `Plain` is any other object, given as `str(object)`. */
  datatype Data =
    | Leaf(s: Scalar)
    | Words(text: string)
    | Plain(shown: string)
    | Items(isList: bool, items: seq<Data>)
    | Mapping(entries: seq<Entry>)

  datatype Entry = Entry(key: string, value: Data)

  const SENSITIVE_KEY_SUBSTRINGS :=
    ["token", "password", "secret", "key", "cookie", "seed", "auth", "credential", "privkey", "private_key"]

  predicate Sensitive(key: string) {
    exists i :: 0 <= i < |SENSITIVE_KEY_SUBSTRINGS| && HasPart(Lower(key), SENSITIVE_KEY_SUBSTRINGS[i])
  }

  const REDACTED := Words("[REDACTED]")

  /** One of the words whose presence in a key makes it sensitive. */
  predicate IsSecretWord(w: string) {
    w == "token" || w == "password" || w == "secret" || w == "key" || w == "cookie" || w == "seed" || w == "auth" ||
    w == "credential" || w == "privkey" || w == "private_key"
  }

  /** Some stretch of the key, in lower case, is such a word. */
  predicate MentionsSecret(key: string) {
    exists i, j :: 0 <= i <= j <= |key| && IsSecretWord(Lower(key)[i..j])
  }

  lemma WordIsListed(w: string)
    requires IsSecretWord(w)
    ensures exists n :: 0 <= n < |SENSITIVE_KEY_SUBSTRINGS| && SENSITIVE_KEY_SUBSTRINGS[n] == w
  {
    var list := SENSITIVE_KEY_SUBSTRINGS;
    assert list[0] == "token" && list[1] == "password" && list[2] == "secret" && list[3] == "key";
    assert list[4] == "cookie";
    assert list[5] == "seed" && list[6] == "auth" && list[7] == "credential" && list[8] == "privkey";
    assert list[9] == "private_key";
  }

  lemma ListedIsWord(n: nat)
    requires n < |SENSITIVE_KEY_SUBSTRINGS|
    ensures IsSecretWord(SENSITIVE_KEY_SUBSTRINGS[n])
  {
  }

  lemma SensitiveIff(key: string)
    ensures Sensitive(key) <==> MentionsSecret(key)
  {
    hide HasPart, IsSecretWord, Lower;
    var low := Lower(key);
    if Sensitive(key) {
      var n :| 0 <= n < |SENSITIVE_KEY_SUBSTRINGS| && HasPart(low, SENSITIVE_KEY_SUBSTRINGS[n]);
      HasPartIff(low, SENSITIVE_KEY_SUBSTRINGS[n]);
      ListedIsWord(n);
      var i, j :| 0 <= i <= j <= |low| && low[i..j] == SENSITIVE_KEY_SUBSTRINGS[n];
      assert IsSecretWord(low[i..j]);
    }
    if MentionsSecret(key) {
      var i, j :| 0 <= i <= j <= |key| && IsSecretWord(low[i..j]);
      WordIsListed(low[i..j]);
      var n :| 0 <= n < |SENSITIVE_KEY_SUBSTRINGS| && SENSITIVE_KEY_SUBSTRINGS[n] == low[i..j];
      HasPartIff(low, SENSITIVE_KEY_SUBSTRINGS[n]);
    }
  }

  // ----- Dictionaries -----

  predicate Distinct(es: seq<Entry>) {
    forall i, j :: 0 <= i < j < |es| ==> es[i].key != es[j].key
  }

  /** Where the key stands, or the length. */
  function Position(es: seq<Entry>, key: string): (p: nat)
    ensures p <= |es| && (p < |es| ==> es[p].key == key)
    ensures forall i :: 0 <= i < p ==> es[i].key != key
  {
    if es == [] || es[0].key == key then 0 else 1 + Position(es[1..], key)
  }

  /** `d[key] = value`: an old key keeps its place, a new one goes last. */
  function Put(es: seq<Entry>, key: string, value: Data): (r: seq<Entry>)
    ensures Distinct(es) ==> Distinct(r)
  {
    var p := Position(es, key);
    if p < |es| then es[p := Entry(key, value)] else es + [Entry(key, value)]
  }

  /** The value last given for the key. */
  function Lookup(es: seq<Entry>, key: string): Option<Data> {
    if es == [] then None
    else
      var last := es[|es| - 1];
      if last.key == key then Some(last.value) else Lookup(es[..|es| - 1], key)
  }

  lemma {:induction false} LookupAt(es: seq<Entry>, p: nat)
    requires Distinct(es) && p < |es|
    ensures Lookup(es, es[p].key) == Some(es[p].value)
  {
    if p < |es| - 1 {
      LookupAt(es[..|es| - 1], p);
    }
  }

  lemma {:induction false} LookupAbsent(es: seq<Entry>, key: string)
    requires forall i :: 0 <= i < |es| ==> es[i].key != key
    ensures Lookup(es, key) == None
  {
    if es == [] {
    } else {
      LookupAbsent(es[..|es| - 1], key);
    }
  }

  /** A stored value is read back, and no other key is disturbed. */
  lemma LookupPut(es: seq<Entry>, key: string, value: Data, other: string)
    requires Distinct(es)
    ensures Lookup(Put(es, key, value), other) == if other == key then Some(value) else Lookup(es, other)
  {
    hide Lookup;
    var after, p := Put(es, key, value), Position(es, other);
    if other == key {
      LookupAt(after, p);
    } else if p < |es| {
      assert after[p] == es[p];
      LookupAt(es, p);
      LookupAt(after, p);
    } else {
      LookupAbsent(es, other);
      LookupAbsent(after, other);
    }
  }

  // ----- Sanitising -----

  function Sanitize(d: Data): Data
    decreases d
  {
    match d
    case Leaf(_) => d
    case Words(_) => d
    case Plain(shown) => Words(shown)
    case Items(_, items) => Items(true, SanitizeAll(items))
    case Mapping(entries) => Mapping(Fill(entries))
  }

  function SanitizeAll(items: seq<Data>): (r: seq<Data>)
    ensures |r| == |items| && forall i :: 0 <= i < |items| ==> r[i] == Sanitize(items[i])
    decreases items
  {
    if items == [] then [] else SanitizeAll(items[..|items| - 1]) + [Sanitize(items[|items| - 1])]
  }

  /** What is stored for one item of a mapping. */
  function Shown(e: Entry): Data
    decreases e
  {
    if Sensitive(e.key) then REDACTED else Sanitize(e.value)
  }

  /** The dictionary that storing the items one by one builds. */
  function Fill(entries: seq<Entry>): (r: seq<Entry>)
    ensures Distinct(r)
    decreases entries
  {
    if entries == [] then []
    else
      var last := entries[|entries| - 1];
      Put(Fill(entries[..|entries| - 1]), last.key, Shown(last))
  }

  /** `_sanitize_data` */
  method SanitizeData(d: Data) returns (r: Data)
    ensures r == Sanitize(d)
    decreases d
  {
    hide Sensitive, MentionsSecret, Put;
    match d {
      case Leaf(_) => r := d;
      case Words(_) => r := d;
      case Plain(shown) => r := Words(shown);
      case Items(_, items) =>
        var list: seq<Data> := [];
        for i := 0 to |items|
          invariant |list| == i && forall j :: 0 <= j < i ==> list[j] == Sanitize(items[j])
        {
          var item := SanitizeData(items[i]);
          list := list + [item];
        }
        r := Items(true, list);
      case Mapping(entries) =>
        var sanitized: seq<Entry> := [];
        for i := 0 to |entries|
          invariant sanitized == Fill(entries[..i])
        {
          var e := entries[i];
          var value := REDACTED;
          if !Sensitive(e.key) {
            value := SanitizeData(e.value);
          }
          sanitized := Put(sanitized, e.key, value);
          assert entries[..i + 1][..i] == entries[..i];
        }
        assert entries[..|entries|] == entries;
        r := Mapping(sanitized);
    }
  }

  // ----- Distinct keys -----

  /** A mapping without coinciding keys keeps its items, one for one. */
  lemma {:induction false} FillDistinct(entries: seq<Entry>)
    requires Distinct(entries)
    ensures |Fill(entries)| == |entries|
    ensures forall i :: 0 <= i < |entries| ==> Fill(entries)[i] == Entry(entries[i].key, Shown(entries[i]))
  {
    hide Sensitive, MentionsSecret, Shown;
    if entries == [] {
    } else {
      FillDistinct(entries[..|entries| - 1]);
    }
  }

  /** No mapping anywhere in the data has coinciding keys. */
  predicate Clean(d: Data)
    decreases d
  {
    match d
    case Items(_, items) => forall x :: x in items ==> Clean(x)
    case Mapping(entries) => Distinct(entries) && forall e :: e in entries ==> Clean(e.value)
    case _ => true
  }

  // ----- Idempotence -----

  lemma {:induction false} ShownTwice(e: Entry)
    ensures Shown(Entry(e.key, Shown(e))) == Shown(e)
    decreases e
  {
    hide Sensitive, MentionsSecret;
    if !Sensitive(e.key) {
      SanitizeTwice(e.value);
    }
  }

  /** Every entry that is stored is some item as it is shown. */
  lemma {:induction false} FillShows(entries: seq<Entry>, i: nat)
    requires i < |Fill(entries)|
    ensures exists e :: e in entries && Fill(entries)[i] == Entry(e.key, Shown(e))
  {
    hide Sensitive, MentionsSecret, Shown;
    var n := |entries| - 1;
    var last := entries[n];
    if Fill(entries)[i] == Entry(last.key, Shown(last)) {
    } else {
      FillShows(entries[..n], i);
      var e :| e in entries[..n] && Fill(entries[..n])[i] == Entry(e.key, Shown(e));
      assert e in entries;
    }
  }

  /** Sanitising sanitised data changes nothing. */
  lemma {:induction false} SanitizeTwice(d: Data)
    ensures Sanitize(Sanitize(d)) == Sanitize(d)
    decreases d
  {
    hide Sensitive, MentionsSecret, Shown, Fill;
    match d
    case Items(_, items) =>
      forall i | 0 <= i < |items| ensures Sanitize(Sanitize(items[i])) == Sanitize(items[i]) {
        SanitizeTwice(items[i]);
      }
      assert SanitizeAll(SanitizeAll(items)) == SanitizeAll(items);
    case Mapping(entries) =>
      var once := Fill(entries);
      FillDistinct(once);
      forall i | 0 <= i < |once| ensures Shown(once[i]) == once[i].value {
        FillShows(entries, i);
        var e :| e in entries && once[i] == Entry(e.key, Shown(e));
        ShownTwice(e);
      }
      assert Fill(once) == once;
    case _ =>
  }

  // ----- Non-interference -----

  /** The data agree except under sensitive keys, up to what the log does not distinguish: lists
      from tuples, and an object from the text that shows it. */
  predicate Alike(a: Data, b: Data)
    decreases a
  {
    match a
    case Leaf(_) => a == b
    case Words(text) => b == Words(text) || b == Plain(text)
    case Plain(shown) => b == Words(shown) || b == Plain(shown)
    case Items(_, items) =>
      b.Items? && |b.items| == |items| && forall i :: 0 <= i < |items| ==> Alike(items[i], b.items[i])
    case Mapping(entries) =>
      b.Mapping? && |b.entries| == |entries| &&
      forall i :: 0 <= i < |entries| ==> AlikeEntry(entries[i], b.entries[i])
  }

  predicate AlikeEntry(a: Entry, b: Entry)
    decreases a
  {
    a.key == b.key && (MentionsSecret(a.key) || Alike(a.value, b.value))
  }

  /** Sanitising shows nothing of what stands under a sensitive key, at any depth. */
  lemma {:induction false} NonInterference(a: Data, b: Data)
    requires Alike(a, b)
    ensures Sanitize(a) == Sanitize(b)
    decreases a
  {
    hide Sensitive, MentionsSecret, Fill;
    match a
    case Items(_, items) =>
      forall i | 0 <= i < |items| ensures Sanitize(items[i]) == Sanitize(b.items[i]) {
        NonInterference(items[i], b.items[i]);
      }
      assert SanitizeAll(items) == SanitizeAll(b.items);
    case Mapping(entries) => FillAlike(entries, b.entries);
    case _ =>
  }

  lemma {:induction false} FillAlike(a: seq<Entry>, b: seq<Entry>)
    requires |a| == |b| && forall i :: 0 <= i < |a| ==> AlikeEntry(a[i], b[i])
    ensures Fill(a) == Fill(b)
    decreases a
  {
    hide Sensitive, MentionsSecret, Put, Distinct;
    if a == [] {
    } else {
      var n := |a| - 1;
      assert AlikeEntry(a[n], b[n]);
      SensitiveIff(a[n].key);
      if !Sensitive(a[n].key) {
        NonInterference(a[n].value, b[n].value);
      }
      FillAlike(a[..n], b[..n]);
    }
  }

  /** Nothing else is lost: data with distinct keys look the same once sanitised exactly when they
      agree outside sensitive keys. */
  lemma {:induction false} OnlySecretsAreHidden(a: Data, b: Data)
    requires Clean(a) && Clean(b)
    ensures Sanitize(a) == Sanitize(b) <==> Alike(a, b)
    decreases a
  {
    hide Sensitive, MentionsSecret, Fill, Distinct, Shown;
    if Alike(a, b) {
      NonInterference(a, b);
    } else if a.Items? && b.Items? && |a.items| == |b.items| {
      var i :| 0 <= i < |a.items| && !Alike(a.items[i], b.items[i]);
      OnlySecretsAreHidden(a.items[i], b.items[i]);
      assert SanitizeAll(a.items)[i] != SanitizeAll(b.items)[i];
    } else if a.Mapping? && b.Mapping? {
      FillDistinct(a.entries);
      FillDistinct(b.entries);
      if |a.entries| == |b.entries| {
        var i :| 0 <= i < |a.entries| && !AlikeEntry(a.entries[i], b.entries[i]);
        ShownApart(a.entries[i], b.entries[i]);
        assert Fill(a.entries)[i] != Fill(b.entries)[i];
      }
    }
  }

  lemma {:induction false} ShownApart(a: Entry, b: Entry)
    requires Clean(a.value) && Clean(b.value) && !AlikeEntry(a, b)
    ensures a.key != b.key || Shown(a) != Shown(b)
    decreases a
  {
    hide Sensitive, MentionsSecret;
    SensitiveIff(a.key);
    if a.key == b.key {
      OnlySecretsAreHidden(a.value, b.value);
    }
  }

  // ----- What is shown -----

  /** What stands at a key after sanitising: the marker if the key mentions a secret, and otherwise what
      stood there last, sanitised. */
  lemma KeyShown(entries: seq<Entry>, key: string)
    ensures At(Sanitize(Mapping(entries)), [Key(key)]) ==
            var v := Lookup(entries, key);
            if v.None? then None
            else if MentionsSecret(key) then Some(Words("[REDACTED]"))
            else Some(Sanitize(v.value))
  {
    hide Sensitive, MentionsSecret, Lookup, Fill;
    SensitiveIff(key);
    FillLookup(entries, key);
    assert [Step.Key(key)][1..] == [];
  }

  /** Numbers, booleans, `None` and text are shown as they are, any other object by its text, and a list or a
      tuple as the list of its items, in order. */
  lemma RestShown(s: Scalar, text: string, isList: bool, items: seq<Data>)
    ensures Sanitize(Leaf(s)) == Leaf(s) && Sanitize(Words(text)) == Sanitize(Plain(text)) == Words(text)
    ensures Sanitize(Items(isList, items)).Items? && Sanitize(Items(isList, items)).isList
    ensures |Sanitize(Items(isList, items)).items| == |items|
    ensures forall i :: 0 <= i < |items| ==> Sanitize(Items(isList, items)).items[i] == Sanitize(items[i])
  {
  }

  /** A password is a secret, in any case and anywhere in the key. */
  lemma PasswordHidden(before: string, after: string, value: Data)
    ensures Sanitize(Mapping([Entry(before + "Password" + after, value)])) ==
            Mapping([Entry(before + "Password" + after, Words("[REDACTED]"))])
  {
    hide Sensitive, IsSecretWord;
    var key := before + "Password" + after;
    var i := |before|;
    assert Lower(key)[i..i + 8] == "password";
    PasswordIsSecret();
    SensitiveIff(key);
    FillDistinct([Entry(key, value)]);
  }

  lemma PasswordIsSecret()
    ensures IsSecretWord("password")
  {
  }

  // ----- Paths -----

  datatype Step = Key(key: string) | Index(i: nat)

  /** What stands at the path; of coinciding keys the last counts. */
  function At(d: Data, path: seq<Step>): Option<Data>
    decreases |path|
  {
    if path == [] then Some(d)
    else match (d, path[0])
      case (Items(_, items), Index(i)) => if i < |items| then At(items[i], path[1..]) else None
      case (Mapping(entries), Key(key)) =>
        var v := Lookup(entries, key);
        if v.Some? then At(v.value, path[1..]) else None
      case _ => None
  }

  /** The path passes no sensitive key. */
  predicate Open(path: seq<Step>) {
    forall i :: 0 <= i < |path| && path[i].Key? ==> !MentionsSecret(path[i].key)
  }

  lemma {:induction false} FillLookup(entries: seq<Entry>, key: string)
    ensures Lookup(Fill(entries), key) ==
            var v := Lookup(entries, key);
            if v.None? then None else Some(Shown(Entry(key, v.value)))
  {
    hide Sensitive, MentionsSecret, Put, Shown, Distinct;
    if entries == [] {
    } else {
      var last := entries[|entries| - 1];
      FillLookup(entries[..|entries| - 1], key);
      LookupPut(Fill(entries[..|entries| - 1]), last.key, Shown(last), key);
    }
  }

  function Sanitized(d: Option<Data>): Option<Data> {
    if d.Some? then Some(Sanitize(d.value)) else None
  }

  /** Whatever is not under a sensitive key is found, sanitised, at the path it had, and nothing new
      appears there. */
  lemma {:induction false} PathsKept(d: Data, path: seq<Step>)
    requires Open(path)
    ensures At(Sanitize(d), path) == Sanitized(At(d, path))
    decreases |path|
  {
    hide Sensitive, MentionsSecret, Lookup, Fill;
    if path == [] {
    } else {
      assert Open(path[1..]);
      if d.Items? && path[0].Index? && path[0].i < |d.items| {
        PathsKept(d.items[path[0].i], path[1..]);
      } else if d.Mapping? && path[0].Key? {
        SensitiveIff(path[0].key);
        FillLookup(d.entries, path[0].key);
        var v := Lookup(d.entries, path[0].key);
        if v.Some? {
          PathsKept(v.value, path[1..]);
        }
      }
    }
  }

  /** At a sensitive key there is the marker and nothing below it, whatever was there. */
  lemma {:induction false} SecretsReplaced(d: Data, path: seq<Step>, key: string, below: seq<Step>)
    requires Open(path) && MentionsSecret(key) && At(d, path + [Key(key)]).Some?
    ensures At(Sanitize(d), path + [Key(key)] + below) ==
            if below == [] then Some(Words("[REDACTED]")) else None
  {
    hide Sensitive, MentionsSecret, Lookup, Fill;
    SensitiveIff(key);
    AtJoin(d, path, [Key(key)]);
    PathsKept(d, path);
    assert path + [Key(key)] + below == path + ([Key(key)] + below);
    AtJoin(Sanitize(d), path, [Key(key)] + below);
    var holder := At(d, path).value;
    assert ([Key(key)] + below)[1..] == below && [Step.Key(key)][1..] == [];
    FillLookup(holder.entries, key);
  }

  lemma {:induction false} AtJoin(d: Data, path: seq<Step>, more: seq<Step>)
    ensures At(d, path + more) == if At(d, path).Some? then At(At(d, path).value, more) else None
    decreases |path|
  {
    hide Lookup;
    if path == [] {
      assert path + more == more;
    } else {
      assert (path + more)[0] == path[0] && (path + more)[1..] == path[1..] + more;
      if d.Items? && path[0].Index? && path[0].i < |d.items| {
        AtJoin(d.items[path[0].i], path[1..], more);
      } else if d.Mapping? && path[0].Key? && Lookup(d.entries, path[0].key).Some? {
        AtJoin(Lookup(d.entries, path[0].key).value, path[1..], more);
      }
    }
  }
}
