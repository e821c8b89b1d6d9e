/** JSON values as Python's `json` module delivers them, object members in written order. */
module Json {
  import opened Outcome

  /** A Python `str`. A JSON escape such as `\ud800` makes a string holding a lone surrogate,
      which UTF-8 cannot encode; such a string is known here by its escaped spelling. */
  datatype Str = Str(s: string) | Lone(escaped: string)

  /** A Python `float`, without rounding. */
  datatype Float = Finite(r: real) | PosInf | NegInf | NaN

  /** A Python `Decimal`: sign, coefficient, exponent, or one of the special values. */
  datatype Decimal = Dec(negative: bool, coeff: nat, exp: int) | DecInf(negative: bool) | DecNaN

  datatype Value =
    | Null
    | Bool(b: bool)
    | Int(i: int)
    | Flt(f: Float)
    | Num(d: Decimal)
    | Text(t: Str)
    | Arr(items: seq<Value>)
    | Obj(fields: seq<Member>)

  datatype Member = Member(key: Key, value: Value)

  type Fields = seq<Member>

  /** A member name: one of those the program looks for, spelled as on the wire, or another. */
  datatype Key =
    // records of domain/node.py
    | best_block_hash | blocks | chain | chainwork | connections | headers | initial_block_download
    | median_time | network_active | pruned | subversion | version
    | confirmations | hash | height | next_block_hash | previous_block_hash | size | timestamp
    | transaction_count | weight
    | dynamic_memory_usage | loaded | max_memory | serialized_bytes | total_fees_satoshis
    | connection_type | endpoint | inbound | network | peer_id | ping_time_seconds | protocol_version
    | synced_blocks | synced_headers | peers
    // delegated errors and health reports
    | schema | category | node_id | health | state | details
    // docker compose ps
    | Service | State | Health
    // JSON-RPC envelopes and Bitcoin Core results
    | id | result | error | code
    | networkactive | bestblockhash | mediantime | initialblockdownload
    | time | tx | previousblockhash | nextblockhash | bytes | usage | maxmempool | total_fee
    | addr | subver | pingtime
    | Other(text: Str)

  /** `key in data`, for a parsed object. */
  predicate Has(fields: Fields, key: Key) {
    exists i :: 0 <= i < |fields| && fields[i].key == key
  }

  /** The dictionary that storing the members one by one builds. */
  function AsMap(pairs: Fields): map<Key, Value> {
    if pairs == [] then map[]
    else AsMap(pairs[..|pairs| - 1])[pairs[|pairs| - 1].key := pairs[|pairs| - 1].value]
  }

  lemma {:induction false} AsMapKeys(pairs: Fields)
    ensures forall k :: k in AsMap(pairs) <==> Has(pairs, k)
  {
    if pairs == [] {
    } else {
      var n := |pairs| - 1;
      AsMapKeys(pairs[..n]);
      assert forall i :: 0 <= i < n ==> pairs[..n][i] == pairs[i];
    }
  }

  /** `data.get(key)`: a repeated key keeps its last value, a missing one gives `None`. */
  function Get(fields: Fields, key: Key): Value {
    var m := AsMap(fields);
    if key in m then m[key] else Null
  }

  /** The last member of that name. */
  predicate LastAt(fields: Fields, i: int, key: Key) {
    0 <= i < |fields| && fields[i].key == key && forall j :: i < j < |fields| ==> fields[j].key != key
  }

  lemma {:induction false} LastKept(fields: Fields, i: nat, key: Key)
    requires LastAt(fields, i, key)
    ensures key in AsMap(fields) && AsMap(fields)[key] == fields[i].value
  {
    var n := |fields| - 1;
    if i < n {
      LastKept(fields[..n], i, key);
    }
  }

  lemma {:induction false} SomeLast(fields: Fields, key: Key) returns (i: nat)
    requires Has(fields, key)
    ensures LastAt(fields, i, key)
  {
    i := |fields| - 1;
    while fields[i].key != key
      invariant i < |fields| && (forall j :: i < j < |fields| ==> fields[j].key != key)
      invariant exists j :: 0 <= j <= i && fields[j].key == key
      decreases i
    {
      i := i - 1;
    }
  }

  /** What is looked up is the value of the last member of that name, or `None` where there is none. */
  lemma GetIff(fields: Fields, key: Key, v: Value)
    ensures Get(fields, key) == v <==>
      (exists i :: 0 <= i < |fields| && LastAt(fields, i, key) && fields[i].value == v) ||
      (v == Null && forall i :: 0 <= i < |fields| ==> fields[i].key != key)
  {
    hide AsMap;
    AsMapKeys(fields);
    forall i | 0 <= i < |fields| && LastAt(fields, i, key) ensures Get(fields, key) == fields[i].value {
      LastKept(fields, i, key);
    }
    if Has(fields, key) {
      var i := SomeLast(fields, key);
    }
  }

  /** Each member's name is new when it is reached. */
  predicate DistinctKeys(fields: Fields) {
    fields == [] ||
    (DistinctKeys(fields[..|fields| - 1]) && fields[|fields| - 1].key !in AsMap(fields[..|fields| - 1]))
  }

  lemma AsMapEmpty()
    ensures AsMap([]) == map[] && DistinctKeys([])
  {
  }

  /** One more member is one more entry. */
  lemma AsMapAppend(fields: Fields, m: Member)
    ensures AsMap(fields + [m]) == AsMap(fields)[m.key := m.value]
    ensures DistinctKeys(fields + [m]) <==> DistinctKeys(fields) && m.key !in AsMap(fields)
  {
    var longer := fields + [m];
    assert longer[..|longer| - 1] == fields;
  }

  lemma {:induction false} DistinctKeysPairwise(fields: Fields)
    ensures DistinctKeys(fields) <==> forall i, j :: 0 <= i < j < |fields| ==> fields[i].key != fields[j].key
  {
    if fields == [] {
    } else {
      var n := |fields| - 1;
      var rest := fields[..n];
      DistinctKeysPairwise(rest);
      AsMapKeys(rest);
      assert forall i :: 0 <= i < n ==> rest[i] == fields[i];
    }
  }

  /** The value is an object whose members are the entries of the dictionary, each written once:
      what `json.dumps` writes for a dictionary with string keys, in whatever order. */
  predicate Writes(v: Value, dict: map<Key, Value>) {
    v.Obj? && DistinctKeys(v.fields) && AsMap(v.fields) == dict
  }

  predicate IsScalar(v: Value) { !v.Arr? && !v.Obj? }

  /** Each member of an object without repeats is an entry of its dictionary. */
  lemma {:induction false} GetAt(fields: Fields, i: nat, key: Key)
    requires i < |fields| && fields[i].key == key && DistinctKeys(fields)
    ensures Get(fields, key) == fields[i].value
  {
    if i < |fields| - 1 {
      DistinctKeysPairwise(fields);
      GetAt(fields[..|fields| - 1], i, key);
    }
  }

  /** No object anywhere in the value repeats a member name. */
  predicate UniqueDeep(v: Value)
    decreases v
  {
    match v
    case Arr(items) => forall x :: x in items ==> UniqueDeep(x)
    case Obj(fields) => DistinctKeys(fields) && forall p :: p in fields ==> UniqueDeep(p.value)
    case _ => true
  }

  /** How deeply arrays and objects nest, counting the value itself. */
  function Depth(v: Value): (d: nat)
    ensures d >= 1
    decreases v
  {
    match v
    case Arr(items) => 1 + DepthItems(items)
    case Obj(fields) => 1 + DepthFields(fields)
    case _ => 1
  }

  function DepthItems(items: seq<Value>): nat
    decreases items
  {
    if items == [] then 0 else Max(Depth(items[0]), DepthItems(items[1..]))
  }

  function DepthFields(fields: Fields): nat
    decreases fields
  {
    if fields == [] then 0 else Max(MemberDepth(fields[0]), DepthFields(fields[1..]))
  }

  function MemberDepth(p: Member): nat
    decreases p
  {
    Depth(p.value)
  }

  function Max(a: nat, b: nat): nat { if a < b then b else a }

  /** `_check_json_depth(obj, depth, limit)`, true when it returns normally. */
  predicate CheckDepth(v: Value, depth: nat, limit: nat)
    decreases v
  {
    depth <= limit &&
    match v
    case Arr(items) => forall x :: x in items ==> CheckDepth(x, depth + 1, limit)
    case Obj(fields) => forall p :: p in fields ==> CheckDepth(p.value, depth + 1, limit)
    case _ => true
  }

  lemma {:induction false} DepthItemsLeq(items: seq<Value>, n: nat)
    ensures DepthItems(items) <= n <==> forall x :: x in items ==> Depth(x) <= n
    decreases items
  {
    if items == [] {
    } else {
      DepthItemsLeq(items[1..], n);
      assert DepthItems(items) == Max(Depth(items[0]), DepthItems(items[1..]));
      assert forall x :: x in items <==> x == items[0] || x in items[1..];
      assert DepthItems(items) <= n <==> Depth(items[0]) <= n && DepthItems(items[1..]) <= n;
      assert (forall x :: x in items ==> Depth(x) <= n) <==>
             Depth(items[0]) <= n && forall x :: x in items[1..] ==> Depth(x) <= n;
    }
  }

  lemma {:induction false} DepthFieldsLeq(fields: Fields, n: nat)
    ensures DepthFields(fields) <= n <==> forall p :: p in fields ==> Depth(p.value) <= n
    decreases fields
  {
    if fields == [] {
    } else {
      DepthFieldsLeq(fields[1..], n);
      assert forall p :: p in fields <==> p == fields[0] || p in fields[1..];
    }
  }

  /** The recursive check passes exactly when the value nests no deeper than the limit. */
  lemma {:induction false} CheckDepthExact(v: Value, depth: nat, limit: nat)
    requires depth >= 1
    ensures CheckDepth(v, depth, limit) <==> depth + Depth(v) - 1 <= limit
    decreases v
  {
    if depth <= limit {
      match v
      case Arr(items) =>
        forall x | x in items { CheckDepthExact(x, depth + 1, limit); }
        DepthItemsLeq(items, limit - depth);
      case Obj(fields) =>
        forall p | p in fields { CheckDepthExact(p.value, depth + 1, limit); }
        DepthFieldsLeq(fields, limit - depth);
      case _ =>
    }
  }

  lemma {:induction false} DistinctPrefix(fields: Fields, n: nat)
    requires n <= |fields| && DistinctKeys(fields)
    ensures DistinctKeys(fields[..n])
  {
    if n < |fields| {
      DistinctPrefix(fields[..|fields| - 1], n);
      assert fields[..|fields| - 1][..n] == fields[..n];
    } else {
      assert fields[..n] == fields;
    }
  }

  /** The `object_pairs_hook` that refuses a repeated member name. */
  method RejectDuplicateKeys(pairs: Fields) returns (r: Result<map<Key, Value>>)
    ensures r == if DistinctKeys(pairs) then Ok(AsMap(pairs)) else Err(ValueError)
  {
    var res: map<Key, Value> := map[];
    for n := 0 to |pairs|
      invariant DistinctKeys(pairs[..n])
      invariant res == AsMap(pairs[..n])
    {
      var (k, v) := (pairs[n].key, pairs[n].value);
      assert pairs[..n + 1][..n] == pairs[..n];
      if k in res {
        if DistinctKeys(pairs) {
          DistinctPrefix(pairs, n + 1);
        }
        return Err(ValueError);
      }
      res := res[k := v];
    }
    assert pairs[..|pairs|] == pairs;
    return Ok(res);
  }
}
