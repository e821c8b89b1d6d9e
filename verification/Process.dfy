/** What one finished `subprocess.run` hands back, and the library functions that read its text. */
module Process {
  import opened Outcome
  import opened Json
  import opened Cidr

  datatype Reply =
    | Exited(code: int, out: string, err: string)
    | TimedOut   // subprocess.TimeoutExpired
    | OsFailure  // OSError
    | Raised     // any other exception

  /** `json.loads` before any hook; `None` is a decoding error. */
  type Loads = string -> Option<Value>

  /** Library behaviour the adapter depends on but does not define: `json.loads`,
      `ipaddress.ip_network(text, strict=False)`, and `str(value)` of a parsed JSON value. */
  datatype Library = Library(loads: Loads, network: string -> Option<Network>, show: Value -> Str)

  /** `json.loads(text, object_pairs_hook=_reject_duplicate_keys)` */
  function LoadsUnique(loads: Loads, text: string): Option<Value> {
    var v := loads(text);
    if v.Some? && UniqueDeep(v.value) then v else None
  }

  /** `str(n)` raises `ValueError`: the interpreter's limit for converting integers is 4300 digits. */
  predicate Unprintable(n: nat) { |Cidr.Decimal(n)| > 4300 }

  /** Python's `v == n` for an integer `n`: numbers compare by value, and `True == 1`. */
  predicate PyEqInt(v: Value, n: int) {
    match v
    case Int(i) => i == n
    case Flt(Finite(r)) => r == n as real
    case Num(Dec(neg, c, 0)) => c == if neg then -n else n
    case Bool(b) => (if b then 1 else 0) == n
    case _ => false
  }
}
