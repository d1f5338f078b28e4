/** The configuration repository the manager reads, and the PHP value operations it applies. */
module Config {
  import opened Wrappers

  /** A PHP value as it can appear in configuration. */
  datatype Value =
    | Null
    | Bool(b: bool)
    | Int(i: int)
    | Str(s: string)
    | Arr(entries: map<string, Value>)

  /** The configuration repository, addressed by its dotted keys ("filesystems.default"). */
  type Repository = map<string, Value>

  /** `get($key, $default)`: the stored value (null included) or the default when absent. */
  function Get(repo: Repository, key: string, default: Value): Value {
    if key in repo then repo[key] else default
  }

  /** The left operand of `$entries[$key] ?? …`: nothing when the key is absent or holds null. */
  function Lookup(entries: map<string, Value>, key: string): Option<Value> {
    if key in entries && entries[key] != Null then Some(entries[key]) else None
  }

  /** `$entries[$key] ?? $default`. */
  function LookupOr(entries: map<string, Value>, key: string, default: Value): Value {
    Lookup(entries, key).GetOr(default)
  }

  /** `(string) $v`. Arrays convert to "Array" (PHP also emits a warning). */
  function CastString(v: Value): string {
    match v
    case Null => ""
    case Bool(b) => if b then "1" else ""
    case Int(i) => Decimal(i)
    case Str(s) => s
    case Arr(_) => "Array"
  }

  function Decimal(i: int): string {
    if i < 0 then "-" + NatDecimal(-i) else NatDecimal(i)
  }

  function NatDecimal(n: nat): string
    decreases n
  {
    var digit := "0123456789"[n % 10];
    if n < 10 then [digit] else NatDecimal(n / 10) + [digit]
  }
}
