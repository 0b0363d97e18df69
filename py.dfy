/** Python value semantics shared by every module: optional results, the three
    states of a key in a JSON object, and truthiness. */
module Py {

  /** A value that may be absent (Python `None` returned by a function). */
  datatype Option<T> = None | Some(value: T)

  /** The state of one key of a JSON object (a Python dict read from a file):
      the key is missing, it is present with `null`, or it holds a value. */
  datatype Field<T> = Absent | Null | Val(value: T)

  /** `d.get(k, default)`: a missing key yields the default, a `null` stays `null`. */
  function GetOr<T>(f: Field<T>, default: Field<T>): Field<T>
  {
    if f.Absent? then default else f
  }

  /** `d.get(k)`: missing and `null` both read as `None`. */
  function Get<T>(f: Field<T>): Option<T>
  {
    if f.Val? then Some(f.value) else None
  }

  /** Truthiness of a string-valued entry: present, not null, not "". */
  predicate Truthy(f: Field<string>) {
    f.Val? && f.value != ""
  }

  /** Truthiness of a number-valued entry: present, not null, not zero. */
  predicate IntTruthy(f: Field<int>) {
    f.Val? && f.value != 0
  }

  /** Truthiness of a boolean-valued entry. */
  predicate BoolTruthy(f: Field<bool>) {
    f.Val? && f.value
  }

  /** Truthiness of a list-valued entry: present, not null, not empty. */
  predicate ListTruthy<T>(f: Field<seq<T>>) {
    f.Val? && f.value != []
  }

  /** Truthiness of an optional string (`None` or ""). */
  predicate OptTruthy(o: Option<string>) {
    o.Some? && o.value != ""
  }

  /** Python `a or b` on strings: the first operand when truthy, else the second. */
  function Or(a: Field<string>, b: Field<string>): Field<string>
  {
    if Truthy(a) then a else b
  }

  /** An f-string interpolation `f"{x}"` of a string entry: `None` prints as "None". */
  function Str(f: Field<string>): string
  {
    if f.Val? then f.value else "None"
  }

  /** What a CSV writer emits for a cell: `None` becomes the empty string. */
  function Cell(f: Field<string>): string
  {
    if f.Val? then f.value else ""
  }

  /** Python `s[:n]` for any integer `n` (a negative `n` counts from the end). */
  function SliceTo<T>(s: seq<T>, n: int): (r: seq<T>)
    ensures r <= s
    ensures 0 <= n ==> |r| == if n <= |s| then n else |s|
    ensures n < 0 ==> |r| == if -n <= |s| then |s| + n else 0
  {
    if 0 <= n then (if n <= |s| then s[..n] else s)
    else if -n <= |s| then s[..|s| + n] else []
  }
}
