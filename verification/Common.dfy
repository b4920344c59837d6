/** Small shared vocabulary: optional values, entity ids, and three-way comparison results. */
module Common {

  /** A value that may be absent: `null`, `undefined` or a missing property in the client. */
  datatype Option<+T> = None | Some(value: T) {
    function GetOr(default: T): T {
      match this
      case Some(v) => v
      case None => default
    }
  }

  /** Entity ids are UUID strings; nothing below depends on more than their equality. */
  type Id = string

  function Min(a: int, b: int): int { if a <= b then a else b }

  function Max(a: int, b: int): int { if a <= b then b else a }

  /** The distinct elements of a sequence. */
  function Elements<T>(s: seq<T>): set<T> { set x | x in s }

  predicate Distinct<T(==)>(s: seq<T>) {
    forall i, j | 0 <= i < j < |s| :: s[i] != s[j]
  }

  // ----- keys of a map, in the order they were inserted ---------------------------------------

  /** A key that is there already keeps its place. */
  function WithKey<T(==,!new)>(keys: seq<T>, k: T): (r: seq<T>)
    ensures forall x :: x in r <==> x in keys || x == k
    ensures Distinct(keys) ==> Distinct(r)
  {
    if k in keys then keys else keys + [k]
  }

  function WithoutKey<T(==,!new)>(keys: seq<T>, k: T): (r: seq<T>)
    ensures forall x :: x in r <==> x in keys && x != k
    ensures Distinct(keys) ==> Distinct(r)
  {
    if keys == [] then []
    else
      assert keys == [keys[0]] + keys[1..];
      assert Distinct(keys) ==> Distinct(keys[1..]) && keys[0] !in keys[1..];
      if keys[0] == k then WithoutKey(keys[1..], k) else [keys[0]] + WithoutKey(keys[1..], k)
  }
}
