/**
 * The few pieces of Python runtime behaviour the codecs rely on: the exceptions
 * they can raise, list indexing (negative indices count from the end), the
 * `list.index` search, clamped slicing and dictionary lookup.
 */
module Py {
  import opened Wrappers

  /** Exceptions the modelled code can raise. */
  datatype Error =
    | StructError            // struct.pack / struct.unpack: wrong length, value out of range, not an int
    | IndexError             // list or bytes index out of range
    | KeyError               // missing dictionary key
    | ValueError             // `list.index` of an absent item, or an unknown LED mode
    | AttributeError         // a characteristic without an `encode`
    | CallbackError(callback: nat)  // an exception raised by a subscriber, propagated unchanged

  /** A dictionary value as the LED encoder sees it: an integer or a string. */
  datatype Value = Int(i: int) | Str(s: string)

  /** `s[i]` for a Python list: indices -|s| .. -1 count from the end. */
  function Index<T>(s: seq<T>, i: int): (r: Result<T, Error>)
    ensures r.Ok? <==> -|s| <= i < |s|
    ensures r.Err? ==> r.error == IndexError
    ensures r.Ok? ==> r.value == s[i % |s|]
  {
    if 0 <= i < |s| then Ok(s[i])
    else if -|s| <= i < 0 then Ok(s[|s| + i])
    else Err(IndexError)
  }

  /** `s.index(x)`: the position of the first occurrence of `x`, or ValueError. */
  function ListIndex<T(==)>(s: seq<T>, x: T): (r: Result<nat, Error>)
    ensures r.Ok? <==> x in s
    ensures r.Err? ==> r.error == ValueError
    ensures r.Ok? ==> r.value < |s| && s[r.value] == x
    ensures r.Ok? ==> forall j :: 0 <= j < r.value ==> s[j] != x
  {
    if s == [] then Err(ValueError)
    else if s[0] == x then Ok(0)
    else
      match ListIndex(s[1..], x)
      case Ok(k) => Ok(k + 1)
      case Err(e) => Err(e)
  }

  /** `s[0:n]` for n >= 0: slicing clamps to the length instead of failing. */
  function Prefix<T>(s: seq<T>, n: nat): (r: seq<T>)
    ensures |r| == if n <= |s| then n else |s|
    ensures forall j :: 0 <= j < |r| ==> r[j] == s[j]
  {
    if n <= |s| then s[..n] else s
  }

  /** `d[key]` on a dictionary: KeyError when the key is missing. */
  function Lookup<K, V>(d: map<K, V>, key: K): (r: Result<V, Error>)
    ensures r.Ok? <==> key in d
    ensures r.Ok? ==> r.value == d[key]
    ensures r.Err? ==> r.error == KeyError
  {
    if key in d then Ok(d[key]) else Err(KeyError)
  }
}
