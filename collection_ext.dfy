/** The `Collection` extension: `subscript(safe:)` and `elementBeforeLast`. */
module CollectionExt {
  import opened Wrappers

  /** `self[safe: index]`: the element when `index` is a valid index, nil otherwise. */
  function SafeAt<T>(s: seq<T>, index: int): (r: Option<T>)
    ensures r.Some? <==> 0 <= index < |s|
    ensures r.Some? ==> r.value == s[index]
  {
    if 0 <= index < |s| then Some(s[index]) else None
  }

  /** `last`. */
  function Last<T>(s: seq<T>): Option<T> {
    if s == [] then None else Some(s[|s| - 1])
  }

  /** `dropLast()`: everything but the last element (nothing when empty). */
  function DropLast<T>(s: seq<T>): seq<T> {
    if s == [] then [] else s[..|s| - 1]
  }

  /** `elementBeforeLast`: `dropLast().last`. */
  function ElementBeforeLast<T>(s: seq<T>): (r: Option<T>)
    ensures r.None? <==> |s| < 2
    ensures r.Some? ==> r.value == s[|s| - 2]
  {
    Last(DropLast(s))
  }
}
