/** List functions shared by the other modules. */
module Lists {
  /** The list without the elements equal to `x`. */
  function Without<T(==)>(list: seq<T>, x: T): (r: seq<T>)
    ensures |r| <= |list|
  {
    if list == [] then []
    else
      var n := |list| - 1;
      Without(list[..n], x) + if list[n] == x then [] else [list[n]]
  }
}
