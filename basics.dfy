/** Small building blocks shared by the whole model: Rust's `Option`, the
    fixed-width integers the router uses, the `as u16` cast, and what
    `filter_map(..).collect::<HashMap<_, _>>()` does to a sequence. */
module Basics {

  datatype Option<T> = None | Some(value: T)

  /** Rust's `u16` (listen ports and node-ports). */
  type u16 = x: int | 0 <= x < 0x1_0000

  /** Rust's `i32` (the port numbers in a Kubernetes `ServicePort`). */
  type i32 = x: int | -0x8000_0000 <= x < 0x8000_0000

  /** `x as u16` on an `i32`: keeps the low 16 bits of the two's-complement
      value, so values outside 0..65535 wrap around. */
  function AsU16(x: i32): (r: u16)
    ensures 0 <= x < 0x1_0000 ==> r == x
    ensures (x - r) % 0x1_0000 == 0
  {
    x % 0x1_0000
  }

  /** `items.into_iter().filter_map(f).collect::<HashMap<_, _>>()`: the
      entries are inserted in order, so a later entry for a key replaces an
      earlier one, and items that map to `None` are dropped. */
  function CollectMap<T, K, V>(items: seq<T>, f: T -> Option<(K, V)>): (m: map<K, V>)
    ensures forall k :: k in m ==> exists i :: 0 <= i < |items| && f(items[i]) == Some((k, m[k]))
    decreases |items|
  {
    if items == [] then map[]
    else
      var m := CollectMap(items[..|items| - 1], f);
      match f(items[|items| - 1])
      case None => m
      case Some((k, v)) => m[k := v]
  }

  /** The keys collected are exactly the keys that some item maps to. */
  lemma {:induction false} CollectKeys<T, K, V>(items: seq<T>, f: T -> Option<(K, V)>, k: K)
    ensures k in CollectMap(items, f)
            <==> exists i :: 0 <= i < |items| && f(items[i]).Some? && f(items[i]).value.0 == k
    decreases |items|
  {
    if items != [] {
      var init := items[..|items| - 1];
      CollectKeys(init, f, k);
      if exists i :: 0 <= i < |init| && f(init[i]).Some? && f(init[i]).value.0 == k {
        var i :| 0 <= i < |init| && f(init[i]).Some? && f(init[i]).value.0 == k;
        assert items[i] == init[i];
      }
      if exists i :: 0 <= i < |items| && f(items[i]).Some? && f(items[i]).value.0 == k {
        var i :| 0 <= i < |items| && f(items[i]).Some? && f(items[i]).value.0 == k;
        if i < |init| {
          assert init[i] == items[i];
        }
      }
    }
  }

  /** The value kept for a key comes from the last item that maps to that key. */
  lemma {:induction false} CollectLast<T, K, V>(items: seq<T>, f: T -> Option<(K, V)>, i: nat)
    requires i < |items| && f(items[i]).Some?
    requires forall j :: i < j < |items| ==> f(items[j]).None? || f(items[j]).value.0 != f(items[i]).value.0
    ensures f(items[i]).value.0 in CollectMap(items, f)
    ensures CollectMap(items, f)[f(items[i]).value.0] == f(items[i]).value.1
    decreases |items|
  {
    if i < |items| - 1 {
      var init := items[..|items| - 1];
      assert init[i] == items[i];
      forall j | i < j < |init|
        ensures f(init[j]).None? || f(init[j]).value.0 != f(init[i]).value.0
      {
        assert init[j] == items[j];
      }
      CollectLast(init, f, i);
    }
  }
}
