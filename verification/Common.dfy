/** Small shared vocabulary: an optional value, raw bytes, and facts about prefixes. */
module Common {

  datatype Option<+T> = None | Some(value: T)

  newtype byte = x: int | 0 <= x < 256

  type Bytes = seq<byte>

  /** The first n elements, or all of them when there are fewer. */
  function Take<T>(s: seq<T>, n: nat): (r: seq<T>)
    ensures r <= s
    ensures |r| == if |s| <= n then |s| else n
  {
    if |s| <= n then s else s[..n]
  }

  lemma UpdateSame<K, V>(m: map<K, V>, k: K)
    requires k in m
    ensures m[k := m[k]] == m
  {
  }

  /**
   * Cancellation as the loops see it, and the calls made under it. The fuel bounds
   * how much of a run is looked at; faults counts the stops and the refused calls,
   * so that an operation that fails can be shown to have had a reason.
   */
  class Context {
    var fuel: nat
    ghost var faults: nat

    constructor (fuel: nat)
      ensures this.fuel == fuel
    {
      this.fuel, faults := fuel, 0;
    }

    method Err() returns (stop: bool)
      modifies this
      ensures Since(old(fuel), old(faults), !stop) && (!stop ==> fuel < old(fuel))
    {
      stop := *;
      stop := stop || fuel == 0;
      if stop {
        faults := faults + 1;
      } else {
        fuel := fuel - 1;
      }
    }

    /** An outside call or an interruptible sleep: it may fail. */
    method Try() returns (ok: bool)
      modifies this`faults
      ensures Since(fuel, old(faults), ok)
    {
      ok := *;
      if !ok {
        faults := faults + 1;
      }
    }

    /** Since an earlier moment: no fault if all is well, exactly one otherwise. */
    ghost predicate Since(fuel0: nat, faults0: nat, ok: bool) reads this {
      fuel <= fuel0 && faults == faults0 + if ok then 0 else 1
    }
  }
}
