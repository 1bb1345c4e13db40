/** Small shared vocabulary. */
module Common {

  datatype Option<+T> = None | Some(value: T)

  datatype Result<+T, +E> = Ok(value: T) | Err(error: E)

  /** How an awaited coroutine came back. */
  datatype Ending = Returned | Raised(message: string) | WasCancelled

  function Sum(s: seq<nat>): nat {
    if s == [] then 0 else s[0] + Sum(s[1..])
  }

  lemma {:induction false} SumUpdate(s: seq<nat>, i: nat, v: nat)
    requires i < |s|
    ensures Sum(s[i := v]) + s[i] == Sum(s) + v
  {
    if i > 0 {
      SumUpdate(s[1..], i - 1, v);
      assert s[i := v][1..] == s[1..][i - 1 := v];
    } else {
      assert s[i := v][1..] == s[1..];
    }
  }

  lemma {:induction false} SumAppend(s: seq<nat>, v: nat)
    ensures Sum(s + [v]) == Sum(s) + v
  {
    if s != [] {
      SumAppend(s[1..], v);
      assert (s + [v])[1..] == s[1..] + [v];
    }
  }

  /** The last `n` elements; a bound that is not positive keeps nothing. */
  function Last<T>(s: seq<T>, n: int): seq<T> {
    if n <= 0 then [] else if |s| <= n then s else s[|s| - n..]
  }

  /** Trimming after every append keeps exactly the tail of the whole history. */
  lemma LastOfLast<T>(whole: seq<T>, x: T, n: int)
    ensures Last(Last(whole, n) + [x], n) == Last(whole + [x], n)
  {
  }
}
