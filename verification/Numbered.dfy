/** Logs of numbered items. Every replay buffer of the system (the daemon's outbox, the hub's
    outbox, the Redis stream) is such a log, trimmed by cumulative acknowledgements and by a
    length cap. */
module Numbered {

  datatype Option<+T> = None | Some(value: T)

  datatype Entry<+T> = Entry(num: nat, item: T)

  function Max(a: nat, b: nat): nat { if a < b then b else a }

  /** Sequence numbers strictly increase along the log. */
  ghost predicate Ascending<T>(es: seq<Entry<T>>) {
    forall i, j | 0 <= i < j < |es| :: es[i].num < es[j].num
  }

  /** The reference meaning of an acknowledgement: keep exactly the entries above `n`. */
  function Above<T>(es: seq<Entry<T>>, n: nat): seq<Entry<T>> {
    if es == [] then []
    else if es[0].num > n then [es[0]] + Above(es[1..], n)
    else Above(es[1..], n)
  }

  /** What the trim loops compute: pop entries off the front while they are acknowledged. */
  function Trim<T>(es: seq<Entry<T>>, n: nat): seq<Entry<T>> {
    if es != [] && es[0].num <= n then Trim(es[1..], n) else es
  }

  /** What the eviction loops compute: the newest `k` entries. */
  function Newest<T>(es: seq<Entry<T>>, k: nat): seq<Entry<T>> {
    if |es| <= k then es else es[|es| - k..]
  }

  function Items<T>(es: seq<Entry<T>>): seq<T> {
    seq(|es|, i requires 0 <= i < |es| => es[i].item)
  }

  /** On an ascending log popping the acknowledged front is the same as filtering. */
  lemma {:induction false} TrimIsAbove<T>(es: seq<Entry<T>>, n: nat)
    requires Ascending(es)
    ensures Trim(es, n) == Above(es, n)
  {
    if es == [] {
    } else {
      if es[0].num <= n {
        TrimIsAbove(es[1..], n);
      } else {
        AboveAll(es, n);
      }
    }
  }

  lemma {:induction false} AboveAll<T>(es: seq<Entry<T>>, n: nat)
    requires forall i | 0 <= i < |es| :: es[i].num > n
    ensures Above(es, n) == es
  {
    if es == [] {
    } else {
      AboveAll(es[1..], n);
    }
  }

  lemma {:induction false} AboveNone<T>(es: seq<Entry<T>>, n: nat)
    requires forall i | 0 <= i < |es| :: es[i].num <= n
    ensures Above(es, n) == []
  {
    if es == [] {
    } else {
      AboveNone(es[1..], n);
    }
  }

  lemma {:induction false} AboveConcat<T>(a: seq<Entry<T>>, b: seq<Entry<T>>, n: nat)
    ensures Above(a + b, n) == Above(a, n) + Above(b, n)
  {
    if a == [] {
      assert a + b == b;
    } else {
      assert (a + b)[0] == a[0] && (a + b)[1..] == a[1..] + b;
      AboveConcat(a[1..], b, n);
    }
  }

  lemma {:induction false} AboveTwice<T>(es: seq<Entry<T>>, m: nat, n: nat)
    ensures Above(Above(es, m), n) == Above(es, if m < n then n else m)
  {
    if es == [] {
    } else {
      AboveTwice(es[1..], m, n);
    }
  }

  lemma {:induction false} AboveMember<T>(es: seq<Entry<T>>, n: nat, e: Entry<T>)
    ensures e in Above(es, n) <==> e in es && e.num > n
  {
    if es == [] {
    } else {
      AboveMember(es[1..], n, e);
      assert es == [es[0]] + es[1..];
    }
  }

  /** Dropping some front of an ascending log is what an acknowledgement does: the result is a suffix. */
  lemma {:induction false} AboveIsSuffix<T>(es: seq<Entry<T>>, n: nat) returns (k: nat)
    requires Ascending(es)
    ensures k <= |es| && Above(es, n) == es[k..]
    ensures forall i | 0 <= i < k :: es[i].num <= n
    ensures forall i | k <= i < |es| :: es[i].num > n
  {
    if es == [] || es[0].num > n {
      k := 0;
      AboveAll(es, n);
      assert es[0..] == es;
    } else {
      var k' := AboveIsSuffix(es[1..], n);
      k := k' + 1;
      assert es[k..] == es[1..][k'..];
      forall i | 0 <= i < |es|
        ensures i < k ==> es[i].num <= n
        ensures k <= i ==> es[i].num > n
      {
        if 0 < i { assert es[i] == es[1..][i - 1]; }
      }
    }
  }

  /** Trimming an ascending log at its own entry `d - 1` drops exactly `d` entries. */
  lemma AboveAt<T>(es: seq<Entry<T>>, d: nat)
    requires Ascending(es) && 0 < d <= |es|
    ensures Above(es, es[d - 1].num) == es[d..]
  {
    var n := es[d - 1].num;
    assert es == es[..d] + es[d..];
    AboveConcat(es[..d], es[d..], n);
    AboveNone(es[..d], n);
    AboveAll(es[d..], n);
  }
}
