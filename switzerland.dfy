/**
 * The Windows stand-in for SIGWINCH: a registry of channels that a worker signals whenever
 * it samples a console size different from the previous one. Channels are compared by
 * identity, which the type parameter's equality stands for; the lock, the worker goroutine,
 * the sleeps and the console itself are not modelled.
 */
module Switzerland {
  import opened Text

  /** A console size sample. */
  datatype Size = Size(width: int, height: int)

  /** Removing the element at `i` by moving the last one into its place. */
  function SwapRemove<T>(s: seq<T>, i: nat): (r: seq<T>)
    requires i < |s|
    ensures |r| == |s| - 1
    ensures forall k :: 0 <= k < |r| && k != i ==> r[k] == s[k]
    ensures i < |r| ==> r[i] == s[|s| - 1]
  {
    var last := |s| - 1;
    var moved := if |s| > 1 then s[i := s[last]] else s;
    moved[..last]
  }

  /** It drops one copy of the element and keeps every other one. */
  lemma SwapRemoveMultiset<T>(s: seq<T>, i: nat)
    requires i < |s|
    ensures multiset(SwapRemove(s, i)) == multiset(s) - multiset{s[i]}
  {
    var last := |s| - 1;
    var r := SwapRemove(s, i);
    assert s == s[..last] + [s[last]];
    if i < last {
      assert r == s[..last][i := s[last]];
      assert multiset(r) == multiset(s[..last]) - multiset{s[i]} + multiset{s[last]};
    } else {
      assert r == s[..last];
    }
  }

  /** No channel is registered twice. */
  predicate Distinct<T(==)>(s: seq<T>) {
    forall i, j :: 0 <= i < j < |s| ==> s[i] != s[j]
  }

  /** Removing by swap keeps a list without duplicates so. */
  lemma SwapRemoveDistinct<T>(s: seq<T>, i: nat)
    requires i < |s| && Distinct(s)
    ensures Distinct(SwapRemove(s, i))
  {
    var r := SwapRemove(s, i);
    forall a, b | 0 <= a < b < |r|
      ensures r[a] != r[b]
    {
      if a != i && b != i {
        assert r[a] == s[a] && r[b] == s[b];
      } else if a == i {
        assert r[b] == s[b] && r[a] == s[|s| - 1];
      } else {
        assert r[a] == s[a] && r[b] == s[|s| - 1];
      }
    }
  }

  /** From a list without duplicates the element at `i` is gone afterwards... */
  lemma SwapRemoveDrops<T>(s: seq<T>, i: nat)
    requires i < |s| && Distinct(s)
    ensures s[i] !in SwapRemove(s, i)
  {
    var r := SwapRemove(s, i);
    forall k | 0 <= k < |r|
      ensures r[k] != s[i]
    {
      if k != i {
        assert r[k] == s[k];
      } else {
        assert r[k] == s[|s| - 1];
      }
    }
  }

  /** ...and every other element is kept. */
  lemma SwapRemoveKeeps<T>(s: seq<T>, i: nat, x: T)
    requires i < |s| && x in s && x != s[i]
    ensures x in SwapRemove(s, i)
  {
    SwapRemoveMultiset(s, i);
    assert x in multiset(s);
    assert x in multiset(SwapRemove(s, i));
  }

  class Registry<Chan(==)> {
    var handlers: seq<Chan>
    var isRunning: bool
    var prevSize: Size

    ghost predicate Valid()
      reads this
    {
      Distinct(handlers)
    }

    /** The registry starts empty, with no worker running. */
    constructor()
      ensures Valid() && handlers == [] && !isRunning
    {
      handlers := [];
      isRunning := false;
      prevSize := Size(0, 0);
    }

    /** `Notify`: registers `c` unless it is already there; a worker is started when none runs. */
    method Notify(c: Chan) returns (startWorker: bool)
      requires Valid()
      modifies this`handlers
      ensures Valid() && c in handlers
      ensures old(c in handlers) ==> handlers == old(handlers)
      ensures old(c !in handlers) ==> handlers == old(handlers) + [c]
      ensures startWorker == !isRunning
    {
      var found := false;
      var i := 0;
      while i < |handlers|
        invariant 0 <= i <= |handlers|
        invariant found <==> c in handlers[..i]
      {
        if handlers[i] == c {
          found := true;
          break;
        }
        i := i + 1;
      }
      assert handlers[..|handlers|] == handlers;
      if !found {
        handlers := handlers + [c];
      }
      startWorker := !isRunning;
    }

    /** `Stop`: finds `c` and removes it by moving the last channel into its place. */
    method Stop(c: Chan)
      requires Valid()
      modifies this`handlers
      ensures Valid() && c !in handlers
      ensures old(c !in handlers) ==> handlers == old(handlers)
      ensures old(c in handlers) ==> handlers == SwapRemove(old(handlers), IndexOf(old(handlers), c))
    {
      var i := 0;
      while i < |handlers|
        invariant 0 <= i <= |handlers| && handlers == old(handlers)
        invariant c !in handlers[..i]
      {
        if handlers[i] == c {
          assert IndexOf(handlers, c) == i by {
            assert handlers == handlers[..i] + [c] + handlers[i + 1..];
            IndexOfAfterPrefix(handlers[..i], c, handlers[i + 1..]);
          }
          RemoveAt(i);
          return;
        }
        assert handlers[..i + 1] == handlers[..i] + [handlers[i]];
        i := i + 1;
      }
      assert handlers[..i] == handlers;
    }

    /** The removal step of `Stop`: the last channel moves into slot `i` and the list
     *  shrinks by one. */
    method RemoveAt(i: nat)
      requires Valid() && i < |handlers|
      modifies this`handlers
      ensures handlers == SwapRemove(old(handlers), i)
      ensures Valid() && old(handlers[i]) !in handlers
    {
      SwapRemoveDistinct(handlers, i);
      SwapRemoveDrops(handlers, i);
      var last := |handlers| - 1;
      if |handlers| > 1 {
        handlers := handlers[i := handlers[last]];
      }
      handlers := handlers[..last];
    }

    /** The worker's first step: it samples the size and marks itself running. */
    method StartWorker(size: Size)
      modifies this`isRunning, this`prevSize
      ensures isRunning && prevSize == size
    {
      prevSize := size;
      isRunning := true;
    }

    /** One round of the worker: with no channel left it stops; otherwise every channel is
     *  signalled when the size differs from the previous sample, which it then replaces. */
    method Tick(newSize: Size) returns (signalled: seq<Chan>, stopped: bool)
      modifies this`isRunning, this`prevSize
      ensures stopped <==> old(handlers) == []
      ensures stopped ==> !isRunning && prevSize == old(prevSize)
      ensures !stopped ==> isRunning == old(isRunning) && prevSize == newSize
      ensures signalled == if !stopped && newSize != old(prevSize) then handlers else []
    {
      if |handlers| == 0 {
        isRunning := false;
        return [], true;
      }
      signalled := [];
      if newSize.height != prevSize.height || newSize.width != prevSize.width {
        signalled := handlers;
      }
      prevSize := newSize;
      stopped := false;
    }

    /** The worker over a run of samples while the registry is not empty: round k signals
     *  exactly when sample k differs from the one before it. */
    method Watch(samples: seq<Size>) returns (rounds: seq<bool>)
      requires handlers != []
      modifies this`isRunning, this`prevSize
      ensures |rounds| == |samples|
      ensures forall k :: 0 <= k < |samples| ==>
        rounds[k] == (samples[k] != Previous(old(prevSize), samples, k))
      ensures samples != [] ==> prevSize == samples[|samples| - 1]
      ensures samples == [] ==> prevSize == old(prevSize)
    {
      rounds := [];
      var k := 0;
      while k < |samples|
        invariant 0 <= k <= |samples| && |rounds| == k
        invariant prevSize == Previous(old(prevSize), samples, k)
        invariant forall j :: 0 <= j < k ==> rounds[j] == (samples[j] != Previous(old(prevSize), samples, j))
      {
        var signalled, stopped := Tick(samples[k]);
        rounds := rounds + [signalled != []];
        k := k + 1;
      }
    }
  }

  /** The sample a round compares against: the starting one, then the round before. */
  function Previous(start: Size, samples: seq<Size>, k: nat): Size
    requires k <= |samples|
  {
    if k == 0 then start else samples[k - 1]
  }
}
