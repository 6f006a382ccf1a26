/** Ordered times and how many of them a time window can hold. */
module Windows {
  import opened Text

  predicate Ordered(times: seq<int>) { forall i, j :: 0 <= i < j < |times| ==> times[i] <= times[j] }

  ghost predicate NoneLater(times: seq<int>, now: int) { forall i :: 0 <= i < |times| ==> times[i] <= now }

  lemma StillNoneLater(times: seq<int>, before: int, now: int)
    requires before <= now && (times == [] || NoneLater(times, before))
    ensures NoneLater(times, now)
  {
  }

  /** Any time and the n-th after it are at least a window apart. */
  predicate Spaced(times: seq<int>, window: nat, n: nat) {
    forall i :: 0 <= i && i + n < |times| ==> times[i + n] - times[i] >= window
  }

  predicate InWindow(from: int, window: nat, t: int) { from <= t < from + window }

  /** The times in the half-open window that starts at `from`. */
  function Within(times: seq<int>, from: int, window: nat): seq<int> {
    Filter(t => InWindow(from, window, t), times)
  }

  lemma WithinAppend(a: seq<int>, b: seq<int>, from: int, window: nat)
    ensures Within(a + b, from, window) == Within(a, from, window) + Within(b, from, window)
  {
    FilterAppend(t => InWindow(from, window, t), a, b);
  }

  lemma WithinAll(times: seq<int>, from: int, window: nat)
    requires forall i :: 0 <= i < |times| ==> InWindow(from, window, times[i])
    ensures Within(times, from, window) == times
  {
    FilterAll(t => InWindow(from, window, t), times);
  }

  lemma WithinNone(times: seq<int>, from: int, window: nat)
    requires forall i :: 0 <= i < |times| ==> !InWindow(from, window, times[i])
    ensures Within(times, from, window) == []
  {
    FilterNone(t => InWindow(from, window, t), times);
  }

  /** Spaced times put at most n into any window, wherever it starts. */
  lemma {:induction false} SpacedWindow(times: seq<int>, window: nat, n: nat, from: int)
    requires Ordered(times) && Spaced(times, window, n)
    ensures |Within(times, from, window)| <= n
  {
    if times != [] {
      if times[0] < from {
        assert Ordered(times[1..]);
        assert Spaced(times[1..], window, n) by {
          forall i | 0 <= i && i + n < |times| - 1 ensures times[1..][i + n] - times[1..][i] >= window {
            assert times[1..][i + n] == times[i + 1 + n] && times[1..][i] == times[i + 1];
          }
        }
        SpacedWindow(times[1..], window, n, from);
      } else {
        var head := if n < |times| then n else |times|;
        FilterAppend(t => InWindow(from, window, t), times[..head], times[head..]);
        assert times == times[..head] + times[head..];
        FilterAll(t => InWindow(from, window, t), times[..head]);
        forall i | head <= i < |times| ensures !InWindow(from, window, times[i]) {
          assert times[0 + n] - times[0] >= window;
          assert times[n] <= times[i];
        }
        FilterNone(t => InWindow(from, window, t), times[head..]);
      }
    }
  }

  /** The times after a cutoff: for ordered times, what is left when old ones are dropped from the front. */
  function After(times: seq<int>, cutoff: int): seq<int> { Filter(t => t > cutoff, times) }

  /** Times up to the cutoff leave at the front, one by one, until a later one stands there. */
  function DropOld(times: seq<int>, cutoff: int): seq<int> {
    if times != [] && times[0] <= cutoff then DropOld(times[1..], cutoff) else times
  }

  lemma {:induction false} DropOldIsAfter(times: seq<int>, cutoff: int)
    requires Ordered(times)
    ensures DropOld(times, cutoff) == After(times, cutoff)
  {
    if times != [] {
      if times[0] <= cutoff {
        DropOldIsAfter(times[1..], cutoff);
      } else {
        FilterAll(t => t > cutoff, times);
      }
    }
  }

  lemma {:induction false} AfterTwice(times: seq<int>, early: int, late: int)
    requires early <= late
    ensures After(After(times, early), late) == After(times, late)
  {
    if times != [] {
      AfterTwice(times[1..], early, late);
      if times[0] > early {
        assert After(times, early)[1..] == After(times[1..], early);
      } else {
        assert After(times, early) == After(times[1..], early);
      }
    }
  }

  /** Ordered times after a cutoff are a suffix. */
  lemma {:induction false} AfterIsSuffix(times: seq<int>, cutoff: int)
    requires Ordered(times)
    ensures |After(times, cutoff)| <= |times| && After(times, cutoff) == times[|times| - |After(times, cutoff)|..]
    ensures forall i :: 0 <= i < |times| ==> (times[i] > cutoff <==> i >= |times| - |After(times, cutoff)|)
  {
    hide After;
    AfterFirst(times, cutoff);
    if times != [] {
      AfterIsSuffix(times[1..], cutoff);
      if times[0] <= cutoff {
        var k := |After(times, cutoff)|;
        assert times[1..][|times| - 1 - k..] == times[|times| - k..];
        assert forall i :: 1 <= i < |times| ==> times[i] == times[1..][i - 1];
      }
    }
  }

  lemma AfterFirst(times: seq<int>, cutoff: int)
    requires Ordered(times)
    ensures times == [] ==> After(times, cutoff) == []
    ensures times != [] && times[0] <= cutoff ==> After(times, cutoff) == After(times[1..], cutoff)
    ensures times != [] && times[0] > cutoff ==> After(times, cutoff) == times
  {
    if times != [] && times[0] > cutoff {
      FilterAll(t => t > cutoff, times);
    }
  }

  lemma NothingAfter(cutoff: int)
    ensures DropOld([], cutoff) == [] && After([], cutoff) == []
  {
  }

  lemma AfterSnoc(times: seq<int>, now: int, window: nat)
    requires window >= 1
    ensures After(times + [now], now - window) == After(times, now - window) + [now]
  {
    FilterSnoc(t => t > now - window, times, now);
  }
}
