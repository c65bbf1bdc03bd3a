/** The sliding-window limiter for logins (backend/app/auth/utils.py, lines 81-97). */
module RateLimiter {
  import opened Wrappers

  const LOGIN_ATTEMPTS: nat := 5
  const WINDOW_SECONDS: real := 60.0

  /** An attempt that was let through. */
  datatype Admission = Admission(key: string, at: real)

  /** The times of one key's admissions, oldest first. */
  function TimesOf(history: seq<Admission>, key: string): seq<real> {
    if history == [] then []
    else
      var last := history[|history| - 1];
      TimesOf(history[..|history| - 1], key) + if last.key == key then [last.at] else []
  }

  lemma TimesOfAppend(history: seq<Admission>, a: Admission, key: string)
    ensures TimesOf(history + [a], key) == TimesOf(history, key) + if a.key == key then [a.at] else []
  {
    assert (history + [a])[..|history + [a]| - 1] == history;
  }

  predicate Sorted(times: seq<real>) {
    forall i, j :: 0 <= i < j < |times| ==> times[i] <= times[j]
  }

  /** How many of `times` lie after `cutoff`. */
  function CountAfter(times: seq<real>, cutoff: real): nat {
    if times == [] then 0
    else CountAfter(times[..|times| - 1], cutoff) + if times[|times| - 1] > cutoff then 1 else 0
  }

  /** In a sorted list they are a suffix. */
  lemma {:induction false} CountAfterSplit(times: seq<real>, cutoff: real, d: nat)
    requires d <= |times|
    requires forall i :: 0 <= i < d ==> times[i] <= cutoff
    requires forall i :: d <= i < |times| ==> times[i] > cutoff
    ensures CountAfter(times, cutoff) == |times| - d
  {
    if times != [] {
      var front := times[..|times| - 1];
      CountAfterSplit(front, cutoff, if d == |times| then d - 1 else d);
    }
  }

  /** However the rest lies, leaving out the first `d` leaves at most the others. */
  lemma {:induction false} CountAfterAtMost(times: seq<real>, cutoff: real, d: nat)
    requires d <= |times|
    requires forall i :: 0 <= i < d ==> times[i] <= cutoff
    ensures CountAfter(times, cutoff) <= |times| - d
  {
    if times != [] {
      var front := times[..|times| - 1];
      CountAfterAtMost(front, cutoff, if d == |times| then d - 1 else d);
    }
  }

  /** The admissions of `key` in the window that ends at `now`. */
  function InWindow(history: seq<Admission>, key: string, now: real): nat {
    CountAfter(TimesOf(history, key), now - WINDOW_SECONDS)
  }

  /** The admissions of `key` after `now` less a minute, by their places in the history. */
  function Places(history: seq<Admission>, key: string, now: real): set<nat> {
    set i: nat | i < |history| && history[i].key == key && history[i].at > now - 60.0
  }

  /** The count is of those, and no other. */
  lemma {:induction false} WindowCounts(history: seq<Admission>, key: string, now: real)
    ensures InWindow(history, key, now) == |Places(history, key, now)|
  {
    if history != [] {
      hide CountAfter, TimesOf, Places;
      var front, last := history[..|history| - 1], history[|history| - 1];
      WindowCounts(front, key, now);
      assert front + [last] == history;
      TimesOfAppend(front, last, key);
      CountAppend(TimesOf(front, key), last.at, now - WINDOW_SECONDS);
      PlacesAppend(front, last, key, now);
    } else {
      assert Places(history, key, now) == {};
    }
  }

  lemma PlacesAppend(history: seq<Admission>, a: Admission, key: string, now: real)
    ensures |Places(history + [a], key, now)| ==
            |Places(history, key, now)| + if a.key == key && a.at > now - 60.0 then 1 else 0
  {
    var all := history + [a];
    assert forall i: nat :: i < |history| ==> all[i] == history[i];
    var more: set<nat> := if a.key == key && a.at > now - 60.0 then {|history|} else {};
    assert Places(all, key, now) == Places(history, key, now) + more;
  }

  lemma CountAppend(times: seq<real>, at: real, cutoff: real)
    ensures CountAfter(times + [at], cutoff) == CountAfter(times, cutoff) + if at > cutoff then 1 else 0
    ensures times + [] == times
  {
    assert (times + [at])[..|times|] == times;
  }

  /** Two admissions of one key that are five admissions apart, or more, are a window apart. */
  predicate Spaced(times: seq<real>) {
    forall i, j :: 0 <= i && i + LOGIN_ATTEMPTS <= j < |times| ==> times[j] - times[i] >= WINDOW_SECONDS
  }

  /** The admissions of every key are in order, spaced, and none is in the future. */
  ghost predicate Orderly(history: seq<Admission>, now: real) {
    forall key: string :: OrderlyTimes(TimesOf(history, key), now)
  }

  predicate OrderlyTimes(times: seq<real>, now: real) {
    Sorted(times) && Spaced(times) && forall i :: 0 <= i < |times| ==> times[i] <= now
  }

  lemma OrderlyLater(history: seq<Admission>, before: real, now: real)
    requires Orderly(history, before) && before <= now
    ensures Orderly(history, now)
  {
    forall key: string ensures OrderlyTimes(TimesOf(history, key), now) {
      assert OrderlyTimes(TimesOf(history, key), before);
    }
  }

  /** Letting one more through keeps that so when fewer than five are in the window. */
  lemma AdmissionKeepsOrder(history: seq<Admission>, key: string, now: real)
    requires Orderly(history, now)
    requires InWindow(history, key, now) < LOGIN_ATTEMPTS
    ensures Orderly(history + [Admission(key, now)], now)
  {
    var a := Admission(key, now);
    forall other: string ensures OrderlyTimes(TimesOf(history + [a], other), now) {
      TimesOfAppend(history, a, other);
      var times := TimesOf(history, other);
      assert OrderlyTimes(times, now);
      if other == key && |times| >= LOGIN_ATTEMPTS {
        FewInWindow(times, now - WINDOW_SECONDS);
      }
    }
  }

  /** With fewer than five after `cutoff`, the fifth from the end is not after it. */
  lemma FewInWindow(times: seq<real>, cutoff: real)
    requires Sorted(times) && |times| >= LOGIN_ATTEMPTS
    requires CountAfter(times, cutoff) < LOGIN_ATTEMPTS
    ensures forall i :: 0 <= i <= |times| - LOGIN_ATTEMPTS ==> times[i] <= cutoff
  {
    var d := |times| - LOGIN_ATTEMPTS;
    if times[d] > cutoff {
      CountAfterAtLeast(times, cutoff, d);
    }
  }

  lemma {:induction false} CountAfterAtLeast(times: seq<real>, cutoff: real, d: nat)
    requires d <= |times|
    requires forall i :: d <= i < |times| ==> times[i] > cutoff
    ensures CountAfter(times, cutoff) >= |times| - d
  {
    if d < |times| {
      CountAfterAtLeast(times[..|times| - 1], cutoff, d);
    }
  }

  /** A stored deque is what is left of its key's admissions, never empty and at most five
      long; all that is no longer stored is not after `cutoff`. */
  predicate Kept(times: seq<real>, stored: seq<real>, cutoff: real) {
    stored != [] && Left(times, stored, cutoff)
  }

  predicate Left(times: seq<real>, stored: seq<real>, cutoff: real) {
    && |stored| <= LOGIN_ATTEMPTS && |stored| <= |times|
    && stored == times[|times| - |stored|..]
    && forall i :: 0 <= i < |times| - |stored| ==> times[i] <= cutoff
  }

  /** Once its old end is popped, the deque holds exactly the admissions after `cutoff`. */
  lemma SuffixCount(times: seq<real>, stored: seq<real>, cutoff: real, now: real)
    requires OrderlyTimes(times, now) && Left(times, stored, cutoff)
    requires stored == [] || stored[0] > cutoff
    ensures CountAfter(times, cutoff) == |stored| <= LOGIN_ATTEMPTS
  {
    var d := |times| - |stored|;
    assert forall i :: d <= i < |times| ==> times[i] == stored[i - d];
    if stored != [] {
      assert stored[0] == times[d];
    }
    CountAfterSplit(times, cutoff, d);
  }

  /** `math.ceil`. */
  function Ceil(x: real): (n: int)
    ensures n as real >= x > n as real - 1.0
  {
    -((-x).Floor)
  }

  /** The answer to a refused attempt is exact: one second less is too early, and from then
      on the window has room again. */
  lemma WaitIsExact(all: seq<real>, stored: seq<real>, now: real, wait: int)
    requires OrderlyTimes(all, now) && Left(all, stored, now - WINDOW_SECONDS) && |stored| == LOGIN_ATTEMPTS
    requires stored[0] > now - WINDOW_SECONDS
    requires wait == Ceil(stored[0] - (now - WINDOW_SECONDS))
    ensures 1 <= wait <= 60
    ensures CountAfter(all, now + (wait - 1) as real - WINDOW_SECONDS) >= LOGIN_ATTEMPTS
    ensures forall cutoff: real :: cutoff >= now + wait as real - WINDOW_SECONDS ==> CountAfter(all, cutoff) < LOGIN_ATTEMPTS
  {
    var d := |all| - LOGIN_ATTEMPTS;
    assert stored[0] == all[d];
    CountAfterAtLeast(all, now + (wait - 1) as real - WINDOW_SECONDS, d);
    forall cutoff: real | cutoff >= now + wait as real - WINDOW_SECONDS
      ensures CountAfter(all, cutoff) < LOGIN_ATTEMPTS
    {
      CountAfterAtMost(all, cutoff, d + 1);
    }
  }

  function StaleKeys(attempts: map<string, seq<real>>, cutoff: real): set<string>
    requires forall key :: key in attempts ==> attempts[key] != []
  {
    set key | key in attempts && attempts[key][|attempts[key]| - 1] <= cutoff
  }

  /** What is stored answers every question about the window that starts after `cutoff`. */
  ghost predicate Stored(attempts: map<string, seq<real>>, history: seq<Admission>, cutoff: real) {
    && (forall key: string :: key in attempts ==> Kept(TimesOf(history, key), attempts[key], cutoff))
    && (forall key: string :: key !in attempts ==> Left(TimesOf(history, key), [], cutoff))
  }

  /** Dropping the stale keys loses nothing that window still needs. */
  lemma DropKeepsStored(attempts: map<string, seq<real>>, history: seq<Admission>, before: real, cutoff: real, now: real)
    requires Stored(attempts, history, before) && before <= cutoff && Orderly(history, now)
    ensures forall key :: key in attempts ==> attempts[key] != []
    ensures Stored(attempts - StaleKeys(attempts, cutoff), history, cutoff)
  {
    hide TimesOf, Left, OrderlyTimes;
    var kept := attempts - StaleKeys(attempts, cutoff);
    forall key: string | key in kept ensures Kept(TimesOf(history, key), kept[key], cutoff) {
      assert Kept(TimesOf(history, key), attempts[key], before);
      LeftLater(TimesOf(history, key), attempts[key], before, cutoff);
    }
    forall key: string | key !in kept ensures Left(TimesOf(history, key), [], cutoff) {
      if key in attempts {
        assert Kept(TimesOf(history, key), attempts[key], before) && OrderlyTimes(TimesOf(history, key), now);
        StaleIsGone(TimesOf(history, key), attempts[key], before, cutoff, now);
      } else {
        LeftLater(TimesOf(history, key), [], before, cutoff);
      }
    }
  }

  lemma LeftLater(times: seq<real>, stored: seq<real>, before: real, cutoff: real)
    requires Left(times, stored, before) && before <= cutoff
    ensures Left(times, stored, cutoff)
  {
  }

  /** When a key's last admission has left the window, all of them have. */
  lemma StaleIsGone(times: seq<real>, stored: seq<real>, before: real, cutoff: real, now: real)
    requires Kept(times, stored, before) && stored[|stored| - 1] <= cutoff && OrderlyTimes(times, now)
    ensures Left(times, [], cutoff)
  {
    assert stored[|stored| - 1] == times[|times| - 1];
  }

  /** One more admission is stored where its key's deque is. */
  lemma AdmitKeepsStored(attempts: map<string, seq<real>>, history: seq<Admission>, key: string, times: seq<real>, now: real)
    requires Stored(attempts, history, now - WINDOW_SECONDS)
    requires Left(TimesOf(history, key), times, now - WINDOW_SECONDS) && |times| < LOGIN_ATTEMPTS
    ensures Stored(attempts[key := times + [now]], history + [Admission(key, now)], now - WINDOW_SECONDS)
  {
    hide TimesOf, Left;
    var later := history + [Admission(key, now)];
    var deque := times + [now];
    var cutoff := now - WINDOW_SECONDS;
    TimesOfAppend(history, Admission(key, now), key);
    LeftAppend(TimesOf(history, key), times, cutoff, now);
    forall other: string | other != key
      ensures TimesOf(later, other) == TimesOf(history, other)
    {
      TimesOfAppend(history, Admission(key, now), other);
    }
    var stored := attempts[key := deque];
    forall other: string | other in stored ensures Kept(TimesOf(later, other), stored[other], cutoff) {
      if other != key {
        assert Kept(TimesOf(history, other), attempts[other], cutoff);
      }
    }
    forall other: string | other !in stored ensures Left(TimesOf(later, other), [], cutoff) {
      assert Left(TimesOf(history, other), [], cutoff);
    }
  }

  lemma LeftAppend(times: seq<real>, stored: seq<real>, cutoff: real, now: real)
    requires Left(times, stored, cutoff) && |stored| < LOGIN_ATTEMPTS
    ensures Left(times + [now], stored + [now], cutoff)
  {
    assert (times + [now])[|times| - |stored|..] == times[|times| - |stored|..] + [now];
  }

  lemma LeftPop(times: seq<real>, stored: seq<real>, cutoff: real)
    requires Left(times, stored, cutoff) && stored != [] && stored[0] <= cutoff
    ensures Left(times, stored[1..], cutoff)
  {
    assert stored[0] == times[|times| - |stored|];
  }

  lemma StoredAt(attempts: map<string, seq<real>>, history: seq<Admission>, cutoff: real, key: string)
    requires Stored(attempts, history, cutoff)
    ensures Left(TimesOf(history, key), if key in attempts then attempts[key] else [], cutoff)
  {
    hide TimesOf, Left;
  }

  lemma OrderlyAt(history: seq<Admission>, now: real, key: string)
    requires Orderly(history, now)
    ensures OrderlyTimes(TimesOf(history, key), now)
  {
    hide TimesOf, OrderlyTimes;
  }

  /** Popping the old end, or nothing, keeps a deque stored. */
  lemma PutKeepsStored(attempts: map<string, seq<real>>, history: seq<Admission>, key: string, times: seq<real>, cutoff: real)
    requires Stored(attempts, history, cutoff) && times != [] && Left(TimesOf(history, key), times, cutoff)
    ensures Stored(attempts[key := times], history, cutoff)
  {
    hide TimesOf, Left;
    var stored := attempts[key := times];
    forall other: string | other in stored ensures Kept(TimesOf(history, other), stored[other], cutoff) {
      if other != key {
        assert Kept(TimesOf(history, other), attempts[other], cutoff);
      }
    }
  }

  class LoginRateLimiter {
    var attempts: map<string, seq<real>>
    /** Every admission ever, and the time of the last call. */
    ghost var history: seq<Admission>
    ghost var clock: real

    ghost predicate Valid()
      reads this
    {
      Orderly(history, clock) && Stored(attempts, history, clock - WINDOW_SECONDS)
    }

    constructor (ghost now: real)
      ensures Valid() && history == [] && clock == now
    {
      attempts := map[];
      history := [];
      clock := now;
    }

    /** Forgets every key whose last admission has left the window, and no other. */
    method DropStale(cutoff: real)
      requires forall key :: key in attempts ==> attempts[key] != []
      modifies this`attempts
      ensures attempts == old(attempts) - StaleKeys(old(attempts), cutoff)
    {
      var stale := StaleKeys(attempts, cutoff);
      while stale != {}
        invariant stale <= StaleKeys(old(attempts), cutoff)
        invariant attempts == old(attempts) - (StaleKeys(old(attempts), cutoff) - stale)
        decreases |stale|
      {
        var key :| key in stale;
        attempts := attempts - {key};
        stale := stale - {key};
      }
    }

    /** `hit` at the time `now` of a clock that does not go back. An attempt is let through
        exactly when fewer than five of its key were in the last minute; otherwise the answer
        is the least whole number of seconds after which, if no other is let through in
        between, the next one will be. */
    method Hit(key: string, now: real) returns (wait: Option<int>)
      requires Valid() && now >= clock
      modifies this
      ensures Valid() && clock == now
      ensures wait.None? <==> InWindow(old(history), key, now) < 5
      ensures history == if wait.None? then old(history) + [Admission(key, now)] else old(history)
      ensures wait.Some? ==>
        && 1 <= wait.value <= 60
        && InWindow(history, key, now + (wait.value - 1) as real) >= 5
        && forall later: real :: later >= now + wait.value as real ==> InWindow(history, key, later) < 5
    {
      hide CountAfter, TimesOf, OrderlyTimes, Stored, Orderly, Left;
      var cutoff := now - WINDOW_SECONDS;
      assert Orderly(history, now) by {
        OrderlyLater(history, clock, now);
      }
      DropKeepsStored(attempts, history, clock - WINDOW_SECONDS, cutoff, now);
      DropStale(cutoff);
      var times := if key in attempts then attempts[key] else [];
      StoredAt(attempts, history, cutoff, key);
      OrderlyAt(history, now, key);
      ghost var all := TimesOf(history, key);
      while times != [] && times[0] <= cutoff
        invariant Left(all, times, cutoff)
        modifies {}
      {
        LeftPop(all, times, cutoff);
        times := times[1..];
      }
      SuffixCount(all, times, cutoff, now);
      if |times| >= LOGIN_ATTEMPTS {
        var seconds := Ceil(times[0] - cutoff);
        WaitIsExact(all, times, now, seconds);
        PutKeepsStored(attempts, history, key, times, cutoff);
        attempts, clock := attempts[key := times], now;
        return Some(if seconds > 1 then seconds else 1);
      }
      AdmissionKeepsOrder(history, key, now);
      AdmitKeepsStored(attempts, history, key, times, now);
      attempts := attempts[key := times + [now]];
      history, clock := history + [Admission(key, now)], now;
      return None;
    }
  }
}
