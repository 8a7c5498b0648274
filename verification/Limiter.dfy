/** The sliding-window rate limiter: recent attempts per key, filtered where they lie. */
module Limiter {
  type Time = int

  /** The readings of a list that are after a cutoff. */
  function After(list: seq<Time>, cutoff: Time): (kept: seq<Time>)
    ensures |kept| <= |list|
  {
    if list == [] then []
    else
      var last := list[|list| - 1];
      After(list[..|list| - 1], cutoff) + (if last > cutoff then [last] else [])
  }

  /** One attempt: the list it leaves, and whether it is within the limit. */
  function Attempt(list: seq<Time>, limit: int, window: int, now: Time): (seq<Time>, bool) {
    var kept := After(list, now - window);
    if |kept| >= limit then (kept, false) else (kept + [now], true)
  }

  function ListOf(lists: map<string, seq<Time>>, key: string): seq<Time> {
    if key in lists then lists[key] else []
  }

  /** One attempt of one key: every key's list after it, and whether it was allowed. */
  function Step(lists: map<string, seq<Time>>, key: string, limit: int, window: int, now: Time)
    : (map<string, seq<Time>>, bool)
  {
    var (list, ok) := Attempt(ListOf(lists, key), limit, window, now);
    (lists[key := list], ok)
  }

  /** A list as a slice keeps it: an array, and how much of it is in use. */
  datatype Slice = Slice(data: array<Time>, len: nat)

  class RateLimiter {
    const limit: int
    const window: int
    var attempts: map<string, Slice>

    ghost function Arrays(): set<array<Time>>
      reads this
    {
      set k | k in attempts :: attempts[k].data
    }

    /** No two keys share an array. */
    ghost predicate Valid()
      reads this
    {
      && (forall k | k in attempts :: attempts[k].len <= attempts[k].data.Length)
      && (forall j, k | j in attempts && k in attempts && attempts[j].data == attempts[k].data :: j == k)
    }

    ghost function View(): map<string, seq<Time>>
      requires Valid()
      reads this, Arrays()
    {
      map k | k in attempts :: attempts[k].data[..attempts[k].len]
    }

    constructor (limit: int, window: int)
      ensures Valid() && View() == map[] && this.limit == limit && this.window == window
    {
      this.limit, this.window := limit, window;
      attempts := map[];
    }

    /** Stores a slice of an array that is no other key's. */
    method Keep(key: string, data: array<Time>, len: nat)
      requires Valid() && len <= data.Length
      requires forall k | k in attempts && k != key :: attempts[k].data != data
      modifies `attempts
      ensures Valid() && attempts == old(attempts)[key := Slice(data, len)]
      ensures View() == old(View())[key := data[..len]]
    {
      attempts := attempts[key := Slice(data, len)];
    }

    /** A key that was never seen has an empty list. */
    method Begin(key: string)
      requires Valid()
      modifies `attempts
      ensures Valid() && key in View()
      ensures View() == if key in old(View()) then old(View()) else old(View())[key := []]
      ensures attempts == old(attempts) || (key !in old(attempts) && fresh(attempts[key].data))
      ensures key in attempts
    {
      if key !in attempts {
        var none := new Time[0];
        assert none[..0] == [];
        Keep(key, none, 0);
      }
    }

    /** Filters one key's array, which is no other key's. */
    method Filter(key: string, cutoff: Time) returns (kept: nat)
      requires Valid() && key in View()
      modifies attempts[key].data
      ensures kept <= attempts[key].data.Length && attempts[key].data[..kept] == After(old(View())[key], cutoff)
      ensures forall k | k in attempts && k != key :: attempts[k].data != attempts[key].data
      ensures View().Keys == attempts.Keys && View() == old(View())[key := View()[key]]
    {
      hide After;
      kept := FilterInPlace(attempts[key].data, attempts[key].len, cutoff);
    }

    /** Puts a reading behind what was kept, in one key's array or a larger copy of it. */
    method Extend(key: string, kept: nat, now: Time) returns (grown: array<Time>)
      requires Valid() && key in attempts && kept <= attempts[key].data.Length
      modifies attempts[key].data
      ensures kept + 1 <= grown.Length && grown[..kept + 1] == old(attempts[key].data[..kept]) + [now]
      ensures forall k | k in attempts && k != key :: attempts[k].data != grown
      ensures key in View() && View() == old(View())[key := View()[key]]
    {
      grown := Append(attempts[key].data, kept, now);
    }

    /** Stores what was kept, and the new reading behind it if there is room. */
    method Decide(key: string, kept: nat, now: Time) returns (ok: bool)
      requires Valid() && key in attempts && kept <= attempts[key].data.Length
      requires forall k | k in attempts && k != key :: attempts[k].data != attempts[key].data
      modifies `attempts, attempts[key].data
      ensures Valid() && ok == (kept < limit)
      ensures
        var list := old(attempts[key].data[..kept]);
        View() == old(View())[key := if kept >= limit then list else list + [now]]
    {
      hide Valid, View;
      if kept >= limit {
        Keep(key, attempts[key].data, kept);
        return false;
      }
      ghost var start := View();
      var grown := Extend(key, kept, now);
      ghost var filtered := View();
      Overwritten(start, start, filtered, key, grown[..kept + 1]);
      Keep(key, grown, kept + 1);
      return true;
    }

    /** Judges an attempt of a key that has a list. The list it reads is the list it writes: what is
        kept goes to the front of the same array, behind what is still to be read. */
    method Judge(key: string, now: Time) returns (ok: bool)
      requires Valid() && key in attempts && key in View()
      modifies `attempts, attempts[key].data
      ensures Valid()
      ensures
        var (list, allowed) := Attempt(old(View())[key], limit, window, now);
        View() == old(View())[key := list] && ok == allowed
    {
      hide After, Valid, View;
      ghost var start := View();
      var kept := Filter(key, now - window);
      ghost var filtered := View();
      Overwritten(start, start, filtered, key, Attempt(start[key], limit, window, now).0);
      ok := Decide(key, kept, now);
    }

    /** Records an attempt and reports whether it is within the limit. */
    method Allow(key: string, now: Time) returns (ok: bool)
      requires Valid()
      modifies this, if key in attempts then {attempts[key].data} else {}
      ensures Valid() && (View(), ok) == Step(old(View()), key, limit, window, now)
    {
      assert View().Keys == attempts.Keys;
      hide Attempt, Valid, View;
      ghost var before := View();
      Begin(key);
      Begun(before, View(), key, Attempt(View()[key], limit, window, now).0);
      ok := Judge(key, now);
    }
  }

  lemma Begun(before: map<string, seq<Time>>, start: map<string, seq<Time>>, key: string, list: seq<Time>)
    requires start == if key in before then before else before[key := []]
    ensures key in start && start[key] == ListOf(before, key) && start[key := list] == before[key := list]
  {}

  lemma Overwritten(a: map<string, seq<Time>>, b: map<string, seq<Time>>, c: map<string, seq<Time>>, key: string,
                    v: seq<Time>)
    requires key in c && c == b[key := c[key]] && (b == a || b == a[key := []])
    ensures c[key := v] == a[key := v]
  {}

  /** Moves what is after the cutoff to the front of the array, in order. */
  method FilterInPlace(data: array<Time>, len: nat, cutoff: Time) returns (kept: nat)
    requires len <= data.Length
    modifies data
    ensures kept <= len && data[..kept] == After(old(data[..len]), cutoff)
  {
    ghost var list := data[..len];
    kept := 0;
    for i := 0 to len
      invariant kept <= i && data[..kept] == After(list[..i], cutoff)
      invariant forall j | i <= j < len :: data[j] == list[j]
    {
      assert list[..i + 1][..i] == list[..i];
      var at := data[i];
      if at > cutoff {
        data[kept] := at;
        kept := kept + 1;
        assert data[..kept] == data[..kept - 1] + [at];
      }
    }
    assert list[..len] == list;
  }

  /** Puts one more at the end: in the array if there is room, in a larger copy if there is not. */
  method Append(data: array<Time>, len: nat, at: Time) returns (grown: array<Time>)
    requires len <= data.Length
    modifies data
    ensures grown == data || fresh(grown)
    ensures len + 1 <= grown.Length && grown[..len + 1] == old(data[..len]) + [at]
  {
    grown := data;
    if len == data.Length {
      grown := new Time[2 * len + 1](i requires 0 <= i reads data => if i < len then data[i] else at);
    }
    grown[len] := at;
  }

  // ----- runs -----

  datatype Event = Event(key: string, now: Time)

  function Run(limit: int, window: int, events: seq<Event>): map<string, seq<Time>> {
    if events == [] then map[]
    else
      var lists, e := Run(limit, window, events[..|events| - 1]), events[|events| - 1];
      Step(lists, e.key, limit, window, e.now).0
  }

  /** Whether the last attempt of a run was allowed. */
  predicate LastAllowed(limit: int, window: int, events: seq<Event>)
    requires events != []
  {
    var e := events[|events| - 1];
    Step(Run(limit, window, events[..|events| - 1]), e.key, limit, window, e.now).1
  }

  /** When a key's attempts were allowed, over a whole run. */
  function Allowed(limit: int, window: int, events: seq<Event>, key: string): seq<Time> {
    if events == [] then []
    else
      var e := events[|events| - 1];
      Allowed(limit, window, events[..|events| - 1], key)
      + (if e.key == key && LastAllowed(limit, window, events) then [e.now] else [])
  }

  /** How many of the readings lie in the half-open window (lo, hi]. */
  function Count(list: seq<Time>, lo: Time, hi: Time): (n: nat)
    ensures n <= |list|
  {
    if list == [] then 0
    else
      var last := list[|list| - 1];
      Count(list[..|list| - 1], lo, hi) + (if lo < last <= hi then 1 else 0)
  }

  /** The clock never runs back, in the order the lock was taken. */
  predicate Nondecreasing(events: seq<Event>) {
    forall i, j | 0 <= i < j < |events| :: events[i].now <= events[j].now
  }

  lemma AfterSnoc(list: seq<Time>, at: Time, cutoff: Time)
    ensures After(list + [at], cutoff) == if at > cutoff then After(list, cutoff) + [at] else After(list, cutoff)
  {
    assert (list + [at])[..|list|] == list;
  }

  lemma CountSnoc(list: seq<Time>, at: Time, lo: Time, hi: Time)
    ensures Count(list + [at], lo, hi) == Count(list, lo, hi) + if lo < at <= hi then 1 else 0
  {
    assert (list + [at])[..|list|] == list;
  }

  lemma {:induction false} AfterAfter(list: seq<Time>, c: Time, d: Time)
    requires c <= d
    ensures After(After(list, c), d) == After(list, d)
  {
    if list != [] {
      var front, last := list[..|list| - 1], list[|list| - 1];
      AfterAfter(front, c, d);
      assert list == front + [last];
      hide After;
      AfterSnoc(front, last, c);
      AfterSnoc(front, last, d);
      AfterSnoc(After(front, c), last, d);
    }
  }

  /** What one more attempt adds to a key's allowed ones, and to its list. */
  lemma OneMore(limit: int, window: int, events: seq<Event>, key: string)
    requires events != []
    ensures
      var front, e := events[..|events| - 1], events[|events| - 1];
      var allowed := e.key == key && LastAllowed(limit, window, events);
      var list := ListOf(Run(limit, window, front), key);
      && Allowed(limit, window, events, key) ==
         (if allowed then Allowed(limit, window, front, key) + [e.now] else Allowed(limit, window, front, key))
      && ListOf(Run(limit, window, events), key) ==
         (if allowed then After(list, e.now - window) + [e.now]
          else if e.key == key then After(list, e.now - window) else list)
  {
    hide After;
  }

  lemma {:induction false} AfterIsCounted(list: seq<Time>, cutoff: Time, now: Time)
    requires forall i | 0 <= i < |list| :: list[i] <= now
    ensures |After(list, cutoff)| == Count(list, cutoff, now)
  {
    if list != [] {
      AfterIsCounted(list[..|list| - 1], cutoff, now);
    }
  }

  lemma {:induction false} CountGrows(list: seq<Time>, lo: Time, hi: Time, lo': Time, hi': Time)
    requires lo' <= lo && (hi <= hi' || forall i | 0 <= i < |list| :: list[i] <= hi')
    ensures Count(list, lo, hi) <= Count(list, lo', hi')
  {
    if list != [] {
      CountGrows(list[..|list| - 1], lo, hi, lo', hi');
    }
  }

  /** What is allowed was read from the clock. */
  lemma {:induction false} AllowedByNow(limit: int, window: int, events: seq<Event>, key: string, now: Time)
    requires forall i | 0 <= i < |events| :: events[i].now <= now
    ensures forall i | 0 <= i < |Allowed(limit, window, events, key)| :: Allowed(limit, window, events, key)[i] <= now
  {
    if events != [] {
      AllowedByNow(limit, window, events[..|events| - 1], key, now);
    }
  }

  /** A key's stored list holds its allowed attempts that a reading from now on can still see. */
  lemma {:induction false} StoredIsRecent(limit: int, window: int, events: seq<Event>, key: string, cutoff: Time)
    requires Nondecreasing(events) && window > 0
    requires forall i | 0 <= i < |events| :: events[i].now - window <= cutoff
    ensures After(ListOf(Run(limit, window, events), key), cutoff) == After(Allowed(limit, window, events, key), cutoff)
  {
    if events != [] {
      var front, e := events[..|events| - 1], events[|events| - 1];
      StoredIsRecent(limit, window, front, key, cutoff);
      StoredIsRecent(limit, window, front, key, e.now - window);
      StoredStep(limit, window, events, key, cutoff);
    }
  }

  lemma StoredStep(limit: int, window: int, events: seq<Event>, key: string, cutoff: Time)
    requires events != [] && events[|events| - 1].now - window <= cutoff
    requires
      var front, seen := events[..|events| - 1], events[|events| - 1].now - window;
      var list, allowed := ListOf(Run(limit, window, front), key), Allowed(limit, window, front, key);
      After(list, seen) == After(allowed, seen) && After(list, cutoff) == After(allowed, cutoff)
    ensures After(ListOf(Run(limit, window, events), key), cutoff) == After(Allowed(limit, window, events, key), cutoff)
  {
    hide After, Run, Allowed, LastAllowed, ListOf;
    var front, e := events[..|events| - 1], events[|events| - 1];
    OneMore(limit, window, events, key);
    RecentStep(ListOf(Run(limit, window, front), key), Allowed(limit, window, front, key), e.now, e.now - window,
      cutoff);
  }

  lemma RecentStep(list: seq<Time>, allowed: seq<Time>, now: Time, seen: Time, cutoff: Time)
    requires seen <= cutoff && After(list, seen) == After(allowed, seen) &&
             After(list, cutoff) == After(allowed, cutoff)
    ensures After(After(list, seen), cutoff) == After(allowed, cutoff)
    ensures After(After(list, seen) + [now], cutoff) == After(allowed + [now], cutoff)
  {
    hide After;
    AfterAfter(list, seen, cutoff);
    AfterSnoc(After(list, seen), now, cutoff);
    AfterSnoc(allowed, now, cutoff);
  }

  /** An attempt is allowed exactly when fewer than `limit` allowed ones lie in the window that ends now.
      So it is refused only when `limit` of them do. */
  lemma AllowedIffRoom(limit: int, window: int, events: seq<Event>)
    requires events != [] && Nondecreasing(events) && window > 0
    ensures
      var e := events[|events| - 1];
      LastAllowed(limit, window, events) <==>
        Count(Allowed(limit, window, events[..|events| - 1], e.key), e.now - window, e.now) < limit
  {
    hide After, Run, Allowed, Count;
    var front, e := events[..|events| - 1], events[|events| - 1];
    StoredIsRecent(limit, window, front, e.key, e.now - window);
    AllowedByNow(limit, window, front, e.key, e.now);
    AfterIsCounted(Allowed(limit, window, front, e.key), e.now - window, e.now);
  }

  lemma {:induction false} EmptyWindow(list: seq<Time>, lo: Time, hi: Time)
    requires hi <= lo
    ensures Count(list, lo, hi) == 0
  {
    if list != [] { EmptyWindow(list[..|list| - 1], lo, hi); }
  }

  /** The attempt that was just allowed does not overfill a window it lies in. */
  lemma LastFits(limit: nat, window: int, events: seq<Event>, x: Time)
    requires events != [] && Nondecreasing(events) && window > 0 && LastAllowed(limit, window, events)
    requires x < events[|events| - 1].now <= x + window
    ensures
      var e := events[|events| - 1];
      Count(Allowed(limit, window, events[..|events| - 1], e.key), x, x + window) < limit
  {
    var front, e := events[..|events| - 1], events[|events| - 1];
    assert forall i | 0 <= i < |front| :: front[i].now <= e.now;
    hide *;
    AllowedIffRoom(limit, window, events);
    AllowedByNow(limit, window, front, e.key, e.now);
    CountGrows(Allowed(limit, window, front, e.key), x, x + window, e.now - window, e.now);
  }

  lemma WindowsStep(limit: nat, window: int, events: seq<Event>, key: string, x: Time)
    requires events != [] && Nondecreasing(events) && window > 0
    requires Count(Allowed(limit, window, events[..|events| - 1], key), x, x + window) <= limit
    ensures Count(Allowed(limit, window, events, key), x, x + window) <= limit
  {
    hide *;
    var front, e := events[..|events| - 1], events[|events| - 1];
    OneMore(limit, window, events, key);
    if e.key == key && LastAllowed(limit, window, events) {
      CountSnoc(Allowed(limit, window, front, key), e.now, x, x + window);
      if x < e.now <= x + window { LastFits(limit, window, events, x); }
    }
  }

  /** Wherever a half-open window of that length is laid, it holds at most `limit` allowed attempts of a key. */
  lemma {:induction false} WindowsHold(limit: nat, window: int, events: seq<Event>, key: string, x: Time)
    requires Nondecreasing(events)
    ensures Count(Allowed(limit, window, events, key), x, x + window) <= limit
  {
    hide Allowed, Count, LastAllowed, Run, Step;
    if window <= 0 {
      EmptyWindow(Allowed(limit, window, events, key), x, x + window);
    } else if events == [] {
      NoneYet(limit, window, key, x);
    } else {
      WindowsHold(limit, window, events[..|events| - 1], key, x);
      WindowsStep(limit, window, events, key, x);
    }
  }

  lemma NoneYet(limit: nat, window: int, key: string, x: Time)
    ensures Count(Allowed(limit, window, [], key), x, x + window) == 0
  {}

  /** A limit that is not positive allows nothing. */
  lemma {:induction false} NoLimitNoAttempts(limit: int, window: int, events: seq<Event>, key: string)
    requires limit <= 0
    ensures Allowed(limit, window, events, key) == []
  {
    if events != [] { NoLimitNoAttempts(limit, window, events[..|events| - 1], key); }
  }
}
