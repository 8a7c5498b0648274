/** The replay window of one link: a 64-bit bitmap that slides behind the newest counter. */
module Replay {
  import opened Bytes
  import opened Netip

  const WINDOW_SIZE := 64
  const TWO_TO_THE_64 := 0x1_0000_0000_0000_0000

  datatype Window = Window(highest: uint64, seen: uint64, started: bool)

  const EMPTY := Window(0, 0, false)

  /** `s & (1 << n) != 0`: bit n of a word. */
  predicate Bit(s: nat, n: nat) {
    if n == 0 then s % 2 == 1 else Bit(s / 2, n - 1)
  }

  /** `s << k` in 64 bits: Go shifts one place k times, and what leaves the word is lost. */
  function ShiftLeft(s: uint64, k: nat): uint64 {
    if k == 0 then s else ShiftLeft(s, k - 1) * 2 % TWO_TO_THE_64
  }

  /** `s | (1 << n)`. */
  function Mark(s: uint64, n: nat): (r: uint64)
    requires n < WINDOW_SIZE
  {
    if Bit(s, n) then s else TwoToThe64(); MarkFits(s, n, WINDOW_SIZE); s + PowerOfTwo(n)
  }

  lemma TwoToThe64()
    ensures PowerOfTwo(64) == TWO_TO_THE_64 && PowerOfTwo(63) == TWO_TO_THE_64 / 2
  {
    assert PowerOfTwo(4) == 16;
    PowersAdd(4, 4);
    PowersAdd(8, 8);
    PowersAdd(16, 16);
    PowersAdd(32, 32);
  }

  lemma {:induction false} PowersAdd(a: nat, b: nat)
    ensures PowerOfTwo(a + b) == PowerOfTwo(a) * PowerOfTwo(b)
  {
    if b > 0 { PowersAdd(a, b - 1); }
  }

  lemma {:induction false} MarkFits(s: nat, n: nat, width: nat)
    requires n < width && s < PowerOfTwo(width) && !Bit(s, n)
    ensures s + PowerOfTwo(n) < PowerOfTwo(width)
  {
    hide PowerOfTwo;
    Doubling(width);
    Halved(s, PowerOfTwo(width - 1));
    if n > 0 {
      Doubling(n);
      MarkFits(s / 2, n - 1, width - 1);
      DoubledFits(s, PowerOfTwo(n - 1), PowerOfTwo(width - 1));
    }
  }

  lemma Doubling(n: nat)
    ensures PowerOfTwo(0) == 1 && (n > 0 ==> PowerOfTwo(n) == 2 * PowerOfTwo(n - 1))
  {}

  lemma Halved(s: nat, bound: nat)
    requires s < 2 * bound
    ensures s / 2 < bound && (s % 2 == 0 ==> s + 1 < 2 * bound)
  {}

  lemma DoubledFits(s: nat, mark: nat, bound: nat)
    requires s / 2 + mark < bound
    ensures s + 2 * mark < 2 * bound
  {}

  /** The bitmap after the window jumps ahead by `step`. */
  function MoveOn(seen: uint64, step: nat): uint64 {
    Mark(if step >= WINDOW_SIZE then 0 else ShiftLeft(seen, step), 0)
  }

  /** Whether a counter is still acceptable. */
  predicate Admits(w: Window, counter: uint64) {
    if !w.started || counter > w.highest then true
    else
      var behind := w.highest - counter;
      behind < WINDOW_SIZE && !Bit(w.seen, behind)
  }

  /** The window after a counter has been judged. */
  function Slide(w: Window, counter: uint64): Window {
    if !w.started then Window(counter, 1, true)
    else if counter > w.highest then Window(counter, MoveOn(w.seen, counter - w.highest), true)
    else
      var behind := w.highest - counter;
      if behind < WINDOW_SIZE then w.(seen := Mark(w.seen, behind)) else w
  }

  lemma {:induction false} BitMarked(s: nat, b: nat, n: nat)
    requires !Bit(s, b)
    ensures Bit(s + PowerOfTwo(b), n) == (n == b || Bit(s, n))
  {
    if b > 0 && n > 0 {
      assert (s + PowerOfTwo(b)) / 2 == s / 2 + PowerOfTwo(b - 1);
      BitMarked(s / 2, b - 1, n - 1);
    }
  }

  /** A power of two above bit n does not reach it. */
  lemma {:induction false} BitBelow(s: nat, p: nat, n: nat)
    requires n < p && PowerOfTwo(p) <= s
    ensures Bit(s - PowerOfTwo(p), n) == Bit(s, n)
  {
    if n > 0 {
      assert (s - PowerOfTwo(p)) / 2 == s / 2 - PowerOfTwo(p - 1);
      BitBelow(s / 2, p - 1, n - 1);
    }
  }

  lemma BitDoubled(s: uint64, n: nat)
    requires n < WINDOW_SIZE
    ensures Bit(s * 2 % TWO_TO_THE_64, n) == (n > 0 && Bit(s, n - 1))
  {
    hide PowerOfTwo;
    TwoToThe64();
    if s < TWO_TO_THE_64 / 2 {
      BitOfDouble(s, n);
    } else {
      assert s * 2 % TWO_TO_THE_64 == (s - PowerOfTwo(63)) * 2;
      BitOfDouble(s - PowerOfTwo(63), n);
      if n > 0 { BitBelow(s, 63, n - 1); }
    }
  }

  lemma BitOfDouble(s: nat, n: nat)
    ensures Bit(s * 2, n) == (n > 0 && Bit(s, n - 1))
  {}

  lemma {:induction false} BitShifted(s: uint64, k: nat, n: nat)
    requires n < WINDOW_SIZE
    ensures Bit(ShiftLeft(s, k), n) == (k <= n && Bit(s, n - k))
  {
    if k > 0 {
      BitDoubled(ShiftLeft(s, k - 1), n);
      if n > 0 { BitShifted(s, k - 1, n - 1); }
    }
  }

  lemma {:induction false} ZeroHasNoBits(n: nat)
    ensures !Bit(0, n)
  {
    if n > 0 { ZeroHasNoBits(n - 1); }
  }

  lemma BitMovedOn(s: uint64, step: nat, n: nat)
    requires 0 < step && n < WINDOW_SIZE
    ensures Bit(MoveOn(s, step), n) == (n == 0 || (step <= n && Bit(s, n - step)))
  {
    var shifted := if step >= WINDOW_SIZE then 0 else ShiftLeft(s, step);
    ZeroHasNoBits(n);
    if step < WINDOW_SIZE {
      BitShifted(s, step, n);
      BitShifted(s, step, 0);
    }
    BitMarked(shifted, 0, n);
  }

  /** What the window means: the newest counter, and which of the 64 ending there were accepted. */
  ghost predicate Represents(w: Window, accepted: set<uint64>) {
    if !w.started then accepted == {}
    else
      && w.highest in accepted
      && (forall c | c in accepted :: c <= w.highest)
      && (forall n: nat | n < WINDOW_SIZE && n <= w.highest :: Bit(w.seen, n) <==> w.highest - n in accepted)
  }

  /** The simple form the bitmap stands for: a set of counters and a distance from the largest. */
  ghost predicate Fresh(accepted: set<uint64>, counter: uint64) {
    counter !in accepted &&
    forall c | c in accepted :: c - counter < 64
  }

  lemma AdmitsIsFresh(w: Window, accepted: set<uint64>, counter: uint64)
    requires Represents(w, accepted)
    ensures Admits(w, counter) <==> Fresh(accepted, counter)
  {
    if w.started && counter <= w.highest && w.highest - counter < WINDOW_SIZE {
      var behind := w.highest - counter;
      assert Bit(w.seen, behind) <==> w.highest - behind in accepted;
    }
  }

  lemma SlideRepresents(w: Window, accepted: set<uint64>, counter: uint64)
    requires Represents(w, accepted)
    ensures Represents(Slide(w, counter), if Admits(w, counter) then accepted + {counter} else accepted)
  {
    var after := Slide(w, counter);
    if Admits(w, counter) {
      forall n: nat | n < WINDOW_SIZE && n <= after.highest
        ensures Bit(after.seen, n) <==> after.highest - n in accepted + {counter}
      {
        if !w.started {
          ZeroHasNoBits(n);
          BitMarked(0, 0, n);
        } else if counter > w.highest {
          BitMovedOn(w.seen, counter - w.highest, n);
        } else {
          BitMarked(w.seen, w.highest - counter, n);
        }
      }
    }
  }

  /** The counters a run of packets gets accepted, oldest first, and the window it leaves. */
  ghost function Run(counters: seq<uint64>): (Window, set<uint64>) {
    if counters == [] then (EMPTY, {})
    else
      var (w, accepted) := Run(counters[..|counters| - 1]);
      var c := counters[|counters| - 1];
      (Slide(w, c), if Admits(w, c) then accepted + {c} else accepted)
  }

  /** For every sequence of counters the bitmap decides as the set does. */
  lemma {:induction false} RunRefinesSet(counters: seq<uint64>)
    ensures Represents(Run(counters).0, Run(counters).1)
    ensures forall c :: Admits(Run(counters).0, c) <==> Fresh(Run(counters).1, c)
  {
    if counters != [] {
      var before := counters[..|counters| - 1];
      RunRefinesSet(before);
      SlideRepresents(Run(before).0, Run(before).1, counters[|counters| - 1]);
    }
    forall c ensures Admits(Run(counters).0, c) <==> Fresh(Run(counters).1, c) {
      AdmitsIsFresh(Run(counters).0, Run(counters).1, c);
    }
  }

  class ReplayWindow {
    var highest: uint64
    var seen: uint64
    var started: bool

    ghost function View(): Window
      reads this
    {
      Window(highest, seen, started)
    }

    constructor ()
      ensures View() == EMPTY
    {
      highest, seen, started := 0, 0, false;
    }

    /** Assigning the zero value: what every fresh session starts from. */
    method Clear()
      modifies this
      ensures View() == EMPTY
    {
      highest, seen, started := 0, 0, false;
    }

    method Accept(counter: uint64) returns (ok: bool)
      modifies this
      ensures ok == Admits(old(View()), counter)
      ensures View() == Slide(old(View()), counter)
      ensures forall accepted | old(Represents(View(), accepted)) ::
                && ok == Fresh(accepted, counter)
                && Represents(View(), if ok then accepted + {counter} else accepted)
    {
      ghost var before := View();
      forall accepted | Represents(before, accepted)
        ensures Admits(before, counter) == Fresh(accepted, counter)
        ensures Represents(Slide(before, counter), if Admits(before, counter) then accepted + {counter} else accepted)
      {
        AdmitsIsFresh(before, accepted, counter);
        SlideRepresents(before, accepted, counter);
      }
      if !started {
        started := true;
        highest := counter;
        seen := 1;
        return true;
      }
      if counter > highest {
        var shift := counter - highest;
        if shift >= WINDOW_SIZE {
          seen := 0;
        } else {
          seen := ShiftLeft(seen, shift);
        }
        seen := Mark(seen, 0);
        highest := counter;
        return true;
      }
      var behind := highest - counter;
      if behind >= WINDOW_SIZE {
        return false;
      }
      if Bit(seen, behind) {
        return false;
      }
      seen := Mark(seen, behind);
      return true;
    }
  }
}
