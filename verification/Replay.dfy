/**
 The anti-replay window (src/replay.rs): a 64 x 64 bit sliding bitmap, and the
 plain set of accepted counters it stands for.
 */
module Replay {
  import opened Wrappers
  import opened Bits

  const WINDOW_SIZE: nat := 4096
  const WORD_BITS: nat := 64
  const WINDOW_WORDS: nat := 64

  // ---------------------------------------------------------------------------
  // What the window means: every counter ever accepted, and the largest of them.
  // ---------------------------------------------------------------------------

  datatype Window = Window(highest: Option<u64>, accepted: set<u64>) {

    ghost predicate Valid() {
      match highest
      case None => accepted == {}
      case Some(h) => h in accepted && forall c: u64 :: c in accepted ==> c <= h
    }

    /** A counter is fresh when it is new, or recent enough and never accepted. */
    predicate Fresh(c: u64) {
      match highest
      case None => true
      case Some(h) => c > h || (h - c < WINDOW_SIZE && c !in accepted)
    }

    function Accept(c: u64): Window {
      if Fresh(c) then Window(Some(if highest.Some? && c <= highest.value then highest.value else c), accepted + {c})
      else this
    }
  }

  const EMPTY_WINDOW := Window(None, {})

  function AcceptAll(w: Window, cs: seq<u64>): Window {
    if cs == [] then w else AcceptAll(w, cs[..|cs| - 1]).Accept(cs[|cs| - 1])
  }

  /** Whether the call number `i` of a run of `mark_authenticated` calls succeeds. */
  predicate AcceptedAt(w: Window, cs: seq<u64>, i: nat)
    requires i < |cs|
  {
    AcceptAll(w, cs[..i]).Fresh(cs[i])
  }

  lemma {:induction false} AcceptAllValid(w: Window, cs: seq<u64>)
    requires w.Valid()
    ensures AcceptAll(w, cs).Valid()
  {
    if cs != [] {
      AcceptAllValid(w, cs[..|cs| - 1]);
    }
  }

  /** The accepted set of a run is exactly the counters whose call succeeded. */
  lemma {:induction false} AcceptedSetIsTheRun(cs: seq<u64>, c: u64)
    ensures c in AcceptAll(EMPTY_WINDOW, cs).accepted <==>
            exists i :: 0 <= i < |cs| && cs[i] == c && AcceptedAt(EMPTY_WINDOW, cs, i)
  {
    if cs != [] {
      var n := |cs| - 1;
      var init := cs[..n];
      AcceptedSetIsTheRun(init, c);
      assert forall i :: 0 <= i < n ==> init[..i] == cs[..i];
      assert forall i :: 0 <= i < n ==> AcceptedAt(EMPTY_WINDOW, init, i) == AcceptedAt(EMPTY_WINDOW, cs, i);
      if c in AcceptAll(EMPTY_WINDOW, init).accepted {
        var i :| 0 <= i < n && init[i] == c && AcceptedAt(EMPTY_WINDOW, init, i);
        assert cs[i] == c && AcceptedAt(EMPTY_WINDOW, cs, i);
      }
      if AcceptAll(EMPTY_WINDOW, init).Fresh(cs[n]) {
        assert AcceptedAt(EMPTY_WINDOW, cs, n);
      }
    }
  }

  lemma {:induction false} AcceptedGrows(w: Window, cs: seq<u64>, k: nat)
    requires k <= |cs|
    ensures AcceptAll(w, cs[..k]).accepted <= AcceptAll(w, cs).accepted
  {
    if k < |cs| {
      assert cs[..|cs| - 1][..k] == cs[..k];
      AcceptedGrows(w, cs[..|cs| - 1], k);
    } else {
      assert cs[..k] == cs;
    }
  }

  /** No counter is accepted twice in any run, the largest one included. */
  lemma NoCounterAcceptedTwice(cs: seq<u64>, i: nat, j: nat)
    requires i < j < |cs|
    requires AcceptedAt(EMPTY_WINDOW, cs, i) && AcceptedAt(EMPTY_WINDOW, cs, j)
    ensures cs[i] != cs[j]
  {
    var w := AcceptAll(EMPTY_WINDOW, cs[..j]);
    assert cs[..j][..i + 1] == cs[..i + 1];
    AcceptedGrows(EMPTY_WINDOW, cs[..j], i + 1);
    assert cs[..i + 1][..i] == cs[..i];
    assert cs[i] in AcceptAll(EMPTY_WINDOW, cs[..i + 1]).accepted;
    AcceptAllValid(EMPTY_WINDOW, cs[..j]);
  }

  // ---------------------------------------------------------------------------
  // The bitmap.
  // ---------------------------------------------------------------------------

  /** The bit for the counter that is `distance` below the highest one. */
  predicate BitAt(words: seq<u64>, distance: nat)
    requires |words| == WINDOW_WORDS && distance < WINDOW_SIZE
  {
    Bit(words[distance / WORD_BITS], distance % WORD_BITS)
  }

  /** `words` holds a one exactly for the accepted counters inside the window. */
  ghost predicate Represents(words: seq<u64>, w: Window)
    requires |words| == WINDOW_WORDS
  {
    forall d :: 0 <= d < WINDOW_SIZE ==>
      (BitAt(words, d) <==> w.highest.Some? && d <= w.highest.value && w.highest.value - d in w.accepted)
  }

  /** The first `done` words of `oldWords` have been moved `amount` places. */
  ghost predicate ShiftedUpTo(words: seq<u64>, oldWords: seq<u64>, amount: nat, done: nat)
    requires |words| == |oldWords| == WINDOW_WORDS && done <= WINDOW_WORDS
  {
    forall i :: 0 <= i < WINDOW_SIZE ==>
      (BitAt(words, i) <==> amount <= i && (i - amount) / WORD_BITS < done && BitAt(oldWords, i - amount))
  }

  lemma SplitDistance(i: nat, amount: nat)
    requires amount <= i
    ensures var borrow := if amount % WORD_BITS <= i % WORD_BITS then 0 else 1;
            && (i - amount) / WORD_BITS == i / WORD_BITS - amount / WORD_BITS - borrow
            && (i - amount) % WORD_BITS == i % WORD_BITS - amount % WORD_BITS + WORD_BITS * borrow
  {}

  class ReplayWindow {
    var highest: Option<u64>
    const bits: array<u64>
    ghost var window: Window

    ghost predicate Valid()
      reads this, bits
    {
      && bits.Length == WINDOW_WORDS
      && window.Valid()
      && window.highest == highest
      && Represents(bits[..], window)
    }

    constructor ()
      ensures Valid() && fresh(bits) && window == EMPTY_WINDOW
    {
      highest := None;
      bits := new u64[WINDOW_WORDS](_ => 0);
      window := EMPTY_WINDOW;
      new;
      forall d | 0 <= d < WINDOW_SIZE ensures !BitAt(bits[..], d) {
        BitOfSmall(0, 0, d % WORD_BITS);
      }
    }

    /** The check made before authentication; it changes nothing. */
    method WouldAccept(counter: u64) returns (ok: bool)
      requires Valid()
      ensures ok == window.Fresh(counter)
    {
      if highest.None? {
        return true;
      }
      if counter > highest.value {
        return true;
      }
      var distance := highest.value - counter;
      if distance >= WINDOW_SIZE {
        return false;
      }
      var isSet := BitIsSet(distance);
      ok := !isSet;
    }

    /** Record a counter whose tag authenticated; false when it was seen or too old. */
    method MarkAuthenticated(counter: u64) returns (ok: bool)
      requires Valid()
      modifies this, bits
      ensures Valid()
      ensures window == old(window).Accept(counter)
      ensures ok == old(window).Fresh(counter)
      ensures ok ==> counter !in old(window).accepted
    {
      ok := WouldAccept(counter);
      if !ok {
        return;
      }
      window := window.Accept(counter);
      match highest {
        case None =>
          highest := Some(counter);
          bits[0] := 1;
          OnlyBitZero(old(bits[..]), bits[..]);
        case Some(h) =>
          if counter > h {
            ShiftOlder(counter - h);
            label shifted:
            highest := Some(counter);
            ghost var before := bits[..];
            OrWords(bits[0], 1);
            bits[0] := Or(bits[0], 1);
            assert ShiftLeft(1, 0) == 1;
            SetDistance(before, bits[..], 0);
          } else {
            ghost var before := bits[..];
            SetBit(h - counter);
          }
      }
    }

    method BitIsSet(distance: nat) returns (isSet: bool)
      requires bits.Length == WINDOW_WORDS && distance < WINDOW_SIZE
      ensures isSet == BitAt(bits[..], distance)
    {
      var word := distance / WORD_BITS;
      var bit := distance % WORD_BITS;
      isSet := And(bits[word], ShiftLeft(1, bit)) != 0;
      BitByMask(bits[word], bit);
    }

    method SetBit(distance: nat)
      requires bits.Length == WINDOW_WORDS && distance < WINDOW_SIZE
      modifies bits
      ensures forall d :: 0 <= d < WINDOW_SIZE ==>
                (BitAt(bits[..], d) <==> BitAt(old(bits[..]), d) || d == distance)
    {
      var word := distance / WORD_BITS;
      var bit := distance % WORD_BITS;
      ghost var before := bits[..];
      OrWords(bits[word], ShiftLeft(1, bit));
      bits[word] := Or(bits[word], ShiftLeft(1, bit));
      SetDistance(before, bits[..], distance);
    }

    /** Move every bit `amount` places away from bit zero; bits pushed out are lost. */
    method ShiftOlder(amount: u64)
      requires bits.Length == WINDOW_WORDS
      modifies bits
      ensures forall i :: 0 <= i < WINDOW_SIZE ==>
                (BitAt(bits[..], i) <==> amount <= i && BitAt(old(bits[..]), i - amount))
    {
      if amount >= WINDOW_SIZE {
        Clear();
        return;
      }
      var wordShift := amount / WORD_BITS;
      var bitShift := amount % WORD_BITS;
      var oldWords := bits[..];
      Clear();
      var sourceWord := 0;
      while sourceWord < WINDOW_WORDS
        invariant 0 <= sourceWord <= WINDOW_WORDS
        invariant ShiftedUpTo(bits[..], oldWords, amount, sourceWord)
      {
        var value := oldWords[sourceWord];
        var destination := sourceWord + wordShift;
        if destination >= WINDOW_WORDS {
          break;
        }
        ghost var before := bits[..];
        OrWords(bits[destination], ShiftLeft(value, bitShift));
        bits[destination] := Or(bits[destination], ShiftLeft(value, bitShift));
        if bitShift != 0 && destination + 1 < WINDOW_WORDS {
          OrWords(bits[destination + 1], ShiftRight(value, WORD_BITS - bitShift));
          bits[destination + 1] := Or(bits[destination + 1], ShiftRight(value, WORD_BITS - bitShift));
        }
        OneWordShifted(before, bits[..], oldWords, amount, sourceWord);
        sourceWord := sourceWord + 1;
      }
    }

    method Clear()
      requires bits.Length == WINDOW_WORDS
      modifies bits
      ensures forall w :: 0 <= w < WINDOW_WORDS ==> bits[w] == 0
      ensures forall d :: 0 <= d < WINDOW_SIZE ==> !BitAt(bits[..], d)
    {
      forall w | 0 <= w < bits.Length {
        bits[w] := 0;
      }
      forall d | 0 <= d < WINDOW_SIZE ensures !BitAt(bits[..], d) {
        BitOfSmall(0, 0, d % WORD_BITS);
      }
    }
  }

  lemma OrWords(v: u64, w: u64)
    ensures Or(v, w) < U64_SIZE
  {
    SizeIsPow2();
    OrFits(v, w, 64);
  }

  lemma SetDistance(before: seq<u64>, after: seq<u64>, distance: nat)
    requires |before| == |after| == WINDOW_WORDS && distance < WINDOW_SIZE
    requires forall w :: 0 <= w < WINDOW_WORDS ==>
               after[w] ==
                 if w == distance / WORD_BITS then Or(before[w], ShiftLeft(1, distance % WORD_BITS)) else before[w]
    ensures forall d :: 0 <= d < WINDOW_SIZE ==> (BitAt(after, d) <==> BitAt(before, d) || d == distance)
  {
    forall d | 0 <= d < WINDOW_SIZE
      ensures BitAt(after, d) <==> BitAt(before, d) || d == distance
    {
      if d / WORD_BITS == distance / WORD_BITS {
        BitOfOr(before[d / WORD_BITS], ShiftLeft(1, distance % WORD_BITS), d % WORD_BITS);
        BitOfOne(distance % WORD_BITS, d % WORD_BITS);
      }
    }
  }

  lemma OnlyBitZero(before: seq<u64>, after: seq<u64>)
    requires |before| == |after| == WINDOW_WORDS && after == before[0 := 1]
    requires forall d :: 0 <= d < WINDOW_SIZE ==> !BitAt(before, d)
    ensures forall d :: 0 <= d < WINDOW_SIZE ==> (BitAt(after, d) <==> d == 0)
  {
    forall d | 0 <= d < WINDOW_SIZE
      ensures BitAt(after, d) <==> d == 0
    {
      if d / WORD_BITS == 0 {
        assert ShiftLeft(1, 0) == 1;
        BitOfOne(0, d % WORD_BITS);
      } else {
        assert BitAt(after, d) == BitAt(before, d);
      }
    }
  }

  /** What the loop body adds for one distance: exactly the bits of its source word. */
  lemma OneBitShifted(before: u64, after: u64, value: u64, amount: nat, source: nat, i: nat)
    requires var w, destination, bitShift := i / WORD_BITS, source + amount / WORD_BITS, amount % WORD_BITS;
             after == if w == destination then Or(before, ShiftLeft(value, bitShift))
                      else if w == destination + 1 && bitShift != 0 then
                        Or(before, ShiftRight(value, WORD_BITS - bitShift))
                      else before
    ensures var n := i % WORD_BITS;
            && (amount <= i && (i - amount) / WORD_BITS == source ==>
                  Bit(after, n) == (Bit(before, n) || Bit(value, (i - amount) % WORD_BITS)))
            && (!(amount <= i && (i - amount) / WORD_BITS == source) ==> Bit(after, n) == Bit(before, n))
  {
    var w, n, destination, bitShift := i / WORD_BITS, i % WORD_BITS, source + amount / WORD_BITS, amount % WORD_BITS;
    if amount <= i {
      SplitDistance(i, amount);
    }
    if w == destination {
      BitOfOr(before, ShiftLeft(value, bitShift), n);
      BitOfShiftLeft(value, bitShift, n);
    } else if w == destination + 1 && bitShift != 0 {
      BitOfOr(before, ShiftRight(value, WORD_BITS - bitShift), n);
      BitOfShiftRight(value, WORD_BITS - bitShift, n);
      if bitShift <= n {
        SizeIsPow2();
        BitOfSmall(value, 64, n + WORD_BITS - bitShift);
      }
    }
  }

  /** One iteration of the shifting loop extends the moved part by one source word. */
  lemma OneWordShifted(before: seq<u64>, after: seq<u64>, oldWords: seq<u64>, amount: nat, source: nat)
    requires |before| == |after| == |oldWords| == WINDOW_WORDS
    requires source + amount / WORD_BITS < WINDOW_WORDS
    requires ShiftedUpTo(before, oldWords, amount, source)
    requires var destination, bitShift := source + amount / WORD_BITS, amount % WORD_BITS;
             var value := oldWords[source];
             forall w :: 0 <= w < WINDOW_WORDS ==>
               after[w] == if w == destination then Or(before[w], ShiftLeft(value, bitShift))
                           else if w == destination + 1 && bitShift != 0 then
                             Or(before[w], ShiftRight(value, WORD_BITS - bitShift))
                           else before[w]
    ensures ShiftedUpTo(after, oldWords, amount, source + 1)
  {
    forall i | 0 <= i < WINDOW_SIZE
      ensures BitAt(after, i) <==>
              amount <= i && (i - amount) / WORD_BITS < source + 1 && BitAt(oldWords, i - amount)
    {
      assert BitAt(before, i) <==> amount <= i && (i - amount) / WORD_BITS < source && BitAt(oldWords, i - amount);
      OneBitShifted(before[i / WORD_BITS], after[i / WORD_BITS], oldWords[source], amount, source, i);
    }
  }
}
