/**
 The anti-replay window: a ring of 2048 bits in 32 words, cleared word by word as
 the window slides, against the plain rule of section 3.4.3 of RFC 4303.
 */
module Replay {
  import opened Basics
  import opened Words

  const WORDS: nat := 32
  const WINDOW: nat := 2048

  datatype ReplayError = Duplicate | TooOld

  type Verdict = Result<(), ReplayError>

  /** The rule itself: it remembers every sequence number ever accepted. */
  datatype Window = Window(highest: Option<u64>, accepted: set<nat>)

  const FRESH: Window := Window(None, {})

  function Check(w: Window, sequence: u64): Verdict {
    if w.highest.None? || sequence > w.highest.value then Ok(())
    else if w.highest.value - sequence >= WINDOW then Err(TooOld)
    else if sequence in w.accepted then Err(Duplicate)
    else Ok(())
  }

  function Record(w: Window, sequence: u64): Window {
    if Check(w, sequence).Err? then w
    else Window(
           Some(if w.highest.Some? && w.highest.value > sequence then w.highest.value else sequence),
           w.accepted + {sequence})
  }

  ghost predicate Sound(w: Window) {
    && (w.highest.None? ==> w.accepted == {})
    && (w.highest.Some? ==>
          w.highest.value in w.accepted && forall s <- w.accepted :: s <= w.highest.value)
  }

  function RecordAll(w: Window, sequences: seq<u64>): Window {
    if sequences == [] then w else Record(RecordAll(w, sequences[..|sequences| - 1]), sequences[|sequences| - 1])
  }

  /** The verdict on `sequences[i]` when all earlier ones went through the window first. */
  function VerdictAt(sequences: seq<u64>, i: nat): Verdict
    requires i < |sequences|
  {
    Check(RecordAll(FRESH, sequences[..i]), sequences[i])
  }

  /** After any run the window knows exactly the numbers it said yes to. */
  lemma {:induction false} RunRemembersAccepted(sequences: seq<u64>)
    ensures var w := RecordAll(FRESH, sequences);
            && Sound(w)
            && forall s: u64 ::
                 s in w.accepted
                 <==> exists i: nat :: i < |sequences| && sequences[i] == s && VerdictAt(sequences, i).Ok?
  {
    var n := |sequences|;
    if n > 0 {
      var before := sequences[..n - 1];
      RunRemembersAccepted(before);
      forall i: nat | i < n - 1 ensures VerdictAt(before, i) == VerdictAt(sequences, i) {
        assert before[..i] == sequences[..i];
      }
      var w := RecordAll(FRESH, sequences);
      forall s: u64
        ensures s in w.accepted <==> exists i: nat :: i < n && sequences[i] == s && VerdictAt(sequences, i).Ok?
      {
        if s in RecordAll(FRESH, before).accepted {
          var i: nat :| i < n - 1 && before[i] == s && VerdictAt(before, i).Ok?;
          assert sequences[i] == s && VerdictAt(sequences, i).Ok?;
        }
        if s in w.accepted && s !in RecordAll(FRESH, before).accepted {
          assert sequences[n - 1] == s && VerdictAt(sequences, n - 1).Ok?;
        }
        if i: nat :| i < n && sequences[i] == s && VerdictAt(sequences, i).Ok? {
          if i < n - 1 {
            assert before[i] == s && VerdictAt(before, i).Ok?;
          }
        }
      }
    }
  }

  /** No sequence number is accepted twice in any run. */
  lemma NeverAcceptedTwice(sequences: seq<u64>, i: nat, j: nat)
    requires i < j < |sequences| && sequences[i] == sequences[j]
    requires VerdictAt(sequences, i).Ok?
    ensures VerdictAt(sequences, j).Err?
  {
    var before := sequences[..j];
    RunRemembersAccepted(before);
    assert before[..i] == sequences[..i];
    assert before[i] == sequences[j] && VerdictAt(before, i).Ok?;
  }

  /** A number inside the window that has not been accepted before is accepted. */
  lemma AcceptedOnFirstArrival(sequences: seq<u64>, j: nat)
    requires j < |sequences|
    requires forall i: nat | i < j && VerdictAt(sequences, i).Ok? ::
             sequences[i] < sequences[j] + WINDOW && sequences[i] != sequences[j]
    ensures VerdictAt(sequences, j).Ok?
  {
    var before := sequences[..j];
    RunRemembersAccepted(before);
    var w := RecordAll(FRESH, before);
    forall s: u64 | s in w.accepted ensures s < sequences[j] + WINDOW && s != sequences[j] {
      var i: nat :| i < j && before[i] == s && VerdictAt(before, i).Ok?;
      assert before[..i] == sequences[..i];
    }
  }

  /** Slot `idx` of the ring: one bit of one word. */
  ghost predicate Slot(seen: seq<u64>, idx: nat)
    requires |seen| == WORDS && idx < WINDOW
  {
    Bit(seen[idx / 64], idx % 64)
  }

  /** How far slot `idx` lies ahead of slot `start` around the ring. */
  function Ahead(idx: nat, start: nat): nat
    requires idx < WINDOW && start < WINDOW
  {
    if idx >= start then idx - start else idx + WINDOW - start
  }

  class ReplayWindow {
    var highest: Option<u64>
    const seen: array<u64>
    ghost var accepted: set<nat>

    ghost predicate Valid()
      reads this, seen
    {
      && seen.Length == WORDS
      && Sound(Spec())
      && (highest.None? ==> forall idx: nat | idx < WINDOW :: !Slot(seen[..], idx))
      && (highest.Some? ==> forall s: nat | highest.value - WINDOW < s <= highest.value ::
            Slot(seen[..], s % WINDOW) == (s in accepted))
    }

    ghost function Spec(): Window
      reads this
    {
      Window(highest, accepted)
    }

    constructor ()
      ensures Valid() && fresh(seen) && Spec() == FRESH
    {
      highest := None;
      seen := new u64[WORDS](_ => 0);
      accepted := {};
      new;
      forall idx: nat | idx < WINDOW ensures !Slot(seen[..], idx) {
        ZeroBits(idx % 64);
      }
    }

    constructor Clone(other: ReplayWindow)
      requires other.Valid()
      ensures Valid() && fresh(seen) && Spec() == other.Spec()
    {
      highest := other.highest;
      var words := other.seen[..];
      seen := new u64[WORDS](i requires 0 <= i < WORDS => words[i]);
      accepted := other.accepted;
      new;
      assert seen[..] == words;
      assert highest.Some? ==> forall s: nat | highest.value - WINDOW < s <= highest.value ::
        Slot(words, s % WINDOW) == (s in accepted);
    }

    method CheckAndRecord(sequence: u64) returns (verdict: Verdict)
      requires Valid()
      modifies this, seen
      ensures Valid()
      ensures verdict == Check(old(Spec()), sequence)
      ensures Spec() == Record(old(Spec()), sequence)
    {
      if highest.None? {
        RecordFirst(sequence);
        return Ok(());
      }
      var top := highest.value;
      if sequence > top {
        Slide(sequence);
        return Ok(());
      }
      var offset := top - sequence;
      if offset >= WINDOW {
        return Err(TooOld);
      }
      var bit := TestSlot(sequence);
      if bit {
        return Err(Duplicate);
      }
      RecordInside(sequence);
      return Ok(());
    }

    method RecordFirst(sequence: u64)
      requires Valid() && highest.None?
      modifies this, seen
      ensures Valid()
      ensures Spec() == Window(Some(sequence), {sequence})
    {
      highest := Some(sequence);
      SetSlot(sequence);
      accepted := {sequence};
      forall s: nat | sequence - WINDOW < s <= sequence ensures Slot(seen[..], s % WINDOW) == (s in accepted) {
        SlotsDiffer(s, sequence);
      }
    }

    method RecordInside(sequence: u64)
      requires Valid() && highest.Some? && highest.value - WINDOW < sequence <= highest.value
      modifies this, seen
      ensures Valid()
      ensures Spec() == Window(old(highest), old(accepted) + {sequence})
    {
      SetSlot(sequence);
      accepted := accepted + {sequence};
      forall s: nat | highest.value - WINDOW < s <= highest.value
        ensures Slot(seen[..], s % WINDOW) == (s in accepted)
      {
        SlotsDiffer(s, sequence);
      }
    }

    method Slide(sequence: u64)
      requires Valid() && highest.Some? && sequence > highest.value
      modifies this, seen
      ensures Valid()
      ensures Spec() == Window(Some(sequence), old(accepted) + {sequence})
    {
      var top := highest.value;
      var shift := sequence - top;
      if shift >= WINDOW {
        ClearAll();
      } else {
        ClearRange(top, shift);
      }
      ghost var cleared := seen[..];
      SetSlot(sequence);
      highest := Some(sequence);
      accepted := accepted + {sequence};
      SlidKeeps(old(seen[..]), cleared, seen[..], old(Spec()), sequence);
    }

    method SetSlot(sequence: u64)
      requires seen.Length == WORDS
      modifies seen
      ensures forall idx: nat | idx < WINDOW ::
              Slot(seen[..], idx) == (idx == sequence % WINDOW || old(Slot(seen[..], idx)))
    {
      var idx := sequence % WINDOW;
      WordSize();
      PowMonotone(idx % 64, 63);
      OrBound(seen[idx / 64], Pow2(idx % 64), 64);
      ghost var before := seen[..];
      seen[idx / 64] := Or(seen[idx / 64], Pow2(idx % 64));
      forall k: nat | k < WINDOW ensures Slot(seen[..], k) == (k == idx || Slot(before, k)) {
        OrBit(before[idx / 64], Pow2(idx % 64), k % 64);
        PowBit(idx % 64, k % 64);
      }
    }

    method TestSlot(sequence: u64) returns (set_: bool)
      requires seen.Length == WORDS
      ensures set_ == Slot(seen[..], sequence % WINDOW)
    {
      var idx := sequence % WINDOW;
      set_ := Bit(seen[idx / 64], idx % 64);
    }

    method ClearAll()
      requires seen.Length == WORDS
      modifies seen
      ensures forall idx: nat | idx < WINDOW :: !Slot(seen[..], idx)
    {
      forall i | 0 <= i < WORDS {
        seen[i] := 0;
      }
      forall idx: nat | idx < WINDOW ensures !Slot(seen[..], idx) {
        ZeroBits(idx % 64);
      }
    }

    method ClearInWord(word: nat, bitOffset: nat, bits: nat)
      requires seen.Length == WORDS && word < WORDS && 0 < bits && bitOffset + bits <= 64
      modifies seen
      ensures forall idx: nat | idx < WINDOW ::
                Slot(seen[..], idx) == (old(Slot(seen[..], idx))
                                        && !(idx / 64 == word && bitOffset <= idx % 64 < bitOffset + bits))
    {
      var mask := RangeMask(bits, bitOffset);
      ghost var before := seen[..];
      AndNotBound(seen[word], mask);
      seen[word] := AndNot(seen[word], mask);
      forall idx: nat | idx < WINDOW
        ensures Slot(seen[..], idx) == (Slot(before, idx)
                                        && !(idx / 64 == word && bitOffset <= idx % 64 < bitOffset + bits))
      {
        AndNotBit(before[word], mask, idx % 64);
        MaskBit(bits, bitOffset, idx % 64);
      }
    }

    /** Clears the `shift` slots that follow `top`, one masked word at a time. */
    method ClearRange(top: u64, shift: nat)
      requires seen.Length == WORDS
      requires shift < WINDOW && top + shift <= U64_MAX
      modifies seen
      ensures forall idx: nat | idx < WINDOW ::
                Slot(seen[..], idx) == (old(Slot(seen[..], idx)) && Ahead(idx, (top + 1) % WINDOW) >= shift)
    {
      if shift == 0 {
        return;
      }
      var start := (top + 1) % WINDOW;
      var word := start / 64;
      var bitOffset := start % 64;
      var remaining := shift;
      while remaining > 0
        invariant 0 <= remaining <= shift
        invariant 0 <= word < WORDS && 0 <= bitOffset < 64
        invariant remaining > 0 ==> Ahead(word * 64 + bitOffset, start) == shift - remaining
        invariant forall idx: nat | idx < WINDOW ::
            Slot(seen[..], idx) == (old(Slot(seen[..], idx)) && Ahead(idx, start) >= shift - remaining)
      {
        var bitsHere := Min(remaining, 64 - bitOffset);
        ClearInWord(word, bitOffset, bitsHere);
        forall idx: nat | idx < WINDOW
          ensures Slot(seen[..], idx) == (old(Slot(seen[..], idx)) && Ahead(idx, start) >= shift - remaining + bitsHere)
        {
          WordCoversRange(word, bitOffset, bitsHere, start, shift - remaining, idx);
        }
        NextWord(word, bitOffset, start, shift - remaining, bitsHere);
        remaining := remaining - bitsHere;
        word := (word + 1) % WORDS;
        bitOffset := 0;
      }
    }
  }

  /** The mask of `bits` ones starting at `offset`. */
  function RangeMask(bits: nat, offset: nat): nat
    requires 0 < bits && offset + bits <= 64
  {
    if bits == 64 then U64_MAX else ShiftLeft(Pow2(bits) - 1, offset)
  }

  lemma MaskBit(bits: nat, offset: nat, i: nat)
    requires 0 < bits && offset + bits <= 64 && i < 64
    ensures Bit(RangeMask(bits, offset), i) == (offset <= i < offset + bits)
  {
    if bits == 64 {
      WordSize();
      LowBits(64, i);
    } else {
      ShiftedBits(Pow2(bits) - 1, offset, i);
      if offset <= i {
        LowBits(bits, i - offset);
      }
    }
  }

  /** The masked bits of one word are the next stretch of the ring. */
  lemma WordCoversRange(word: nat, offset: nat, bits: nat, start: nat, done: nat, idx: nat)
    requires word < WORDS && offset + bits <= 64 && 0 < bits && start < WINDOW && idx < WINDOW
    requires Ahead(word * 64 + offset, start) == done && done + bits < WINDOW
    ensures (idx / 64 == word && offset <= idx % 64 < offset + bits) == (done <= Ahead(idx, start) < done + bits)
  {
    assert (idx / 64 == word && offset <= idx % 64 < offset + bits)
        == (word * 64 + offset <= idx < word * 64 + offset + bits);
  }

  lemma NextWord(word: nat, offset: nat, start: nat, done: nat, bits: nat)
    requires word < WORDS && 0 < bits && offset + bits <= 64 && start < WINDOW
    requires Ahead(word * 64 + offset, start) == done && done + bits < WINDOW
    ensures offset + bits == 64 ==> Ahead((word + 1) % WORDS * 64, start) == done + bits
  {}

  /** Two numbers inside one window never share a slot. */
  lemma SlotsDiffer(s: nat, t: nat)
    requires -(WINDOW as int) < s - t < WINDOW
    ensures (s % WINDOW == t % WINDOW) == (s == t)
  {}

  lemma SlidKeeps(old_: seq<u64>, cleared: seq<u64>, now: seq<u64>, w: Window, sequence: u64)
    requires |old_| == |cleared| == |now| == WORDS
    requires Sound(w) && w.highest.Some? && sequence > w.highest.value
    requires forall s: nat | w.highest.value - WINDOW < s <= w.highest.value ::
             Slot(old_, s % WINDOW) == (s in w.accepted)
    requires forall idx: nat | idx < WINDOW ::
               Slot(cleared, idx) == (Slot(old_, idx)
                                      && Ahead(idx, (w.highest.value + 1) % WINDOW) >= sequence - w.highest.value)
    requires forall idx: nat | idx < WINDOW :: Slot(now, idx) == (idx == sequence % WINDOW || Slot(cleared, idx))
    ensures forall s: nat | sequence - WINDOW < s <= sequence :: Slot(now, s % WINDOW) == (s in w.accepted + {sequence})
  {
    var top := w.highest.value;
    forall s: nat | sequence - WINDOW < s <= sequence
      ensures Slot(now, s % WINDOW) == (s in w.accepted + {sequence})
    {
      SlotsDiffer(s, sequence);
      if sequence - top < WINDOW {
        RingDistance(s, top);
      }
    }
  }

  lemma RingDistance(s: nat, top: nat)
    requires top - WINDOW < s <= top + WINDOW
    ensures Ahead(s % WINDOW, (top + 1) % WINDOW) == if s <= top then s + WINDOW - (top + 1) else s - (top + 1)
  {}
}
