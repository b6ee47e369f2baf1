/**
 The 128-bit anti-replay window of the media relay, and the plain set of accepted
 sequence numbers it stands for. The bitmap is a natural number below 2^128 with
 the machine's bit operations spelled out.
 */
module ReplayWindows {

  const WIDTH := 128

  predicate Bit(b: nat, d: nat) {
    if d == 0 then b % 2 == 1 else Bit(b / 2, d - 1)
  }

  /** `b | (1 << d)` */
  function SetBit(b: nat, d: nat): nat {
    if d == 0 then b / 2 * 2 + 1 else SetBit(b / 2, d - 1) * 2 + b % 2
  }

  /** The low `n` bits of `b`. */
  function Low(b: nat, n: nat): nat {
    if n == 0 then 0 else Low(b / 2, n - 1) * 2 + b % 2
  }

  function Double(b: nat, times: nat): nat {
    if times == 0 then b else Double(b, times - 1) * 2
  }

  /** `b << shift` in 128 bits. */
  function ShiftLeft(b: nat, shift: nat): nat {
    Low(Double(b, shift), WIDTH)
  }

  lemma {:induction false} BitOfLow(b: nat, n: nat, d: nat)
    ensures Bit(Low(b, n), d) <==> d < n && Bit(b, d)
  {
    if n == 0 {
      BitOfZero(d);
    } else if d > 0 {
      BitOfLow(b / 2, n - 1, d - 1);
    }
  }

  lemma {:induction false} BitOfZero(d: nat)
    ensures !Bit(0, d)
  {
    if d > 0 { BitOfZero(d - 1); }
  }

  lemma {:induction false} BitOfDouble(b: nat, times: nat, d: nat)
    ensures Bit(Double(b, times), d) <==> times <= d && Bit(b, d - times)
  {
    if times > 0 && d > 0 {
      BitOfDouble(b, times - 1, d - 1);
    }
  }

  lemma {:induction false} BitOfSet(b: nat, e: nat, d: nat)
    ensures Bit(SetBit(b, e), d) <==> d == e || Bit(b, d)
  {
    if e > 0 && d > 0 {
      BitOfSet(b / 2, e - 1, d - 1);
    }
  }

  datatype Window = Window(maximum: nat, bitmap: nat)

  const EMPTY := Window(0, 0)

  function Accept(w: Window, sequence: nat): (Window, bool) {
    if sequence == 0 then (w, false)
    else if sequence > w.maximum then
      var shift := sequence - w.maximum;
      (Window(sequence, if shift >= WIDTH then 1 else SetBit(ShiftLeft(w.bitmap, shift), 0)), true)
    else
      var distance := w.maximum - sequence;
      if distance >= WIDTH || Bit(w.bitmap, distance) then (w, false)
      else (w.(bitmap := SetBit(w.bitmap, distance)), true)
  }

  // The simple form.

  /** The window stands for the set of all sequence numbers accepted so far. */
  ghost predicate Represents(w: Window, accepted: set<nat>) {
    && (forall n :: n in accepted ==> 0 < n <= w.maximum)
    && (w.maximum > 0 ==> w.maximum in accepted)
    && (forall d :: 0 <= d < WIDTH && d < w.maximum ==> (Bit(w.bitmap, d) <==> w.maximum - d in accepted))
  }

  /** Positive, not seen, and above everything seen or less than 128 below the largest. */
  ghost predicate Fresh(accepted: set<nat>, n: nat) {
    && n > 0 && n !in accepted
    && ((forall m :: m in accepted ==> m < n) || (exists m :: m in accepted && Largest(accepted, m) && m - n < 128))
  }

  ghost predicate Largest(accepted: set<nat>, m: nat) {
    m in accepted && forall k :: k in accepted ==> k <= m
  }

  lemma {:induction false} BitmapOf(b: nat, shift: nat, d: nat)
    requires 0 < shift
    ensures Bit(SetBit(ShiftLeft(b, shift), 0), d) <==> d == 0 || (shift <= d < WIDTH && Bit(b, d - shift))
  {
    BitOfSet(ShiftLeft(b, shift), 0, d);
    BitOfLow(Double(b, shift), WIDTH, d);
    BitOfDouble(b, shift, d);
  }

  lemma {:induction false} OnlyFirstBit(d: nat)
    ensures Bit(1, d) <==> d == 0
  {
    if d > 0 { BitOfZero(d - 1); }
  }

  lemma {:induction false} AdvanceRefines(w: Window, accepted: set<nat>, n: nat)
    requires Represents(w, accepted) && n > w.maximum
    ensures Represents(Accept(w, n).0, accepted + {n})
  {
    var shift := n - w.maximum;
    var w' := Accept(w, n).0;
    forall d | 0 <= d < WIDTH && d < n
      ensures Bit(w'.bitmap, d) <==> n - d in accepted + {n}
    {
      if shift >= WIDTH {
        OnlyFirstBit(d);
      } else {
        BitmapOf(w.bitmap, shift, d);
        if shift <= d {
          assert w.maximum - (d - shift) == n - d;
        }
      }
    }
  }

  /** The bitmap refines the set: same decision, and the new window stands for the new set. */
  lemma {:induction false} AcceptRefines(w: Window, accepted: set<nat>, n: nat)
    requires Represents(w, accepted)
    ensures Accept(w, n).1 <==> Fresh(accepted, n)
    ensures Represents(Accept(w, n).0, if Accept(w, n).1 then accepted + {n} else accepted)
  {
    if n > w.maximum {
      AdvanceRefines(w, accepted, n);
    } else if n > 0 {
      assert Largest(accepted, w.maximum);
      var distance := w.maximum - n;
      if distance < WIDTH {
        forall d: nat ensures Bit(SetBit(w.bitmap, distance), d) <==> d == distance || Bit(w.bitmap, d) {
          BitOfSet(w.bitmap, distance, d);
        }
      }
    }
  }

  /** The numbers accepted when the given ones arrive in order. */
  function Run(sequences: seq<nat>): Window
    decreases |sequences|
  {
    if sequences == [] then EMPTY
    else Accept(Run(sequences[..|sequences| - 1]), sequences[|sequences| - 1]).0
  }

  function Admitted(sequences: seq<nat>): set<nat>
    decreases |sequences|
  {
    if sequences == [] then {}
    else
      var before, last := sequences[..|sequences| - 1], sequences[|sequences| - 1];
      Admitted(before) + if Accept(Run(before), last).1 then {last} else {}
  }

  /** Whatever arrives, in whatever order, the next decision is the one the plain set makes. */
  lemma {:induction false} WindowIsExact(sequences: seq<nat>, next: nat)
    ensures Represents(Run(sequences), Admitted(sequences))
    ensures Accept(Run(sequences), next).1 <==> Fresh(Admitted(sequences), next)
    decreases |sequences|
  {
    if sequences != [] {
      var before, last := sequences[..|sequences| - 1], sequences[|sequences| - 1];
      WindowIsExact(before, last);
      AcceptRefines(Run(before), Admitted(before), last);
      assert Admitted(before) + {} == Admitted(before);
    }
    AcceptRefines(Run(sequences), Admitted(sequences), next);
  }

  /** A sequence number the window will not take. */
  predicate Spent(w: Window, n: nat) {
    !Accept(w, n).1
  }

  /** An accepted number is spent, and stays spent whatever is offered next. */
  lemma {:induction false} StaysSpent(w: Window, n: nat, m: nat)
    requires Spent(w, n) || m == n
    ensures Spent(Accept(w, m).0, n)
  {
    if n > 0 && m > w.maximum {
      var shift := m - w.maximum;
      if n < m && m - n < WIDTH && shift < WIDTH {
        BitmapOf(w.bitmap, shift, m - n);
      } else if n == m {
        if shift < WIDTH { BitmapOf(w.bitmap, shift, 0); } else { OnlyFirstBit(0); }
      }
    } else if m > 0 && n > 0 && w.maximum - m < WIDTH && w.maximum >= n {
      BitOfSet(w.bitmap, w.maximum - m, w.maximum - n);
    }
  }
}
