// rucelium-ingest/src/lib.rs: the 64-bit anti-replay window, in the style of
// section 3.4.3 of RFC 4303 and section 4.1.2.6 of RFC 6347.
module Replay {
  import opened Common
  import opened Words

  datatype ReplayCheck = Replayed | TooOld

  // Bit i of the bitmap stands for sequence highest - 1 - i.
  datatype Window = Window(highest: Option<U32>, bitmap: U64)

  const FRESH := Window(None, 0)

  datatype Offered = Offered(window: Window, verdict: Result<(), ReplayCheck>)

  function Offer(w: Window, s: U32): Offered {
    if w.highest.None? then Offered(Window(Some(s), 0), Ok(()))
    else
      var highest := w.highest.value;
      if s > highest then
        var shift := s - highest;
        var bitmap := if shift <= 63 then Mark(Shl64(w.bitmap, shift), shift - 1)
                      else if shift == 64 then Mark(0, 63)
                      else 0;
        Offered(Window(Some(s), bitmap), Ok(()))
      else if s == highest then Offered(w, Err(Replayed))
      else
        var diff := highest - s;
        if diff > 63 then Offered(w, Err(TooOld))
        else if Bit(w.bitmap, diff - 1) then Offered(w, Err(Replayed))
        else Offered(Window(w.highest, Mark(w.bitmap, diff - 1)), Ok(()))
  }

  // bitmap | (1 << k), which stays a u64.
  function Mark(bitmap: U64, k: nat): (r: U64)
    requires k < 64
    ensures r == SetBit(bitmap, k)
  {
    Pow2Of64();
    SetBitBound(bitmap, k, 64);
    SetBit(bitmap, k)
  }

  // ---------------------------------------------------------------------
  // The window against the set of accepted sequences
  // ---------------------------------------------------------------------

  ghost predicate IsMax(m: U32, accepted: set<U32>) {
    m in accepted && forall x :: x in accepted ==> x <= m
  }

  // w is what the set of accepted sequences looks like through the window.
  ghost predicate Represents(w: Window, accepted: set<U32>) {
    match w.highest
    case None => accepted == {} && w.bitmap == 0
    case Some(m) => IsMax(m, accepted)
                    && forall i: nat :: i < 64 ==> (Bit(w.bitmap, i) <==> m - 1 - i in accepted)
  }

  // The simple rule: a sequence is accepted once, unless it trails the highest
  // one by more than 63.
  ghost predicate Acceptable(accepted: set<U32>, s: U32) {
    forall m: U32 :: IsMax(m, accepted) ==> s > m || (s !in accepted && m - s <= 63)
  }

  // The window decides exactly by the rule, names the reason, and goes on
  // representing the accepted set.
  lemma OfferFollowsTheRule(w: Window, accepted: set<U32>, s: U32)
    requires Represents(w, accepted)
    ensures Offer(w, s).verdict.Ok? <==> Acceptable(accepted, s)
    ensures Offer(w, s).verdict == Err(TooOld) <==> exists m: U32 :: IsMax(m, accepted) && m - s > 63
    ensures Represents(Offer(w, s).window, if Offer(w, s).verdict.Ok? then accepted + {s} else accepted)
  {
    if w.highest.None? {
      forall i: nat | i < 64
        ensures !Bit(0, i)
      {
        ZeroHasNoBits(i);
      }
    } else if s > w.highest.value {
      AdvanceRepresents(w, accepted, s);
    } else if w.highest.value - 63 <= s < w.highest.value {
      var k := w.highest.value - s - 1;
      assert Bit(w.bitmap, k) <==> w.highest.value - 1 - k in accepted;
      forall i: nat | i < 64
        ensures Bit(Mark(w.bitmap, k), i) <==> w.highest.value - 1 - i in accepted + {s}
      {
        BitOfSetBit(w.bitmap, k, i);
      }
    }
  }

  lemma AdvanceRepresents(w: Window, accepted: set<U32>, s: U32)
    requires Represents(w, accepted) && w.highest.Some? && s > w.highest.value
    ensures Represents(Offer(w, s).window, accepted + {s})
  {
    hide Bit, Shl64, SetBit;
    forall i: nat | i < 64
      ensures Bit(Offer(w, s).window.bitmap, i) <==> s - 1 - i in accepted + {s}
    {
      AdvancedBit(w, accepted, s, i);
    }
  }

  lemma AdvancedBit(w: Window, accepted: set<U32>, s: U32, i: nat)
    requires Represents(w, accepted) && w.highest.Some? && s > w.highest.value && i < 64
    ensures Bit(Offer(w, s).window.bitmap, i) <==> s - 1 - i in accepted + {s}
  {
    hide Bit, Shl64, SetBit;
    var m, shift := w.highest.value, s - w.highest.value;
    ZeroHasNoBits(i);
    if shift <= 63 {
      BitOfSetBit(Shl64(w.bitmap, shift), shift - 1, i);
      BitOfShl64(w.bitmap, shift, i);
      if i >= shift {
        assert s - 1 - i == m - 1 - (i - shift);
      }
    } else if shift == 64 {
      BitOfSetBit(0, 63, i);
    }
  }

  // Nothing but the accepted set determines the window.
  lemma WindowIsDetermined(a: Window, b: Window, accepted: set<U32>)
    requires Represents(a, accepted) && Represents(b, accepted)
    ensures a == b
  {
    if a.highest.Some? {
      Pow2Of64();
      var m := a.highest.value;
      forall i: nat | i < 64
        ensures Bit(a.bitmap, i) <==> Bit(b.bitmap, i)
      {
        assert Bit(a.bitmap, i) <==> m - 1 - i in accepted;
      }
      EqualBits(a.bitmap, b.bitmap, 64);
    }
  }

  // ---------------------------------------------------------------------
  // Runs
  // ---------------------------------------------------------------------

  // Offer a list of sequences in order.
  function OfferAll(w: Window, seqs: seq<U32>): Window {
    if seqs == [] then w else Offer(OfferAll(w, seqs[..|seqs| - 1]), seqs[|seqs| - 1]).window
  }

  // The sequences accepted on the way, in order.
  function AcceptedOf(w: Window, seqs: seq<U32>): seq<U32> {
    if seqs == [] then []
    else
      var last := seqs[|seqs| - 1];
      AcceptedOf(w, seqs[..|seqs| - 1])
      + (if Offer(OfferAll(w, seqs[..|seqs| - 1]), last).verdict.Ok? then [last] else [])
  }

  // Over any run no sequence is accepted twice, and the window shows exactly the
  // accepted ones.
  lemma {:induction false} RunsAcceptOnce(seqs: seq<U32>)
    ensures Distinct(AcceptedOf(FRESH, seqs))
    ensures Represents(OfferAll(FRESH, seqs), Elements(AcceptedOf(FRESH, seqs)))
  {
    if seqs != [] {
      var before, last := seqs[..|seqs| - 1], seqs[|seqs| - 1];
      RunsAcceptOnce(before);
      var accepted := AcceptedOf(FRESH, before);
      OfferFollowsTheRule(OfferAll(FRESH, before), Elements(accepted), last);
      if Acceptable(Elements(accepted), last) {
        AcceptableIsNew(Elements(accepted), last);
      }
      assert Elements(accepted + [last]) == Elements(accepted) + {last};
      assert Elements(accepted + []) == Elements(accepted);
    }
  }

  lemma AcceptableIsNew(accepted: set<U32>, s: U32)
    requires Acceptable(accepted, s)
    ensures s !in accepted
  {
    if s in accepted {
      var m := MaxOf(accepted);
    }
  }

  lemma {:induction false} MaxOf(accepted: set<U32>) returns (m: U32)
    requires accepted != {}
    ensures IsMax(m, accepted)
    decreases |accepted|
  {
    var x :| x in accepted;
    var rest := accepted - {x};
    m := x;
    assert accepted == rest + {x};
    if rest != {} {
      m := MaxOf(rest);
      if m < x {
        m := x;
      }
    }
  }

  // ---------------------------------------------------------------------
  // Priming
  // ---------------------------------------------------------------------

  ghost predicate Ascending(seqs: seq<U32>) {
    forall i, j :: 0 <= i < j < |seqs| ==> seqs[i] <= seqs[j]
  }

  // sort_unstable on u32.
  function Sorted(seqs: seq<U32>): (r: seq<U32>)
    ensures Ascending(r) && multiset(r) == multiset(seqs)
  {
    if seqs == [] then []
    else
      assert seqs == [seqs[0]] + seqs[1..];
      Insert(seqs[0], Sorted(seqs[1..]))
  }

  function Insert(x: U32, sorted: seq<U32>): (r: seq<U32>)
    requires Ascending(sorted)
    ensures multiset(r) == multiset(sorted) + multiset{x}
    ensures Ascending(r)
  {
    if sorted == [] || x <= sorted[0] then [x] + sorted
    else
      var rest := Insert(x, sorted[1..]);
      HeadStaysFirst(x, sorted, rest);
      [sorted[0]] + rest
  }

  lemma HeadStaysFirst(x: U32, sorted: seq<U32>, rest: seq<U32>)
    requires sorted != [] && Ascending(sorted) && sorted[0] < x && Ascending(rest)
    requires multiset(rest) == multiset(sorted[1..]) + multiset{x}
    ensures Ascending([sorted[0]] + rest) && multiset([sorted[0]] + rest) == multiset(sorted) + multiset{x}
  {
    assert sorted == [sorted[0]] + sorted[1..];
    forall i | 0 <= i < |rest|
      ensures sorted[0] <= rest[i]
    {
      assert rest[i] in multiset(rest);
      assert rest[i] == x || rest[i] in sorted[1..];
    }
  }

  // Offered in ascending order, every sequence is recorded.
  lemma {:induction false} AscendingIsRecorded(seqs: seq<U32>)
    requires Ascending(seqs)
    ensures Represents(OfferAll(FRESH, seqs), Elements(seqs))
  {
    if seqs != [] {
      var before, last := seqs[..|seqs| - 1], seqs[|seqs| - 1];
      AscendingIsRecorded(before);
      OfferFollowsTheRule(OfferAll(FRESH, before), Elements(before), last);
      assert Elements(seqs) == Elements(before) + {last};
      assert forall x :: x in Elements(before) ==> x <= last;
    }
  }

  // A window primed from any listing of the accepted sequences is the live
  // window, whatever order they were accepted in.
  lemma PrimingRestoresTheWindow(seqs: seq<U32>, listing: seq<U32>)
    requires Elements(listing) == Elements(AcceptedOf(FRESH, seqs))
    ensures OfferAll(FRESH, Sorted(listing)) == OfferAll(FRESH, seqs)
  {
    SortedElements(listing);
    AscendingIsRecorded(Sorted(listing));
    RunsAcceptOnce(seqs);
    WindowIsDetermined(OfferAll(FRESH, Sorted(listing)), OfferAll(FRESH, seqs), Elements(listing));
  }

  lemma SortedElements(seqs: seq<U32>)
    ensures Elements(Sorted(seqs)) == Elements(seqs)
  {
    forall x
      ensures x in Sorted(seqs) <==> x in seqs
    {
      assert x in Sorted(seqs) <==> x in multiset(Sorted(seqs));
      assert x in seqs <==> x in multiset(seqs);
    }
  }

  // ---------------------------------------------------------------------
  // The window object
  // ---------------------------------------------------------------------

  class ReplayWindow {
    var highest: Option<U32>
    var bitmap: U64
    ghost var accepted: set<U32>

    ghost predicate Valid()
      reads this
    {
      Represents(Window(highest, bitmap), accepted)
    }

    constructor ()
      ensures Valid() && accepted == {}
    {
      highest, bitmap, accepted := None, 0, {};
    }

    method CheckAndUpdate(sequence: U32) returns (r: Result<(), ReplayCheck>)
      requires Valid()
      modifies this
      ensures Valid()
      ensures Offered(Window(highest, bitmap), r) == Offer(Window(old(highest), old(bitmap)), sequence)
      ensures r.Ok? <==> Acceptable(old(accepted), sequence)
      ensures accepted == if r.Ok? then old(accepted) + {sequence} else old(accepted)
    {
      OfferFollowsTheRule(Window(highest, bitmap), accepted, sequence);
      if highest.None? {
        highest := Some(sequence);
        bitmap := 0;
        accepted := accepted + {sequence};
        return Ok(());
      }
      if sequence > highest.value {
        var shift := sequence - highest.value;
        bitmap := if shift <= 63 then Mark(Shl64(bitmap, shift), shift - 1)
                  else if shift == 64 then Mark(0, 63)
                  else 0;
        highest := Some(sequence);
        accepted := accepted + {sequence};
        return Ok(());
      }
      if sequence == highest.value {
        return Err(Replayed);
      }
      var diff := highest.value - sequence;
      if diff > 63 {
        return Err(TooOld);
      }
      if Bit(bitmap, diff - 1) {
        return Err(Replayed);
      }
      bitmap := Mark(bitmap, diff - 1);
      accepted := accepted + {sequence};
      return Ok(());
    }
  }
}
