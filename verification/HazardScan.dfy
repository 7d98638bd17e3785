/** The two loops of scan, run without interruption, and that they are what the step-by-step machine does. */
module HazardScan {
  import opened Words
  import opened HazardPointers
  import opened HazardSafety

  /** Phase 2 as a function: sweep s from position i on. */
  function Swept(s: seq<Addr>, i: nat, live: set<Word>): seq<Addr>
    decreases |s| - i
  {
    if i >= |s| then s
    else if Word(s[i], false) in live then Swept(s, i + 1, live)
    else Swept(SwapPop(s, i), i, live)
  }

  /** The sweep keeps exactly the live nodes, each as often as it was there, and whatever precedes i. */
  lemma {:induction false} SweptKeepsLive(s: seq<Addr>, i: nat, live: set<Word>, a: Addr)
    requires i <= |s| && forall j :: 0 <= j < i ==> Word(s[j], false) in live
    ensures multiset(Swept(s, i, live))[a] == if Word(a, false) in live then multiset(s)[a] else 0
    decreases |s| - i
  {
    if i == |s| {
      assert a in s ==> Word(a, false) in live;
    } else if Word(s[i], false) in live {
      SweptKeepsLive(s, i + 1, live, a);
    } else {
      MultisetSwapPop(s, i);
      SweptKeepsLive(SwapPop(s, i), i, live, a);
    }
  }

  /** One step of the machine's sweep leaves the final outcome of the sweep as it was. */
  lemma SweepStepKeepsOutcome(h: Smr, t: Tid)
    requires t in h.pcs && h.pcs[t].Sweep? && PcOk(h, h.pcs[t]) && Slots(h)
    requires h.pcs[t].iter < |h.recs[h.pcs[t].p.r].retired|
    ensures var h' := ScanStep(h, t);
            && t in h'.pcs && h'.pcs[t].Sweep? && h'.pcs[t].p == h.pcs[t].p && |h'.recs| == |h.recs|
            && var p := h.pcs[t].p;
               Swept(h'.recs[p.r].retired, h'.pcs[t].iter, p.live) == Swept(h.recs[p.r].retired, h.pcs[t].iter, p.live)
  {
  }

  class Scanner {
    var retired: seq<Addr>
    var freed: multiset<Addr>

    constructor (list: seq<Addr>)
      ensures retired == list && freed == multiset{}
    {
      retired := list;
      freed := multiset{};
    }

    /** Phase 1: every non-null word in every slot of every record. */
    method Collect(slots: seq<seq<Word>>) returns (live: set<Word>)
      ensures forall w :: w in live <==>
                w != NULL && exists q, k :: 0 <= q < |slots| && 0 <= k < |slots[q]| && slots[q][k] == w
    {
      live := {};
      var q := |slots|;
      while q > 0
        invariant 0 <= q <= |slots|
        invariant forall w :: w in live <==>
                    w != NULL && exists p, k :: q <= p < |slots| && 0 <= k < |slots[p]| && slots[p][k] == w
      {
        q := q - 1;
        var k := 0;
        while k < |slots[q]|
          invariant 0 <= k <= |slots[q]|
          invariant forall w :: w in live <==>
                      w != NULL && ((exists p, i :: q < p < |slots| && 0 <= i < |slots[p]| && slots[p][i] == w)
                                    || (exists i :: 0 <= i < k && slots[q][i] == w))
        {
          var word := slots[q][k];
          if word != NULL {
            live := live + {word};
          }
          k := k + 1;
        }
      }
    }

    /** Phase 2: swap-and-pop over the retire list, in place. */
    method Sweep(live: set<Word>)
      modifies this
      ensures retired == Swept(old(retired), 0, live)
      ensures freed + multiset(retired) == old(freed) + multiset(old(retired))
    {
      var iter := 0;
      while iter < |retired|
        invariant 0 <= iter <= |retired|
        invariant Swept(retired, iter, live) == Swept(old(retired), 0, live)
        invariant freed + multiset(retired) == old(freed) + multiset(old(retired))
        decreases |retired| - iter
      {
        if Word(retired[iter], false) in live {
          iter := iter + 1;
        } else {
          var done := iter + 1 == |retired|;
          MultisetSwapPop(retired, iter);
          freed := freed + multiset{retired[iter]};
          retired := SwapPop(retired, iter);
          if done {
            break;
          }
        }
      }
    }

    /** scan: afterwards the list holds exactly the nodes some slot names, and all others are freed. */
    method Scan(slots: seq<seq<Word>>)
      modifies this
      ensures forall a :: multiset(retired)[a] == if Named(slots, a) then multiset(old(retired))[a] else 0
      ensures freed + multiset(retired) == old(freed) + multiset(old(retired))
    {
      var live := Collect(slots);
      Sweep(live);
      forall a ensures multiset(retired)[a] == if Named(slots, a) then multiset(old(retired))[a] else 0 {
        SweptKeepsLive(old(retired), 0, live, a);
      }
    }
  }

  /** Some slot holds a pointer to a. */
  ghost predicate Named(slots: seq<seq<Word>>, a: Addr) {
    Word(a, false) != NULL && exists q, k :: 0 <= q < |slots| && 0 <= k < |slots[q]| && slots[q][k] == Word(a, false)
  }
}
