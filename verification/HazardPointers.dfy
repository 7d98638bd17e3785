/**
 * Hazard-pointer reclamation as a state machine: any number of threads, one
 * atomic load, store or compare-exchange per step.
 *
 * A record is named by its position in publication order. `head_` is the record
 * published last, and because `next_` never changes once a record is published,
 * the successor of record i is record i - 1 and the list ends below 0.
 */
module HazardPointers {
  import opened Words

  /**
   * `owner` and `safe` are history variables: the thread that set `active`, and for
   * each slot whether the node it names was seen un-retired after the slot was set,
   * or was handed up from a lower slot for which that held.
   */
  datatype Record = Record(
    slots: seq<Word>,
    active: bool,
    retired: seq<Addr>,
    owner: Option<Tid>,
    safe: set<nat>)

  /** Who asked for a scan: a client's retireNode, or helpScan holding record q. */
  datatype From = Client | Helper(q: nat)

  /**
   * One execution of scan by the owner of record r. `size` and `quota` remember
   * the list length and hp_count_ that triggered it and `top` the number of
   * records it walks (history); `live` is the set built by phase 1.
   */
  datatype Pass = Pass(r: nat, from: From, size: nat, quota: nat, top: nat, live: set<Word>)

  datatype Pc =
    | NoRecord
    | Walk(at: int)                       // allocate: about to load active_ of record `at`
    | WalkCas(at: int)                    // allocate: about to compare-exchange active_
    | Push                                // allocate: counted; about to load head_
    | PushCas(seen: int)                  // allocate: next_ set to `seen`; about to CAS head_
    | Ready(r: nat)                       // owns record r, between calls
    | Check(r: nat, from: From)           // about to evaluate shouldScan
    | Head(p: Pass)                       // scan: about to load head_
    | Scan(p: Pass, at: int, slot: nat)   // scan phase 1
    | Sweep(p: Pass, iter: nat)           // scan phase 2
    | HelpHead(r: nat)                    // helpScan: about to load head_
    | Help(r: nat, at: int)               // helpScan: about to try record `at`
    | Take(r: nat, q: nat)                // helpScan: holds q's active_, drains its list
    | Leave(r: nat, slot: nat)            // HazardPointers::retire

  /**
   * `k` slots a record, `count` is hp_count_. The two logs are history variables:
   * the nodes handed to retireNode and the nodes deleted by scan.
   */
  datatype Smr = Smr(
    k: nat,
    recs: seq<Record>,
    count: nat,
    pcs: map<Tid, Pc>,
    retiredLog: multiset<Addr>,
    freedLog: multiset<Addr>)

  // ---------------------------------------------------------------- program counters

  /** The record a thread allocated for itself. */
  function RecOf(pc: Pc): Option<nat>
    reads {}
  {
    match pc
    case NoRecord => None
    case Walk(_) => None
    case WalkCas(_) => None
    case Push => None
    case PushCas(_) => None
    case Ready(r) => Some(r)
    case Check(r, _) => Some(r)
    case Head(p) => Some(p.r)
    case Scan(p, _, _) => Some(p.r)
    case Sweep(p, _) => Some(p.r)
    case HelpHead(r) => Some(r)
    case Help(r, _) => Some(r)
    case Take(r, _) => Some(r)
    case Leave(r, _) => Some(r)
  }

  function HelpedBy(from: From): Option<nat>
    reads {}
  {
    match from
    case Client => None
    case Helper(q) => Some(q)
  }

  /** The second record a thread inside helpScan has locked, if any. */
  function LockOf(pc: Pc): Option<nat>
    reads {}
  {
    match pc
    case Check(_, from) => HelpedBy(from)
    case Head(p) => HelpedBy(p.from)
    case Scan(p, _, _) => HelpedBy(p.from)
    case Sweep(p, _) => HelpedBy(p.from)
    case Take(_, q) => Some(q)
    case _ => None
  }

  predicate Owns(pc: Pc, q: nat)
    reads {}
  {
    RecOf(pc) == Some(q) || LockOf(pc) == Some(q)
  }

  /** Between the push_back of a retired node and the end of the scan it may trigger. */
  predicate Reclaiming(pc: Pc)
    reads {}
  {
    pc.Check? || pc.Head? || pc.Scan? || pc.Sweep?
  }

  /** Slot k of a record protects node a. */
  predicate Protects(rec: Record, k: nat, a: Addr)
    reads {}
  {
    k < |rec.slots| && k in rec.safe && rec.slots[k] == Word(a, false)
  }

  /** All retire lists together. */
  function Pending(recs: seq<Record>): multiset<Addr>
    reads {}
  {
    if recs == [] then multiset{}
    else Pending(recs[..|recs| - 1]) + multiset(recs[|recs| - 1].retired)
  }

  // ---------------------------------------------------------------- steps

  function At(h: Smr, t: Tid, pc: Pc): Smr
    reads {}
  {
    h.(pcs := h.pcs[t := pc])
  }

  function Nulls(k: nat): seq<Word>
    reads {}
  {
    seq(k, _ => NULL)
  }

  function NewRecord(k: nat, t: Tid): Record
    reads {}
  {
    Record(Nulls(k), true, [], Some(t), {})
  }

  function WithRec(h: Smr, q: nat, rec: Record): Smr
    requires q < |h.recs|
    reads {}
  {
    h.(recs := h.recs[q := rec])
  }

  /** Thread t takes record q by setting its active flag. */
  function Claim(h: Smr, t: Tid, q: nat): Smr
    requires q < |h.recs|
    reads {}
  {
    WithRec(h, q, h.recs[q].(active := true, owner := Some(t)))
  }

  function Release(h: Smr, q: nat): Smr
    requires q < |h.recs|
    reads {}
  {
    WithRec(h, q, h.recs[q].(active := false, owner := None))
  }

  /** HazardPointers::allocate, one step. */
  function AllocateStep(h: Smr, t: Tid): Smr
    requires t in h.pcs
    requires h.pcs[t].WalkCas? ==> 0 <= h.pcs[t].at < |h.recs|
    requires h.pcs[t].Walk? ==> h.pcs[t].at < |h.recs|
    reads {}
  {
    var pc := h.pcs[t];
    match pc
    case NoRecord => At(h, t, Walk(|h.recs| - 1))
    case Walk(at) =>
      if at < 0 then At(h.(count := h.count + 1), t, Push)
      else if h.recs[at].active then At(h, t, Walk(at - 1))
      else At(h, t, WalkCas(at))
    case WalkCas(at) =>
      if h.recs[at].active then At(h, t, Walk(at - 1))
      else At(Claim(h, t, at), t, Ready(at))
    case Push => At(h, t, PushCas(|h.recs| - 1))
    case PushCas(seen) =>
      if |h.recs| - 1 == seen
      then At(h.(recs := h.recs + [NewRecord(h.k, t)]), t, Ready(|h.recs|))
      else At(h, t, Push)
    case _ => h
  }

  /** A lower slot protects the word about to be stored in slot k. */
  predicate HandedUp(rec: Record, k: nat, w: Word)
    reads {}
  {
    exists j :: j in rec.safe && j < k && j < |rec.slots| && rec.slots[j] == w
  }

  /** A store to slot k of a record. */
  function StoreSlot(rec: Record, k: nat, w: Word): Record
    requires k < |rec.slots|
    reads {}
  {
    rec.(slots := rec.slots[k := w], safe := if HandedUp(rec, k, w) then rec.safe + {k} else rec.safe - {k})
  }

  function SetSlot(h: Smr, r: nat, k: nat, w: Word): Smr
    requires r < |h.recs| && k < |h.recs[r].slots|
    reads {}
  {
    WithRec(h, r, StoreSlot(h.recs[r], k, w))
  }

  /** The load that follows a slot store found the node still un-retired. */
  function Validated(rec: Record, k: nat): Record
    reads {}
  {
    rec.(safe := rec.safe + {k})
  }

  function Hold(h: Smr, r: nat, k: nat): Smr
    requires r < |h.recs|
    reads {}
  {
    WithRec(h, r, Validated(h.recs[r], k))
  }

  /** retireNode: append to the caller's own list, then go on to shouldScan. */
  function RetireNode(h: Smr, t: Tid, r: nat, a: Addr): Smr
    requires r < |h.recs|
    reads {}
  {
    var rec := h.recs[r].(retired := h.recs[r].retired + [a]);
    At(WithRec(h, r, rec).(retiredLog := h.retiredLog + multiset{a}), t, Check(r, Client))
  }

  predicate ShouldScan(h: Smr, r: nat)
    requires r < |h.recs|
    reads {}
  {
    4 * |h.recs[r].retired| >= 5 * (h.count * h.k)
  }

  /** Where a finished scan or a negative shouldScan returns to. */
  function AfterCheck(r: nat, from: From): Pc
    reads {}
  {
    match from
    case Client => Ready(r)
    case Helper(q) => Take(r, q)
  }

  function AfterScan(p: Pass): Pc
    reads {}
  {
    match p.from
    case Client => HelpHead(p.r)
    case Helper(q) => Take(p.r, q)
  }

  /** The node the next step of thread t deletes, if any. */
  function Victim(h: Smr, t: Tid): Option<Addr>
    requires t in h.pcs
    reads {}
  {
    var pc := h.pcs[t];
    match pc
    case Sweep(p, iter) =>
      if p.r < |h.recs| && iter < |h.recs[p.r].retired| && Word(h.recs[p.r].retired[iter], false) !in p.live
      then Some(h.recs[p.r].retired[iter])
      else None
    case _ => None
  }

  /** Swap-with-last and pop. */
  function SwapPop(s: seq<Addr>, i: nat): seq<Addr>
    requires i < |s|
    reads {}
  {
    s[i := s[|s| - 1]][..|s| - 1]
  }

  /** scan, one step. */
  function ScanStep(h: Smr, t: Tid): Smr
    requires t in h.pcs && PcOk(h, h.pcs[t]) && Slots(h)
    reads {}
  {
    var pc := h.pcs[t];
    match pc
    case Check(r, from) =>
      if ShouldScan(h, r) then At(h, t, Head(Pass(r, from, |h.recs[r].retired|, h.count, 0, {})))
      else At(h, t, AfterCheck(r, from))
    case Head(p) => At(h, t, Scan(p.(top := |h.recs|, live := {}), |h.recs| - 1, 0))
    case Scan(p, at, slot) =>
      if at < 0 then At(h, t, Sweep(p, 0))
      else if slot == h.k then At(h, t, Scan(p, at - 1, 0))
      else
        var w := h.recs[at].slots[slot];
        At(h, t, Scan(if w == NULL then p else p.(live := p.live + {w}), at, slot + 1))
    case Sweep(p, iter) =>
      if iter >= |h.recs[p.r].retired| then At(h, t, AfterScan(p))
      else if Victim(h, t).None? then At(h, t, Sweep(p, iter + 1))
      else
        var rec := h.recs[p.r];
        WithRec(h, p.r, rec.(retired := SwapPop(rec.retired, iter)))
        .(freedLog := h.freedLog + multiset{rec.retired[iter]})
    case _ => h
  }

  /** helpScan, one step. */
  function HelpStep(h: Smr, t: Tid): Smr
    requires t in h.pcs && PcOk(h, h.pcs[t])
    reads {}
  {
    var pc := h.pcs[t];
    match pc
    case HelpHead(r) => At(h, t, Help(r, |h.recs| - 1))
    case Help(r, at) =>
      if at < 0 then At(h, t, Ready(r))
      else if at == r || h.recs[at].active then At(h, t, Help(r, at - 1))
      else At(Claim(h, t, at), t, Take(r, at))
    case Take(r, q) =>
      var theirs := h.recs[q].retired;
      if theirs == [] then At(Release(h, q), t, Help(r, q - 1))
      else
        var a := theirs[|theirs| - 1];
        var drained := WithRec(h, q, h.recs[q].(retired := theirs[..|theirs| - 1]));
        At(WithRec(drained, r, drained.recs[r].(retired := drained.recs[r].retired + [a])), t, Check(r, Helper(q)))
    case _ => h
  }

  /** HazardPointers::retire: null every slot, then drop the active flag. */
  function LeaveStep(h: Smr, t: Tid): Smr
    requires t in h.pcs && PcOk(h, h.pcs[t]) && Slots(h)
    reads {}
  {
    var pc := h.pcs[t];
    match pc
    case Ready(r) => At(h, t, Leave(r, 0))
    case Leave(r, slot) =>
      if slot < h.k then At(SetSlot(h, r, slot, NULL), t, Leave(r, slot + 1))
      else At(Release(h, r), t, NoRecord)
    case _ => h
  }

  // ---------------------------------------------------------------- invariant

  /** The positions named by a program counter are in range. */
  predicate PcOk(h: Smr, pc: Pc)
    reads {}
  {
    && (RecOf(pc).Some? ==> RecOf(pc).value < |h.recs|)
    && (LockOf(pc).Some? ==> LockOf(pc).value < |h.recs| && LockOf(pc) != RecOf(pc))
    && (pc.Walk? ==> pc.at < |h.recs|)
    && (pc.WalkCas? ==> 0 <= pc.at < |h.recs|)
    && (pc.Scan? ==> pc.p.top <= |h.recs| && -1 <= pc.at < pc.p.top && pc.slot <= h.k)
    && (pc.Sweep? ==> pc.p.top <= |h.recs| && pc.iter <= |h.recs[pc.p.r].retired|)
    && (pc.Help? ==> pc.at < |h.recs|)
    && (pc.Leave? ==> pc.slot <= h.k)
  }

  ghost predicate Slots(h: Smr)
    reads {}
  {
    forall q :: 0 <= q < |h.recs| ==> |h.recs[q].slots| == h.k
  }

  function Pushing(pcs: map<Tid, Pc>): set<Tid>
    reads {}
  {
    set t | t in pcs && (pcs[t].Push? || pcs[t].PushCas?)
  }

  ghost predicate Shape(h: Smr)
    reads {}
  {
    && h.k >= 1
    && Slots(h)
    && (forall t :: t in h.pcs ==> PcOk(h, h.pcs[t]))
    && h.count == |h.recs| + |Pushing(h.pcs)|
  }

  /** A record's active flag has exactly one holder. */
  ghost predicate Owners(h: Smr)
    reads {}
  {
    && (forall q :: 0 <= q < |h.recs| ==> (h.recs[q].active <==> h.recs[q].owner.Some?))
    && (forall t, q: nat {:trigger Owns(h.pcs[t], q)} :: t in h.pcs && Owns(h.pcs[t], q) ==>
         q < |h.recs| && h.recs[q].owner == Some(t))
    && (forall q :: 0 <= q < |h.recs| && h.recs[q].owner.Some? ==>
          h.recs[q].owner.value in h.pcs && Owns(h.pcs[h.recs[q].owner.value], q))
  }

  /** A safe slot names a node, unmarked. */
  ghost predicate SafeNames(h: Smr)
    requires Slots(h)
    reads {}
  {
    forall q, k {:trigger k in h.recs[q].safe} :: 0 <= q < |h.recs| && k in h.recs[q].safe ==>
      k < h.k && !h.recs[q].slots[k].tag && h.recs[q].slots[k].ptr != 0
  }

  /** No running scan can miss a protected node that is on the list it is about to sweep. */
  ghost predicate ScanSees(h: Smr, pc: Pc)
    requires Slots(h) && PcOk(h, pc)
    reads {}
  {
    match pc
    case Scan(p, at, slot) =>
      forall q, k {:trigger k in h.recs[q].safe} ::
        0 <= q < |h.recs| && k in h.recs[q].safe && k < h.k && h.recs[q].slots[k].ptr in h.recs[p.r].retired ==>
          h.recs[q].slots[k] in p.live || q < at || (q == at && k >= slot)
    case Sweep(p, _) =>
      forall q, k {:trigger k in h.recs[q].safe} ::
        0 <= q < |h.recs| && k in h.recs[q].safe && k < h.k && h.recs[q].slots[k].ptr in h.recs[p.r].retired ==>
          h.recs[q].slots[k] in p.live
    case _ => true
  }

  ghost predicate ScansSee(h: Smr)
    requires Shape(h)
    reads {}
  {
    forall t :: t in h.pcs ==> ScanSees(h, h.pcs[t])
  }

  /** Conservation: what was retired is what was freed plus what is still on some list, once each. */
  ghost predicate Conserved(h: Smr)
    reads {}
  {
    && h.retiredLog == h.freedLog + Pending(h.recs)
    && (forall a :: Pending(h.recs)[a] <= 1)
  }

  ghost predicate Inv(h: Smr)
    reads {}
  {
    Shape(h) && Owners(h) && SafeNames(h) && ScansSee(h) && Conserved(h)
  }

  ghost predicate Init(h: Smr)
    reads {}
  {
    && h.k >= 1 && h.recs == [] && h.count == 0
    && h.retiredLog == multiset{} && h.freedLog == multiset{}
    && (forall t :: t in h.pcs ==> h.pcs[t] == NoRecord)
  }
}
