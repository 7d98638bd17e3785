/** What the map's operations mean on a quiescent list: a sorted row of entries, some of them dead. */
module SkipListSpec {

  datatype Entry = Entry(key: int, value: int, dead: bool)

  predicate Sorted(es: seq<Entry>) {
    forall i, j :: 0 <= i < j < |es| ==> es[i].key < es[j].key
  }

  predicate NoneDead(es: seq<Entry>) {
    forall i :: 0 <= i < |es| ==> !es[i].dead
  }

  /** The map the row stands for: its live entries. */
  function Contents(es: seq<Entry>): map<int, int> {
    if es == [] then map[]
    else
      var rest := Contents(es[..|es| - 1]);
      var e := es[|es| - 1];
      if e.dead then rest else rest[e.key := e.value]
  }

  /** A key is mapped to v exactly when a live entry says so. */
  lemma {:induction false} ContentsHas(es: seq<Entry>, k: int)
    requires Sorted(es)
    ensures forall v {:trigger Entry(k, v, false)} :: Entry(k, v, false) in es <==>
              k in Contents(es) && Contents(es)[k] == v
  {
    if es != [] {
      var n := |es| - 1;
      ContentsHas(es[..n], k);
      assert es == es[..n] + [es[n]];
    }
  }

  /** Two rows with the same live entries stand for the same map. */
  lemma SameContents(es: seq<Entry>, fs: seq<Entry>)
    requires Sorted(es) && Sorted(fs)
    requires forall k, v {:trigger Entry(k, v, false)} :: Entry(k, v, false) in es <==> Entry(k, v, false) in fs
    ensures Contents(es) == Contents(fs)
  {
    hide Contents, Sorted;
    var m, m' := Contents(es), Contents(fs);
    forall k | k in m || k in m' ensures k in m && k in m' && m'[k] == m[k] {
      var e := Entry(k, if k in m then m[k] else m'[k], false);
      ContentsHas(es, k);
      ContentsHas(fs, k);
      assert e in es <==> e in fs;
    }
  }

  /** Where a scan for k from position `from` stops: at a dead entry, a key not below k, or the end. */
  function Scan(es: seq<Entry>, k: int, from: nat): (p: nat)
    requires from <= |es|
    ensures from <= p <= |es|
    ensures forall i :: from <= i < p ==> !es[i].dead && es[i].key < k
    ensures p < |es| ==> es[p].dead || es[p].key >= k
    decreases |es| - from
  {
    if from == |es| || es[from].dead || es[from].key >= k then from else Scan(es, k, from + 1)
  }

  /** find's answer: it stopped at a live entry with the key. */
  predicate Match(es: seq<Entry>, k: int, p: nat) {
    p < |es| && !es[p].dead && es[p].key == k
  }

  /** find leaves through its unlinking exit. */
  predicate HitsDead(es: seq<Entry>, p: nat) {
    p < |es| && es[p].dead
  }

  /** Some entry from position `from` on is dead and below k. */
  ghost predicate DeadBelow(es: seq<Entry>, k: int, from: nat) {
    exists i :: from <= i < |es| && es[i].dead && es[i].key < k
  }

  /** A scan from past some entries below k matches exactly when k is in the map and no dead entry lies on the way. */
  lemma MatchFrom(es: seq<Entry>, k: int, from: nat)
    requires Sorted(es) && from <= |es| && forall i :: 0 <= i < from ==> es[i].key < k
    ensures Match(es, k, Scan(es, k, from)) <==> k in Contents(es) && !DeadBelow(es, k, from)
  {
    ContentsHas(es, k);
    var p := Scan(es, k, from);
    if Match(es, k, p) {
      assert es[p] == Entry(k, es[p].value, false);
      forall i | from <= i < |es| && es[i].dead ensures es[i].key >= k {
        assert i >= p;
      }
    }
    if k in Contents(es) {
      assert Entry(k, Contents(es)[k], false) in es;
    }
  }

  /**
   * find answers "match" exactly when the key is in the map and no dead entry lies
   * before it: a dead entry on the way turns a present key into a negative answer.
   */
  lemma MatchExactly(es: seq<Entry>, k: int)
    requires Sorted(es)
    ensures Match(es, k, Scan(es, k, 0)) <==>
              k in Contents(es) && !DeadBelow(es, k, 0)
  {
    MatchFrom(es, k, 0);
  }

  /** The concrete case: 2 is in the map, and the scan for it answers no because 1 is dead. */
  lemma DeadEntryHidesKey()
    ensures var es := [Entry(1, 10, true), Entry(2, 20, false)];
            Sorted(es) && 2 in Contents(es) && !Match(es, 2, Scan(es, 2, 0)) && HitsDead(es, Scan(es, 2, 0))
  {
    var es := [Entry(1, 10, true), Entry(2, 20, false)];
    ContentsHas(es, 2);
    assert es[1] == Entry(2, 20, false);
  }

  /** What a find for k leaves of the row: all but the dead entry it stopped at, if it did. */
  function Swept(es: seq<Entry>, k: int): seq<Entry> {
    var p := Scan(es, k, 0);
    if HitsDead(es, p) then Without(es, p) else es
  }

  function Killed(es: seq<Entry>, p: nat): seq<Entry>
    requires p < |es|
  {
    es[p := es[p].(dead := true)]
  }

  /**
   * How a dead entry can outlive every call, from a row of live ones. Two calls of erase
   * find 3 and 5 and mark them; the second find of the one that erases 5 meets 3, unlinks it
   * and leaves; the second find of the other stops at 4. Both calls return, both keys are out
   * of the map, and 5 is still in the list.
   */
  lemma DeadEntryStays()
    ensures var es := [Entry(3, 30, false), Entry(4, 40, false), Entry(5, 50, false)];
            var p, q := Scan(es, 3, 0), Scan(es, 5, 0);
            && Match(es, 3, p) && Match(es, 5, q)
            && var marked := Killed(Killed(es, p), q);
               var m := Scan(marked, 5, 0);
               && HitsDead(marked, m) && m != q
               && var rest := Without(marked, m);
                  && !HitsDead(rest, Scan(rest, 3, 0)) && Entry(5, 50, true) in rest
                  && Contents(rest) == map[4 := 40]
  {
    var es := [Entry(3, 30, false), Entry(4, 40, false), Entry(5, 50, false)];
    assert Scan(es, 3, 0) == 0;
    assert Scan(es, 5, 2) == 2 && Scan(es, 5, 1) == 2 && Scan(es, 5, 0) == 2;
    var marked := Killed(Killed(es, 0), 2);
    assert Scan(marked, 5, 0) == 0;
    var rest := Without(marked, 0);
    assert rest == [es[1], Entry(5, 50, true)];
    assert Scan(rest, 3, 0) == 0;
    assert rest[1] == Entry(5, 50, true);
    assert rest[..1] == [es[1]] && rest[..1][..0] == [];
    assert Contents(rest[..1]) == map[4 := 40];
  }

  /** Without dead entries the answer is right. */
  lemma MatchWhenNoneDead(es: seq<Entry>, k: int)
    requires Sorted(es) && NoneDead(es)
    ensures Match(es, k, Scan(es, k, 0)) <==> k in Contents(es)
  {
    MatchExactly(es, k);
  }

  /** Starting further on, from entries that are all live and below k, gives the same place. */
  lemma {:induction false} ScanAhead(es: seq<Entry>, k: int, from: nat, start: nat)
    requires start <= from <= |es| && forall i :: start <= i < from ==> !es[i].dead && es[i].key < k
    ensures Scan(es, k, from) == Scan(es, k, start)
    decreases from - start
  {
    if start < from {
      ScanAhead(es, k, from, start + 1);
    }
  }

  /**
   * A scan that begins further on, past entries below k, ends where the scan from the
   * beginning ends if and only if none of the entries it leaves out is dead.
   */
  lemma ScanAgrees(es: seq<Entry>, k: int, from: nat)
    requires from <= |es| && forall i :: 0 <= i < from ==> es[i].key < k
    ensures Scan(es, k, from) == Scan(es, k, 0) <==> forall i :: 0 <= i < from ==> !es[i].dead
  {
    if forall i :: 0 <= i < from ==> !es[i].dead {
      ScanAhead(es, k, from, 0);
    }
  }

  function Without(es: seq<Entry>, p: nat): seq<Entry>
    requires p < |es|
  {
    es[..p] + es[p + 1..]
  }

  /** Unlinking a dead entry leaves the map alone. */
  lemma UnlinkKeeps(es: seq<Entry>, p: nat)
    requires Sorted(es) && p < |es| && es[p].dead
    ensures Sorted(Without(es, p)) && Contents(Without(es, p)) == Contents(es)
  {
    var r := Without(es, p);
    forall k, v ensures Entry(k, v, false) in r <==> Entry(k, v, false) in es {
      assert es == es[..p] + [es[p]] + es[p + 1..];
    }
    SameContents(es, r);
  }

  /** Marking an entry dead takes its key out of the map. */
  lemma KillContents(es: seq<Entry>, p: nat)
    requires Sorted(es) && p < |es| && !es[p].dead
    ensures var es' := Killed(es, p);
            Sorted(es') && es[p].key in Contents(es) && Contents(es') == Contents(es) - {es[p].key}
  {
    var es', key := Killed(es, p), es[p].key;
    ContentsHas(es, key);
    assert es[p] == Entry(key, es[p].value, false);
    forall k, v ensures Entry(k, v, false) in es' <==> Entry(k, v, false) in es && k != key {
      if i :| 0 <= i < |es| && es[i] == Entry(k, v, false) && k != key {
        assert es'[i] == es[i];
      }
    }
    MinusContents(es, es', key);
  }

  lemma MinusContents(es: seq<Entry>, fs: seq<Entry>, key: int)
    requires Sorted(es) && Sorted(fs)
    requires forall k, v {:trigger Entry(k, v, false)} :: Entry(k, v, false) in fs <==>
               Entry(k, v, false) in es && k != key
    ensures Contents(fs) == Contents(es) - {key}
  {
    hide Contents, Sorted;
    var m, m' := Contents(es), Contents(fs);
    forall k | k in m || k in m' ensures (k in m' <==> k in m && k != key) && (k in m' ==> m'[k] == m[k]) {
      ContentsHas(es, k);
      ContentsHas(fs, k);
      var e := Entry(k, if k in m' then m'[k] else m[k], false);
      assert e in es || e in fs;
    }
  }

  function With(es: seq<Entry>, p: nat, e: Entry): seq<Entry>
    requires p <= |es|
  {
    es[..p] + [e] + es[p..]
  }

  /** Linking a new live entry where the scan stopped adds its key. */
  lemma InsertContents(es: seq<Entry>, p: nat, k: int, v: int)
    requires Sorted(es) && p <= |es|
    requires forall i :: 0 <= i < p ==> es[i].key < k
    requires p < |es| ==> k < es[p].key
    ensures var r := With(es, p, Entry(k, v, false));
            Sorted(r) && k !in Contents(es) && Contents(r) == Contents(es)[k := v]
  {
    KeyAbsent(es, p, k);
    SortedWith(es, p, Entry(k, v, false));
    WithHas(es, p, Entry(k, v, false));
    hide Contents, Sorted, With;
    PlusContents(es, With(es, p, Entry(k, v, false)), k, v);
  }

  lemma SortedWith(es: seq<Entry>, p: nat, e: Entry)
    requires Sorted(es) && p <= |es| && (forall i :: 0 <= i < p ==> es[i].key < e.key)
    requires (p < |es| ==> e.key < es[p].key)
    ensures Sorted(With(es, p, e))
  {
    var r := With(es, p, e);
    forall i, j | 0 <= i < j < |r| ensures r[i].key < r[j].key {
      if j == p {
        assert r[i] == es[i];
      } else if i == p {
        assert r[j] == es[j - 1] && (j - 1 > p ==> es[p].key < es[j - 1].key);
      } else {
        assert r[i] == es[if i < p then i else i - 1] && r[j] == es[if j < p then j else j - 1];
      }
    }
  }

  lemma WithHas(es: seq<Entry>, p: nat, e: Entry)
    requires p <= |es|
    ensures forall f: Entry {:trigger f in With(es, p, e)} {:trigger f in es} :: f in With(es, p, e) <==>
              f in es || f == e
  {
    assert es == es[..p] + es[p..];
  }

  lemma KeyAbsent(es: seq<Entry>, p: nat, k: int)
    requires Sorted(es) && p <= |es| && (forall i :: 0 <= i < p ==> es[i].key < k) && (p < |es| ==> k < es[p].key)
    ensures k !in Contents(es)
  {
    ContentsHas(es, k);
    if k in Contents(es) {
      assert Entry(k, Contents(es)[k], false) in es;
      assert false;
    }
  }

  lemma PlusContents(es: seq<Entry>, fs: seq<Entry>, key: int, value: int)
    requires Sorted(es) && Sorted(fs) && key !in Contents(es)
    requires forall k, v {:trigger Entry(k, v, false)} :: Entry(k, v, false) in fs <==>
               Entry(k, v, false) in es || (k == key && v == value)
    ensures Contents(fs) == Contents(es)[key := value]
  {
    hide Contents, Sorted;
    var m, m' := Contents(es), Contents(fs);
    forall k | k in m || k in m' || k == key
      ensures k in m' && (k in m || k == key) && m'[k] == if k == key then value else m[k]
    {
      var e := Entry(k, if k == key then value else if k in m' then m'[k] else m[k], false);
      ContentsHas(es, k);
      ContentsHas(fs, k);
      assert e in es || e in fs;
    }
  }
}
