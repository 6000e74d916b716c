/** The fake handler's timing record: per task the key and the `.microseconds`
    field of its elapsed time, ranked by descending elapsed time with a stable
    sort (ties keep execution order). */
module Ranking {
  import opened Py

  const MICROS_PER_SECOND: nat := 1_000_000

  /** The `.microseconds` field of a `timedelta` lasting `elapsed` microseconds:
      the part below one second; whole seconds are dropped. */
  function Microseconds(elapsed: nat): (r: nat)
    ensures r < MICROS_PER_SECOND
    ensures elapsed < MICROS_PER_SECOND ==> r == elapsed
    ensures (elapsed - r) % MICROS_PER_SECOND == 0
  {
    elapsed % MICROS_PER_SECOND
  }

  /** A `(key, elapsed)` pair of `time_list`. */
  type TimeEntry = (PyValue, nat)

  ghost predicate Descending(r: seq<TimeEntry>)
  {
    forall i, j | 0 <= i < j < |r| :: r[i].1 >= r[j].1
  }

  /** The entries with elapsed time `t`, in their order. */
  function WithElapsed(s: seq<TimeEntry>, t: nat): seq<TimeEntry>
  {
    if s == [] then []
    else (if s[0].1 == t then [s[0]] else []) + WithElapsed(s[1..], t)
  }

  /** Insert `x` before the first entry that is not slower than it. */
  function Insert(x: TimeEntry, l: seq<TimeEntry>): seq<TimeEntry>
  {
    if l == [] || l[0].1 <= x.1 then [x] + l
    else [l[0]] + Insert(x, l[1..])
  }

  /** `time_list.sort(key=itemgetter(1), reverse=True)`. */
  function Rank(s: seq<TimeEntry>): seq<TimeEntry>
  {
    if s == [] then [] else Insert(s[0], Rank(s[1..]))
  }

  lemma {:induction false} WithElapsedMembers(s: seq<TimeEntry>, t: nat)
    ensures forall e :: e in WithElapsed(s, t) <==> e in s && e.1 == t
  {
    if s != [] {
      WithElapsedMembers(s[1..], t);
      assert forall e :: e in s <==> e == s[0] || e in s[1..];
    }
  }

  lemma {:induction false} InsertMultiset(x: TimeEntry, l: seq<TimeEntry>)
    ensures multiset(Insert(x, l)) == multiset(l) + multiset{x}
  {
    if l != [] && l[0].1 > x.1 {
      InsertMultiset(x, l[1..]);
      assert l == [l[0]] + l[1..];
    }
  }

  lemma {:induction false} InsertDescending(x: TimeEntry, l: seq<TimeEntry>)
    requires Descending(l)
    ensures Descending(Insert(x, l))
  {
    if l != [] && l[0].1 > x.1 {
      InsertDescending(x, l[1..]);
      InsertMultiset(x, l[1..]);
      var rest := Insert(x, l[1..]);
      forall e | e in rest ensures e.1 <= l[0].1 {
        assert e in multiset(rest);
      }
    }
  }

  lemma WithElapsedCons(e: TimeEntry, s: seq<TimeEntry>, t: nat)
    ensures WithElapsed([e] + s, t) == (if e.1 == t then [e] else []) + WithElapsed(s, t)
  {
  }

  lemma {:induction false} InsertWithElapsed(x: TimeEntry, l: seq<TimeEntry>, t: nat)
    ensures WithElapsed(Insert(x, l), t) == (if x.1 == t then [x] else []) + WithElapsed(l, t)
  {
    if l == [] || l[0].1 <= x.1 {
      WithElapsedCons(x, l, t);
    } else {
      InsertWithElapsed(x, l[1..], t);
      WithElapsedCons(l[0], Insert(x, l[1..]), t);
      WithElapsedCons(l[0], l[1..], t);
      assert l == [l[0]] + l[1..];
    }
  }

  /** The ranking is ordered by descending elapsed time. */
  lemma {:induction false} RankDescending(s: seq<TimeEntry>)
    ensures Descending(Rank(s))
  {
    if s != [] {
      RankDescending(s[1..]);
      InsertDescending(s[0], Rank(s[1..]));
    }
  }

  /** The ranking holds exactly the recorded entries. */
  lemma {:induction false} RankPermutation(s: seq<TimeEntry>)
    ensures multiset(Rank(s)) == multiset(s)
  {
    if s != [] {
      RankPermutation(s[1..]);
      InsertMultiset(s[0], Rank(s[1..]));
      assert s == [s[0]] + s[1..];
    }
  }

  /** The sort is stable: entries with equal elapsed time keep their order. */
  lemma {:induction false} RankStable(s: seq<TimeEntry>, t: nat)
    ensures WithElapsed(Rank(s), t) == WithElapsed(s, t)
  {
    if s != [] {
      RankStable(s[1..], t);
      InsertWithElapsed(s[0], Rank(s[1..]), t);
    }
  }

  lemma HeadIsMember(s: seq<TimeEntry>)
    ensures s != [] ==> s[0] in s
  {
  }

  /** Two descending sequences that agree on the entries of every elapsed time are equal. */
  lemma {:induction false} DescendingByFilters(a: seq<TimeEntry>, b: seq<TimeEntry>)
    requires Descending(a) && Descending(b)
    requires forall t :: WithElapsed(a, t) == WithElapsed(b, t)
    ensures a == b
    decreases |a|
  {
    forall e ensures e in a <==> e in b {
      WithElapsedMembers(a, e.1);
      WithElapsedMembers(b, e.1);
    }
    if a == [] {
      HeadIsMember(b);
    } else {
      assert a[0] in b && b[0] in a;
      assert a[0].1 == b[0].1;
      assert a[0] == b[0] by {
        assert WithElapsed(a, a[0].1)[0] == a[0];
        assert WithElapsed(b, b[0].1)[0] == b[0];
      }
      forall t ensures WithElapsed(a[1..], t) == WithElapsed(b[1..], t) {
        assert a == [a[0]] + a[1..] && b == [b[0]] + b[1..];
        WithElapsedCons(a[0], a[1..], t);
        WithElapsedCons(b[0], b[1..], t);
        var p := if a[0].1 == t then [a[0]] else [];
        assert WithElapsed(a[1..], t) == (p + WithElapsed(a[1..], t))[|p|..];
        assert WithElapsed(b[1..], t) == (p + WithElapsed(b[1..], t))[|p|..];
      }
      assert Descending(a[1..]) && Descending(b[1..]);
      DescendingByFilters(a[1..], b[1..]);
      assert a == [a[0]] + a[1..] && b == [b[0]] + b[1..];
    }
  }

  /** The ranking is the only descending order of the entries that keeps equal
      times in their recorded order: Python's stable `sort(reverse=True)`. */
  lemma RankIsStableSort(s: seq<TimeEntry>, r: seq<TimeEntry>)
    requires Descending(r)
    requires forall t :: WithElapsed(r, t) == WithElapsed(s, t)
    ensures r == Rank(s)
  {
    RankDescending(s);
    forall t ensures WithElapsed(r, t) == WithElapsed(Rank(s), t) {
      RankStable(s, t);
    }
    DescendingByFilters(r, Rank(s));
  }
}
