/**
 Round-robin status polling. Positions count on without wrapping; position t stands for the table entry
 Slot(n, t), t modulo the table size n.
 */
module StatusPoll {
  function Slot(n: nat, t: nat): (i: nat)
    requires n > 0
    ensures i < n
  {
    if t < n then t else Slot(n, t - n)
  }

  lemma {:induction false} SlotIsRemainder(n: nat, t: nat, q: nat)
    requires n > 0 && q * n <= t < q * n + n
    ensures Slot(n, t) == t - q * n
  {
    if q > 0 {
      var p := (q - 1) * n;
      assert q * n == p + n;
      SlotIsRemainder(n, t - n, q - 1);
    }
  }

  lemma {:induction false} NextSlot(n: nat, t: nat)
    requires n > 0
    ensures Slot(n, t + 1) == if Slot(n, t) == n - 1 then 0 else Slot(n, t) + 1
  {
    if t >= n {
      NextSlot(n, t - n);
    }
  }

  predicate Flagged(flags: seq<bool>, t: nat)
    requires |flags| > 0
  {
    flags[Slot(|flags|, t)]
  }

  predicate Any(flags: seq<bool>) {
    exists i :: 0 <= i < |flags| && flags[i]
  }

  /** The first flagged position from t on, or t + m if there is none before that. */
  function First(flags: seq<bool>, t: nat, m: nat): (p: nat)
    requires |flags| > 0
    ensures t <= p <= t + m && (p < t + m ==> Flagged(flags, p))
    ensures forall k :: t <= k < p ==> !Flagged(flags, k)
    decreases m
  {
    if m == 0 || Flagged(flags, t) then t else First(flags, t + 1, m - 1)
  }

  /** The position the next call polls. */
  function NextPoll(flags: seq<bool>, t: nat): nat
    requires |flags| > 0
  {
    First(flags, t, |flags|)
  }

  /** Every stretch of table size holds every entry. */
  lemma {:induction false} WindowHits(n: nat, t: nat, i: nat) returns (p: nat)
    requires i < n
    ensures t <= p < t + n && Slot(n, p) == i
  {
    if t == 0 {
      p := i;
    } else {
      p := WindowHits(n, t - 1, i);
      if p == t - 1 {
        p := p + n;
      }
    }
  }

  lemma NextPollFound(flags: seq<bool>, t: nat)
    requires |flags| > 0 && Any(flags)
    ensures Flagged(flags, NextPoll(flags, t)) && t <= NextPoll(flags, t) < t + |flags|
  {
    var i :| 0 <= i < |flags| && flags[i];
    var p := WindowHits(|flags|, t, i);
    assert Flagged(flags, p);
  }

  /** The entries polled by r calls from position t. */
  function Polls(flags: seq<bool>, t: nat, r: nat): (entries: seq<nat>)
    requires |flags| > 0
    ensures |entries| == r
    decreases r
  {
    if r == 0 then [] else [Slot(|flags|, NextPoll(flags, t))] + Polls(flags, NextPoll(flags, t) + 1, r - 1)
  }

  /** What position t contributes to a listing. */
  function Item(flags: seq<bool>, t: nat): seq<nat>
    requires |flags| > 0
  {
    if Flagged(flags, t) then [Slot(|flags|, t)] else []
  }

  /** The flagged entries among m positions from t, in order. */
  function Listed(flags: seq<bool>, t: nat, m: nat): seq<nat>
    requires |flags| > 0
    decreases m
  {
    if m == 0 then [] else Item(flags, t) + Listed(flags, t + 1, m - 1)
  }

  lemma PollSkips(flags: seq<bool>, t: nat, r: nat)
    requires |flags| > 0 && Any(flags) && !Flagged(flags, t)
    ensures Polls(flags, t, r) == Polls(flags, t + 1, r)
  {
    NextPollFound(flags, t);
    NextPollFound(flags, t + 1);
    assert NextPoll(flags, t) == NextPoll(flags, t + 1);
  }

  lemma {:induction false} PollHits(flags: seq<bool>, t: nat, r: nat)
    requires |flags| > 0 && Flagged(flags, t)
    ensures Polls(flags, t, r + 1) == [Slot(|flags|, t)] + Polls(flags, t + 1, r)
  {
    assert NextPoll(flags, t) == t;
  }

  lemma ListedNext(flags: seq<bool>, t: nat, m: nat)
    requires |flags| > 0
    ensures Listed(flags, t, m + 1)
         == if Flagged(flags, t) then [Slot(|flags|, t)] + Listed(flags, t + 1, m) else Listed(flags, t + 1, m)
  {
    assert [] + Listed(flags, t + 1, m) == Listed(flags, t + 1, m);
  }

  /** A listing and a polling sequence that take the same steps agree. */
  lemma {:induction false} SameSteps(polls: (nat, nat) -> seq<nat>, listed: (nat, nat) -> seq<nat>, hit: nat -> bool,
                                     slot: nat -> nat, t: nat, m: nat)
    requires forall s: nat :: polls(s, 0) == listed(s, 0) == []
    requires forall s: nat, k: nat, s1: nat, k1: nat :: s1 == s + 1 && k1 == k + 1 ==>
               listed(s, k1) == if hit(s) then [slot(s)] + listed(s1, k) else listed(s1, k)
    requires forall s: nat, r: nat, s1: nat, r1: nat :: s1 == s + 1 && r1 == r + 1 && hit(s) ==>
               polls(s, r1) == [slot(s)] + polls(s1, r)
    requires forall s: nat, r: nat, s1: nat :: s1 == s + 1 && !hit(s) ==> polls(s, r) == polls(s1, r)
    ensures polls(t, |listed(t, m)|) == listed(t, m)
    decreases m
  {
    if m > 0 {
      SameSteps(polls, listed, hit, slot, t + 1, m - 1);
      var rest := listed(t + 1, m - 1);
      assert listed(t, m) == if hit(t) then [slot(t)] + rest else rest;
      assert hit(t) ==> polls(t, |rest| + 1) == [slot(t)] + polls(t + 1, |rest|);
      assert !hit(t) ==> polls(t, |rest|) == polls(t + 1, |rest|);
    }
  }

  /** Calls poll the flagged positions one after the other. */
  lemma PollsListed(flags: seq<bool>, t: nat, m: nat)
    requires |flags| > 0 && Any(flags)
    ensures Polls(flags, t, |Listed(flags, t, m)|) == Listed(flags, t, m)
  {
    var polls, listed := (s: nat, r: nat) => Polls(flags, s, r), (s: nat, k: nat) => Listed(flags, s, k);
    var hit, slot := (s: nat) => Flagged(flags, s), (s: nat) => Slot(|flags|, s);
    forall s: nat, k: nat, s1: nat, k1: nat | s1 == s + 1 && k1 == k + 1
      ensures listed(s, k1) == if hit(s) then [slot(s)] + listed(s1, k) else listed(s1, k)
    {
      ListedNext(flags, s, k);
    }
    forall s: nat, r: nat, s1: nat, r1: nat | s1 == s + 1 && r1 == r + 1 && hit(s)
      ensures polls(s, r1) == [slot(s)] + polls(s1, r)
    {
      PollHits(flags, s, r);
    }
    forall s: nat, r: nat, s1: nat | s1 == s + 1 && !hit(s) ensures polls(s, r) == polls(s1, r) {
      PollSkips(flags, s, r);
    }
    SameSteps(polls, listed, hit, slot, t, m);
  }

  lemma {:induction false} ListedSnoc(flags: seq<bool>, t: nat, m: nat)
    requires |flags| > 0
    ensures Listed(flags, t, m + 1) == Listed(flags, t, m) + Item(flags, t + m)
    decreases m
  {
    if m == 0 {
      assert Listed(flags, t, 1) == Item(flags, t) + Listed(flags, t + 1, 0);
    } else {
      var next, rest, last := t + 1, m - 1, t + m;
      ListedSnoc(flags, next, rest);
      Unrolled(flags, t, m, next, Item(flags, t), Listed(flags, next, rest), Item(flags, last));
    }
  }

  lemma {:induction false} Unrolled(flags: seq<bool>, t: nat, m: nat, next: nat, a: seq<nat>, b: seq<nat>, c: seq<nat>)
    requires |flags| > 0 && m > 0 && next == t + 1 && a == Item(flags, t)
    requires b == Listed(flags, next, m - 1) && Listed(flags, next, m) == b + c
    ensures Listed(flags, t, m + 1) == Listed(flags, t, m) + c
  {
    Reassociated(a, b, c);
  }

  lemma Reassociated(a: seq<nat>, b: seq<nat>, c: seq<nat>)
    ensures a + (b + c) == (a + b) + c
  {
  }

  lemma SameMultiset(a: seq<nat>, b: seq<nat>, item: seq<nat>)
    requires item + a == b + item
    ensures multiset(a) == multiset(b)
  {
    assert multiset(item + a) == multiset(item) + multiset(a);
    assert multiset(b + item) == multiset(b) + multiset(item);
    assert multiset(a) == multiset(item + a) - multiset(item);
  }

  /** Moving the stretch one position on moves its first item to the end. */
  lemma ListedSlides(flags: seq<bool>, t: nat)
    requires |flags| > 0
    ensures Item(flags, t) + Listed(flags, t + 1, |flags|) == Listed(flags, t, |flags|) + Item(flags, t)
  {
    ListedSnoc(flags, t, |flags|);
  }

  /** How often a stretch of table size from t lists entry i. */
  function Count(flags: seq<bool>, t: nat, i: nat): nat
    requires |flags| > 0
  {
    multiset(Listed(flags, t, |flags|))[i]
  }

  lemma CountSlides(flags: seq<bool>, t: nat, i: nat)
    requires |flags| > 0
    ensures Count(flags, t + 1, i) == Count(flags, t, i)
  {
    ListedSlides(flags, t);
    SameMultiset(Listed(flags, t + 1, |flags|), Listed(flags, t, |flags|), Item(flags, t));
  }

  lemma {:induction false} Constant(c: nat -> nat, t: nat)
    requires forall k: nat, l: nat :: l == k + 1 ==> c(k) == c(l)
    ensures c(t) == c(0)
  {
    if t > 0 {
      Constant(c, t - 1);
      assert c(t - 1) == c(t);
    }
  }

  /** A stretch of table size lists the same entries from wherever it starts. */
  lemma ListedAnywhere(flags: seq<bool>, t: nat, i: nat)
    requires |flags| > 0
    ensures Count(flags, t, i) == Count(flags, 0, i)
  {
    var c := (k: nat) => Count(flags, k, i);
    forall k: nat, l: nat | l == k + 1 ensures c(k) == c(l) {
      CountSlides(flags, k, i);
    }
    Constant(c, t);
  }

  lemma {:induction false} ItemCounts(flags: seq<bool>, m: nat, i: nat)
    requires m < |flags|
    ensures multiset(Item(flags, m))[i] == if flags[m] && m == i then 1 else 0
  {
  }

  lemma {:induction false} ListedCountSnoc(flags: seq<bool>, start: nat, m: nat, i: nat)
    requires start == 0 && m < |flags|
    ensures multiset(Listed(flags, start, m + 1))[i]
         == multiset(Listed(flags, start, m))[i] + if flags[m] && m == i then 1 else 0
  {
    var p := start + m;
    ListedSnoc(flags, start, m);
    ItemCounts(flags, p, i);
    assert multiset(Listed(flags, start, m) + Item(flags, p)) == multiset(Listed(flags, start, m)) + multiset(Item(flags, p));
  }

  lemma {:induction false} ListedCounts(flags: seq<bool>, start: nat, m: nat, i: nat, n: nat)
    requires start == 0 && m <= |flags| && i < |flags| && n == multiset(Listed(flags, start, m))[i]
    ensures n == if flags[i] && i < m then 1 else 0
  {
    if m > 0 {
      var k := m - 1;
      var before := multiset(Listed(flags, start, k))[i];
      ListedCounts(flags, start, k, i, before);
      ListedCountSnoc(flags, start, k, i);
      assert n == before + if flags[k] && k == i then 1 else 0;
    }
  }

  /** From zero on, the listed entries are the flagged ones, each once. */
  lemma {:induction false} ListedOnce(flags: seq<bool>, start: nat, i: nat)
    requires start == 0 && i < |flags|
    ensures Count(flags, start, i) == if flags[i] then 1 else 0
  {
    ListedCounts(flags, start, |flags|, i, Count(flags, start, i));
  }

  function Registered(flags: seq<bool>): nat {
    if |flags| == 0 then 0 else Registered(flags[..|flags| - 1]) + (if flags[|flags| - 1] then 1 else 0)
  }

  lemma {:induction false} ListedLength(flags: seq<bool>, m: nat)
    requires 0 < |flags| && m <= |flags|
    ensures |Listed(flags, 0, m)| == Registered(flags[..m])
  {
    if m > 0 {
      ListedLength(flags, m - 1);
      ListedSnoc(flags, 0, m - 1);
      assert flags[..m][..m - 1] == flags[..m - 1];
    }
  }

  /**
   With R registered motors, any R consecutive calls, from any cursor, poll each of them exactly once
   and nothing else.
   */
  lemma PollingIsFair(flags: seq<bool>, t: nat, i: nat)
    requires Any(flags) && i < |flags|
    ensures multiset(Polls(flags, t, Registered(flags)))[i] == if flags[i] then 1 else 0
  {
    ListedAnywhere(flags, t, i);
    ListedOnce(flags, 0, i);
    ListedCount(flags, t);
    PollsListed(flags, t, |flags|);
  }

  lemma {:induction false} ListedCount(flags: seq<bool>, t: nat)
    requires |flags| > 0
    ensures |Listed(flags, t, |flags|)| == Registered(flags)
  {
    if t == 0 {
      ListedLength(flags, |flags|);
      assert flags[..|flags|] == flags;
    } else {
      ListedCount(flags, t - 1);
      ListedSlides(flags, t - 1);
    }
  }

  /** Polling depends on the position only through its table entry, which is what the code keeps. */
  lemma {:induction false} PollsBySlot(flags: seq<bool>, t: nat, r: nat)
    requires |flags| > 0
    ensures Polls(flags, t, r) == Polls(flags, Slot(|flags|, t), r)
    decreases t
  {
    var n := |flags|;
    if t >= n {
      var back := t - n;
      assert Slot(n, t) == Slot(n, back);
      PollsShift(flags, back, r);
      PollsBySlot(flags, back, r);
    } else {
      assert Slot(n, t) == t;
    }
  }

  lemma {:induction false} FirstShift(flags: seq<bool>, t: nat, m: nat)
    requires |flags| > 0
    ensures First(flags, t + |flags|, m) == First(flags, t, m) + |flags|
    decreases m
  {
    if m > 0 && !Flagged(flags, t) {
      FirstShift(flags, t + 1, m - 1);
    }
  }

  lemma {:induction false} PollsShift(flags: seq<bool>, t: nat, r: nat)
    requires |flags| > 0
    ensures Polls(flags, t + |flags|, r) == Polls(flags, t, r)
    decreases r
  {
    if r > 0 {
      FirstShift(flags, t, |flags|);
      PollsShift(flags, NextPoll(flags, t) + 1, r - 1);
    }
  }

  /** A call at cursor c polls the first entry of the sequence and leaves the cursor for the rest. */
  lemma PollsContinue(flags: seq<bool>, c: nat, r: nat)
    requires |flags| > 0
    ensures Polls(flags, c, r + 1)
         == [Slot(|flags|, NextPoll(flags, c))] + Polls(flags, Slot(|flags|, NextPoll(flags, c) + 1), r)
  {
    PollsBySlot(flags, NextPoll(flags, c) + 1, r);
  }

  /** The entry a call at a cursor polls, and the cursor it leaves. */
  function PolledAt(flags: seq<bool>): nat -> nat
    requires |flags| > 0
  {
    (c: nat) => Slot(|flags|, NextPoll(flags, c))
  }

  function CursorFrom(flags: seq<bool>): nat -> nat
    requires |flags| > 0
  {
    (c: nat) => Slot(|flags|, NextPoll(flags, c) + 1)
  }

  /** What n steps from c on visit. */
  function Visits(entry: nat -> nat, after: nat -> nat, c: nat, n: nat): (visited: seq<nat>)
    ensures |visited| == n
    decreases n
  {
    if n == 0 then [] else [entry(c)] + Visits(entry, after, after(c), n - 1)
  }

  lemma {:induction false} VisitsInRange(entry: nat -> nat, after: nat -> nat, c: nat, n: nat, bound: nat)
    requires forall x: nat :: entry(x) < bound
    ensures forall k :: 0 <= k < n ==> Visits(entry, after, c, n)[k] < bound
    decreases n
  {
    if n > 0 {
      VisitsInRange(entry, after, after(c), n - 1, bound);
    }
  }

  /** Consecutive calls poll the polling sequence. */
  lemma {:induction false} VisitsArePolls(flags: seq<bool>, c: nat, n: nat)
    requires |flags| > 0
    ensures Visits(PolledAt(flags), CursorFrom(flags), c, n) == Polls(flags, c, n)
    decreases n
  {
    if n > 0 {
      VisitsArePolls(flags, CursorFrom(flags)(c), n - 1);
      PollsContinue(flags, c, n - 1);
    }
  }

  /** The first flagged position, found n positions ahead of the cursor, and the cursor after it. */
  lemma PollFound(flags: seq<bool>, t: nat, n: nat)
    requires t < |flags| && n < |flags| && flags[(t + n) % |flags|]
    requires forall k :: t <= k < t + n ==> !Flagged(flags, k)
    ensures Any(flags) && NextPoll(flags, t) == t + n && Slot(|flags|, t + n) == (t + n) % |flags|
    ensures Slot(|flags|, t + n + 1) == (Slot(|flags|, t + n) + 1) % |flags|
  {
    RemainderIsSlot(|flags|, t + n);
    NextSlot(|flags|, t + n);
    RemainderIsSlot(|flags|, Slot(|flags|, t + n) + 1);
    assert Flagged(flags, t + n);
    assert !(NextPoll(flags, t) < t + n);
  }

  lemma NoneFound(flags: seq<bool>, t: nat)
    requires |flags| > 0 && forall k :: t <= k < t + |flags| ==> !Flagged(flags, k)
    ensures !Any(flags)
  {
    if Any(flags) {
      NextPollFound(flags, t);
    }
  }

  lemma RemainderIsSlot(n: nat, x: nat)
    requires n > 0 && x < 2 * n
    ensures x % n == Slot(n, x)
  {
    if x < n {
      SmallRemainder(n, x, 0);
    } else {
      SmallRemainder(n, x - n, 1);
    }
  }

  lemma SmallRemainder(n: nat, r: nat, q: nat)
    requires r < n
    ensures (q * n + r) % n == r
  {
    QuotientUnique(n, (q * n + r) / n, (q * n + r) % n, q, r);
  }

  lemma QuotientUnique(n: nat, a: int, b: nat, q: int, r: nat)
    requires b < n && r < n && a * n + b == q * n + r
    ensures b == r
  {
    SmallMultiple(a - q, n, r - b);
  }

  lemma SmallMultiple(d: int, n: int, p: int)
    requires p == d * n && 0 <= n && -n < p < n
    ensures p == 0
  {
    if d != 0 {
    }
  }

}
