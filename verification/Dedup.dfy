/** The two bounded caches that keep clipboard sync from looping, proved against full histories. */
module Dedup {
  import opened Base

  // ---- Shared: queues whose entries carry times ----

  datatype Stamped<T> = Stamped(item: T, at: Time)

  predicate Alive<T>(e: Stamped<T>, now: Time, ttl: Time) {
    (if e.at > now then 0 else now - e.at) < ttl
  }

  ghost predicate Ordered<T>(s: seq<Stamped<T>>) {
    forall i, j :: 0 <= i < j < |s| ==> s[i].at <= s[j].at
  }

  function Live<T>(s: seq<Stamped<T>>, now: Time, ttl: Time): seq<Stamped<T>> {
    Filter(s, (e: Stamped<T>) => Alive(e, now, ttl))
  }

  lemma DeadThenAlive<T>(s: seq<Stamped<T>>, k: nat, now: Time, ttl: Time)
    requires Ordered(s) && k <= |s|
    requires forall i :: 0 <= i < k ==> !Alive(s[i], now, ttl)
    requires k < |s| ==> Alive(s[k], now, ttl)
    ensures forall e :: e in s[..k] ==> !Alive(e, now, ttl)
    ensures forall e :: e in s[k..] ==> Alive(e, now, ttl)
  {
    assert forall i :: k <= i < |s| ==> s[k].at <= s[i].at;
  }

  /** Because times are in order, dropping dead entries from the front until the first live one
      removes every dead entry. */
  lemma FrontExpiryIsFilter<T>(s: seq<Stamped<T>>, k: nat, now: Time, ttl: Time)
    requires Ordered(s) && k <= |s|
    requires forall i :: 0 <= i < k ==> !Alive(s[i], now, ttl)
    requires k < |s| ==> Alive(s[k], now, ttl)
    ensures Live(s, now, ttl) == s[k..]
  {
    var p := (e: Stamped<T>) => Alive(e, now, ttl);
    FilterConcat(s[..k], s[k..], p);
    assert s == s[..k] + s[k..];
    DeadThenAlive(s, k, now, ttl);
    FilterNone(s[..k], p);
    FilterAll(s[k..], p);
  }

  /** Expiry leaves a suffix: exactly the entries from the first live one on. */
  lemma LiveIsSuffix<T>(s: seq<Stamped<T>>, now: Time, ttl: Time) returns (k: nat)
    requires Ordered(s)
    ensures k <= |s| && Live(s, now, ttl) == s[k..]
    ensures forall i :: 0 <= i < |s| ==> (Alive(s[i], now, ttl) <==> k <= i)
  {
    k := 0;
    while k < |s| && !Alive(s[k], now, ttl)
      invariant k <= |s|
      invariant forall i :: 0 <= i < k ==> !Alive(s[i], now, ttl)
    {
      k := k + 1;
    }
    FrontExpiryIsFilter(s, k, now, ttl);
  }

  /** What the expiry loops compute: dead entries leave from the front. */
  function DropDead<T>(s: seq<Stamped<T>>, now: Time, ttl: Time): seq<Stamped<T>> {
    if s != [] && !Alive(s[0], now, ttl) then DropDead(s[1..], now, ttl) else s
  }

  lemma {:induction false} DropDeadIsLive<T>(s: seq<Stamped<T>>, now: Time, ttl: Time)
    requires Ordered(s)
    ensures DropDead(s, now, ttl) == Live(s, now, ttl)
  {
    if s != [] {
      if Alive(s[0], now, ttl) {
        FrontExpiryIsFilter(s, 0, now, ttl);
      } else {
        DropDeadIsLive(s[1..], now, ttl);
      }
    }
  }

  /** The eviction loop of both caches: the oldest leave until no more than `capacity` are left. */
  method Evict<T>(entries: seq<T>, capacity: nat) returns (kept: seq<T>)
    ensures kept == LastN(entries, capacity)
  {
    kept := entries;
    while |kept| > capacity
      invariant LastN(kept, capacity) == LastN(entries, capacity)
      decreases |kept|
    {
      kept := kept[1..];
    }
  }

  // ---- Events already handled ----

  /** The rule on the full admission log: the id is among the last `capacity` admissions and that
      admission is younger than the time to live. */
  ghost predicate Remembered(log: seq<Stamped<Bytes>>, capacity: nat, ttl: Time, id: Bytes, now: Time) {
    exists i :: 0 <= i < |log| && |log| - capacity <= i && log[i].item == id && Alive(log[i], now, ttl)
  }

  /** `entries` is the end of `log`; what is missing from it is too far back or too old at `clock`. */
  ghost predicate EndOf(entries: seq<Stamped<Bytes>>, log: seq<Stamped<Bytes>>, capacity: nat, ttl: Time, clock: Time) {
    && |entries| <= capacity && |entries| <= |log|
    && entries == log[|log| - |entries|..]
    && (forall i :: 0 <= i < |log| - |entries| ==> i < |log| - capacity || !Alive(log[i], clock, ttl))
  }

  lemma ExpiryKeepsEnd(entries: seq<Stamped<Bytes>>, log: seq<Stamped<Bytes>>, capacity: nat, ttl: Time, clock: Time,
                       now: Time)
    requires Ordered(log) && (forall i :: 0 <= i < |log| ==> log[i].at <= clock) && clock <= now
    requires EndOf(entries, log, capacity, ttl, clock)
    ensures EndOf(Live(entries, now, ttl), log, capacity, ttl, now)
    ensures forall i :: 0 <= i < |Live(entries, now, ttl)| ==> Alive(Live(entries, now, ttl)[i], now, ttl)
  {
    var off := |log| - |entries|;
    var k := LiveIsSuffix(entries, now, ttl);
    assert entries[k..] == log[off + k..];
    forall i | 0 <= i < off + k ensures i < |log| - capacity || !Alive(log[i], now, ttl) {
      if off <= i { assert log[i] == entries[i - off]; }
    }
  }

  lemma AdmissionKeepsEnd(entries: seq<Stamped<Bytes>>, log: seq<Stamped<Bytes>>, capacity: nat, ttl: Time,
                          clock: Time, e: Stamped<Bytes>)
    requires EndOf(entries, log, capacity, ttl, clock)
    ensures EndOf(LastN(entries + [e], capacity), log + [e], capacity, ttl, clock)
  {
    var longer := entries + [e];
    var off := |log| - |entries|;
    assert longer == (log + [e])[off..];
    var kept := LastN(longer, capacity);
    assert kept == (log + [e])[|log| + 1 - |kept|..];
  }

  predicate Holds(entries: seq<Stamped<Bytes>>, id: Bytes) {
    exists i :: 0 <= i < |entries| && entries[i].item == id
  }

  lemma RememberedIsQueued(entries: seq<Stamped<Bytes>>, log: seq<Stamped<Bytes>>, capacity: nat, ttl: Time, id: Bytes,
                           now: Time)
    requires EndOf(entries, log, capacity, ttl, now)
    requires forall i :: 0 <= i < |entries| ==> Alive(entries[i], now, ttl)
    ensures Remembered(log, capacity, ttl, id, now) <==> Holds(entries, id)
  {
    var off := |log| - |entries|;
    assert forall i :: 0 <= i < |entries| ==> entries[i] == log[off + i];
    if Remembered(log, capacity, ttl, id, now) {
      var i :| 0 <= i < |log| && |log| - capacity <= i && log[i].item == id && Alive(log[i], now, ttl);
      assert entries[i - off].item == id;
    }
  }

  /** The queue after an admission attempt, and the answer. */
  function AdmitEntries(entries: seq<Stamped<Bytes>>, capacity: nat, ttl: Time, id: Bytes,
                        now: Time): (seq<Stamped<Bytes>>, bool) {
    var live := Live(entries, now, ttl);
    if Holds(live, id) then (live, false) else (LastN(live + [Stamped(id, now)], capacity), true)
  }

  class EventCache {
    const capacity: nat
    const ttl: Time
    var entries: seq<Stamped<Bytes>>
    ghost var log: seq<Stamped<Bytes>>
    ghost var clock: Time

    ghost predicate Valid()
      reads this
    {
      && Ordered(log)
      && (forall i :: 0 <= i < |log| ==> log[i].at <= clock)
      && EndOf(entries, log, capacity, ttl, clock)
    }

    constructor (capacity: nat, ttl: Time)
      ensures Valid() && log == [] && this.capacity == capacity && this.ttl == ttl
    {
      this.capacity, this.ttl := capacity, ttl;
      entries, log, clock := [], [], 0;
    }

    method Expire(now: Time)
      requires Valid() && clock <= now
      modifies this
      ensures Valid() && log == old(log) && clock == now
      ensures entries == Live(old(entries), now, ttl)
      ensures forall i :: 0 <= i < |entries| ==> Alive(entries[i], now, ttl)
    {
      DropDeadIsLive(entries, now, ttl);
      ExpiryKeepsEnd(entries, log, capacity, ttl, clock, now);
      while entries != [] && !Alive(entries[0], now, ttl)
        invariant DropDead(entries, now, ttl) == DropDead(old(entries), now, ttl)
        invariant log == old(log)
        decreases |entries|
      {
        entries := entries[1..];
      }
      clock := now;
    }

    /** A repeat is refused exactly when the log remembers it, and leaves no trace: it cannot extend
        the window of the admission it repeats. */
    method Admit(id: Bytes, now: Time) returns (isNew: bool)
      requires Valid() && clock <= now
      modifies this
      ensures Valid() && clock == now
      ensures isNew <==> !Remembered(old(log), capacity, ttl, id, now)
      ensures (entries, isNew) == AdmitEntries(old(entries), capacity, ttl, id, now)
      ensures log == if isNew then old(log) + [Stamped(id, now)] else old(log)
    {
      Expire(now);
      RememberedIsQueued(entries, log, capacity, ttl, id, now);
      if Holds(entries, id) {
        return false;
      }
      Push(Stamped(id, now));
      return true;
    }

    method Push(e: Stamped<Bytes>)
      requires Valid() && e.at == clock
      modifies this
      ensures Valid() && clock == old(clock) && log == old(log) + [e]
      ensures entries == LastN(old(entries) + [e], capacity)
    {
      AdmissionKeepsEnd(entries, log, capacity, ttl, clock, e);
      TimesGrow(log, e);
      entries := entries + [e];
      log := log + [e];
      entries := Evict(entries, capacity);
    }

    /** Looking does not record, and agrees with what `Admit` would answer at the same instant. */
    method Contains(id: Bytes, now: Time) returns (known: bool)
      requires Valid() && clock <= now
      ensures known <==> Remembered(log, capacity, ttl, id, now)
    {
      known := exists i :: 0 <= i < |entries| && entries[i].item == id && Alive(entries[i], now, ttl);
      assert forall i :: 0 <= i < |entries| ==> entries[i] == log[|log| - |entries| + i];
      if Remembered(log, capacity, ttl, id, now) {
        var i :| 0 <= i < |log| && |log| - capacity <= i && log[i].item == id && Alive(log[i], now, ttl);
        assert entries[i - (|log| - |entries|)] == log[i];
      }
    }
  }

  // ---- Remote clips awaiting their own echo ----

  datatype Mark = Mark(hash: Bytes, origin: string)

  /** How an armed entry ends. */
  datatype Fate = Waiting | Taken(hash: Bytes, when: Time) | Expired(when: Time) | Evicted

  /** The live queue, with the full record behind it: every entry ever armed, how each ended, and which
      of them each queued entry is. */
  datatype Book = Book(entries: seq<Stamped<Mark>>, arms: seq<Stamped<Mark>>, fate: seq<Fate>, index: seq<nat>)

  ghost predicate FateOk(arm: Stamped<Mark>, fate: Fate, ttl: Time) {
    match fate
    case Waiting => true
    case Taken(hash, when) => arm.item.hash == hash && arm.at <= when && Alive(arm, when, ttl)
    case Expired(when) => !Alive(arm, when, ttl)
    case Evicted => true
  }

  ghost predicate BookOk(b: Book, ttl: Time, clock: Time) {
    && |b.fate| == |b.arms| && |b.index| == |b.entries|
    && Ordered(b.arms) && (forall i :: 0 <= i < |b.arms| ==> b.arms[i].at <= clock)
    && (forall k :: 0 <= k < |b.index| ==> b.index[k] < |b.arms| && b.entries[k] == b.arms[b.index[k]])
    && Increasing(b.index)
    && (forall i :: 0 <= i < |b.fate| ==> (b.fate[i].Waiting? <==> i in b.index))
    && (forall i :: 0 <= i < |b.fate| ==> FateOk(b.arms[i], b.fate[i], ttl))
    && Count(b.fate, IS_WAITING) == |b.entries|
  }

  ghost function RemoveAt(b: Book, k: nat, f: Fate): Book
    requires k < |b.entries| == |b.index| && b.index[k] < |b.fate|
  {
    Book(Without(b.entries, k), b.arms, b.fate[b.index[k] := f], Without(b.index, k))
  }

  ghost predicate Increasing(index: seq<nat>) {
    forall j, k :: 0 <= j < k < |index| ==> index[j] < index[k]
  }

  function Without<T>(s: seq<T>, k: nat): (t: seq<T>)
    requires k < |s|
    ensures |t| == |s| - 1
    ensures forall m :: 0 <= m < |t| ==> t[m] == s[if m < k then m else m + 1]
  {
    s[..k] + s[k + 1..]
  }

  lemma WithoutIndex(index: seq<nat>, k: nat)
    requires Increasing(index) && k < |index|
    ensures Increasing(Without(index, k))
    ensures forall i :: i in Without(index, k) <==> i in index && i != index[k]
  {
    var t := Without(index, k);
    forall i | i in index && i != index[k] ensures i in t {
      var m :| 0 <= m < |index| && index[m] == i;
      assert t[if m < k then m else m - 1] == i;
    }
    forall i | i in t ensures i in index && i != index[k] {
      var m :| 0 <= m < |t| && t[m] == i;
      assert index[if m < k then m else m + 1] == i;
    }
  }

  lemma RemoveAtKeepsBook(b: Book, k: nat, f: Fate, ttl: Time, clock: Time)
    requires BookOk(b, ttl, clock) && k < |b.entries|
    requires !f.Waiting? && FateOk(b.entries[k], f, ttl)
    ensures BookOk(RemoveAt(b, k, f), ttl, clock)
  {
    WithoutIndex(b.index, k);
    CountUpdate(b.fate, b.index[k], f, IS_WAITING);
  }

  ghost function ExpireBook(b: Book, now: Time, ttl: Time): Book
    decreases |b.entries|
  {
    if b.entries != [] && |b.index| == |b.entries| && b.index[0] < |b.fate| && !Alive(b.entries[0], now, ttl)
    then ExpireBook(RemoveAt(b, 0, Expired(now)), now, ttl)
    else b
  }

  lemma {:induction false} ExpireKeepsBook(b: Book, now: Time, ttl: Time, clock: Time)
    requires BookOk(b, ttl, clock)
    ensures BookOk(ExpireBook(b, now, ttl), ttl, clock)
    ensures ExpireBook(b, now, ttl).entries == Live(b.entries, now, ttl)
    ensures ExpireBook(b, now, ttl).arms == b.arms
    decreases |b.entries|
  {
    assert Ordered(b.entries);
    DropDeadIsLive(b.entries, now, ttl);
    if b.entries != [] && !Alive(b.entries[0], now, ttl) {
      var t := RemoveAt(b, 0, Expired(now));
      assert t.entries == b.entries[1..];
      RemoveAtKeepsBook(b, 0, Expired(now), ttl, clock);
      ExpireKeepsBook(t, now, ttl, clock);
      assert Ordered(t.entries);
      DropDeadIsLive(t.entries, now, ttl);
    }
  }

  lemma {:induction false} ExpireTakesNothing(b: Book, now: Time, ttl: Time, clock: Time)
    requires BookOk(b, ttl, clock)
    ensures Count(ExpireBook(b, now, ttl).fate, IS_TAKEN) == Count(b.fate, IS_TAKEN)
    decreases |b.entries|
  {
    if b.entries != [] && !Alive(b.entries[0], now, ttl) {
      RemoveAtKeepsBook(b, 0, Expired(now), ttl, clock);
      CountUpdate(b.fate, b.index[0], Expired(now), IS_TAKEN);
      ExpireTakesNothing(RemoveAt(b, 0, Expired(now)), now, ttl, clock);
    }
  }

  const IS_TAKEN: Fate -> bool := (f: Fate) => f.Taken?
  const IS_WAITING: Fate -> bool := (f: Fate) => f.Waiting?
  const IS_EXPIRED: Fate -> bool := (f: Fate) => f.Expired?
  const IS_EVICTED: Fate -> bool := (f: Fate) => f.Evicted?

  lemma CountUpdate<T>(s: seq<T>, i: nat, x: T, p: T -> bool)
    requires i < |s|
    ensures Count(s[i := x], p) == Count(s, p) - (if p(s[i]) then 1 else 0) + (if p(x) then 1 else 0)
  {
    assert s == s[..i] + ([s[i]] + s[i + 1..]) && s[i := x] == s[..i] + ([x] + s[i + 1..]);
    FilterConcat(s[..i], [s[i]] + s[i + 1..], p);
    FilterConcat(s[..i], [x] + s[i + 1..], p);
    assert ([s[i]] + s[i + 1..])[1..] == s[i + 1..] && ([x] + s[i + 1..])[1..] == s[i + 1..];
  }

  ghost function Push(b: Book, e: Stamped<Mark>): Book {
    Book(b.entries + [e], b.arms + [e], b.fate + [Waiting], b.index + [|b.arms|])
  }

  ghost function EvictBook(b: Book, capacity: nat): Book
    decreases |b.entries|
  {
    if |b.entries| > capacity && |b.index| == |b.entries| && b.index[0] < |b.fate|
    then EvictBook(RemoveAt(b, 0, Evicted), capacity)
    else b
  }

  lemma PushKeepsBook(b: Book, e: Stamped<Mark>, ttl: Time, clock: Time)
    requires BookOk(b, ttl, clock) && e.at == clock
    ensures BookOk(Push(b, e), ttl, clock)
  {
    IndexGrows(b.index, |b.arms|);
    TimesGrow(b.arms, e);
    FilterSnoc(b.fate, Waiting, IS_WAITING);
  }

  lemma IndexGrows(index: seq<nat>, n: nat)
    requires Increasing(index) && forall k :: 0 <= k < |index| ==> index[k] < n
    ensures Increasing(index + [n]) && forall i :: i in index + [n] <==> i in index || i == n
  {
  }

  lemma TimesGrow<T>(s: seq<Stamped<T>>, e: Stamped<T>)
    requires Ordered(s) && forall i :: 0 <= i < |s| ==> s[i].at <= e.at
    ensures Ordered(s + [e]) && forall i :: 0 <= i < |s + [e]| ==> (s + [e])[i].at <= e.at
  {
  }

  lemma {:induction false} EvictKeepsBook(b: Book, capacity: nat, ttl: Time, clock: Time)
    requires BookOk(b, ttl, clock)
    ensures BookOk(EvictBook(b, capacity), ttl, clock)
    ensures EvictBook(b, capacity).entries == LastN(b.entries, capacity)
    ensures EvictBook(b, capacity).arms == b.arms
    ensures Count(EvictBook(b, capacity).fate, IS_TAKEN) == Count(b.fate, IS_TAKEN)
    decreases |b.entries|
  {
    if |b.entries| > capacity {
      var t := RemoveAt(b, 0, Evicted);
      assert LastN(t.entries, capacity) == LastN(b.entries, capacity) by {
        assert t.entries == b.entries[1..];
      }
      RemoveAtKeepsBook(b, 0, Evicted, ttl, clock);
      CountUpdate(b.fate, b.index[0], Evicted, IS_TAKEN);
      EvictKeepsBook(t, capacity, ttl, clock);
    }
  }

  /** The queue after arming: dead entries gone, the new one last, the oldest evicted beyond capacity. */
  function ArmEntries(entries: seq<Stamped<Mark>>, capacity: nat, ttl: Time, mark: Mark,
                      now: Time): seq<Stamped<Mark>> {
    LastN(Live(entries, now, ttl) + [Stamped(mark, now)], capacity)
  }

  function FirstMatch(entries: seq<Stamped<Mark>>, hash: Bytes): (k: Option<nat>)
    ensures k.Some? ==> k.value < |entries| && entries[k.value].item.hash == hash
    ensures k.Some? ==> forall j :: 0 <= j < k.value ==> entries[j].item.hash != hash
    ensures k.None? ==> forall j :: 0 <= j < |entries| ==> entries[j].item.hash != hash
  {
    if entries == [] then None
    else if entries[0].item.hash == hash then Some(0)
    else match FirstMatch(entries[1..], hash) case None => None case Some(k) => Some(k + 1)
  }

  /** The queue after a take, and the origin of the entry consumed: the oldest live one of that hash. */
  function TakeEntries(entries: seq<Stamped<Mark>>, ttl: Time, hash: Bytes, now: Time): (seq<Stamped<Mark>>,
      Option<string>) {
    var live := Live(entries, now, ttl);
    match FirstMatch(live, hash)
    case None => (live, None)
    case Some(k) => (Without(live, k), Some(live[k].item.origin))
  }

  ghost function ArmBook(b: Book, capacity: nat, ttl: Time, mark: Mark, now: Time): Book {
    EvictBook(Push(ExpireBook(b, now, ttl), Stamped(mark, now)), capacity)
  }

  ghost function TakeBook(b: Book, ttl: Time, hash: Bytes, now: Time): Book {
    var x := ExpireBook(b, now, ttl);
    match FirstMatch(x.entries, hash)
    case None => x
    case Some(k) => if |x.index| == |x.entries| && x.index[k] < |x.fate| then RemoveAt(x, k, Taken(hash, now)) else x
  }

  lemma ClockAdvances(b: Book, ttl: Time, clock: Time, now: Time)
    requires BookOk(b, ttl, clock) && clock <= now
    ensures BookOk(b, ttl, now)
  {
  }

  lemma ArmKeepsBook(b: Book, capacity: nat, ttl: Time, mark: Mark, now: Time, clock: Time)
    requires BookOk(b, ttl, clock) && clock <= now
    ensures BookOk(ArmBook(b, capacity, ttl, mark, now), ttl, now)
    ensures ArmBook(b, capacity, ttl, mark, now).entries == ArmEntries(b.entries, capacity, ttl, mark, now)
    ensures |ArmBook(b, capacity, ttl, mark, now).arms| == |b.arms| + 1
    ensures Count(ArmBook(b, capacity, ttl, mark, now).fate, IS_TAKEN) == Count(b.fate, IS_TAKEN)
  {
    ClockAdvances(b, ttl, clock, now);
    ExpireKeepsBook(b, now, ttl, now);
    ExpireTakesNothing(b, now, ttl, now);
    var x := ExpireBook(b, now, ttl);
    PushKeepsBook(x, Stamped(mark, now), ttl, now);
    EvictKeepsBook(Push(x, Stamped(mark, now)), capacity, ttl, now);
    FilterSnoc(x.fate, Waiting, IS_TAKEN);
  }

  lemma TakeKeepsBook(b: Book, ttl: Time, hash: Bytes, now: Time, clock: Time)
    requires BookOk(b, ttl, clock) && clock <= now
    ensures BookOk(TakeBook(b, ttl, hash, now), ttl, now)
    ensures TakeBook(b, ttl, hash, now).entries == TakeEntries(b.entries, ttl, hash, now).0
    ensures TakeBook(b, ttl, hash, now).arms == b.arms
    ensures Count(TakeBook(b, ttl, hash, now).fate, IS_TAKEN)
         == Count(b.fate, IS_TAKEN) + (if TakeEntries(b.entries, ttl, hash, now).1.Some? then 1 else 0)
  {
    ClockAdvances(b, ttl, clock, now);
    ExpireKeepsBook(b, now, ttl, now);
    ExpireTakesNothing(b, now, ttl, now);
    var x := ExpireBook(b, now, ttl);
    var k := FirstMatch(x.entries, hash);
    if k.Some? {
      FilterMember(b.entries, (e: Stamped<Mark>) => Alive(e, now, ttl), x.entries[k.value]);
      TakenKeepsBook(x, k.value, ttl, hash, now);
    }
  }

  /** Consuming one live entry of the hash taken. */
  lemma TakenKeepsBook(x: Book, k: nat, ttl: Time, hash: Bytes, now: Time)
    requires BookOk(x, ttl, now) && k < |x.entries| && x.entries[k].item.hash == hash && Alive(x.entries[k], now, ttl)
    ensures x.index[k] < |x.fate| && BookOk(RemoveAt(x, k, Taken(hash, now)), ttl, now)
    ensures Count(RemoveAt(x, k, Taken(hash, now)).fate, IS_TAKEN) == Count(x.fate, IS_TAKEN) + 1
  {
    assert x.entries[k] == x.arms[x.index[k]];
    RemoveAtKeepsBook(x, k, Taken(hash, now), ttl, now);
    CountUpdate(x.fate, x.index[k], Taken(hash, now), IS_TAKEN);
  }

  class SuppressionCache {
    const capacity: nat
    const ttl: Time
    var entries: seq<Stamped<Mark>>
    ghost var book: Book
    ghost var clock: Time

    ghost predicate Valid()
      reads this
    {
      BookOk(book, ttl, clock) && book.entries == entries
    }

    constructor (capacity: nat, ttl: Time)
      ensures Valid() && entries == [] && this.capacity == capacity && this.ttl == ttl && book.arms == []
    {
      this.capacity, this.ttl := capacity, ttl;
      entries, book, clock := [], Book([], [], [], []), 0;
    }

    method Expire(now: Time)
      requires Ordered(entries)
      modifies `entries
      ensures entries == Live(old(entries), now, ttl)
    {
      DropDeadIsLive(entries, now, ttl);
      while entries != [] && !Alive(entries[0], now, ttl)
        invariant DropDead(entries, now, ttl) == DropDead(old(entries), now, ttl)
        decreases |entries|
      {
        entries := entries[1..];
      }
    }

    method Arm(hash: Bytes, origin: string, now: Time)
      requires Valid() && clock <= now
      modifies this
      ensures Valid() && clock == now
      ensures entries == ArmEntries(old(entries), capacity, ttl, Mark(hash, origin), now)
      ensures book == ArmBook(old(book), capacity, ttl, Mark(hash, origin), now)
    {
      ArmKeepsBook(book, capacity, ttl, Mark(hash, origin), now, clock);
      book := ArmBook(book, capacity, ttl, Mark(hash, origin), now);
      Expire(now);
      entries := entries + [Stamped(Mark(hash, origin), now)];
      clock := now;
      entries := Evict(entries, capacity);
    }

    method Take(hash: Bytes, now: Time) returns (origin: Option<string>)
      requires Valid() && clock <= now
      modifies this
      ensures Valid() && clock == now
      ensures (entries, origin) == TakeEntries(old(entries), ttl, hash, now)
      ensures book == TakeBook(old(book), ttl, hash, now)
    {
      TakeKeepsBook(book, ttl, hash, now, clock);
      book := TakeBook(book, ttl, hash, now);
      Expire(now);
      clock := now;
      var k := FirstMatch(entries, hash);
      if k.None? {
        return None;
      }
      origin := Some(entries[k.value].item.origin);
      entries := Without(entries, k.value);
    }
  }

  // ---- Accounting over whole runs ----

  datatype Use = UseArm(mark: Mark, now: Time) | UseTake(hash: Bytes, now: Time)

  ghost function Perform(b: Book, capacity: nat, ttl: Time, u: Use): Book {
    match u
    case UseArm(mark, now) => ArmBook(b, capacity, ttl, mark, now)
    case UseTake(hash, now) => TakeBook(b, ttl, hash, now)
  }

  ghost predicate Hit(b: Book, ttl: Time, u: Use) {
    u.UseTake? && TakeEntries(b.entries, ttl, u.hash, u.now).1.Some?
  }

  lemma PerformKeepsBook(b: Book, capacity: nat, ttl: Time, u: Use, clock: Time)
    requires BookOk(b, ttl, clock) && clock <= u.now
    ensures var t := Perform(b, capacity, ttl, u);
            && BookOk(t, ttl, u.now)
            && |t.arms| == |b.arms| + (if u.UseArm? then 1 else 0)
            && Count(t.fate, IS_TAKEN) == Count(b.fate, IS_TAKEN) + (if Hit(b, ttl, u) then 1 else 0)
  {
    match u
    case UseArm(mark, now) => ArmKeepsBook(b, capacity, ttl, mark, now, clock);
    case UseTake(hash, now) => TakeKeepsBook(b, ttl, hash, now, clock);
  }

  lemma PerformKeepsEndings(b: Book, capacity: nat, ttl: Time, u: Use, clock: Time, i: nat)
    requires BookOk(b, ttl, clock) && clock <= u.now && i < |b.fate| && !b.fate[i].Waiting?
    ensures i < |Perform(b, capacity, ttl, u).fate| && Perform(b, capacity, ttl, u).fate[i] == b.fate[i]
  {
    ClockAdvances(b, ttl, clock, u.now);
    ExpireKeepsEndings(b, u.now, ttl, u.now, i);
    ExpireKeepsBook(b, u.now, ttl, u.now);
    var x := ExpireBook(b, u.now, ttl);
    if u.UseArm? {
      PushKeepsBook(x, Stamped(u.mark, u.now), ttl, u.now);
      EvictKeepsEndings(Push(x, Stamped(u.mark, u.now)), capacity, ttl, u.now, i);
    }
  }

  ghost function Play(capacity: nat, ttl: Time, run: seq<Use>): Book {
    if run == [] then Book([], [], [], [])
    else Perform(Play(capacity, ttl, run[..|run| - 1]), capacity, ttl, run[|run| - 1])
  }

  /** How many takes in the run found something to consume. */
  ghost function Hits(capacity: nat, ttl: Time, run: seq<Use>): nat {
    if run == [] then 0
    else
      var before := run[..|run| - 1];
      Hits(capacity, ttl, before) + (if Hit(Play(capacity, ttl, before), ttl, run[|run| - 1]) then 1 else 0)
  }

  const IS_ARM: Use -> bool := (u: Use) => u.UseArm?

  ghost predicate InOrder(run: seq<Use>) {
    forall i, j :: 0 <= i < j < |run| ==> run[i].now <= run[j].now
  }

  ghost function LastTime(run: seq<Use>): Time {
    if run == [] then 0 else run[|run| - 1].now
  }

  lemma InOrderPrefix(run: seq<Use>)
    requires run != [] && InOrder(run)
    ensures InOrder(run[..|run| - 1]) && LastTime(run[..|run| - 1]) <= run[|run| - 1].now
  {
  }

  lemma ArmsCounted(run: seq<Use>)
    requires run != []
    ensures Count(run, IS_ARM) == Count(run[..|run| - 1], IS_ARM) + (if run[|run| - 1].UseArm? then 1 else 0)
  {
    assert run == run[..|run| - 1] + [run[|run| - 1]];
    FilterSnoc(run[..|run| - 1], run[|run| - 1], IS_ARM);
  }

  lemma {:induction false} PlayKeepsBook(capacity: nat, ttl: Time, run: seq<Use>)
    requires InOrder(run)
    ensures BookOk(Play(capacity, ttl, run), ttl, LastTime(run))
    ensures |Play(capacity, ttl, run).arms| == Count(run, IS_ARM)
    ensures Count(Play(capacity, ttl, run).fate, IS_TAKEN) == Hits(capacity, ttl, run)
  {
    if run != [] {
      var before, last := run[..|run| - 1], run[|run| - 1];
      InOrderPrefix(run);
      PlayKeepsBook(capacity, ttl, before);
      ArmsCounted(run);
      PerformKeepsBook(Play(capacity, ttl, before), capacity, ttl, last, LastTime(before));
    }
  }

  lemma {:induction false} FatesPartition(fate: seq<Fate>)
    ensures |fate| == Count(fate, IS_TAKEN) + Count(fate, IS_EXPIRED) + Count(fate, IS_EVICTED)
            + Count(fate, IS_WAITING)
  {
    if fate != [] {
      FatesPartition(fate[1..]);
    }
  }

  /** In any run, with no assumption on how long anything took: every entry armed has been taken, has
      expired, was evicted, or is still queued; takes that succeed and entries that were taken are
      equal in number; and each taken entry was armed earlier, for the same hash, less than the time
      to live before. */
  lemma SuppressionAccounting(capacity: nat, ttl: Time, run: seq<Use>)
    requires InOrder(run)
    ensures var b := Play(capacity, ttl, run);
            && Count(run, IS_ARM) == Hits(capacity, ttl, run) + Count(b.fate, IS_EXPIRED) + Count(b.fate, IS_EVICTED)
                 + |b.entries|
            && |b.fate| == |b.arms|
            && (forall i :: 0 <= i < |b.arms| && b.fate[i].Taken? ==>
                  && b.arms[i].item.hash == b.fate[i].hash
                  && b.arms[i].at <= b.fate[i].when && Alive(b.arms[i], b.fate[i].when, ttl))
  {
    PlayKeepsBook(capacity, ttl, run);
    var b := Play(capacity, ttl, run);
    FatesPartition(b.fate);
    forall i | 0 <= i < |b.arms| && b.fate[i].Taken?
      ensures b.arms[i].item.hash == b.fate[i].hash && b.arms[i].at <= b.fate[i].when
              && Alive(b.arms[i], b.fate[i].when, ttl)
    {
      assert FateOk(b.arms[i], b.fate[i], ttl);
    }
  }

  /** An ending is final: nothing that happens later gives an armed entry a different one, so no two
      takes consume the same entry. */
  lemma {:induction false} EndingsAreFinal(capacity: nat, ttl: Time, run: seq<Use>, n: nat, i: nat)
    requires InOrder(run) && n <= |run|
    requires i < |Play(capacity, ttl, run[..n]).fate| && !Play(capacity, ttl, run[..n]).fate[i].Waiting?
    ensures i < |Play(capacity, ttl, run).fate|
            && Play(capacity, ttl, run).fate[i] == Play(capacity, ttl, run[..n]).fate[i]
    decreases |run|
  {
    if n == |run| {
      assert run[..n] == run;
    } else {
      var before, last := run[..|run| - 1], run[|run| - 1];
      assert before[..n] == run[..n];
      EndingsAreFinal(capacity, ttl, before, n, i);
      PlayKeepsBook(capacity, ttl, before);
      PerformKeepsEndings(Play(capacity, ttl, before), capacity, ttl, last, LastTime(before), i);
    }
  }

  lemma {:induction false} ExpireKeepsEndings(b: Book, now: Time, ttl: Time, clock: Time, i: nat)
    requires BookOk(b, ttl, clock) && i < |b.fate| && !b.fate[i].Waiting?
    ensures i < |ExpireBook(b, now, ttl).fate| && ExpireBook(b, now, ttl).fate[i] == b.fate[i]
    decreases |b.entries|
  {
    if b.entries != [] && !Alive(b.entries[0], now, ttl) {
      RemoveAtKeepsBook(b, 0, Expired(now), ttl, clock);
      ExpireKeepsEndings(RemoveAt(b, 0, Expired(now)), now, ttl, clock, i);
    }
  }

  lemma {:induction false} EvictKeepsEndings(b: Book, capacity: nat, ttl: Time, clock: Time, i: nat)
    requires BookOk(b, ttl, clock) && i < |b.fate| && !b.fate[i].Waiting?
    ensures i < |EvictBook(b, capacity).fate| && EvictBook(b, capacity).fate[i] == b.fate[i]
    decreases |b.entries|
  {
    if |b.entries| > capacity {
      RemoveAtKeepsBook(b, 0, Evicted, ttl, clock);
      EvictKeepsEndings(RemoveAt(b, 0, Evicted), capacity, ttl, clock, i);
    }
  }

  // ---- A failed apply: arm, then take back ----

  ghost function OfHash(entries: seq<Stamped<Mark>>, hash: Bytes): nat {
    Count(entries, (e: Stamped<Mark>) => e.item.hash == hash)
  }

  lemma OfHashWithout(s: seq<Stamped<Mark>>, k: nat, hash: Bytes)
    requires k < |s|
    ensures OfHash(Without(s, k), hash) == OfHash(s, hash) - (if s[k].item.hash == hash then 1 else 0)
  {
    var p := (e: Stamped<Mark>) => e.item.hash == hash;
    assert s == s[..k] + ([s[k]] + s[k + 1..]) && Without(s, k) == s[..k] + s[k + 1..];
    FilterConcat(s[..k], [s[k]] + s[k + 1..], p);
    FilterConcat(s[..k], s[k + 1..], p);
    assert ([s[k]] + s[k + 1..])[1..] == s[k + 1..];
  }

  lemma OfHashSnoc(s: seq<Stamped<Mark>>, e: Stamped<Mark>, hash: Bytes)
    ensures OfHash(s + [e], hash) == OfHash(s, hash) + (if e.item.hash == hash then 1 else 0)
  {
    FilterSnoc(s, e, (x: Stamped<Mark>) => x.item.hash == hash);
  }

  lemma {:induction false} LiveTwice<T>(s: seq<Stamped<T>>, t1: Time, t2: Time, ttl: Time)
    requires t1 <= t2
    ensures Live(Live(s, t1, ttl), t2, ttl) == Live(s, t2, ttl)
  {
    if s != [] {
      LiveTwice(s[1..], t1, t2, ttl);
      var p2 := (e: Stamped<T>) => Alive(e, t2, ttl);
      FilterConcat(if Alive(s[0], t1, ttl) then [s[0]] else [], Live(s[1..], t1, ttl), p2);
    }
  }

  /** The queue a failed write leaves: armed at `t1`, taken back at `t2`. */
  ghost function AfterFailure(entries: seq<Stamped<Mark>>, capacity: nat, ttl: Time, mark: Mark, t1: Time, t2: Time)
    : seq<Stamped<Mark>>
  {
    TakeEntries(ArmEntries(entries, capacity, ttl, mark, t1), ttl, mark.hash, t2).0
  }

  /** Every hash has exactly as many live entries as it would have had without the attempt. */
  ghost predicate Neutral(entries: seq<Stamped<Mark>>, capacity: nat, ttl: Time, mark: Mark, t1: Time, t2: Time) {
    forall hash :: OfHash(AfterFailure(entries, capacity, ttl, mark, t1, t2), hash)
      == OfHash(Live(entries, t2, ttl), hash)
  }

  /** Taking back the entry armed last, however long the write took, among entries armed no later. */
  lemma TakenBack(kept: seq<Stamped<Mark>>, ttl: Time, mark: Mark, t1: Time, t2: Time, hash: Bytes)
    requires t1 <= t2 && forall e :: e in kept ==> e.at <= t1
    ensures OfHash(TakeEntries(kept + [Stamped(mark, t1)], ttl, mark.hash, t2).0, hash)
            == OfHash(Live(kept, t2, ttl), hash)
  {
    var e := Stamped(mark, t1);
    var alive := (x: Stamped<Mark>) => Alive(x, t2, ttl);
    FilterSnoc(kept, e, alive);
    var live := Live(kept + [e], t2, ttl);
    if Alive(e, t2, ttl) {
      assert live == Live(kept, t2, ttl) + [e];
      assert live[|live| - 1].item.hash == mark.hash;
      OfHashWithout(live, FirstMatch(live, mark.hash).value, hash);
      OfHashSnoc(Live(kept, t2, ttl), e, hash);
    } else {
      FilterNone(kept, alive);
      assert live == [];
    }
  }

  lemma {:induction false} LiveAreOld<T>(s: seq<Stamped<T>>, now: Time, ttl: Time, t: Time)
    requires forall e :: e in s ==> e.at <= t
    ensures forall e :: e in Live(s, now, ttl) ==> e.at <= t
  {
    if s != [] { LiveAreOld(s[1..], now, ttl, t); }
  }

  /** Below capacity a write that fails is neutral, however long it took to fail. */
  lemma FailedApplyIsNeutral(entries: seq<Stamped<Mark>>, capacity: nat, ttl: Time, mark: Mark, t1: Time, t2: Time)
    requires t1 <= t2 && forall e :: e in entries ==> e.at <= t1
    requires |Live(entries, t1, ttl)| < capacity
    ensures Neutral(entries, capacity, ttl, mark, t1, t2)
  {
    LiveAreOld(entries, t1, ttl, t1);
    LiveTwice(entries, t1, t2, ttl);
    forall hash ensures OfHash(AfterFailure(entries, capacity, ttl, mark, t1, t2), hash)
      == OfHash(Live(entries, t2, ttl), hash) {
      TakenBack(Live(entries, t1, ttl), ttl, mark, t1, t2, hash);
    }
  }

  /** A failed write is neutral exactly when there was room when it began, or the entry it pushed out had
      expired by the time it failed: otherwise it costs the oldest live entry, whose echo will be sent. */
  lemma FailedApplyNeedsRoom(entries: seq<Stamped<Mark>>, capacity: nat, ttl: Time, mark: Mark, t1: Time, t2: Time)
    requires t1 <= t2 && |entries| <= capacity && forall e :: e in entries ==> e.at <= t1
    ensures var live := Live(entries, t1, ttl);
            Neutral(entries, capacity, ttl, mark, t1, t2)
            <==> live == [] || |live| < capacity || !Alive(live[0], t2, ttl)
  {
    var live := Live(entries, t1, ttl);
    FilterFull(entries, (x: Stamped<Mark>) => Alive(x, t1, ttl));
    if live == [] && capacity == 0 {
      assert ArmEntries(entries, capacity, ttl, mark, t1) == [];
      LiveTwice(entries, t1, t2, ttl);
    } else if |live| < capacity {
      FailedApplyIsNeutral(entries, capacity, ttl, mark, t1, t2);
    } else {
      FullQueue(entries, capacity, ttl, mark, t1, t2);
    }
  }

  /** On a full queue the count of every hash but the evicted one's is kept, and that one's only if the
      evicted entry would have been dead anyway. */
  lemma FullQueue(entries: seq<Stamped<Mark>>, capacity: nat, ttl: Time, mark: Mark, t1: Time, t2: Time)
    requires t1 <= t2 && forall e :: e in entries ==> e.at <= t1
    requires 0 < capacity && |Live(entries, t1, ttl)| == capacity
    ensures Neutral(entries, capacity, ttl, mark, t1, t2) <==> !Alive(Live(entries, t1, ttl)[0], t2, ttl)
  {
    var live := Live(entries, t1, ttl);
    assert ArmEntries(entries, capacity, ttl, mark, t1) == live[1..] + [Stamped(mark, t1)];
    LiveAreOld(entries, t1, ttl, t1);
    LiveTwice(entries, t1, t2, ttl);
    var head := if Alive(live[0], t2, ttl) then [live[0]] else [];
    assert Live(live, t2, ttl) == head + Live(live[1..], t2, ttl);
    forall hash
      ensures OfHash(AfterFailure(entries, capacity, ttl, mark, t1, t2), hash) == OfHash(Live(live[1..], t2, ttl), hash)
      ensures OfHash(Live(entries, t2, ttl), hash) == OfHash(head, hash) + OfHash(Live(live[1..], t2, ttl), hash)
    {
      TakenBack(live[1..], ttl, mark, t1, t2, hash);
      FilterConcat(head, Live(live[1..], t2, ttl), (e: Stamped<Mark>) => e.item.hash == hash);
    }
    OfHashSnoc([], live[0], live[0].item.hash);
    assert [] + [live[0]] == [live[0]];
  }
}
